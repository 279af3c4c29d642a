/** Printing a well-formed list of actions and parsing the text gives the list back. */
module PatchRoundTrip {
  import opened Options
  import opened Text
  import opened PatchSyntax

  /** A path that a header line can carry. */
  predicate GoodPath(path: string) {
    path != "" && IsLine(path) && !IsSpace(path[|path| - 1])
  }

  /** A line that survives being followed by a newline: no LF in it, no CR at its end. */
  predicate GoodLine(l: string) {
    IsLine(l) && !EndsWith(l, '\r')
  }

  /** A hunk line that is not taken for the end-of-file marker. */
  predicate ReadableLine(l: HunkLine) {
    l.kind.Context? ==> Trim(" " + l.text) != END_OF_FILE
  }

  predicate GoodHunkLine(l: HunkLine) {
    GoodLine(l.text) && ReadableLine(l)
  }

  predicate ReadableHunk(h: Hunk) {
    && h.lines != []
    && (forall i | 0 <= i < |h.lines| :: ReadableLine(h.lines[i]))
    && match h.changeContext
       case None => true
       case Some(c) => c != "" && Trimmed(c)
  }

  predicate ReadableHunks(hs: seq<Hunk>) {
    forall i | 0 <= i < |hs| :: ReadableHunk(hs[i])
  }

  predicate GoodHunk(h: Hunk) {
    && h.lines != []
    && (forall i | 0 <= i < |h.lines| :: GoodHunkLine(h.lines[i]))
    && match h.changeContext
       case None => true
       case Some(c) => c != "" && Trimmed(c) && IsLine(c)
  }

  predicate GoodHunks(hs: seq<Hunk>) {
    forall i | 0 <= i < |hs| :: GoodHunk(hs[i])
  }

  predicate GoodContent(content: string) {
    var ls := Split(Strip(content));
    forall i | 0 <= i < |ls| :: GoodLine(ls[i])
  }

  predicate GoodAction(a: Action) {
    && GoodPath(a.path)
    && match a
       case AddFile(_, content) => GoodContent(content)
       case DeleteFile(_) => true
       case UpdateFile(_, moveTo, hunks) =>
         && (moveTo.Some? ==> GoodPath(moveTo.value))
         && GoodHunks(hunks)
         && (hunks != [] || moveTo.Some?)
  }

  /** No action is empty: hunks have lines, and an update has hunks or a destination. */
  predicate Substantial(a: Action) {
    a.UpdateFile? ==>
      && (forall i | 0 <= i < |a.hunks| :: a.hunks[i].lines != [])
      && (a.hunks != [] || (a.moveTo.Some? && a.moveTo.value != ""))
  }

  predicate GoodActions(actions: seq<Action>) {
    forall i | 0 <= i < |actions| :: GoodAction(actions[i])
  }

  // ------------------------------------- what a scanned line must be, and where

  predicate PlusLine(s: ScannedLine, text: string) {
    s.header == NoHeader && !s.isNoNewline && s.Leads('+') && s.text[1..] == text
  }

  predicate HunkLineIs(s: ScannedLine, l: HunkLine) {
    && s.Leads(KindChar(l.kind)) && s.text[1..] == l.text && !s.isEndOfFile
    && (!l.kind.Context? ==> s.header == NoHeader && s.hunkContext.None?)
  }

  predicate HunkHeaderIs(s: ScannedLine, h: Hunk) {
    && s.header == NoHeader && s.moveTo.None? && !s.isEndOfFile && s.trimmed != "" && !s.Leads(' ')
    && s.hunkContext.Some? && OpenHunk(s.hunkContext.value) == Hunk([], h.changeContext, false)
  }

  predicate HunkIs(ss: seq<ScannedLine>, h: Hunk) {
    && |ss| == 1 + |h.lines| + (if h.endOfFile then 1 else 0)
    && HunkHeaderIs(ss[0], h)
    && (forall i | 0 <= i < |h.lines| :: HunkLineIs(ss[1 + i], h.lines[i]))
    && (h.endOfFile ==> ss[|ss| - 1].isEndOfFile)
  }

  predicate HunksAre(ss: seq<ScannedLine>, hs: seq<Hunk>) {
    if hs == [] then ss == []
    else exists n | 0 <= n <= |ss| :: HunkIs(ss[..n], hs[0]) && HunksAre(ss[n..], hs[1..])
  }

  predicate AddLinesAre(ss: seq<ScannedLine>, ls: seq<string>, finalNewline: bool) {
    && |ss| == |ls| + (if finalNewline then 0 else 1)
    && (forall i | 0 <= i < |ls| :: PlusLine(ss[i], ls[i]))
    && (!finalNewline ==> ss[|ls|].header == NoHeader && ss[|ls|].isNoNewline)
  }

  /** The lines of a content, none when it is empty. */
  function ContentLines(content: string): seq<string> {
    if content == "" then [] else Split(Strip(content))
  }

  predicate UpdateLinesAre(ss: seq<ScannedLine>, moveTo: Option<string>, hs: seq<Hunk>) {
    match moveTo
    case None => HunksAre(ss, hs)
    case Some(p) => ss != [] && ss[0].moveTo == moveTo && HunksAre(ss[1..], hs)
  }

  /** A header line, which ends whatever came before it. */
  predicate IsHeaderLine(s: ScannedLine) {
    s.header != NoHeader && s.trimmed != "" && s.moveTo.None? && !s.isEndOfFile && !s.Leads(' ')
  }

  predicate ActionIs(ss: seq<ScannedLine>, a: Action) {
    && ss != [] && IsHeaderLine(ss[0])
    && match a
       case AddFile(path, content) => ss[0].header == AddHeader(path) && AddLinesAre(ss[1..], ContentLines(content), EndsWith(content, '\n'))
       case DeleteFile(path) => ss[0].header == DeleteHeader(path) && |ss| == 1
       case UpdateFile(path, moveTo, hs) => ss[0].header == UpdateHeader(path) && UpdateLinesAre(ss[1..], moveTo, hs)
  }

  predicate ActionsAre(chunks: seq<seq<ScannedLine>>, actions: seq<Action>) {
    |chunks| == |actions| && forall i | 0 <= i < |actions| :: ActionIs(chunks[i], actions[i])
  }

  function Flatten<T>(chunks: seq<seq<T>>): seq<T> {
    if chunks == [] then [] else chunks[0] + Flatten(chunks[1..])
  }

  predicate Boundary(tail: seq<ScannedLine>) {
    tail == [] || IsHeaderLine(tail[0])
  }

  // ------------------------------------------------------- parsing such lines

  lemma {:induction false} ParsePlusLines(ss: seq<ScannedLine>, ls: seq<string>, tail: seq<ScannedLine>)
    requires |ss| == |ls| && forall i | 0 <= i < |ls| :: PlusLine(ss[i], ls[i])
    requires ParseAddBody(tail).Ok?
    ensures ParseAddBody(ss + tail) ==
            Ok(ParseAddBody(tail).value.(content := ls + ParseAddBody(tail).value.content))
  {
    var doc := ss + tail;
    var more := ParseAddBody(tail).value.content;
    if ls == [] {
      assert doc == tail && ls + more == more;
    } else {
      assert doc[0] == ss[0] && PlusLine(ss[0], ls[0]) && doc[1..] == ss[1..] + tail;
      ParsePlusLines(ss[1..], ls[1..], tail);
      assert [ls[0]] + (ls[1..] + more) == ls + more;
    }
  }

  /** The lines of a content and whether it has a final newline determine it. */
  lemma AddContentBack(content: string)
    ensures AddContent(ContentLines(content), EndsWith(content, '\n')) == content
  {
    JoinSplit(Strip(content));
  }

  lemma ParseAddLines(ss: seq<ScannedLine>, path: string, ls: seq<string>, finalNewline: bool, tail: seq<ScannedLine>)
    requires AddLinesAre(ss, ls, finalNewline) && (ls != [] || !finalNewline) && Boundary(tail)
    ensures ParseAdd(path, ss + tail) == Ok(Parsed(Some(AddFile(path, AddContent(ls, finalNewline))), tail))
  {
    var marker := ss[|ls|..];
    assert ss + tail == ss[..|ls|] + (marker + tail);
    if finalNewline {
      assert marker + tail == tail;
    } else {
      assert (marker + tail)[0] == ss[|ls|] && (marker + tail)[1..] == tail;
    }
    assert ParseAddBody(marker + tail) == Ok(AddBody([], finalNewline, tail));
    ParsePlusLines(ss[..|ls|], ls, marker + tail);
    assert ls + [] == ls;
  }

  lemma {:induction false} ParseHunkLines(ss: seq<ScannedLine>, ls: seq<HunkLine>, tail: seq<ScannedLine>,
                                          hunks: seq<Hunk>, h: Hunk, path: string)
    requires |ss| == |ls| && forall i | 0 <= i < |ls| :: HunkLineIs(ss[i], ls[i])
    ensures ParseUpdateBody(ss + tail, hunks, Some(h), path) ==
            ParseUpdateBody(tail, hunks, Some(h.(lines := h.lines + ls)), path)
  {
    var doc := ss + tail;
    if ls == [] {
      assert doc == tail && h.lines + ls == h.lines;
    } else {
      assert doc[0] == ss[0] && HunkLineIs(ss[0], ls[0]) && doc[1..] == ss[1..] + tail;
      ParseHunkLines(ss[1..], ls[1..], tail, hunks, h.(lines := h.lines + [ls[0]]), path);
      assert (h.lines + [ls[0]]) + ls[1..] == h.lines + ls;
    }
  }

  lemma {:induction false} ParseHunk(ss: seq<ScannedLine>, h: Hunk, tail: seq<ScannedLine>, hunks: seq<Hunk>, current: Option<Hunk>, path: string)
    requires HunkIs(ss, h) && (current.Some? ==> current.value.lines != [])
    ensures ParseUpdateBody(ss + tail, hunks, current, path) ==
            ParseUpdateBody(tail, FlushHunk(hunks, current, path).value, Some(h), path)
  {
    var n := |h.lines|;
    var rest := ss[1 + n..] + tail;
    var done := FlushHunk(hunks, current, path).value;
    var blank := Hunk([], h.changeContext, false);
    assert (ss + tail)[0] == ss[0] && (ss + tail)[1..] == ss[1..1 + n] + rest;
    ParseHunkLines(ss[1..1 + n], h.lines, rest, done, blank, path);
    assert blank.(lines := [] + h.lines) == h.(endOfFile := false);
    if h.endOfFile {
      assert rest[0] == ss[1 + n] && rest[1..] == tail;
    } else {
      assert rest == tail;
    }
  }

  lemma {:induction false} ParseFirstHunk(ss: seq<ScannedLine>, n: nat, h: Hunk, tail: seq<ScannedLine>,
                       hunks: seq<Hunk>, current: Option<Hunk>, path: string)
    requires n <= |ss| && HunkIs(ss[..n], h) && (current.Some? ==> current.value.lines != [])
    ensures ParseUpdateBody(ss + tail, hunks, current, path) ==
            ParseUpdateBody(ss[n..] + tail, FlushHunk(hunks, current, path).value, Some(h), path)
  {
    CutAt(ss, n, tail);
    ParseHunk(ss[..n], h, ss[n..] + tail, hunks, current, path);
  }

  lemma {:induction false} ParseHunks(ss: seq<ScannedLine>, hs: seq<Hunk>, tail: seq<ScannedLine>,
                                      hunks: seq<Hunk>, current: Option<Hunk>, path: string)
    requires HunksAre(ss, hs) && Boundary(tail)
    requires forall i | 0 <= i < |hs| :: hs[i].lines != []
    requires current.Some? ==> current.value.lines != []
    ensures ParseUpdateBody(ss + tail, hunks, current, path) ==
            Ok(UpdateBody(FlushHunk(hunks, current, path).value + hs, tail))
  {
    var done := FlushHunk(hunks, current, path).value;
    if hs == [] {
      assert ss + tail == tail && done + hs == done;
    } else {
      var n :| 0 <= n <= |ss| && HunkIs(ss[..n], hs[0]) && HunksAre(ss[n..], hs[1..]);
      ParseFirstHunk(ss, n, hs[0], tail, hunks, current, path);
      ParseHunks(ss[n..], hs[1..], tail, done, Some(hs[0]), path);
      MoveFirst(done, hs);
    }
  }

  lemma {:induction false} NoMoveBeforeHunks(ss: seq<ScannedLine>, hs: seq<Hunk>, tail: seq<ScannedLine>)
    requires HunksAre(ss, hs) && Boundary(tail)
    ensures MoveDestination(ss + tail) == None
  {
    if hs == [] {
      assert ss + tail == tail;
    } else {
      var n :| 0 <= n <= |ss| && HunkIs(ss[..n], hs[0]) && HunksAre(ss[n..], hs[1..]);
      assert (ss + tail)[0] == ss[..n][0];
    }
  }

  lemma ParseUpdateLines(ss: seq<ScannedLine>, path: string, moveTo: Option<string>, hs: seq<Hunk>, tail: seq<ScannedLine>)
    requires UpdateLinesAre(ss, moveTo, hs) && Substantial(UpdateFile(path, moveTo, hs)) && Boundary(tail)
    ensures ParseUpdate(path, ss + tail) == Ok(Parsed(Some(UpdateFile(path, moveTo, hs)), tail))
  {
    var body := if moveTo.Some? then ss[1..] else ss;
    if moveTo.Some? {
      assert (ss + tail)[0] == ss[0] && (ss + tail)[1..] == body + tail;
    } else {
      NoMoveBeforeHunks(ss, hs, tail);
    }
    ParseHunks(body, hs, tail, [], None, path);
    assert [] + hs == hs;
  }

  lemma ParseActionLines(ss: seq<ScannedLine>, a: Action, tail: seq<ScannedLine>)
    requires ActionIs(ss, a) && Substantial(a) && Boundary(tail)
    ensures ParseAction(ss[0], ss[1..] + tail) == Ok(Parsed(Some(a), tail))
  {
    match a {
      case AddFile(path, content) =>
        AddContentBack(content);
        ParseAddLines(ss[1..], path, ContentLines(content), EndsWith(content, '\n'), tail);
      case DeleteFile(path) =>
        assert ss[1..] + tail == tail;
      case UpdateFile(path, moveTo, hs) =>
        ParseUpdateLines(ss[1..], path, moveTo, hs, tail);
    }
  }

  lemma {:induction false} ParseActionsStep(ls: seq<ScannedLine>, parsed: Parsed, before: seq<Action>)
    requires ls != [] && ls[0].trimmed != "" && ParseAction(ls[0], ls[1..]) == Ok(parsed) && parsed.action.Some?
    ensures ParseActions(ls, before) == ParseActions(parsed.rest, before + [parsed.action.value])
  {
  }

  lemma HeaderLeads(ss: seq<ScannedLine>, a: Action)
    requires ActionIs(ss, a)
    ensures ss != [] && ss[0].trimmed != "" && Boundary(ss)
  {
  }

  lemma {:induction false} ParseFirstAction(ss: seq<ScannedLine>, a: Action, tail: seq<ScannedLine>, before: seq<Action>)
    requires ActionIs(ss, a) && Substantial(a) && Boundary(tail)
    ensures ParseActions(ss + tail, before) == ParseActions(tail, before + [a])
  {
    HeaderLeads(ss, a);
    ParseActionLines(ss, a, tail);
    FirstOf(ss, tail);
    ParseActionsStep(ss + tail, Parsed(Some(a), tail), before);
  }

  lemma {:induction false} FlattenBoundary(chunks: seq<seq<ScannedLine>>, actions: seq<Action>)
    requires ActionsAre(chunks, actions)
    ensures Boundary(Flatten(chunks))
  {
    if chunks != [] {
      HeaderLeads(chunks[0], actions[0]);
      if Flatten(chunks[1..]) != [] {
        FirstOf(chunks[0], Flatten(chunks[1..]));
      } else {
        assert chunks[0] + [] == chunks[0];
      }
    }
  }

  lemma ActionsRest(chunks: seq<seq<ScannedLine>>, actions: seq<Action>)
    requires ActionsAre(chunks, actions) && actions != []
    ensures ActionIs(chunks[0], actions[0]) && ActionsAre(chunks[1..], actions[1..])
  {
    var laterChunks, later := chunks[1..], actions[1..];
    forall i | 0 <= i < |later| ensures ActionIs(laterChunks[i], later[i]) {
      assert laterChunks[i] == chunks[i + 1] && later[i] == actions[i + 1];
    }
  }

  lemma {:induction false} ParseActionsLines(chunks: seq<seq<ScannedLine>>, actions: seq<Action>, before: seq<Action>)
    requires ActionsAre(chunks, actions) && forall i | 0 <= i < |actions| :: Substantial(actions[i])
    ensures ParseActions(Flatten(chunks), before) == Ok(before + actions)
  {
    if actions == [] {
      assert before + actions == before;
    } else {
      ActionsRest(chunks, actions);
      FlattenBoundary(chunks[1..], actions[1..]);
      ParseFirstAction(chunks[0], actions[0], Flatten(chunks[1..]), before);
      ParseActionsLines(chunks[1..], actions[1..], before + [actions[0]]);
      MoveFirst(before, actions);
    }
  }

  // --------------------------------------------------- scanning printed lines

  lemma ScanAllAppend(a: seq<string>, b: seq<string>)
    ensures ScanAll(a + b) == ScanAll(a) + ScanAll(b)
  {
    var l, r := ScanAll(a + b), ScanAll(a) + ScanAll(b);
    assert |l| == |r|;
    forall i | 0 <= i < |l| ensures l[i] == r[i] {
      assert l[i] == Scan((a + b)[i]);
      if i < |a| {
        assert r[i] == Scan(a[i]) && (a + b)[i] == a[i];
      } else {
        assert r[i] == Scan(b[i - |a|]) && (a + b)[i] == b[i - |a|];
      }
    }
  }

  lemma {:induction false} TrimEndKeeps(l: string)
    requires l != "" && !IsSpace(l[0])
    ensures TrimEnd(l) != "" && TrimEnd(l)[0] == l[0]
  {
    if IsSpace(l[|l| - 1]) {
      TrimEndKeeps(l[..|l| - 1]);
    }
  }

  /** A line whose first character is visible and not a star is no header and no marker. */
  lemma ScanBody(l: string)
    requires l != "" && !IsSpace(l[0]) && l[0] != '*'
    ensures Scan(l).header == NoHeader && Scan(l).moveTo.None? && !Scan(l).isEndOfFile && Scan(l).trimmed != ""
    ensures l[0] != '@' ==> Scan(l).hunkContext.None?
    ensures l[0] != '\\' ==> !Scan(l).isNoNewline
  {
    assert TrimStart(l) == l;
    TrimEndKeeps(l);
    var t := Trim(l);
    assert t[0] == l[0];
    assert ADD[0] == '*' && DELETE[0] == '*' && UPDATE[0] == '*' && ENVIRONMENT[0] == '*' && MOVE[0] == '*';
    assert END_OF_FILE[0] == '*' && NO_NEWLINE[0] == '\\';
  }

  lemma ScanNoNewline()
    ensures Scan(NO_NEWLINE).header == NoHeader && Scan(NO_NEWLINE).isNoNewline
  {
    ScanBody(NO_NEWLINE);
  }

  /** A context line is never taken for anything else while a hunk is open. */
  lemma ScanContext(text: string)
    requires Trim(" " + text) != END_OF_FILE
    ensures Scan(" " + text).Leads(' ') && !Scan(" " + text).isEndOfFile
  {
  }

  lemma ScanEndOfFile()
    ensures Scan(END_OF_FILE).isEndOfFile
  {
    TrimYieldsTrimmed(END_OF_FILE);
  }

  lemma ScanHunkHeader(h: Hunk)
    requires ReadableHunk(h)
    ensures var l := Scan(PrintHunk(h)[0]);
            && l.header == NoHeader && l.moveTo.None? && !l.isEndOfFile && l.trimmed != "" && !l.Leads(' ')
            && l.hunkContext.Some? && OpenHunk(l.hunkContext.value) == Hunk([], h.changeContext, false)
  {
    var line := PrintHunk(h)[0];
    assert line[0] == '@' && line[1] == '@';
    ScanBody(line);
    TrimYieldsTrimmed(line);
    match h.changeContext {
      case None =>
        assert Trim(line)[2..] == "" && Trim("") == "";
      case Some(c) =>
        assert line == "@@ " + c;
        assert Trim(line)[2..] == " " + c;
        assert (" " + c)[1..] == c;
        TrimYieldsTrimmed(c);
        assert TrimStart(" " + c) == TrimStart(c) == c;
    }
  }

  /** A header line begins with a star, which no other marker continues. */
  predicate IsHeaderMarker(marker: string) {
    marker == ADD || marker == DELETE || marker == UPDATE || marker == MOVE
  }

  lemma HeaderTrim(marker: string, path: string)
    requires IsHeaderMarker(marker) && GoodPath(path)
    ensures Trim(marker + path) == marker + path
    ensures marker <= marker + path && (marker + path)[|marker|..] == path
  {
    TrimYieldsTrimmed(marker + path);
  }

  lemma MarkersDiffer(marker: string, path: string)
    requires IsHeaderMarker(marker)
    ensures var l := marker + path;
            && |l| >= 13 && l[0] == '*' && l[4] == marker[4]
            && (marker == ADD <==> l[4] == 'A') && (marker == DELETE <==> l[4] == 'D')
            && (marker == UPDATE <==> l[4] == 'U') && (marker == MOVE <==> l[4] == 'M')
            && !StartsWith(l, ENVIRONMENT) && !StartsWith(l, "@@") && l != END_OF_FILE
            && (StartsWith(l, ADD) ==> marker == ADD) && (StartsWith(l, DELETE) ==> marker == DELETE)
            && (StartsWith(l, UPDATE) ==> marker == UPDATE) && (StartsWith(l, MOVE) ==> marker == MOVE)
  {
    assert ENVIRONMENT[4] == 'E' && END_OF_FILE[4] == 'E' && "@@"[0] == '@';
    assert ADD[4] == 'A' && DELETE[4] == 'D' && UPDATE[4] == 'U' && MOVE[4] == 'M';
  }

  lemma ScanMove(path: string)
    requires GoodPath(path)
    ensures Scan(MOVE + path).moveTo == Some(path)
  {
    HeaderTrim(MOVE, path);
  }

  // ------------------------------------------------ printed lines are such lines

  lemma HunkLinePrinted(l: HunkLine)
    requires ReadableLine(l)
    ensures HunkLineIs(Scan([KindChar(l.kind)] + l.text), l)
  {
    var line := [KindChar(l.kind)] + l.text;
    assert line[1..] == l.text;
    if l.kind.Context? {
      assert line == " " + l.text;
      ScanContext(l.text);
    } else {
      ScanBody(line);
    }
  }

  lemma HunkPrinted(h: Hunk)
    requires ReadableHunk(h)
    ensures HunkIs(ScanAll(PrintHunk(h)), h)
  {
    var ls, ss := PrintHunk(h), ScanAll(PrintHunk(h));
    assert HunkHeaderIs(ss[0], h) by {
      ScanHunkHeader(h);
    }
    forall i | 0 <= i < |h.lines| ensures HunkLineIs(ss[1 + i], h.lines[i]) {
      assert ls[1 + i] == [KindChar(h.lines[i].kind)] + h.lines[i].text;
      HunkLinePrinted(h.lines[i]);
    }
    if h.endOfFile {
      assert ls[|ls| - 1] == END_OF_FILE;
      ScanEndOfFile();
    }
  }

  lemma {:induction false} HunksPrinted(hs: seq<Hunk>)
    requires ReadableHunks(hs)
    ensures HunksAre(ScanAll(PrintHunks(hs)), hs)
  {
    if hs != [] {
      var a, b := PrintHunk(hs[0]), PrintHunks(hs[1..]);
      var ss := ScanAll(a + b);
      ScanAllAppend(a, b);
      assert ss[..|a|] == ScanAll(a) && ss[|a|..] == ScanAll(b);
      HunkPrinted(hs[0]);
      HunksPrinted(hs[1..]);
    }
  }

  lemma PlusLinePrinted(text: string)
    ensures PlusLine(Scan("+" + text), text)
  {
    var line := "+" + text;
    assert line[1..] == text;
    ScanBody(line);
  }

  lemma AddLinesPrinted(ls: seq<string>, finalNewline: bool)
    ensures AddLinesAre(ScanAll(Prefixed('+', ls) + (if finalNewline then [] else [NO_NEWLINE])), ls, finalNewline)
  {
    var lines := Prefixed('+', ls) + (if finalNewline then [] else [NO_NEWLINE]);
    var ss := ScanAll(lines);
    forall i | 0 <= i < |ls| ensures PlusLine(ss[i], ls[i]) {
      assert lines[i] == "+" + ls[i];
      PlusLinePrinted(ls[i]);
    }
    if !finalNewline {
      assert lines[|ls|] == NO_NEWLINE;
      ScanNoNewline();
    }
  }

  lemma {:induction false} UpdateLinesPrinted(moveTo: Option<string>, hs: seq<Hunk>)
    requires ReadableHunks(hs) && (moveTo.Some? ==> GoodPath(moveTo.value))
    ensures UpdateLinesAre(ScanAll(PrintMove(moveTo) + PrintHunks(hs)), moveTo, hs)
  {
    ScanAllAppend(PrintMove(moveTo), PrintHunks(hs));
    HunksPrinted(hs);
    var ss := ScanAll(PrintMove(moveTo) + PrintHunks(hs));
    if moveTo.Some? {
      ScanMove(moveTo.value);
      assert ss[1..] == ScanAll(PrintHunks(hs));
    } else {
      assert ss == ScanAll(PrintHunks(hs));
    }
  }

  lemma HeaderPrinted(a: Action)
    requires GoodPath(a.path)
    ensures PrintAction(a) != [] && IsHeaderLine(Scan(PrintAction(a)[0]))
    ensures Scan(PrintAction(a)[0]).header ==
            match a
            case AddFile(path, _) => AddHeader(path)
            case DeleteFile(path) => DeleteHeader(path)
            case UpdateFile(path, _, _) => UpdateHeader(path)
  {
    var marker := match a case AddFile(_, _) => ADD case DeleteFile(_) => DELETE case UpdateFile(_, _, _) => UPDATE;
    assert PrintAction(a)[0] == marker + a.path;
    HeaderTrim(marker, a.path);
    MarkersDiffer(marker, a.path);
  }

  lemma ScanAllRest(l: string, ls: seq<string>)
    ensures ScanAll([l] + ls)[0] == Scan(l) && ScanAll([l] + ls)[1..] == ScanAll(ls)
  {
    ScanAllAppend([l], ls);
  }

  lemma AddPrinted(path: string, content: string)
    requires GoodPath(path) && GoodContent(content)
    ensures ActionIs(ScanAll([ADD + path] + AddLines(content)), AddFile(path, content))
  {
    HeaderPrinted(AddFile(path, content));
    ScanAllRest(ADD + path, AddLines(content));
    AddLinesPrinted(ContentLines(content), EndsWith(content, '\n'));
    assert Prefixed('+', ContentLines(content)) == if content == "" then [] else Prefixed('+', Split(Strip(content)));
  }

  lemma {:induction false} UpdateBodyLines(path: string, moveTo: Option<string>, hs: seq<Hunk>)
    ensures PrintAction(UpdateFile(path, moveTo, hs)) == [UPDATE + path] + (PrintMove(moveTo) + PrintHunks(hs))
  {
    Associates([UPDATE + path], PrintMove(moveTo), PrintHunks(hs));
  }

  lemma Associates<T>(a: seq<T>, b: seq<T>, c: seq<T>)
    ensures a + b + c == a + (b + c)
  {
  }

  lemma UpdatePrinted(path: string, moveTo: Option<string>, hs: seq<Hunk>)
    requires GoodPath(path) && ReadableHunks(hs) && (moveTo.Some? ==> GoodPath(moveTo.value))
    ensures ActionIs(ScanAll(PrintAction(UpdateFile(path, moveTo, hs))), UpdateFile(path, moveTo, hs))
  {
    var body := PrintMove(moveTo) + PrintHunks(hs);
    UpdateBodyLines(path, moveTo, hs);
    HeaderPrinted(UpdateFile(path, moveTo, hs));
    ScanAllRest(UPDATE + path, body);
    UpdateLinesPrinted(moveTo, hs);
  }

  lemma DeletePrinted(path: string)
    requires GoodPath(path)
    ensures ActionIs(ScanAll([DELETE + path]), DeleteFile(path))
  {
    HeaderPrinted(DeleteFile(path));
  }

  lemma ActionPrinted(a: Action)
    requires GoodAction(a)
    ensures ActionIs(ScanAll(PrintAction(a)), a)
  {
    match a {
      case AddFile(path, content) =>
        AddPrinted(path, content);
      case DeleteFile(path) =>
        DeletePrinted(path);
      case UpdateFile(path, moveTo, hs) =>
        UpdatePrinted(path, moveTo, hs);
    }
  }

  function ScannedActions(actions: seq<Action>): (r: seq<seq<ScannedLine>>)
    ensures |r| == |actions| && forall i | 0 <= i < |actions| :: r[i] == ScanAll(PrintAction(actions[i]))
  {
    seq(|actions|, i requires 0 <= i < |actions| => ScanAll(PrintAction(actions[i])))
  }

  lemma {:induction false} ScanActions(actions: seq<Action>)
    ensures ScanAll(PrintActions(actions)) == Flatten(ScannedActions(actions))
  {
    if actions != [] {
      ScanAllAppend(PrintAction(actions[0]), PrintActions(actions[1..]));
      ScanActions(actions[1..]);
      assert ScannedActions(actions)[1..] == ScannedActions(actions[1..]);
    }
  }

  lemma {:induction false} ParsePrinted(actions: seq<Action>)
    requires GoodActions(actions)
    ensures ParseActions(ScanAll(PrintActions(actions)), []) == Ok(actions)
  {
    forall i | 0 <= i < |actions|
      ensures ActionIs(ScannedActions(actions)[i], actions[i]) && Substantial(actions[i])
    {
      ActionPrinted(actions[i]);
    }
    ScanActions(actions);
    ParseActionsLines(ScannedActions(actions), actions, []);
    assert [] + actions == actions;
  }

  // ------------------------------------------------------------ whole patches

  lemma {:induction false} JoinEnds(ls: seq<string>, last: string)
    requires last != ""
    ensures var j := Join(ls + [last]); j != "" && j[|j| - 1] == last[|last| - 1]
  {
    if ls != [] {
      JoinEnds(ls[1..], last);
      assert ls + [last] == [ls[0]] + (ls[1..] + [last]);
      JoinFirst(ls[0], ls[1..] + [last]);
    } else {
      assert ls + [last] == [last];
    }
  }

  lemma {:induction false} JoinStarts(first: string, ls: seq<string>)
    requires first != ""
    ensures var j := Join([first] + ls); j != "" && j[0] == first[0]
  {
    if ls != [] {
      JoinFirst(first, ls);
    } else {
      assert [first] + ls == [first];
    }
  }

  lemma {:induction false} NoHereDocument(patch: string, lines: seq<string>)
    requires Split(Trim(NormalizeEol(patch))) == lines && lines != [] && lines[0] == BEGIN
    ensures PatchLines(patch) == lines
  {
    TrimYieldsTrimmed(BEGIN);
    assert BEGIN[0] == '*';
  }

  lemma {:induction false} CleanDocument(body: seq<string>)
    requires AreLines(body)
    ensures AreLines([BEGIN] + DropCrs(body) + [END])
    ensures NormalizeEol(Join([BEGIN] + body + [END])) == Join([BEGIN] + DropCrs(body) + [END])
  {
    var doc := [BEGIN] + body + [END];
    var clean := [BEGIN] + DropCrs(body) + [END];
    assert IsLine(BEGIN) && IsLine(END);
    assert AreLines(doc);
    forall i | 0 <= i < |clean| ensures IsLine(clean[i]) {
      assert 0 < i < |clean| - 1 ==> clean[i] == DropCr(body[i - 1]) && IsLine(body[i - 1]);
    }
    assert DropCr(BEGIN) == BEGIN;
    NormalizeJoin(doc);
    assert DropCrs(doc[..|doc| - 1]) + [doc[|doc| - 1]] == clean;
  }

  lemma {:induction false} TrimDocument(body: seq<string>)
    ensures var j := Join([BEGIN] + body + [END]); Trim(j) == j
  {
    assert [BEGIN] + (body + [END]) == [BEGIN] + body + [END];
    JoinStarts(BEGIN, body + [END]);
    JoinEnds([BEGIN] + body, END);
    TrimYieldsTrimmed(Join([BEGIN] + body + [END]));
  }

  /** A text between the patch markers reaches the parser line by line, each line
      less one trailing CR. */
  lemma {:induction false} DocumentLines(body: seq<string>)
    requires AreLines(body)
    ensures PatchLines(Join([BEGIN] + body + [END])) == [BEGIN] + DropCrs(body) + [END]
  {
    var clean := [BEGIN] + DropCrs(body) + [END];
    CleanDocument(body);
    TrimDocument(DropCrs(body));
    SplitJoin(clean);
    NoHereDocument(Join([BEGIN] + body + [END]), clean);
  }

  lemma ParseDocument(body: seq<string>)
    ensures ParseLines([BEGIN] + body + [END]) ==
            match ParseActions(ScanAll(body), [])
            case Err(e) => Err(e)
            case Ok(actions) => if actions == [] then Err(NoActions) else Ok(actions)
  {
    var doc := [BEGIN] + body + [END];
    TrimYieldsTrimmed(BEGIN);
    TrimYieldsTrimmed(END);
    assert doc[0] == BEGIN && doc[|doc| - 1] == END && doc[1..|doc| - 1] == body;
  }

  predicate GoodLines(ls: seq<string>) {
    forall i | 0 <= i < |ls| :: GoodLine(ls[i])
  }

  lemma GoodLinesKept(ls: seq<string>)
    requires GoodLines(ls)
    ensures AreLines(ls) && DropCrs(ls) == ls
  {
  }

  lemma {:induction false} HunksPrintGood(hs: seq<Hunk>)
    requires GoodHunks(hs)
    ensures GoodLines(PrintHunks(hs))
  {
    if hs != [] {
      HunkPrintsGood(hs[0]);
      HunksPrintGood(hs[1..]);
    }
  }

  lemma HunkPrintsGood(h: Hunk)
    requires GoodHunk(h)
    ensures GoodLines(PrintHunk(h))
  {
    var ls := PrintHunk(h);
    assert IsLine("@@") && IsLine("@@ ") && GoodLine(END_OF_FILE);
    assert GoodLine(ls[0]);
    forall i: nat | 1 <= i < 1 + |h.lines| ensures GoodLine(ls[i]) {
      assert ls[i] == [KindChar(h.lines[i - 1].kind)] + h.lines[i - 1].text && GoodHunkLine(h.lines[i - 1]);
    }
  }

  lemma AddLinesGood(content: string)
    requires GoodContent(content)
    ensures GoodLines(AddLines(content))
  {
    var ls := Split(Strip(content));
    assert GoodLine(NO_NEWLINE);
    forall i | 0 <= i < |AddLines(content)| ensures GoodLine(AddLines(content)[i]) {
      assert content != "" && i < |ls| ==> AddLines(content)[i] == "+" + ls[i];
    }
  }

  lemma HeaderGood(marker: string, path: string)
    requires IsHeaderMarker(marker) && GoodPath(path)
    ensures GoodLine(marker + path)
  {
    assert IsLine(ADD) && IsLine(DELETE) && IsLine(UPDATE) && IsLine(MOVE);
  }

  lemma ActionPrintsGood(a: Action)
    requires GoodAction(a)
    ensures GoodLines(PrintAction(a))
  {
    match a {
      case AddFile(path, content) =>
        HeaderGood(ADD, path);
        AddLinesGood(content);
      case DeleteFile(path) =>
        HeaderGood(DELETE, path);
      case UpdateFile(path, moveTo, hs) =>
        HeaderGood(UPDATE, path);
        if moveTo.Some? {
          HeaderGood(MOVE, moveTo.value);
        }
        HunksPrintGood(hs);
    }
  }

  lemma {:induction false} ActionsPrintGood(actions: seq<Action>)
    requires GoodActions(actions)
    ensures GoodLines(PrintActions(actions))
  {
    if actions != [] {
      ActionPrintsGood(actions[0]);
      ActionsPrintGood(actions[1..]);
    }
  }

  /** Printing well-formed actions and parsing the text is the identity. */
  lemma PrintThenParse(actions: seq<Action>)
    requires actions != [] && GoodActions(actions)
    ensures Parse(Print(actions)) == Ok(actions)
  {
    var body := PrintActions(actions);
    ActionsPrintGood(actions);
    GoodLinesKept(body);
    DocumentLines(body);
    ParseDocument(body);
    ParsePrinted(actions);
  }
}
