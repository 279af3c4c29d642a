/** Counting CRs: neither normalising, nor parsing, nor printing makes any. */
module PatchCrs {
  import opened Options
  import opened Text
  import opened PatchSyntax
  import opened PatchRoundTrip

  /** How many CRs some lines have. */
  function LinesCrs(ls: seq<string>): nat {
    Crs(Unlines(ls))
  }

  lemma LinesCrsAppend(a: seq<string>, b: seq<string>)
    ensures LinesCrs(a + b) == LinesCrs(a) + LinesCrs(b)
  {
    UnlinesAppend(a, b);
    CrsAppend(Unlines(a), Unlines(b));
  }

  lemma {:induction false} LinesCrsOne(l: string)
    ensures LinesCrs([l]) == Crs(l)
  {
    LinesCrsFirst([l]);
    assert [l][1..] == [];
  }

  lemma LinesCrsFirst(ls: seq<string>)
    requires ls != []
    ensures LinesCrs(ls) == Crs(ls[0]) + LinesCrs(ls[1..])
  {
    CrsThree(ls[0], "\n", Unlines(ls[1..]));
  }

  // The words that mark a line have no CRs.

  lemma BeginMark()
    ensures Crs(BEGIN) == 0
  {
    NoCrs(BEGIN);
  }

  lemma EndMark()
    ensures Crs(END) == 0
  {
    NoCrs(END);
  }

  lemma AddMark()
    ensures Crs(ADD) == 0
  {
    NoCrs(ADD);
  }

  lemma DeleteMark()
    ensures Crs(DELETE) == 0
  {
    NoCrs(DELETE);
  }

  lemma UpdateMark()
    ensures Crs(UPDATE) == 0
  {
    NoCrs(UPDATE);
  }

  lemma MoveMark()
    ensures Crs(MOVE) == 0
  {
    NoCrs(MOVE);
  }

  lemma EndOfFileMark()
    ensures Crs(END_OF_FILE) == 0
  {
    NoCrs(END_OF_FILE);
  }

  lemma NoNewlineMark()
    ensures Crs(NO_NEWLINE) == 0
  {
    NoCrs(NO_NEWLINE);
  }

  lemma {:induction false} MarkedCrs(marker: string, text: string)
    requires Crs(marker) == 0
    ensures LinesCrs([marker + text]) == Crs(text)
  {
    LinesCrsOne(marker + text);
    CrsAppend(marker, text);
  }

  lemma {:induction false} JoinCrs(ls: seq<string>)
    ensures Crs(Join(ls)) == LinesCrs(ls)
  {
    if ls != [] {
      JoinUnlines(ls);
      CrsAppend(Join(ls), "\n");
    }
  }

  lemma {:induction false} SliceCrs(s: string, i: nat, j: nat)
    requires i <= j <= |s|
    ensures Crs(s[i..j]) <= Crs(s)
  {
    assert s == s[..i] + s[i..j] + s[j..];
    CrsThree(s[..i], s[i..j], s[j..]);
  }

  lemma {:induction false} TrimCrs(s: string)
    ensures Crs(Trim(s)) <= Crs(s)
  {
    TrimStartSuffix(s);
    TrimEndPrefix(TrimStart(s));
    var skipped := |s| - |TrimStart(s)|;
    assert Trim(s) == s[skipped..skipped + |Trim(s)|];
    SliceCrs(s, skipped, skipped + |Trim(s)|);
  }

  // -------------------------------------------------------------- normalising

  lemma {:induction false} ConsCrs(c: char, s: string)
    ensures Crs([c] + s) == Crs(s) + if c == '\r' then 1 else 0
  {
    CrsAppend([c], s);
  }

  lemma PairFreeCons(s: string)
    requires s != [] && PairFree(s[1..]) && (|s| >= 2 && s[1] == '\n' ==> s[0] != '\r')
    ensures PairFree(s)
  {
    forall i | 0 < i < |s| && s[i] == '\n' ensures s[i - 1] != '\r' {
      assert i > 1 ==> s[1..][i - 1] == s[i] && s[1..][i - 2] == s[i - 1];
    }
  }

  /** Normalising takes away a CR from every text it changes. */
  lemma {:induction false} NormalizeCrs(s: string)
    ensures Crs(NormalizeEol(s)) <= Crs(s)
    ensures Crs(NormalizeEol(s)) == Crs(s) ==> NormalizeEol(s) == s && PairFree(s)
  {
    if |s| >= 2 && s[0] == '\r' && s[1] == '\n' {
      NormalizeCrs(s[2..]);
      assert s == ['\r'] + (['\n'] + s[2..]);
      ConsCrs('\r', ['\n'] + s[2..]);
      ConsCrs('\n', s[2..]);
      ConsCrs('\n', NormalizeEol(s[2..]));
    } else if s != [] {
      NormalizeCrs(s[1..]);
      assert s == [s[0]] + s[1..];
      ConsCrs(s[0], s[1..]);
      ConsCrs(s[0], NormalizeEol(s[1..]));
      if PairFree(s[1..]) {
        PairFreeCons(s);
      }
    }
  }

  // ------------------------------------------------------------ scanned lines

  function TextCrs(ss: seq<ScannedLine>): nat {
    if ss == [] then 0 else Crs(ss[0].text) + TextCrs(ss[1..])
  }

  /** What a line is read as has no more CRs than the line. */
  predicate Fits(s: ScannedLine) {
    && (match s.header
        case AddHeader(path) => Crs(path) <= Crs(s.text)
        case DeleteHeader(path) => Crs(path) <= Crs(s.text)
        case UpdateHeader(path) => Crs(path) <= Crs(s.text)
        case _ => true)
    && (s.moveTo.Some? ==> Crs(s.moveTo.value) <= Crs(s.text))
    && (s.hunkContext.Some? ==> Crs(s.hunkContext.value) <= Crs(s.text))
  }

  predicate AllFit(ss: seq<ScannedLine>) {
    forall i | 0 <= i < |ss| :: Fits(ss[i])
  }

  lemma {:induction false} RestCrs(t: string, n: nat)
    requires n <= |t|
    ensures Crs(t[n..]) <= Crs(t)
  {
    SliceCrs(t, n, |t|);
    assert t[n..|t|] == t[n..];
  }

  lemma {:induction false} HeaderCrs(t: string)
    ensures var h := ReadHeader(t); h.AddHeader? || h.DeleteHeader? || h.UpdateHeader? ==> Crs(h.path) <= Crs(t)
  {
    if StartsWith(t, ADD) {
      RestCrs(t, |ADD|);
    } else if StartsWith(t, DELETE) {
      RestCrs(t, |DELETE|);
    } else if StartsWith(t, UPDATE) {
      RestCrs(t, |UPDATE|);
    }
  }

  lemma {:induction false} ContextTextCrs(t: string)
    requires |t| >= 2
    ensures Crs(Trim(t[2..])) <= Crs(t)
  {
    TrimCrs(t[2..]);
    RestCrs(t, 2);
  }

  lemma ScanFits(l: string)
    ensures Fits(Scan(l))
  {
    var t := Trim(l);
    TrimCrs(l);
    HeaderCrs(t);
    if StartsWith(t, MOVE) {
      RestCrs(t, |MOVE|);
    }
    if StartsWith(t, "@@") {
      ContextTextCrs(t);
    }
  }

  lemma ScanAllFits(ls: seq<string>)
    ensures AllFit(ScanAll(ls))
  {
    forall i | 0 <= i < |ls| ensures Fits(ScanAll(ls)[i]) {
      ScanFits(ls[i]);
    }
  }

  lemma {:induction false} ScanAllCrs(ls: seq<string>)
    ensures TextCrs(ScanAll(ls)) == LinesCrs(ls)
  {
    if ls != [] {
      ScanAllCrs(ls[1..]);
      assert ScanAll(ls)[1..] == ScanAll(ls[1..]);
      LinesCrsFirst(ls);
    }
  }

  // --------------------------------------------------------------- added files

  lemma {:induction false} PrefixedCrs(c: char, ls: seq<string>)
    requires c != '\r'
    ensures LinesCrs(Prefixed(c, ls)) == LinesCrs(ls)
  {
    if ls != [] {
      PrefixedCrs(c, ls[1..]);
      assert Prefixed(c, ls)[1..] == Prefixed(c, ls[1..]);
      LinesCrsFirst(Prefixed(c, ls));
      LinesCrsFirst(ls);
      ConsCrs(c, ls[0]);
    }
  }

  lemma {:induction false} FinalCrs(s: string)
    ensures Crs(EnsureFinal(s)) == Crs(s)
  {
    CrsAppend(s, "\n");
  }

  lemma {:induction false} ContentCrs(content: string)
    ensures LinesCrs(if content == "" then [] else Prefixed('+', Split(Strip(content)))) == Crs(content)
  {
    if content != "" {
      PrefixedCrs('+', Split(Strip(content)));
      SplitStrip(content);
      FinalCrs(content);
    }
  }

  lemma FinalMarkCrs(finalNewline: bool)
    ensures LinesCrs(if finalNewline then [] else [NO_NEWLINE]) == 0
  {
    NoNewlineMark();
    LinesCrsOne(NO_NEWLINE);
  }

  lemma {:induction false} AddLinesCrs(content: string)
    ensures LinesCrs(AddLines(content)) == Crs(content)
  {
    ContentCrs(content);
    FinalMarkCrs(EndsWith(content, '\n'));
    LinesCrsAppend(if content == "" then [] else Prefixed('+', Split(Strip(content))),
                   if EndsWith(content, '\n') then [] else [NO_NEWLINE]);
  }

  lemma AddContentCrs(ls: seq<string>, finalNewline: bool)
    ensures Crs(AddContent(ls, finalNewline)) == LinesCrs(ls)
  {
    JoinCrs(ls);
    CrsAppend(Join(ls), if finalNewline then "\n" else "");
  }

  lemma {:induction false} AddBodyCrs(ss: seq<ScannedLine>)
    requires AllFit(ss) && ParseAddBody(ss).Ok?
    ensures var body := ParseAddBody(ss).value;
            LinesCrs(body.content) + TextCrs(body.rest) <= TextCrs(ss) && AllFit(body.rest)
  {
    if ss != [] && ss[0].header == NoHeader {
      AddBodyCrs(ss[1..]);
      if !ss[0].isNoNewline {
        var text, rest := ss[0].text, ParseAddBody(ss[1..]).value.content;
        SliceCrs(text, 1, |text|);
        LinesCrsFirst([text[1..]] + rest);
        assert ([text[1..]] + rest)[1..] == rest;
      }
    }
  }

  lemma {:induction false} AddActionCrs(path: string, content: string)
    ensures LinesCrs(PrintAction(AddFile(path, content))) == Crs(path) + Crs(content)
  {
    LinesCrsAppend([ADD + path], AddLines(content));
    AddMark();
    MarkedCrs(ADD, path);
    AddLinesCrs(content);
  }

  // -------------------------------------------------------------------- hunks

  function HunkCrs(h: Hunk): nat {
    LinesCrs(PrintHunk(h))
  }

  function ContextCrs(context: Option<string>): nat {
    match context case None => 0 case Some(c) => Crs(c)
  }

  lemma HunkHeaderCrs(context: Option<string>)
    ensures LinesCrs([match context case None => "@@" case Some(c) => "@@ " + c]) == ContextCrs(context)
  {
    match context {
      case None => LinesCrsOne("@@");
      case Some(c) => MarkedCrs("@@ ", c);
    }
  }

  lemma EndMarkCrs(endOfFile: bool)
    ensures LinesCrs(if endOfFile then [END_OF_FILE] else []) == 0
  {
    EndOfFileMark();
    LinesCrsOne(END_OF_FILE);
  }

  lemma HunkCrsIs(h: Hunk)
    ensures HunkCrs(h) == ContextCrs(h.changeContext) + LinesCrs(HunkLines(h.lines))
  {
    var header := [match h.changeContext case None => "@@" case Some(c) => "@@ " + c];
    var mark := if h.endOfFile then [END_OF_FILE] else [];
    LinesCrsAppend(header + HunkLines(h.lines), mark);
    LinesCrsAppend(header, HunkLines(h.lines));
    HunkHeaderCrs(h.changeContext);
    EndMarkCrs(h.endOfFile);
  }

  lemma GrownHunkCrs(h: Hunk, l: HunkLine)
    ensures HunkCrs(h.(lines := h.lines + [l])) == HunkCrs(h) + Crs(l.text)
  {
    HunkCrsIs(h);
    HunkCrsIs(h.(lines := h.lines + [l]));
    var printed := [KindChar(l.kind)] + l.text;
    assert HunkLines(h.lines + [l]) == HunkLines(h.lines) + [printed];
    LinesCrsAppend(HunkLines(h.lines), [printed]);
    LinesCrsOne(printed);
    ConsCrs(KindChar(l.kind), l.text);
  }

  lemma {:induction false} PrintHunksSnoc(hs: seq<Hunk>, h: Hunk)
    ensures PrintHunks(hs + [h]) == PrintHunks(hs) + PrintHunk(h)
  {
    if hs == [] {
      assert [h][1..] == [] && PrintHunk(h) + [] == PrintHunk(h);
    } else {
      PrintHunksSnoc(hs[1..], h);
      FirstOf(hs, [h]);
    }
  }

  function CurrentCrs(current: Option<Hunk>): nat {
    match current case None => 0 case Some(h) => HunkCrs(h)
  }

  /** The CRs of the hunks closed so far and of the one being read. */
  function ReadCrs(hunks: seq<Hunk>, current: Option<Hunk>): nat {
    LinesCrs(PrintHunks(hunks)) + CurrentCrs(current)
  }

  lemma FlushCrs(hunks: seq<Hunk>, current: Option<Hunk>, path: string)
    requires FlushHunk(hunks, current, path).Ok?
    ensures LinesCrs(PrintHunks(FlushHunk(hunks, current, path).value)) == ReadCrs(hunks, current)
  {
    if current.Some? {
      PrintHunksSnoc(hunks, current.value);
      LinesCrsAppend(PrintHunks(hunks), PrintHunk(current.value));
    }
  }

  lemma AppendLineCrs(h: Hunk, s: ScannedLine)
    requires AppendHunkLine(h, s).Ok?
    ensures HunkCrs(AppendHunkLine(h, s).value) <= HunkCrs(h) + Crs(s.text)
  {
    if s.Leads(' ') || s.Leads('+') || s.Leads('-') {
      SliceCrs(s.text, 1, |s.text|);
      var kind := if s.Leads(' ') then Context else if s.Leads('+') then Add else Remove;
      GrownHunkCrs(h, HunkLine(kind, s.text[1..]));
    }
  }

  lemma {:induction false} NewHunkCrs(context: string)
    ensures HunkCrs(OpenHunk(context)) <= Crs(context) && HunkCrs(Hunk([], None, false)) == 0
  {
    HunkCrsIs(OpenHunk(context));
    HunkCrsIs(Hunk([], None, false));
  }

  lemma StepCrs(s: ScannedLine, hunks: seq<Hunk>, current: Option<Hunk>, path: string)
    requires Fits(s) && StepUpdate(s, hunks, current, path).Continue?
    ensures var step := StepUpdate(s, hunks, current, path);
            ReadCrs(step.hunks, step.current) <= ReadCrs(hunks, current) + Crs(s.text)
  {
    if current.None? && s.trimmed == "" {
    } else if s.isEndOfFile {
      HunkCrsIs(current.value);
      HunkCrsIs(current.value.(endOfFile := true));
    } else if s.hunkContext.Some? && !s.Leads(' ') {
      FlushCrs(hunks, current, path);
      NewHunkCrs(s.hunkContext.value);
    } else {
      NewHunkCrs("");
      AppendLineCrs(if current.Some? then current.value else Hunk([], None, false), s);
    }
  }

  lemma {:induction false} UpdateBodyCrs(ss: seq<ScannedLine>, hunks: seq<Hunk>, current: Option<Hunk>, path: string)
    requires AllFit(ss) && ParseUpdateBody(ss, hunks, current, path).Ok?
    ensures var body := ParseUpdateBody(ss, hunks, current, path).value;
            LinesCrs(PrintHunks(body.hunks)) + TextCrs(body.rest) <= ReadCrs(hunks, current) + TextCrs(ss)
            && AllFit(body.rest)
  {
    if ss == [] {
      FlushCrs(hunks, current, path);
    } else {
      var step := StepUpdate(ss[0], hunks, current, path);
      if step.Continue? {
        StepCrs(ss[0], hunks, current, path);
        UpdateBodyCrs(ss[1..], step.hunks, step.current, path);
      } else {
        FlushCrs(hunks, current, path);
      }
    }
  }

  lemma MoveCrs(moveTo: Option<string>)
    ensures LinesCrs(PrintMove(moveTo)) == ContextCrs(moveTo)
  {
    MoveMark();
    if moveTo.Some? {
      MarkedCrs(MOVE, moveTo.value);
    }
  }

  lemma {:induction false} UpdateActionCrs(path: string, moveTo: Option<string>, hunks: seq<Hunk>)
    ensures LinesCrs(PrintAction(UpdateFile(path, moveTo, hunks))) ==
            Crs(path) + ContextCrs(moveTo) + LinesCrs(PrintHunks(hunks))
  {
    LinesCrsAppend([UPDATE + path] + PrintMove(moveTo), PrintHunks(hunks));
    LinesCrsAppend([UPDATE + path], PrintMove(moveTo));
    UpdateMark();
    MarkedCrs(UPDATE, path);
    MoveCrs(moveTo);
  }

  lemma {:induction false} DeleteActionCrs(path: string)
    ensures LinesCrs(PrintAction(DeleteFile(path))) == Crs(path)
  {
    DeleteMark();
    MarkedCrs(DELETE, path);
  }

  // ------------------------------------------------------------------ actions

  lemma {:induction false} ParseAddCrs(path: string, ss: seq<ScannedLine>)
    requires AllFit(ss) && ParseAdd(path, ss).Ok?
    ensures var parsed := ParseAdd(path, ss).value;
            AllFit(parsed.rest) && LinesCrs(PrintAction(parsed.action.value)) + TextCrs(parsed.rest) <= Crs(path) + TextCrs(ss)
  {
    AddBodyCrs(ss);
    var body := ParseAddBody(ss).value;
    AddContentCrs(body.content, body.finalNewline);
    AddActionCrs(path, AddContent(body.content, body.finalNewline));
  }

  lemma {:induction false} ParseUpdateCrs(path: string, ss: seq<ScannedLine>)
    requires AllFit(ss) && ParseUpdate(path, ss).Ok?
    ensures var parsed := ParseUpdate(path, ss).value;
            AllFit(parsed.rest) && LinesCrs(PrintAction(parsed.action.value)) + TextCrs(parsed.rest) <= Crs(path) + TextCrs(ss)
  {
    var moveTo := MoveDestination(ss);
    var after := if moveTo.Some? then ss[1..] else ss;
    assert moveTo.Some? ==> Fits(ss[0]);
    UpdateBodyCrs(after, [], None, path);
    UpdateActionCrs(path, moveTo, ParseUpdateBody(after, [], None, path).value.hunks);
  }

  function ParsedActionCrs(action: Option<Action>): nat {
    match action case None => 0 case Some(a) => LinesCrs(PrintAction(a))
  }

  lemma {:induction false} ActionCrs(s: ScannedLine, ss: seq<ScannedLine>)
    requires Fits(s) && AllFit(ss) && ParseAction(s, ss).Ok?
    ensures var parsed := ParseAction(s, ss).value;
            AllFit(parsed.rest) && ParsedActionCrs(parsed.action) + TextCrs(parsed.rest) <= Crs(s.text) + TextCrs(ss)
  {
    match s.header {
      case AddHeader(path) => ParseAddCrs(path, ss);
      case DeleteHeader(path) => DeleteActionCrs(path);
      case UpdateHeader(path) => ParseUpdateCrs(path, ss);
      case _ =>
    }
  }

  lemma {:induction false} PrintActionsSnoc(actions: seq<Action>, a: Action)
    ensures PrintActions(actions + [a]) == PrintActions(actions) + PrintAction(a)
  {
    if actions == [] {
      assert [a][1..] == [] && PrintAction(a) + [] == PrintAction(a);
    } else {
      PrintActionsSnoc(actions[1..], a);
      FirstOf(actions, [a]);
    }
  }

  lemma {:induction false} ActionsCrs(ss: seq<ScannedLine>, actions: seq<Action>)
    requires AllFit(ss) && ParseActions(ss, actions).Ok?
    ensures LinesCrs(PrintActions(ParseActions(ss, actions).value)) <= LinesCrs(PrintActions(actions)) + TextCrs(ss)
    decreases |ss|
  {
    if ss == [] {
    } else if ss[0].trimmed == "" {
      ActionsCrs(ss[1..], actions);
    } else {
      ActionCrs(ss[0], ss[1..]);
      var parsed := ParseAction(ss[0], ss[1..]).value;
      if parsed.action.Some? {
        PrintActionsSnoc(actions, parsed.action.value);
        LinesCrsAppend(PrintActions(actions), PrintAction(parsed.action.value));
      }
      ActionsCrs(parsed.rest, if parsed.action.Some? then actions + [parsed.action.value] else actions);
    }
  }

  lemma MiddleCrs(ls: seq<string>)
    requires |ls| >= 2
    ensures LinesCrs(ls[1..|ls| - 1]) <= LinesCrs(ls)
  {
    assert ls == ls[..1] + ls[1..|ls| - 1] + ls[|ls| - 1..];
    LinesCrsAppend(ls[..1] + ls[1..|ls| - 1], ls[|ls| - 1..]);
    LinesCrsAppend(ls[..1], ls[1..|ls| - 1]);
  }

  lemma {:induction false} SplitCrs(text: string)
    ensures LinesCrs(Split(text)) == Crs(text)
  {
    JoinSplit(text);
    JoinCrs(Split(text));
  }

  lemma {:induction false} PatchLinesAre(patch: string)
    ensures var ls := Split(Trim(NormalizeEol(patch)));
            PatchLines(patch) == ls || (|ls| >= 2 && PatchLines(patch) == ls[1..|ls| - 1])
  {
  }

  lemma AllOrMiddleCrs(lines: seq<string>, ls: seq<string>)
    requires lines == ls || (|ls| >= 2 && lines == ls[1..|ls| - 1])
    ensures LinesCrs(lines) <= LinesCrs(ls)
  {
    if lines != ls {
      MiddleCrs(ls);
    }
  }

  lemma {:induction false} PatchLinesCrs(patch: string)
    ensures LinesCrs(PatchLines(patch)) <= Crs(NormalizeEol(patch))
  {
    var normalized := NormalizeEol(patch);
    TrimCrs(normalized);
    SplitCrs(Trim(normalized));
    PatchLinesAre(patch);
    AllOrMiddleCrs(PatchLines(patch), Split(Trim(normalized)));
  }

  lemma {:induction false} PrintCrs(actions: seq<Action>)
    ensures Crs(Print(actions)) == LinesCrs(PrintActions(actions))
  {
    JoinCrs(PatchDocument(actions));
    LinesCrsAppend([BEGIN] + PrintActions(actions), [END]);
    LinesCrsAppend([BEGIN], PrintActions(actions));
    BeginMark();
    EndMark();
    LinesCrsOne(BEGIN);
    LinesCrsOne(END);
  }

  lemma ParsedLinesCrs(lines: seq<string>)
    requires lines != [] && ParseLines(lines).Ok?
    ensures LinesCrs(PrintActions(ParseLines(lines).value)) <= LinesCrs(lines)
  {
    var body := lines[1..|lines| - 1];
    MiddleCrs(lines);
    ScanAllFits(body);
    ScanAllCrs(body);
    ActionsCrs(ScanAll(body), []);
  }

  /** Printing what a patch text parses to gives no more CRs than its normalised text has. */
  lemma {:induction false} ParsedCrs(patch: string)
    requires Parse(patch).Ok?
    ensures Crs(Print(Parse(patch).value)) <= Crs(NormalizeEol(patch))
  {
    PatchLinesCrs(patch);
    ParsedLinesCrs(PatchLines(patch));
    PrintCrs(Parse(patch).value);
  }
}
