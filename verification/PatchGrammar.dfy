/** The language of patches: which lines mean which actions, as relations that no parser appears
    in, and the proof that the parser accepts exactly this language and reads it exactly so. */
module PatchGrammar {
  import opened Options
  import opened Text
  import opened PatchSyntax
  import opened PatchRoundTrip

  /** Lines as scanning leaves them. */
  predicate Genuine(ls: seq<ScannedLine>) {
    forall i | 0 <= i < |ls| :: ls[i] == Scan(ls[i].text)
  }

  // --------------------------------------------------------------------- the grammar

  /** The texts of the lines that begin with a plus, in order. */
  function PlusTexts(ss: seq<ScannedLine>): seq<string> {
    if ss == [] then [] else (if ss[0].Leads('+') then [ss[0].text[1..]] else []) + PlusTexts(ss[1..])
  }

  predicate HasNoNewline(ss: seq<ScannedLine>) {
    exists i | 0 <= i < |ss| :: ss[i].isNoNewline
  }

  /** The body of an added file: content lines, or at least word that the file has no newline. */
  predicate AddReads(ss: seq<ScannedLine>, content: string) {
    && ss != [] && (forall i | 0 <= i < |ss| :: ss[i].header.NoHeader? && (ss[i].isNoNewline || ss[i].Leads('+')))
    && content == AddContent(PlusTexts(ss), !HasNoNewline(ss))
  }

  /** A line that belongs to the hunk it follows. */
  predicate InHunk(l: ScannedLine) {
    l.isEndOfFile || l.Leads(' ') || l.Leads('+') || l.Leads('-') || l.isNoNewline
  }

  predicate AllInHunk(ss: seq<ScannedLine>) {
    forall i | 0 <= i < |ss| :: InHunk(ss[i])
  }

  predicate TitlesHunk(l: ScannedLine) {
    l.hunkContext.Some? && !l.Leads(' ')
  }

  /** The line of a hunk, unless it is a marker. */
  function LineOf(l: ScannedLine): seq<HunkLine> {
    if l.isEndOfFile then []
    else if l.Leads(' ') then [HunkLine(Context, l.text[1..])]
    else if l.Leads('+') then [HunkLine(Add, l.text[1..])]
    else if l.Leads('-') then [HunkLine(Remove, l.text[1..])]
    else []
  }

  function LinesOf(ss: seq<ScannedLine>): seq<HunkLine> {
    if ss == [] then [] else LineOf(ss[0]) + LinesOf(ss[1..])
  }

  predicate ReachesEnd(ss: seq<ScannedLine>) {
    exists i | 0 <= i < |ss| :: ss[i].isEndOfFile
  }

  function ContextOf(title: string): Option<string> {
    if title == "" then None else Some(title)
  }

  /** A hunk has lines of its own. Only the first of an update may go without a title, and then
      must not begin with a blank line, a marker or a header. */
  predicate HunkReads(ss: seq<ScannedLine>, h: Hunk, first: bool) {
    && ss != [] && h.lines != []
    && if TitlesHunk(ss[0]) then
         AllInHunk(ss[1..]) && h == Hunk(LinesOf(ss[1..]), ContextOf(ss[0].hunkContext.value), ReachesEnd(ss[1..]))
       else
         && first && ss[0].trimmed != "" && !ss[0].isEndOfFile && ss[0].header.NoHeader?
         && AllInHunk(ss) && h == Hunk(LinesOf(ss), None, ReachesEnd(ss))
  }

  ghost predicate HunksRead(ss: seq<ScannedLine>, hs: seq<Hunk>, first: bool)
    decreases |hs|
  {
    if hs == [] then ss == []
    else exists n | 0 <= n <= |ss| :: HunkReads(ss[..n], hs[0], first) && HunksRead(ss[n..], hs[1..], false)
  }

  predicate AllBlank(ss: seq<ScannedLine>) {
    forall i | 0 <= i < |ss| :: ss[i].trimmed == ""
  }

  /** Blank lines, and then the hunks. */
  ghost predicate BodyReads(ss: seq<ScannedLine>, hs: seq<Hunk>) {
    exists b | 0 <= b <= |ss| :: AllBlank(ss[..b]) && HunksRead(ss[b..], hs, true)
  }

  /** The destination, if there is one, and the hunks: at least one of the two. */
  ghost predicate UpdateReads(ss: seq<ScannedLine>, moveTo: Option<string>, hs: seq<Hunk>) {
    && (hs != [] || (moveTo.Some? && moveTo.value != ""))
    && match moveTo
       case None => ss != [] && ss[0].moveTo.None? && BodyReads(ss, hs)
       case Some(_) => ss != [] && ss[0].moveTo == moveTo && BodyReads(ss[1..], hs)
  }

  ghost predicate ActionReads(head: ScannedLine, ss: seq<ScannedLine>, a: Action) {
    match a
    case AddFile(path, content) => head.header == AddHeader(path) && AddReads(ss, content)
    case DeleteFile(path) => head.header == DeleteHeader(path) && ss == []
    case UpdateFile(path, moveTo, hs) => head.header == UpdateHeader(path) && UpdateReads(ss, moveTo, hs)
  }

  /** What may come after the hunks of an update: the end, or a header, which must not be indented
      by a space when there is a hunk it could belong to. */
  predicate EndsHunks(rest: seq<ScannedLine>, open: bool) {
    rest == [] || (!rest[0].header.NoHeader? && (open ==> !rest[0].Leads(' ')))
  }

  predicate Ends(a: Action, rest: seq<ScannedLine>) {
    match a
    case AddFile(_, _) => EndsHunks(rest, false)
    case DeleteFile(_) => true
    case UpdateFile(_, _, hs) => EndsHunks(rest, hs != [])
  }

  ghost predicate FirstReads(ls: seq<ScannedLine>, a: Action, n: nat) {
    1 <= n <= |ls| && ActionReads(ls[0], ls[1..n], a) && Ends(a, ls[n..])
  }

  /** The lines between the patch markers mean a list of actions. Blank lines between actions and
      environment lines mean nothing. */
  ghost predicate Means(ls: seq<ScannedLine>, actions: seq<Action>)
    decreases |ls|
  {
    if ls == [] then actions == []
    else if ls[0].trimmed == "" then Means(ls[1..], actions)
    else if ls[0].header.EnvironmentHeader? then Trim(ls[0].header.id) != "" && Means(ls[1..], actions)
    else actions != [] && exists n: nat :: FirstReads(ls, actions[0], n) && Means(ls[n..], actions[1..])
  }

  // ------------------------------------------------------------- what lines can be

  lemma HeaderFacts(l: ScannedLine)
    requires l == Scan(l.text) && !l.header.NoHeader?
    ensures l.trimmed != "" && !l.isEndOfFile && l.hunkContext.None? && l.moveTo.None?
  {
    var t := l.trimmed;
    assert t[0] == '*' && t[4] in "ADUE" && (t[4] == 'E' ==> t[6] == 'v') by {
      HeaderLetters(t);
    }
    assert MOVE[4] == 'M' && END_OF_FILE[4] == 'E' && END_OF_FILE[6] == 'd';
  }

  lemma HeaderLetters(t: string)
    requires !ReadHeader(t).NoHeader?
    ensures |t| >= 7 && t[0] == '*' && t[4] in "ADUE" && (t[4] == 'E' ==> t[6] == 'v')
  {
    assert ADD[0] == '*' && DELETE[0] == '*' && UPDATE[0] == '*' && ENVIRONMENT[0] == '*';
    assert ADD[4] == 'A' && DELETE[4] == 'D' && UPDATE[4] == 'U' && ENVIRONMENT[4] == 'E' && ENVIRONMENT[6] == 'v';
  }

  lemma TitleFacts(l: ScannedLine)
    requires l == Scan(l.text) && l.hunkContext.Some?
    ensures l.header.NoHeader? && !l.isEndOfFile && l.trimmed != ""
    ensures InHunk(l) ==> l.Leads(' ')
  {
    assert l.trimmed[0] == '@' && ADD[0] == '*' && DELETE[0] == '*' && UPDATE[0] == '*' && ENVIRONMENT[0] == '*' && END_OF_FILE[0] == '*';
    if l.text != "" && !IsSpace(l.text[0]) && l.text[0] != '*' {
      ScanBody(l.text);
    }
  }

  lemma BodyFacts(l: ScannedLine)
    requires l == Scan(l.text) && (l.Leads('+') || l.Leads('-') || l.isNoNewline)
    ensures l.header.NoHeader? && l.hunkContext.None? && !l.isEndOfFile && !l.Leads(' ') && l.trimmed != ""
    ensures l.isNoNewline ==> !l.Leads('+') && !l.Leads('-')
  {
    ScanBody(l.text);
  }

  lemma GenuineRest(ls: seq<ScannedLine>, n: nat)
    requires Genuine(ls) && n <= |ls|
    ensures Genuine(ls[n..]) && Genuine(ls[..n])
  {
  }

  // ------------------------------------------------- what the grammar has, is parsed

  lemma {:induction false} AddIsParsed(ss: seq<ScannedLine>, tail: seq<ScannedLine>)
    requires Genuine(ss) && EndsHunks(tail, false)
    requires forall i | 0 <= i < |ss| :: ss[i].header.NoHeader? && (ss[i].isNoNewline || ss[i].Leads('+'))
    ensures ParseAddBody(ss + tail) == Ok(AddBody(PlusTexts(ss), !HasNoNewline(ss), tail))
  {
    if ss == [] {
      assert ss + tail == tail;
    } else {
      FirstOf(ss, tail);
      GenuineRest(ss, 1);
      BodyFacts(ss[0]);
      AddIsParsed(ss[1..], tail);
      HasNoNewlineFirst(ss);
      PlusTextsFirst(ss);
    }
  }

  lemma {:induction false} PlusTextsFirst(ss: seq<ScannedLine>)
    requires ss != []
    ensures PlusTexts(ss) == if ss[0].Leads('+') then [ss[0].text[1..]] + PlusTexts(ss[1..]) else PlusTexts(ss[1..])
  {
    assert [] + PlusTexts(ss[1..]) == PlusTexts(ss[1..]);
  }

  lemma HasNoNewlineFirst(ss: seq<ScannedLine>)
    requires ss != []
    ensures HasNoNewline(ss) <==> ss[0].isNoNewline || HasNoNewline(ss[1..])
  {
    if HasNoNewline(ss[1..]) {
      var i :| 0 <= i < |ss[1..]| && ss[1..][i].isNoNewline;
      assert ss[i + 1].isNoNewline;
    }
    if HasNoNewline(ss) {
      var i :| 0 <= i < |ss| && ss[i].isNoNewline;
      assert i > 0 ==> ss[1..][i - 1].isNoNewline;
    }
  }

  lemma ReachesEndFirst(ss: seq<ScannedLine>)
    requires ss != []
    ensures ReachesEnd(ss) <==> ss[0].isEndOfFile || ReachesEnd(ss[1..])
  {
    if ReachesEnd(ss[1..]) {
      var i :| 0 <= i < |ss[1..]| && ss[1..][i].isEndOfFile;
      assert ss[i + 1].isEndOfFile;
    }
    if ReachesEnd(ss) {
      var i :| 0 <= i < |ss| && ss[i].isEndOfFile;
      assert i > 0 ==> ss[1..][i - 1].isEndOfFile;
    }
  }

  /** A hunk with the lines that follow it. */
  function Longer(h: Hunk, ss: seq<ScannedLine>): Hunk {
    h.(lines := h.lines + LinesOf(ss), endOfFile := h.endOfFile || ReachesEnd(ss))
  }

  lemma {:induction false} LongerFirst(h: Hunk, ss: seq<ScannedLine>)
    requires ss != []
    ensures Longer(h, ss) == Longer(Longer(h, [ss[0]]), ss[1..])
  {
    ReachesEndFirst(ss);
    ReachesEndFirst([ss[0]]);
    assert LinesOf([ss[0]]) == LineOf(ss[0]) + [] == LineOf(ss[0]);
    assert h.lines + (LineOf(ss[0]) + LinesOf(ss[1..])) == (h.lines + LineOf(ss[0])) + LinesOf(ss[1..]);
  }

  /** One line of an open hunk. */
  lemma {:induction false} StepInHunk(l: ScannedLine, hunks: seq<Hunk>, h: Hunk, path: string)
    requires l == Scan(l.text) && InHunk(l)
    ensures StepUpdate(l, hunks, Some(h), path) == Continue(hunks, Some(Longer(h, [l])))
  {
    ReachesEndFirst([l]);
    assert LinesOf([l]) == LineOf(l) + [] == LineOf(l);
    if l.Leads('+') || l.Leads('-') || l.isNoNewline {
      BodyFacts(l);
    }
    assert h.lines + [] == h.lines;
  }

  lemma {:induction false} HunkBodyIsParsed(ss: seq<ScannedLine>, tail: seq<ScannedLine>, hunks: seq<Hunk>, h: Hunk, path: string)
    requires Genuine(ss) && AllInHunk(ss)
    ensures ParseUpdateBody(ss + tail, hunks, Some(h), path) == ParseUpdateBody(tail, hunks, Some(Longer(h, ss)), path)
  {
    if ss == [] {
      assert ss + tail == tail && h.lines + [] == h.lines;
    } else {
      FirstOf(ss, tail);
      GenuineRest(ss, 1);
      StepInHunk(ss[0], hunks, h, path);
      HunkBodyIsParsed(ss[1..], tail, hunks, Longer(h, [ss[0]]), path);
      LongerFirst(h, ss);
    }
  }

  const BARE := Hunk([], None, false)

  lemma {:induction false} TitledIsParsed(ss: seq<ScannedLine>, h: Hunk, first: bool, tail: seq<ScannedLine>,
                                          hunks: seq<Hunk>, current: Option<Hunk>, path: string)
    requires Genuine(ss) && HunkReads(ss, h, first) && TitlesHunk(ss[0])
    requires current.Some? ==> current.value.lines != []
    ensures ParseUpdateBody(ss + tail, hunks, current, path) ==
            ParseUpdateBody(tail, FlushHunk(hunks, current, path).value, Some(h), path)
  {
    FirstOf(ss, tail);
    GenuineRest(ss, 1);
    TitleFacts(ss[0]);
    var blank := OpenHunk(ss[0].hunkContext.value);
    HunkBodyIsParsed(ss[1..], tail, FlushHunk(hunks, current, path).value, blank, path);
    assert [] + LinesOf(ss[1..]) == LinesOf(ss[1..]);
  }

  lemma {:induction false} UntitledIsParsed(ss: seq<ScannedLine>, h: Hunk, tail: seq<ScannedLine>, hunks: seq<Hunk>, path: string)
    requires Genuine(ss) && HunkReads(ss, h, true) && !TitlesHunk(ss[0])
    ensures ParseUpdateBody(ss + tail, hunks, None, path) == ParseUpdateBody(tail, hunks, Some(h), path)
  {
    FirstOf(ss, tail);
    StepInHunk(ss[0], hunks, BARE, path);
    assert StepUpdate(ss[0], hunks, None, path) == StepUpdate(ss[0], hunks, Some(BARE), path);
    HunkBodyIsParsed(ss, tail, hunks, BARE, path);
    assert [] + LinesOf(ss) == LinesOf(ss);
  }

  lemma {:induction false} HunksAreParsed(ss: seq<ScannedLine>, hs: seq<Hunk>, first: bool, tail: seq<ScannedLine>,
                                          hunks: seq<Hunk>, current: Option<Hunk>, path: string)
    requires Genuine(ss) && Genuine(tail) && HunksRead(ss, hs, first) && EndsHunks(tail, hs != [] || current.Some?)
    requires first <==> current.None?
    requires current.Some? ==> current.value.lines != []
    ensures ParseUpdateBody(ss + tail, hunks, current, path) ==
            Ok(UpdateBody(FlushHunk(hunks, current, path).value + hs, tail))
    decreases |hs|
  {
    var done := FlushHunk(hunks, current, path).value;
    if hs == [] {
      assert ss + tail == tail && done + hs == done;
      if tail != [] {
        HeaderFacts(tail[0]);
      }
    } else {
      var n :| 0 <= n <= |ss| && HunkReads(ss[..n], hs[0], first) && HunksRead(ss[n..], hs[1..], false);
      GenuineRest(ss, n);
      CutAt(ss, n, tail);
      if TitlesHunk(ss[..n][0]) {
        TitledIsParsed(ss[..n], hs[0], first, ss[n..] + tail, hunks, current, path);
      } else {
        UntitledIsParsed(ss[..n], hs[0], ss[n..] + tail, hunks, path);
      }
      HunksAreParsed(ss[n..], hs[1..], false, tail, done, Some(hs[0]), path);
      MoveFirst(done, hs);
    }
  }

  lemma {:induction false} BlanksAreSkipped(ss: seq<ScannedLine>, rest: seq<ScannedLine>, path: string)
    requires AllBlank(ss)
    ensures ParseUpdateBody(ss + rest, [], None, path) == ParseUpdateBody(rest, [], None, path)
  {
    if ss == [] {
      assert ss + rest == rest;
    } else {
      FirstOf(ss, rest);
      BlanksAreSkipped(ss[1..], rest, path);
    }
  }

  lemma {:induction false} BodyIsParsed(ss: seq<ScannedLine>, hs: seq<Hunk>, tail: seq<ScannedLine>, path: string)
    requires Genuine(ss) && Genuine(tail) && BodyReads(ss, hs) && EndsHunks(tail, hs != [])
    ensures ParseUpdateBody(ss + tail, [], None, path) == Ok(UpdateBody(hs, tail))
  {
    var b :| 0 <= b <= |ss| && AllBlank(ss[..b]) && HunksRead(ss[b..], hs, true);
    GenuineRest(ss, b);
    CutAt(ss, b, tail);
    BlanksAreSkipped(ss[..b], ss[b..] + tail, path);
    HunksAreParsed(ss[b..], hs, true, tail, [], None, path);
    assert [] + hs == hs;
  }

  lemma {:induction false} UpdateIsParsed(ss: seq<ScannedLine>, path: string, moveTo: Option<string>, hs: seq<Hunk>, tail: seq<ScannedLine>)
    requires Genuine(ss) && Genuine(tail) && UpdateReads(ss, moveTo, hs) && EndsHunks(tail, hs != [])
    ensures ParseUpdate(path, ss + tail) == Ok(Parsed(Some(UpdateFile(path, moveTo, hs)), tail))
  {
    FirstOf(ss, tail);
    GenuineRest(ss, 1);
    BodyIsParsed(if moveTo.Some? then ss[1..] else ss, hs, tail, path);
  }

  lemma {:induction false} ActionIsParsed(head: ScannedLine, ss: seq<ScannedLine>, a: Action, tail: seq<ScannedLine>)
    requires Genuine(ss) && Genuine(tail) && ActionReads(head, ss, a) && Ends(a, tail)
    ensures ParseAction(head, ss + tail) == Ok(Parsed(Some(a), tail))
  {
    match a {
      case AddFile(path, content) =>
        AddIsParsed(ss, tail);
        AddNotEmpty(ss);
      case DeleteFile(path) =>
        assert ss + tail == tail;
      case UpdateFile(path, moveTo, hs) =>
        UpdateIsParsed(ss, path, moveTo, hs, tail);
    }
  }

  lemma {:induction false} AddNotEmpty(ss: seq<ScannedLine>)
    requires forall i | 0 <= i < |ss| :: ss[i].isNoNewline || ss[i].Leads('+')
    ensures ss == [] <==> PlusTexts(ss) == [] && !HasNoNewline(ss)
  {
    if ss != [] {
      HasNoNewlineFirst(ss);
    }
  }

  lemma GenuineMiddle(ls: seq<ScannedLine>, n: nat)
    requires Genuine(ls) && 1 <= n <= |ls|
    ensures Genuine(ls[1..n]) && Genuine(ls[n..]) && ls[1..] == ls[1..n] + ls[n..]
  {
  }

  lemma {:induction false} FirstIsParsed(ls: seq<ScannedLine>, a: Action, n: nat, before: seq<Action>)
    requires Genuine(ls) && ls != [] && ls[0].trimmed != "" && FirstReads(ls, a, n)
    ensures ParseActions(ls, before) == ParseActions(ls[n..], before + [a])
  {
    GenuineMiddle(ls, n);
    ActionIsParsed(ls[0], ls[1..n], a, ls[n..]);
    ParseActionsStep(ls, Parsed(Some(a), ls[n..]), before);
  }

  /** Lines that mean a list of actions are parsed to it. */
  lemma {:induction false} MeantIsParsed(ls: seq<ScannedLine>, actions: seq<Action>, before: seq<Action>)
    requires Genuine(ls) && Means(ls, actions)
    ensures ParseActions(ls, before) == Ok(before + actions)
    decreases |ls|, 1
  {
    if ls == [] {
      assert before + actions == before;
    } else if ls[0].trimmed == "" || ls[0].header.EnvironmentHeader? {
      GenuineRest(ls, 1);
      MeantIsParsed(ls[1..], actions, before);
    } else {
      FirstMeantIsParsed(ls, actions, before);
    }
  }

  lemma {:induction false} FirstMeantIsParsed(ls: seq<ScannedLine>, actions: seq<Action>, before: seq<Action>)
    requires Genuine(ls) && Means(ls, actions)
    requires ls != [] && ls[0].trimmed != "" && !ls[0].header.EnvironmentHeader?
    ensures ParseActions(ls, before) == Ok(before + actions)
    decreases |ls|, 0
  {
    var n: nat :| FirstReads(ls, actions[0], n) && Means(ls[n..], actions[1..]);
    FirstIsParsed(ls, actions[0], n, before);
    GenuineRest(ls, n);
    MeantIsParsed(ls[n..], actions[1..], before + [actions[0]]);
    MoveFirst(before, actions);
  }

  // -------------------------------------------------- what is parsed, the grammar has

  /** How much of an added file's lines its body takes. */
  lemma {:induction false} ParsedAdd(ls: seq<ScannedLine>) returns (n: nat)
    requires Genuine(ls) && ParseAddBody(ls).Ok?
    ensures n <= |ls| && ParseAddBody(ls).value == AddBody(PlusTexts(ls[..n]), !HasNoNewline(ls[..n]), ls[n..])
    ensures forall i | 0 <= i < n :: ls[i].header.NoHeader? && (ls[i].isNoNewline || ls[i].Leads('+'))
    ensures EndsHunks(ls[n..], false)
  {
    if ls == [] || !ls[0].header.NoHeader? {
      n := 0;
    } else {
      GenuineRest(ls, 1);
      var m := ParsedAdd(ls[1..]);
      n := m + 1;
      if ls[0].isNoNewline {
        BodyFacts(ls[0]);
      }
      FirstTaken(ls, m);
      HasNoNewlineFirst(ls[..n]);
      PlusTextsFirst(ls[..n]);
      forall i | 0 <= i < n ensures ls[i].header.NoHeader? && (ls[i].isNoNewline || ls[i].Leads('+')) {
        assert i > 0 ==> ls[i] == ls[1..][i - 1];
      }
    }
  }

  lemma FirstTaken<T>(ls: seq<T>, m: nat)
    requires ls != [] && m <= |ls| - 1
    ensures ls[..m + 1][0] == ls[0] && ls[..m + 1][1..] == ls[1..][..m] && ls[m + 1..] == ls[1..][m..]
  {
  }

  /** What the rest of an update's lines are, once a hunk is open: more lines of this hunk, then
      more hunks, and then the end. */
  ghost predicate OpenReads(ls: seq<ScannedLine>, h: Hunk, hunks: seq<Hunk>, body: UpdateBody, k: nat, n: nat, more: seq<Hunk>) {
    && k <= n <= |ls| && AllInHunk(ls[..k]) && Longer(h, ls[..k]).lines != []
    && HunksRead(ls[k..n], more, false) && EndsHunks(ls[n..], true)
    && body == UpdateBody(hunks + [Longer(h, ls[..k])] + more, ls[n..])
  }

  lemma LongerByNone(h: Hunk)
    ensures Longer(h, []) == h
  {
    assert h.lines + [] == h.lines;
  }

  lemma OpenAtEnd(ls: seq<ScannedLine>, h: Hunk, hunks: seq<Hunk>)
    requires h.lines != [] && EndsHunks(ls, true)
    ensures OpenReads(ls, h, hunks, UpdateBody(hunks + [h], ls), 0, 0, [])
  {
    LongerByNone(h);
    assert ls[..0] == [] && ls[0..] == ls && hunks + [h] + [] == hunks + [h];
  }

  lemma OneMoreLine(ls: seq<ScannedLine>, h: Hunk, hunks: seq<Hunk>, body: UpdateBody, k: nat, n: nat, more: seq<Hunk>)
    requires ls != [] && InHunk(ls[0]) && OpenReads(ls[1..], Longer(h, [ls[0]]), hunks, body, k, n, more)
    ensures OpenReads(ls, h, hunks, body, k + 1, n + 1, more)
  {
    FirstTaken(ls, k);
    FirstTaken(ls, n);
    LongerFirst(h, ls[..k + 1]);
    assert ls[k + 1..n + 1] == ls[1..][k..n];
    var taken := ls[..k + 1];
    forall i | 0 <= i < |taken| ensures InHunk(taken[i]) {
      assert i > 0 ==> taken[i] == ls[1..][..k][i - 1];
    }
  }

  /** A title and the lines it opens are a hunk. */
  lemma TitledReads(ls: seq<ScannedLine>, k: nat, first: bool)
    requires k + 1 <= |ls| && TitlesHunk(ls[0]) && AllInHunk(ls[1..][..k])
    requires Longer(OpenHunk(ls[0].hunkContext.value), ls[1..][..k]).lines != []
    ensures HunkReads(ls[..k + 1], Longer(OpenHunk(ls[0].hunkContext.value), ls[1..][..k]), first)
  {
    FirstTaken(ls, k);
    assert [] + LinesOf(ls[1..][..k]) == LinesOf(ls[1..][..k]);
  }

  /** A hunk read and the hunks after it are hunks read. */
  lemma HunksReadMore(ss: seq<ScannedLine>, k: nat, h: Hunk, more: seq<Hunk>, first: bool)
    requires k <= |ss| && HunkReads(ss[..k], h, first) && HunksRead(ss[k..], more, false)
    ensures HunksRead(ss, [h] + more, first)
  {
    assert ([h] + more)[1..] == more;
  }

  lemma OneMoreHunk(ls: seq<ScannedLine>, h: Hunk, hunks: seq<Hunk>, body: UpdateBody, k: nat, n: nat, more: seq<Hunk>)
    requires ls != [] && TitlesHunk(ls[0]) && h.lines != []
    requires OpenReads(ls[1..], OpenHunk(ls[0].hunkContext.value), hunks + [h], body, k, n, more)
    ensures OpenReads(ls, h, hunks, body, 0, n + 1, [Longer(OpenHunk(ls[0].hunkContext.value), ls[1..][..k])] + more)
  {
    var next := Longer(OpenHunk(ls[0].hunkContext.value), ls[1..][..k]);
    TitledReads(ls, k, false);
    FirstTaken(ls, n);
    var ss := ls[..n + 1];
    assert ss[..k + 1] == ls[..k + 1] && ss[k + 1..] == ls[1..][k..n];
    HunksReadMore(ss, k + 1, next, more, false);
    LongerByNone(h);
    assert ls[..0] == [] && ls[0..n + 1] == ss;
    assert hunks + [h] + [next] + more == hunks + [h] + ([next] + more);
  }

  lemma {:induction false} OpenTakesLine(ls: seq<ScannedLine>, hunks: seq<Hunk>, h: Hunk, path: string)
    requires Genuine(ls) && ls != [] && InHunk(ls[0])
    ensures ParseUpdateBody(ls, hunks, Some(h), path) == ParseUpdateBody(ls[1..], hunks, Some(Longer(h, [ls[0]])), path)
  {
    StepInHunk(ls[0], hunks, h, path);
  }

  lemma {:induction false} OpenEnds(ls: seq<ScannedLine>, hunks: seq<Hunk>, h: Hunk, path: string)
    requires ls == [] || (!InHunk(ls[0]) && !ls[0].header.NoHeader?)
    requires ParseUpdateBody(ls, hunks, Some(h), path).Ok?
    ensures h.lines != [] && EndsHunks(ls, true) && ParseUpdateBody(ls, hunks, Some(h), path).value == UpdateBody(hunks + [h], ls)
  {
  }

  lemma {:induction false} OpenTakesTitle(ls: seq<ScannedLine>, hunks: seq<Hunk>, h: Hunk, path: string)
    requires ls != [] && !InHunk(ls[0]) && ls[0].header.NoHeader?
    requires ParseUpdateBody(ls, hunks, Some(h), path).Ok?
    ensures h.lines != [] && TitlesHunk(ls[0])
    ensures ParseUpdateBody(ls, hunks, Some(h), path) ==
            ParseUpdateBody(ls[1..], hunks + [h], Some(OpenHunk(ls[0].hunkContext.value)), path)
  {
  }

  /** The lines of an update after a hunk was opened. */
  lemma {:induction false} ParsedOpen(ls: seq<ScannedLine>, hunks: seq<Hunk>, h: Hunk, path: string)
    returns (k: nat, n: nat, more: seq<Hunk>)
    requires Genuine(ls) && ParseUpdateBody(ls, hunks, Some(h), path).Ok?
    ensures OpenReads(ls, h, hunks, ParseUpdateBody(ls, hunks, Some(h), path).value, k, n, more)
  {
    var body := ParseUpdateBody(ls, hunks, Some(h), path).value;
    if ls == [] || (!InHunk(ls[0]) && !ls[0].header.NoHeader?) {
      OpenEnds(ls, hunks, h, path);
      OpenAtEnd(ls, h, hunks);
      return 0, 0, [];
    }
    GenuineRest(ls, 1);
    if InHunk(ls[0]) {
      OpenTakesLine(ls, hunks, h, path);
      k, n, more := ParsedOpen(ls[1..], hunks, Longer(h, [ls[0]]), path);
      OneMoreLine(ls, h, hunks, body, k, n, more);
      k, n := k + 1, n + 1;
    } else {
      OpenTakesTitle(ls, hunks, h, path);
      var title := OpenHunk(ls[0].hunkContext.value);
      k, n, more := ParsedOpen(ls[1..], hunks + [h], title, path);
      OneMoreHunk(ls, h, hunks, body, k, n, more);
      k, n, more := 0, n + 1, [Longer(title, ls[1..][..k])] + more;
    }
  }

  /** What the lines of an update are before any hunk is open. */
  ghost predicate ClosedReads(ls: seq<ScannedLine>, body: UpdateBody, b: nat, n: nat, hs: seq<Hunk>) {
    && b <= n <= |ls| && AllBlank(ls[..b]) && HunksRead(ls[b..n], hs, true) && EndsHunks(ls[n..], hs != [])
    && body == UpdateBody(hs, ls[n..])
  }

  lemma OneMoreBlank(ls: seq<ScannedLine>, body: UpdateBody, b: nat, n: nat, hs: seq<Hunk>)
    requires ls != [] && ls[0].trimmed == "" && ClosedReads(ls[1..], body, b, n, hs)
    ensures ClosedReads(ls, body, b + 1, n + 1, hs)
  {
    FirstTaken(ls, n);
    assert ls[b + 1..n + 1] == ls[1..][b..n];
    var taken := ls[..b + 1];
    forall i | 0 <= i < |taken| ensures taken[i].trimmed == "" {
      assert i > 0 ==> taken[i] == ls[1..][..b][i - 1];
    }
  }

  lemma ClosedAtTitle(ls: seq<ScannedLine>, body: UpdateBody, k: nat, n: nat, more: seq<Hunk>)
    requires ls != [] && TitlesHunk(ls[0]) && OpenReads(ls[1..], OpenHunk(ls[0].hunkContext.value), [], body, k, n, more)
    ensures ClosedReads(ls, body, 0, n + 1, [Longer(OpenHunk(ls[0].hunkContext.value), ls[1..][..k])] + more)
  {
    var next := Longer(OpenHunk(ls[0].hunkContext.value), ls[1..][..k]);
    TitledReads(ls, k, true);
    FirstTaken(ls, n);
    var ss := ls[..n + 1];
    assert ss[..k + 1] == ls[..k + 1] && ss[k + 1..] == ls[1..][k..n];
    HunksReadMore(ss, k + 1, next, more, true);
    assert ls[0..n + 1] == ss && [] + [next] + more == [next] + more;
  }

  lemma ClosedAtLine(ls: seq<ScannedLine>, body: UpdateBody, k: nat, n: nat, more: seq<Hunk>)
    requires ls != [] && !TitlesHunk(ls[0]) && ls[0].trimmed != "" && !ls[0].isEndOfFile && ls[0].header.NoHeader?
    requires OpenReads(ls, BARE, [], body, k, n, more)
    ensures ClosedReads(ls, body, 0, n, [Longer(BARE, ls[..k])] + more)
  {
    var ss := ls[..n];
    assert [] + LinesOf(ls[..k]) == LinesOf(ls[..k]);
    assert ss[..k] == ls[..k] && ss[k..] == ls[k..n] && ls[0..n] == ss;
    HunksReadMore(ss, k, Longer(BARE, ls[..k]), more, true);
    assert [] + [Longer(BARE, ls[..k])] + more == [Longer(BARE, ls[..k])] + more;
  }

  lemma {:induction false} ClosedEnds(ls: seq<ScannedLine>, path: string)
    requires Genuine(ls) && (ls == [] || (ls[0].trimmed != "" && !ls[0].header.NoHeader?))
    ensures ParseUpdateBody(ls, [], None, path) == Ok(UpdateBody([], ls))
    ensures ClosedReads(ls, UpdateBody([], ls), 0, 0, [])
  {
    if ls != [] {
      HeaderFacts(ls[0]);
    }
    assert ls[..0] == [] && ls[0..] == ls && ls[0..0] == [];
  }

  lemma {:induction false} ClosedTakesTitle(ls: seq<ScannedLine>, path: string)
    requires Genuine(ls) && ls != [] && TitlesHunk(ls[0])
    ensures ParseUpdateBody(ls, [], None, path) == ParseUpdateBody(ls[1..], [], Some(OpenHunk(ls[0].hunkContext.value)), path)
  {
    TitleFacts(ls[0]);
  }

  lemma {:induction false} ClosedTakesLine(ls: seq<ScannedLine>, path: string)
    requires Genuine(ls) && ls != [] && ls[0].trimmed != "" && ls[0].header.NoHeader? && !TitlesHunk(ls[0])
    requires ParseUpdateBody(ls, [], None, path).Ok?
    ensures !ls[0].isEndOfFile && ParseUpdateBody(ls, [], None, path) == ParseUpdateBody(ls, [], Some(BARE), path)
  {
    StepInHunk(ls[0], [], BARE, path);
  }

  /** The lines of an update before a hunk is opened. */
  lemma {:induction false} ParsedClosed(ls: seq<ScannedLine>, path: string) returns (b: nat, n: nat, hs: seq<Hunk>)
    requires Genuine(ls) && ParseUpdateBody(ls, [], None, path).Ok?
    ensures ClosedReads(ls, ParseUpdateBody(ls, [], None, path).value, b, n, hs)
  {
    var body := ParseUpdateBody(ls, [], None, path).value;
    if ls == [] || (ls[0].trimmed != "" && !ls[0].header.NoHeader?) {
      ClosedEnds(ls, path);
      return 0, 0, [];
    }
    GenuineRest(ls, 1);
    if ls[0].trimmed == "" {
      b, n, hs := ParsedClosed(ls[1..], path);
      OneMoreBlank(ls, body, b, n, hs);
      b, n := b + 1, n + 1;
    } else if TitlesHunk(ls[0]) {
      ClosedTakesTitle(ls, path);
      var title := OpenHunk(ls[0].hunkContext.value);
      var k, m, more := ParsedOpen(ls[1..], [], title, path);
      ClosedAtTitle(ls, body, k, m, more);
      b, n, hs := 0, m + 1, [Longer(title, ls[1..][..k])] + more;
    } else {
      ClosedTakesLine(ls, path);
      var k, m, more := ParsedOpen(ls, [], BARE, path);
      ClosedAtLine(ls, body, k, m, more);
      b, n, hs := 0, m, [Longer(BARE, ls[..k])] + more;
    }
  }

  lemma ClosedBody(ls: seq<ScannedLine>, body: UpdateBody, b: nat, n: nat, hs: seq<Hunk>)
    requires ClosedReads(ls, body, b, n, hs)
    ensures BodyReads(ls[..n], hs) && (hs != [] ==> ls[..n] != [] && ls[..n][0] == ls[0])
  {
    var ss := ls[..n];
    assert ss[..b] == ls[..b] && ss[b..] == ls[b..n];
    assert ss == [] ==> ss[b..] == [];
  }

  lemma ClosedAfterMove(ls: seq<ScannedLine>, body: UpdateBody, b: nat, m: nat, hs: seq<Hunk>)
    requires ls != [] && ClosedReads(ls[1..], body, b, m, hs)
    ensures m + 1 <= |ls| && body == UpdateBody(hs, ls[m + 1..])
    ensures BodyReads(ls[..m + 1][1..], hs) && EndsHunks(ls[m + 1..], hs != [])
  {
    ClosedBody(ls[1..], body, b, m, hs);
    FirstTaken(ls, m);
  }

  lemma {:induction false} ParsedMove(ls: seq<ScannedLine>, path: string) returns (n: nat, hs: seq<Hunk>)
    requires Genuine(ls) && ls != [] && ls[0].moveTo.Some? && ParseUpdateBody(ls[1..], [], None, path).Ok?
    ensures 1 <= n <= |ls| && ParseUpdateBody(ls[1..], [], None, path).value == UpdateBody(hs, ls[n..])
    ensures BodyReads(ls[..n][1..], hs) && EndsHunks(ls[n..], hs != [])
  {
    GenuineRest(ls, 1);
    var b, m, found := ParsedClosed(ls[1..], path);
    ClosedAfterMove(ls, ParseUpdateBody(ls[1..], [], None, path).value, b, m, found);
    n, hs := m + 1, found;
  }

  lemma {:induction false} ParsedStay(ls: seq<ScannedLine>, path: string) returns (n: nat, hs: seq<Hunk>)
    requires Genuine(ls) && ParseUpdateBody(ls, [], None, path).Ok?
    ensures n <= |ls| && ParseUpdateBody(ls, [], None, path).value == UpdateBody(hs, ls[n..])
    ensures BodyReads(ls[..n], hs) && EndsHunks(ls[n..], hs != [])
    ensures hs != [] ==> ls[..n] != [] && ls[..n][0] == ls[0]
  {
    var b, m, found := ParsedClosed(ls, path);
    ClosedBody(ls, ParseUpdateBody(ls, [], None, path).value, b, m, found);
    n, hs := m, found;
  }

  /** The lines of an update, with its destination. */
  lemma {:induction false} ParsedUpdate(path: string, ls: seq<ScannedLine>) returns (n: nat)
    requires Genuine(ls) && ParseUpdate(path, ls).Ok?
    ensures n <= |ls| && ParseUpdate(path, ls).value.rest == ls[n..]
    ensures ParseUpdate(path, ls).value.action.Some? && ParseUpdate(path, ls).value.action.value.UpdateFile?
    ensures var a := ParseUpdate(path, ls).value.action.value;
            a.path == path && UpdateReads(ls[..n], a.moveTo, a.hunks) && Ends(a, ls[n..])
  {
    if MoveDestination(ls).Some? {
      var m, hs := ParsedMove(ls, path);
      n := m;
    } else {
      var m, hs := ParsedStay(ls, path);
      n := m;
    }
  }

  /** An added file that is parsed is in the grammar. */
  lemma {:induction false} ParsedAddFile(path: string, ls: seq<ScannedLine>) returns (n: nat)
    requires Genuine(ls) && ParseAdd(path, ls).Ok?
    ensures n <= |ls| && ParseAdd(path, ls).value.rest == ls[n..] && EndsHunks(ls[n..], false)
    ensures ParseAdd(path, ls).value.action.Some? && ParseAdd(path, ls).value.action.value.AddFile?
    ensures var a := ParseAdd(path, ls).value.action.value; a.path == path && AddReads(ls[..n], a.content)
  {
    n := ParsedAdd(ls);
    AddNotEmpty(ls[..n]);
  }

  lemma {:induction false} ParsedBody(head: ScannedLine, ls: seq<ScannedLine>) returns (m: nat)
    requires Genuine(ls) && !head.header.EnvironmentHeader? && ParseAction(head, ls).Ok?
    ensures m <= |ls| && ParseAction(head, ls).value.action.Some? && ParseAction(head, ls).value.rest == ls[m..]
    ensures var a := ParseAction(head, ls).value.action.value; ActionReads(head, ls[..m], a) && Ends(a, ls[m..])
  {
    m := 0;
    match head.header {
      case AddHeader(path) => m := ParsedAddFile(path, ls);
      case UpdateHeader(path) => m := ParsedUpdate(path, ls);
      case _ =>
    }
  }

  lemma ReadFirst(ls: seq<ScannedLine>, a: Action, m: nat)
    requires ls != [] && m < |ls| && ActionReads(ls[0], ls[1..][..m], a) && Ends(a, ls[1..][m..])
    ensures FirstReads(ls, a, m + 1) && ls[1..][m..] == ls[m + 1..]
  {
    assert ls[1..m + 1] == ls[1..][..m] && ls[m + 1..] == ls[1..][m..];
  }

  /** One action that is parsed is in the grammar. */
  lemma {:induction false} ParsedAction(ls: seq<ScannedLine>) returns (n: nat)
    requires Genuine(ls) && ls != [] && !ls[0].header.EnvironmentHeader? && ParseAction(ls[0], ls[1..]).Ok?
    ensures ParseAction(ls[0], ls[1..]).value.action.Some?
    ensures FirstReads(ls, ParseAction(ls[0], ls[1..]).value.action.value, n)
    ensures ParseAction(ls[0], ls[1..]).value.rest == ls[n..]
  {
    GenuineRest(ls, 1);
    var m := ParsedBody(ls[0], ls[1..]);
    n := m + 1;
    ReadFirst(ls, ParseAction(ls[0], ls[1..]).value.action.value, m);
  }

  lemma MeansFirst(ls: seq<ScannedLine>, a: Action, n: nat, more: seq<Action>)
    requires ls != [] && ls[0].trimmed != "" && !ls[0].header.EnvironmentHeader?
    requires FirstReads(ls, a, n) && Means(ls[n..], more)
    ensures Means(ls, [a] + more)
  {
    assert ([a] + more)[1..] == more;
  }

  /** Lines that are parsed mean what they are parsed to. */
  lemma {:induction false} ParsedIsMeant(ls: seq<ScannedLine>, before: seq<Action>) returns (actions: seq<Action>)
    requires Genuine(ls) && ParseActions(ls, before).Ok?
    ensures Means(ls, actions) && ParseActions(ls, before).value == before + actions
    decreases |ls|, 1
  {
    if ls == [] {
      assert before + [] == before;
      return [];
    }
    GenuineRest(ls, 1);
    if ls[0].trimmed == "" || ls[0].header.EnvironmentHeader? {
      actions := ParsedIsMeant(ls[1..], before);
    } else {
      actions := ParsedFirst(ls, before);
    }
  }

  lemma {:induction false} ParsedFirst(ls: seq<ScannedLine>, before: seq<Action>) returns (actions: seq<Action>)
    requires Genuine(ls) && ParseActions(ls, before).Ok?
    requires ls != [] && ls[0].trimmed != "" && !ls[0].header.EnvironmentHeader?
    ensures Means(ls, actions) && ParseActions(ls, before).value == before + actions
    decreases |ls|, 0
  {
    var n := ParsedAction(ls);
    var a := ParseAction(ls[0], ls[1..]).value.action.value;
    GenuineRest(ls, n);
    ParseActionsStep(ls, Parsed(Some(a), ls[n..]), before);
    var more := ParsedIsMeant(ls[n..], before + [a]);
    MeansFirst(ls, a, n, more);
    actions := [a] + more;
    MoveFirst(before, actions);
  }

  // --------------------------------------------------------------------- the theorem

  /** Lines have at most one meaning, and the parser finds it exactly when there is one. */
  lemma {:induction false} ParsedExactly(lines: seq<string>, actions: seq<Action>)
    ensures ParseActions(ScanAll(lines), []) == Ok(actions) <==> Means(ScanAll(lines), actions)
  {
    var ls := ScanAll(lines);
    assert Genuine(ls);
    if Means(ls, actions) {
      MeantIsParsed(ls, actions, []);
      assert [] + actions == actions;
    }
    if ParseActions(ls, []) == Ok(actions) {
      var found := ParsedIsMeant(ls, []);
      assert [] + found == found;
    }
  }

  lemma {:induction false} LinesMeaning(lines: seq<string>, actions: seq<Action>)
    requires lines != []
    ensures ParseLines(lines) == Ok(actions) <==>
              && |lines| >= 2 && Trim(lines[0]) == "*** Begin Patch" && Trim(lines[|lines| - 1]) == "*** End Patch"
              && actions != [] && Means(ScanAll(lines[1..|lines| - 1]), actions)
    ensures if Trim(lines[0]) != "*** Begin Patch" then ParseLines(lines) == Err(MissingBegin)
            else if |lines| == 1 || Trim(lines[|lines| - 1]) != "*** End Patch" then ParseLines(lines) == Err(MissingEnd)
            else Means(ScanAll(lines[1..|lines| - 1]), []) ==> ParseLines(lines) == Err(NoActions)
  {
    if |lines| >= 2 {
      ParsedExactly(lines[1..|lines| - 1], actions);
      ParsedExactly(lines[1..|lines| - 1], []);
    }
  }

  /** A patch is accepted exactly when its first line and its last, a line of its own, are the
      markers, and the lines between them mean at least one action; it is read as what they mean. */
  lemma {:induction false} PatchMeaning(patch: string, actions: seq<Action>)
    ensures var lines := PatchLines(patch);
            Parse(patch) == Ok(actions) <==>
              && |lines| >= 2 && Trim(lines[0]) == "*** Begin Patch" && Trim(lines[|lines| - 1]) == "*** End Patch"
              && actions != [] && Means(ScanAll(lines[1..|lines| - 1]), actions)
  {
    LinesMeaning(PatchLines(patch), actions);
  }

  /** What is said of a patch without its markers, or without an action. */
  lemma {:induction false} MarkersMissing(patch: string)
    ensures var lines := PatchLines(patch);
            if Trim(lines[0]) != "*** Begin Patch" then Parse(patch) == Err(MissingBegin)
            else if |lines| == 1 || Trim(lines[|lines| - 1]) != "*** End Patch" then Parse(patch) == Err(MissingEnd)
            else Means(ScanAll(lines[1..|lines| - 1]), []) ==> Parse(patch) == Err(NoActions)
  {
    LinesMeaning(PatchLines(patch), []);
  }
}
