/** Translating whole-file writes and string-level edits into one patch text. */
module LegacyWrites {
  import opened Options
  import opened Text
  import opened PatchSyntax

  datatype Edit = Edit(oldText: string, newText: string)

  datatype EditError =
    | NoEdits
    | EmptyOldText(index: nat)
    | NotFound(index: nat)
    | Ambiguous(index: nat)
    | Overlap(first: nat, second: nat)

  datatype EditResult<+T> = Done(value: T) | Refused(error: EditError) {
    predicate IsFailure() {
      Refused?
    }

    function PropagateFailure<U>(): EditResult<U>
      requires Refused?
    {
      Refused(error)
    }

    function Extract(): T
      requires Done?
    {
      value
    }
  }

  /** Where an edit applies: the span of its old text, and its new text. */
  datatype Match = Match(index: nat, start: nat, end: nat, newText: string)

  /** Matches widened to a span of whole lines. */
  datatype Group = Group(lineStart: nat, lineEnd: nat, members: seq<Match>)

  // ------------------------------------------------------- searching in text

  predicate OccursAt(s: string, t: string, i: nat) {
    i + |t| <= |s| && s[i..i + |t|] == t
  }

  /** indexOf: the first occurrence at or after a position, or -1. */
  function IndexOf(s: string, t: string, from: nat): int
    decreases |s| - from
  {
    if from + |t| > |s| then -1
    else if OccursAt(s, t, from) then from
    else if from == |s| then -1
    else IndexOf(s, t, from + 1)
  }

  /** lastIndexOf for a newline, at or before a position. As in JavaScript, a negative
      position is taken for 0. */
  function LastNewline(s: string, from: int): int
    requires from < |s| && s != []
    decreases from
  {
    if from <= 0 then (if s[0] == '\n' then 0 else -1)
    else if s[from] == '\n' then from
    else LastNewline(s, from - 1)
  }

  /** slice: empty when the bounds cross. */
  function Slice(s: string, from: nat, to: nat): string
    requires to <= |s|
  {
    if from <= to then s[from..to] else ""
  }

  // ---------------------------------------------------------------- matching

  function FindMatch(content: string, edit: Edit, index: nat): EditResult<Match> {
    var oldText := NormalizeEol(edit.oldText);
    if oldText == "" then Refused(EmptyOldText(index))
    else
      var start := IndexOf(content, oldText, 0);
      if start < 0 then Refused(NotFound(index))
      else if IndexOf(content, oldText, start + 1) >= 0 then Refused(Ambiguous(index))
      else Done(Match(index, start, start + |oldText|, NormalizeEol(edit.newText)))
  }

  function FindMatches(content: string, edits: seq<Edit>, index: nat): EditResult<seq<Match>>
    requires index <= |edits|
    decreases |edits| - index
  {
    if index == |edits| then Done([])
    else
      var m :- FindMatch(content, edits[index], index);
      var ms :- FindMatches(content, edits, index + 1);
      Done([m] + ms)
  }

  function InsertByStart(m: Match, ms: seq<Match>): seq<Match> {
    if ms == [] || m.start <= ms[0].start then [m] + ms else [ms[0]] + InsertByStart(m, ms[1..])
  }

  /** The matches by start, equal starts in their original order. */
  function SortByStart(ms: seq<Match>): seq<Match> {
    if ms == [] then [] else InsertByStart(ms[0], SortByStart(ms[1..]))
  }

  function FirstOverlap(ms: seq<Match>, i: nat): EditResult<()>
    requires 1 <= i
    decreases |ms| - i
  {
    if i >= |ms| then Done(())
    else if ms[i].start < ms[i - 1].end then Refused(Overlap(ms[i - 1].index, ms[i].index))
    else FirstOverlap(ms, i + 1)
  }

  /** The sorted matches of a list of edits, or why it is refused. */
  function SortedMatches(content: string, edits: seq<Edit>): EditResult<seq<Match>> {
    if edits == [] then Refused(NoEdits)
    else
      var found :- FindMatches(content, edits, 0);
      var ms := SortByStart(found);
      var _ :- FirstOverlap(ms, 1);
      Done(ms)
  }

  // ---------------------------------------------------------------- grouping

  predicate InText(content: string, m: Match) {
    m.start < m.end <= |content|
  }

  function LineStartOf(content: string, m: Match): nat
    requires InText(content, m)
  {
    LastNewlineBounds(content, m.start - 1);
    LastNewline(content, m.start - 1) + 1
  }

  function LineEndOf(content: string, m: Match): nat
    requires InText(content, m)
  {
    IndexOfBounds(content, "\n", m.end);
    var newline := IndexOf(content, "\n", m.end);
    if newline < 0 then |content| else newline
  }

  lemma {:induction false} LastNewlineBounds(s: string, from: int)
    requires from < |s| && s != []
    ensures var r := LastNewline(s, from);
            && -1 <= r <= (if from < 0 then 0 else from)
            && (r >= 0 ==> s[r] == '\n')
            && forall i | 0 <= i <= from && i > r :: s[i] != '\n'
    decreases from
  {
    if from > 0 && s[from] != '\n' {
      LastNewlineBounds(s, from - 1);
    }
  }

  lemma {:induction false} IndexOfBounds(s: string, t: string, from: nat)
    ensures var r := IndexOf(s, t, from);
            && (r >= 0 ==> from <= r && OccursAt(s, t, r))
            && (forall i: nat | from <= i && (r < 0 || i < r) :: !OccursAt(s, t, i))
            && r >= -1
    decreases |s| - from
  {
    if from + |t| <= |s| && !OccursAt(s, t, from) && from < |s| {
      IndexOfBounds(s, t, from + 1);
    }
  }

  /** A match joins the last group when its first line is one of that group's lines. */
  function AddToGroups(content: string, groups: seq<Group>, m: Match): seq<Group>
    requires InText(content, m)
  {
    var lineStart, lineEnd := LineStartOf(content, m), LineEndOf(content, m);
    if groups != [] && lineStart <= groups[|groups| - 1].lineEnd then
      var last := groups[|groups| - 1];
      var merged := Group(last.lineStart, if last.lineEnd < lineEnd then lineEnd else last.lineEnd, last.members + [m]);
      groups[..|groups| - 1] + [merged]
    else
      groups + [Group(lineStart, lineEnd, [m])]
  }

  predicate AllInText(content: string, ms: seq<Match>) {
    forall i | 0 <= i < |ms| :: InText(content, ms[i])
  }

  function GroupFrom(content: string, groups: seq<Group>, ms: seq<Match>): seq<Group>
    requires AllInText(content, ms)
    decreases |ms|
  {
    if ms == [] then groups else GroupFrom(content, AddToGroups(content, groups, ms[0]), ms[1..])
  }

  // ------------------------------------------------------------------- hunks

  predicate InGroup(content: string, g: Group) {
    && g.lineStart <= g.lineEnd <= |content|
    && forall i | 0 <= i < |g.members| :: InText(content, g.members[i]) && g.members[i].end <= g.lineEnd
  }

  /** The span of a text with each match in it replaced by its new text. */
  function Replaced(content: string, from: nat, to: nat, ms: seq<Match>): string
    requires to <= |content|
    requires forall i | 0 <= i < |ms| :: InText(content, ms[i]) && ms[i].end <= to
    decreases |ms|
  {
    if ms == [] then Slice(content, from, to)
    else assert InText(content, ms[0]); Slice(content, from, ms[0].start) + ms[0].newText + Replaced(content, ms[0].end, to, ms[1..])
  }

  function Before(content: string, g: Group): string
    requires InGroup(content, g)
  {
    content[g.lineStart..g.lineEnd]
  }

  function After(content: string, g: Group): string
    requires InGroup(content, g)
  {
    Replaced(content, g.lineStart, g.lineEnd, g.members)
  }

  function GroupOldLines(content: string, g: Group): seq<string>
    requires InGroup(content, g)
  {
    Split(Strip(Before(content, g)))
  }

  function GroupNewLines(content: string, g: Group): seq<string>
    requires InGroup(content, g)
  {
    if EndsWith(Before(content, g), '\n') && After(content, g) == "" then []
    else Split(Strip(After(content, g)))
  }

  function OfKind(kind: LineKind, ls: seq<string>): (r: seq<HunkLine>)
    ensures |r| == |ls| && forall i | 0 <= i < |ls| :: r[i] == HunkLine(kind, ls[i])
  {
    seq(|ls|, i requires 0 <= i < |ls| => HunkLine(kind, ls[i]))
  }

  function GroupHunk(content: string, g: Group): Hunk
    requires InGroup(content, g)
  {
    Hunk(OfKind(Remove, GroupOldLines(content, g)) + OfKind(Add, GroupNewLines(content, g)), None, false)
  }

  function GroupHunks(content: string, groups: seq<Group>): (r: seq<Hunk>)
    requires forall i | 0 <= i < |groups| :: InGroup(content, groups[i])
    ensures |r| == |groups| && forall i | 0 <= i < |groups| :: r[i] == GroupHunk(content, groups[i])
  {
    seq(|groups|, i requires 0 <= i < |groups| => GroupHunk(content, groups[i]))
  }

  // --------------------------------------------------------- the two compilers

  lemma {:induction false} FindMatchesInText(content: string, edits: seq<Edit>, index: nat)
    requires index <= |edits| && FindMatches(content, edits, index).Done?
    ensures AllInText(content, FindMatches(content, edits, index).value)
    decreases |edits| - index
  {
    if index < |edits| {
      var oldText := NormalizeEol(edits[index].oldText);
      IndexOfBounds(content, oldText, 0);
      FindMatchesInText(content, edits, index + 1);
    }
  }

  lemma {:induction false} InsertInText(content: string, m: Match, ms: seq<Match>)
    requires InText(content, m) && AllInText(content, ms)
    ensures AllInText(content, InsertByStart(m, ms))
  {
    if ms != [] && m.start > ms[0].start {
      InsertInText(content, m, ms[1..]);
    }
  }

  lemma {:induction false} SortInText(content: string, ms: seq<Match>)
    requires AllInText(content, ms)
    ensures AllInText(content, SortByStart(ms))
  {
    if ms != [] {
      SortInText(content, ms[1..]);
      InsertInText(content, ms[0], SortByStart(ms[1..]));
    }
  }

  lemma SortedMatchesInText(content: string, edits: seq<Edit>)
    requires SortedMatches(content, edits).Done?
    ensures AllInText(content, SortedMatches(content, edits).value)
  {
    FindMatchesInText(content, edits, 0);
    SortInText(content, FindMatches(content, edits, 0).value);
  }

  predicate AllInGroup(content: string, groups: seq<Group>) {
    forall i | 0 <= i < |groups| :: InGroup(content, groups[i])
  }

  lemma AddToGroupsInGroup(content: string, groups: seq<Group>, m: Match)
    requires InText(content, m) && AllInGroup(content, groups)
    ensures AllInGroup(content, AddToGroups(content, groups, m))
  {
    LastNewlineBounds(content, m.start - 1);
    IndexOfBounds(content, "\n", m.end);
  }

  lemma {:induction false} GroupFromInGroup(content: string, groups: seq<Group>, ms: seq<Match>)
    requires AllInText(content, ms) && AllInGroup(content, groups)
    ensures AllInGroup(content, GroupFrom(content, groups, ms))
    decreases |ms|
  {
    if ms != [] {
      AddToGroupsInGroup(content, groups, ms[0]);
      GroupFromInGroup(content, AddToGroups(content, groups, ms[0]), ms[1..]);
    }
  }

  /** The hunks an edit request compiles to. */
  function EditHunks(content: string, ms: seq<Match>): seq<Hunk>
    requires AllInText(content, ms)
  {
    GroupFromInGroup(content, [], ms);
    GroupHunks(content, GroupFrom(content, [], ms))
  }

  /** The patch an edit request compiles to. */
  function EditPatch(path: string, edits: seq<Edit>, original: string): EditResult<string> {
    var content := NormalizeEol(original);
    var ms :- SortedMatches(content, edits);
    SortedMatchesInText(content, edits);
    Done(Print([UpdateFile(path, None, EditHunks(content, ms))]))
  }

  /** The patch a whole-file write compiles to. */
  function WritePatch(path: string, content: string): string {
    Print([AddFile(path, NormalizeEol(content))])
  }

  lemma WriteDocument(path: string, content: string)
    ensures Print([AddFile(path, content)]) == Join([BEGIN, ADD + path] + AddLines(content) + [END])
  {
    OneAction(AddFile(path, content));
    OneFirst(BEGIN, ADD + path, AddLines(content));
  }

  method LegacyWriteToPatch(path: string, content: string) returns (patch: string)
    ensures patch == WritePatch(path, content)
  {
    var normalized := NormalizeEol(content);
    var finalNewline := EndsWith(normalized, '\n');
    var lines := if normalized == "" then [] else Prefixed('+', Split(Strip(normalized)));
    if !finalNewline {
      lines := lines + [NO_NEWLINE];
    }
    assert lines == AddLines(normalized);
    WriteDocument(path, normalized);
    patch := Join([BEGIN, ADD + path] + lines + [END]);
  }

  ghost function AfterMatches(found: seq<Match>, r: EditResult<seq<Match>>): EditResult<seq<Match>> {
    match r
    case Refused(e) => Refused(e)
    case Done(ms) => Done(found + ms)
  }

  method MatchEdits(content: string, edits: seq<Edit>) returns (r: EditResult<seq<Match>>)
    ensures r == FindMatches(content, edits, 0)
  {
    var matches: seq<Match> := [];
    assert AfterMatches([], FindMatches(content, edits, 0)) == FindMatches(content, edits, 0) by {
      if FindMatches(content, edits, 0).Done? {
        assert [] + FindMatches(content, edits, 0).value == FindMatches(content, edits, 0).value;
      }
    }
    for i := 0 to |edits|
      invariant FindMatches(content, edits, 0) == AfterMatches(matches, FindMatches(content, edits, i))
    {
      var m :- FindMatch(content, edits[i], i);
      if FindMatches(content, edits, i + 1).Done? {
        assert matches + ([m] + FindMatches(content, edits, i + 1).value) ==
               (matches + [m]) + FindMatches(content, edits, i + 1).value;
      }
      matches := matches + [m];
    }
    assert matches + [] == matches;
    return Done(matches);
  }

  method GroupMatches(content: string, matches: seq<Match>) returns (groups: seq<Group>)
    requires AllInText(content, matches)
    ensures groups == GroupFrom(content, [], matches) && AllInGroup(content, groups)
  {
    groups := [];
    for i := 0 to |matches|
      invariant AllInGroup(content, groups)
      invariant GroupFrom(content, [], matches) == GroupFrom(content, groups, matches[i..])
    {
      var m := matches[i];
      assert matches[i..][0] == m && matches[i..][1..] == matches[i + 1..];
      AddToGroupsInGroup(content, groups, m);
      var lineStart, lineEnd := LineStartOf(content, m), LineEndOf(content, m);
      if groups != [] && lineStart <= groups[|groups| - 1].lineEnd {
        var previous := groups[|groups| - 1];
        var end := if previous.lineEnd < lineEnd then lineEnd else previous.lineEnd;
        groups := groups[..|groups| - 1] + [Group(previous.lineStart, end, previous.members + [m])];
      } else {
        groups := groups + [Group(lineStart, lineEnd, [m])];
      }
    }
  }

  method AfterText(content: string, g: Group) returns (after: string)
    requires InGroup(content, g)
    ensures after == After(content, g)
  {
    after := "";
    var cursor: nat := g.lineStart;
    for i := 0 to |g.members|
      invariant cursor <= g.lineEnd
      invariant After(content, g) == after + Replaced(content, cursor, g.lineEnd, g.members[i..])
    {
      var member := g.members[i];
      assert g.members[i..][0] == member && g.members[i..][1..] == g.members[i + 1..];
      assert InText(content, member) && member.end <= g.lineEnd;
      ghost var rest := Replaced(content, member.end, g.lineEnd, g.members[i + 1..]);
      assert after + (Slice(content, cursor, member.start) + member.newText + rest) ==
             (after + (Slice(content, cursor, member.start) + member.newText)) + rest;
      after := after + (Slice(content, cursor, member.start) + member.newText);
      cursor := member.end;
    }
    after := after + Slice(content, cursor, g.lineEnd);
  }

  lemma PrintPlainHunk(oldLines: seq<string>, newLines: seq<string>)
    ensures PrintHunk(Hunk(OfKind(Remove, oldLines) + OfKind(Add, newLines), None, false)) ==
            ["@@"] + Prefixed('-', oldLines) + Prefixed('+', newLines)
  {
  }

  /** The lines of one hunk, as text. */
  method HunkText(content: string, g: Group) returns (lines: seq<string>)
    requires InGroup(content, g)
    ensures lines == PrintHunk(GroupHunk(content, g))
  {
    var before := content[g.lineStart..g.lineEnd];
    var after := AfterText(content, g);
    var consumedFinalNewline := EndsWith(before, '\n');
    var oldLines := Split(Strip(before));
    var newLines := if consumedFinalNewline && after == "" then [] else Split(Strip(after));
    PrintPlainHunk(oldLines, newLines);
    lines := ["@@"] + Prefixed('-', oldLines) + Prefixed('+', newLines);
  }

  method CheckOverlaps(matches: seq<Match>) returns (r: EditResult<()>)
    ensures r == FirstOverlap(matches, 1)
  {
    var i := 1;
    while i < |matches|
      invariant 1 <= i && FirstOverlap(matches, 1) == FirstOverlap(matches, i)
    {
      if matches[i].start < matches[i - 1].end {
        return Refused(Overlap(matches[i - 1].index, matches[i].index));
      }
      i := i + 1;
    }
    return Done(());
  }

  lemma PrintHunksStep(body: seq<string>, hunks: seq<Hunk>, i: nat)
    requires i < |hunks|
    ensures body + PrintHunks(hunks[i..]) == (body + PrintHunk(hunks[i])) + PrintHunks(hunks[i + 1..])
  {
    assert hunks[i..][0] == hunks[i] && hunks[i..][1..] == hunks[i + 1..];
    assert body + (PrintHunk(hunks[i]) + PrintHunks(hunks[i + 1..])) ==
           (body + PrintHunk(hunks[i])) + PrintHunks(hunks[i + 1..]);
  }

  method HunkTexts(content: string, groups: seq<Group>) returns (body: seq<string>)
    requires AllInGroup(content, groups)
    ensures body == PrintHunks(GroupHunks(content, groups))
  {
    ghost var hunks := GroupHunks(content, groups);
    body := [];
    for i := 0 to |groups|
      invariant PrintHunks(hunks) == body + PrintHunks(hunks[i..])
    {
      PrintHunksStep(body, hunks, i);
      var lines := HunkText(content, groups[i]);
      body := body + lines;
    }
    assert body + [] == body;
  }

  lemma OneAction(a: Action)
    ensures PrintActions([a]) == PrintAction(a)
  {
    assert [a][1..] == [] && PrintAction(a) + [] == PrintAction(a);
  }

  lemma OneFirst<T>(a: T, b: T, ls: seq<T>)
    ensures [a] + ([b] + ls) == [a, b] + ls
  {
  }

  lemma {:induction false} UpdateDocument(path: string, hunks: seq<Hunk>)
    ensures Print([UpdateFile(path, None, hunks)]) == Join([BEGIN, UPDATE + path] + PrintHunks(hunks) + [END])
  {
    OneAction(UpdateFile(path, None, hunks));
    assert [UPDATE + path] + [] == [UPDATE + path];
    OneFirst(BEGIN, UPDATE + path, PrintHunks(hunks));
  }

  method LegacyEditToPatch(path: string, edits: seq<Edit>, original: string) returns (r: EditResult<string>)
    ensures r == EditPatch(path, edits, original)
  {
    if edits == [] {
      return Refused(NoEdits);
    }
    var content := NormalizeEol(original);
    var found :- MatchEdits(content, edits);
    var matches := SortByStart(found);
    var _ :- CheckOverlaps(matches);
    SortedMatchesInText(content, edits);
    var groups := GroupMatches(content, matches);
    var body := HunkTexts(content, groups);
    UpdateDocument(path, GroupHunks(content, groups));
    return Done(Join([BEGIN, UPDATE + path] + body + [END]));
  }
}
