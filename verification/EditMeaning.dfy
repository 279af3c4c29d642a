/** The hunks an edit request compiles to, each with its window: the lines it was widened to,
    found nowhere before them. */
module EditMeaning {
  import opened Options
  import opened Text
  import opened PatchSyntax
  import opened PatchEngine
  import opened LegacyWrites

  // ------------------------------------------------------ matches and groups

  /** The old text of a match occurs nowhere else. */
  ghost predicate OnlyThere(content: string, m: Match)
    requires InText(content, m)
  {
    forall i: nat | i != m.start :: !OccursAt(content, content[m.start..m.end], i)
  }

  /** Matches in order, apart, from a position on. */
  ghost predicate Ordered(content: string, ms: seq<Match>, from: nat) {
    && AllInText(content, ms)
    && (forall i | 0 <= i < |ms| :: from <= ms[i].start && OnlyThere(content, ms[i]))
    && (forall i, j | 0 <= i < j < |ms| :: ms[i].end <= ms[j].start)
  }

  predicate IsLineStart(content: string, i: nat)
    requires i <= |content|
  {
    i == 0 || content[i - 1] == '\n'
  }

  predicate IsLineEnd(content: string, i: nat)
    requires i <= |content|
  {
    i == |content| || content[i] == '\n'
  }

  // ------------------------------------------------------ a hunk and its window

  /** The terminated text a hunk looks for, and the one it puts in its place. */
  function OldText(content: string, g: Group): string
    requires InGroup(content, g)
  {
    EnsureFinal(Before(content, g))
  }

  function NewText(content: string, g: Group): string
    requires InGroup(content, g)
  {
    if EndsWith(Before(content, g), '\n') && After(content, g) == "" then "" else EnsureFinal(After(content, g))
  }

  /** Where the lines a hunk looks for end in the file. */
  function WindowEnd(content: string, g: Group): nat
    requires InGroup(content, g)
  {
    if EndsWith(Before(content, g), '\n') then g.lineEnd else g.lineEnd + 1
  }

  /** A group spans whole lines, and the lines its hunk looks for occur nowhere before them. */
  ghost predicate GroupOk(content: string, g: Group) {
    && InGroup(content, g) && g.lineStart < g.lineEnd
    && IsLineStart(content, g.lineStart) && IsLineEnd(content, g.lineEnd)
    && forall x: nat | x < g.lineStart :: !OccursAt(EnsureFinal(content), OldText(content, g), x)
  }

  predicate Separated(groups: seq<Group>) {
    forall i, j | 0 <= i < j < |groups| :: groups[i].lineEnd < groups[j].lineStart
  }

  ghost predicate GroupsOk(content: string, groups: seq<Group>) {
    (forall i | 0 <= i < |groups| :: GroupOk(content, groups[i])) && Separated(groups)
  }

  lemma GroupLines(content: string, g: Group)
    requires InGroup(content, g)
    ensures Unlines(GroupOldLines(content, g)) == OldText(content, g) && AreLines(GroupOldLines(content, g))
    ensures Unlines(GroupNewLines(content, g)) == NewText(content, g) && AreLines(GroupNewLines(content, g))
  {
    SplitStrip(Before(content, g));
    SplitStrip(After(content, g));
  }

  lemma Window(content: string, g: Group)
    requires GroupOk(content, g)
    ensures var file := EnsureFinal(content);
            var w := WindowEnd(content, g);
            && g.lineStart < w <= |file|
            && file[g.lineStart..w] == OldText(content, g)
            && Terminated(file[w..])
            && (w < |file| && w > 0 ==> file[w - 1] == '\n')
  {
    assert Before(content, g)[g.lineEnd - g.lineStart - 1] == content[g.lineEnd - 1];
  }

  // ------------------------------------------------- where a search finds them

  lemma OccursInMiddle(x: string, y: string, z: string)
    ensures OccursAt(x + y + z, y, |x|)
  {
    assert (x + y + z)[|x|..|x| + |y|] == y;
  }

  /** Where some lines occur in a text. */
  lemma {:induction false} LinesOccur(a: seq<string>, b: seq<string>, c: seq<string>)
    ensures OccursAt(Unlines(a + b + c), Unlines(b), |Unlines(a)|)
  {
    UnlinesAppend(a, b);
    UnlinesAppend(a + b, c);
    OccursInMiddle(Unlines(a), Unlines(b), Unlines(c));
  }

  lemma {:induction false} UnlinesPrefixShorter(ls: seq<string>, p: nat)
    requires p < |ls|
    ensures |Unlines(ls[..p])| < |Unlines(ls)|
  {
    assert ls == ls[..p] + ls[p..];
    UnlinesAppend(ls[..p], ls[p..]);
  }

  lemma FirstMatchIs(hay: seq<string>, needle: seq<string>, start: nat, index: nat)
    requires LeastMatch(hay, needle, start, index, Exact) && needle != []
    ensures FindSequence(hay, needle, start, false) == index
  {
    FirstMatchMeaning(hay, needle, start, Exact);
    ThreeTiers(hay, needle, start);
  }

  lemma SliceMatches(hay: seq<string>, needle: seq<string>, index: nat)
    requires index + |needle| <= |hay| && hay[index..index + |needle|] == needle
    ensures MatchesAt(hay, needle, index, Exact)
  {
    forall k | 0 <= k < |needle| ensures Fold(Exact, hay[index + k]) == Fold(Exact, needle[k]) {
      assert hay[index..index + |needle|][k] == needle[k];
    }
  }

  lemma MatchSlices(hay: seq<string>, needle: seq<string>, index: nat)
    requires index + |needle| <= |hay|
    ensures MatchesAt(hay, needle, index, Exact) ==> hay[index..index + |needle|] == needle
  {
    if MatchesAt(hay, needle, index, Exact) {
      forall k | 0 <= k < |needle| ensures hay[index..index + |needle|][k] == needle[k] {
        assert Fold(Exact, hay[index + k]) == Fold(Exact, needle[k]);
      }
    }
  }

  /** Lines a, then o, then r, where the text of o occurs nowhere before the end of a. */
  ghost predicate NotBefore(a: seq<string>, o: seq<string>, r: seq<string>) {
    forall x: nat | x < |Unlines(a)| :: !OccursAt(Unlines(a + o + r), Unlines(o), x)
  }

  /** Where some lines of a list stand, their text occurs. */
  lemma {:induction false} SliceOccurs(ls: seq<string>, o: seq<string>, k: nat)
    requires k + |o| <= |ls|
    ensures ls[k..k + |o|] == o ==> OccursAt(Unlines(ls), Unlines(o), |Unlines(ls[..k])|)
  {
    if ls[k..k + |o|] == o {
      assert ls == ls[..k] + o + ls[k + |o|..];
      LinesOccur(ls[..k], o, ls[k + |o|..]);
    }
  }

  lemma NoLineMatchBefore(a: seq<string>, o: seq<string>, r: seq<string>, k: nat)
    requires NotBefore(a, o, r) && k < |a| && k + |o| <= |a + o + r|
    ensures (a + o + r)[k..k + |o|] != o
  {
    UnlinesPrefixShorter(a, k);
    assert (a + o + r)[..k] == a[..k];
    SliceOccurs(a + o + r, o, k);
  }

  lemma CutHay<T>(done: seq<T>, a: seq<T>, o: seq<T>, r: seq<T>)
    ensures var hay, index := done + (a + o + r), |done| + |a|;
            && hay[..index] == done + a && hay[index..index + |o|] == o && hay[index + |o|..] == r
  {
  }

  lemma NoMatchBefore(a: seq<string>, o: seq<string>, r: seq<string>)
    requires NotBefore(a, o, r)
    ensures NoMatch(a + o + r, o, 0, |a|, Exact)
  {
    var ls := a + o + r;
    forall i: nat | i < |a| && i + |o| <= |ls| ensures !MatchesAt(ls, o, i, Exact) {
      NoLineMatchBefore(a, o, r, i);
      MatchSlices(ls, o, i);
    }
  }

  /** Searching past the lines already dealt with finds o right after a. */
  lemma SearchHits(done: seq<string>, a: seq<string>, o: seq<string>, r: seq<string>)
    requires o != [] && NotBefore(a, o, r)
    ensures FindSequence(done + (a + o + r), o, |done|, false) == |done| + |a|
  {
    var hay, index := done + (a + o + r), |done| + |a|;
    CutHay(done, a, o, r);
    SliceMatches(hay, o, index);
    NoMatchBefore(a, o, r);
    ShiftedNoMatch(done, a + o + r, o, |a|, Exact);
    FirstMatchIs(hay, o, |done|, index);
  }

  // --------------------------------------------------------- all the windows

  /** The file from a position on, with every group's window replaced by its new lines. */
  function Adjusted(content: string, q: nat, groups: seq<Group>): string
    requires AllInGroup(content, groups)
    decreases |groups|
  {
    var file := EnsureFinal(content);
    if groups == [] then (if q <= |file| then file[q..] else "")
    else
      Slice(file, q, groups[0].lineStart) + NewText(content, groups[0])
      + Adjusted(content, WindowEnd(content, groups[0]), groups[1..])
  }

  /** A position where a line of the file begins, at or before the first group. */
  ghost predicate Ready(content: string, q: nat, groups: seq<Group>) {
    && q <= |EnsureFinal(content)|
    && (q == 0 || EnsureFinal(content)[q - 1] == '\n')
    && (groups != [] ==> q <= groups[0].lineStart)
  }

  lemma FromLineStart(content: string, q: nat, to: nat)
    requires q <= to <= |EnsureFinal(content)|
    requires to == 0 || EnsureFinal(content)[to - 1] == '\n'
    ensures Terminated(EnsureFinal(content)[q..to]) && Terminated(EnsureFinal(content)[q..])
  {
  }

  lemma CutLines(p: string, o: string, r: string)
    requires Terminated(p) && Terminated(o) && Terminated(r)
    ensures Terminated(p + o + r) && Lines(p + o + r) == Lines(p) + Lines(o) + Lines(r)
  {
    LinesAppend(p, o);
    LinesAppend(p + o, r);
  }

  lemma CutNotBefore(p: string, o: string, r: string)
    requires Terminated(p) && Terminated(o) && Terminated(r)
    requires forall x: nat | x < |p| :: !OccursAt(p + o + r, o, x)
    ensures NotBefore(Lines(p), Lines(o), Lines(r))
  {
    CutLines(p, o, r);
    UnlinesLines(p);
    UnlinesLines(o);
    UnlinesLines(p + o + r);
  }

  lemma OccursLater(s: string, q: nat, o: string, x: nat)
    requires q <= |s|
    ensures OccursAt(s[q..], o, x) ==> OccursAt(s, o, q + x)
  {
    if OccursAt(s[q..], o, x) {
      assert s[q..][x..x + |o|] == s[q + x..q + x + |o|];
    }
  }

  lemma CutInThree(s: string, q: nat, a: nat, w: nat)
    requires q <= a <= w <= |s|
    ensures s[q..] == s[q..a] + s[a..w] + s[w..]
  {
  }

  /** The file from q, cut at the first group's window. */
  lemma CutAtWindow(content: string, q: nat, g: Group)
    requires GroupOk(content, g) && Ready(content, q, [g])
    ensures var file, w := EnsureFinal(content), WindowEnd(content, g);
            && q <= g.lineStart < w <= |file| && file[w - 1] == '\n'
            && Terminated(file[q..]) && Terminated(file[q..g.lineStart]) && Terminated(file[w..])
            && file[q..] == file[q..g.lineStart] + OldText(content, g) + file[w..]
  {
    var file, w := EnsureFinal(content), WindowEnd(content, g);
    Window(content, g);
    assert OldText(content, g)[w - g.lineStart - 1] == '\n';
    FromLineStart(content, q, g.lineStart);
    FromLineStart(content, w, w);
    CutInThree(file, q, g.lineStart, w);
  }

  lemma NotBeforeWindow(content: string, q: nat, g: Group)
    requires GroupOk(content, g) && q <= g.lineStart
    ensures forall x: nat | x < g.lineStart - q :: !OccursAt(EnsureFinal(content)[q..], OldText(content, g), x)
  {
    forall x: nat | x < g.lineStart - q ensures !OccursAt(EnsureFinal(content)[q..], OldText(content, g), x) {
      OccursLater(EnsureFinal(content), q, OldText(content, g), x);
    }
  }

  lemma GroupsRest(content: string, groups: seq<Group>)
    requires GroupsOk(content, groups) && groups != []
    ensures GroupOk(content, groups[0]) && GroupsOk(content, groups[1..])
    ensures |groups| > 1 ==> groups[0].lineEnd < groups[1..][0].lineStart
  {
    var rest := groups[1..];
    forall i | 0 <= i < |rest| ensures GroupOk(content, rest[i]) {
      assert rest[i] == groups[i + 1];
    }
  }

  lemma ReadyNext(content: string, q: nat, g: Group, rest: seq<Group>)
    requires GroupOk(content, g) && Ready(content, q, [g]) && (rest != [] ==> g.lineEnd < rest[0].lineStart)
    ensures Ready(content, WindowEnd(content, g), rest)
  {
    CutAtWindow(content, q, g);
  }

  lemma ReadyAfter(content: string, q: nat, groups: seq<Group>)
    requires AllInGroup(content, groups) && GroupsOk(content, groups) && groups != [] && Ready(content, q, groups)
    ensures GroupOk(content, groups[0]) && Ready(content, q, [groups[0]])
    ensures GroupsOk(content, groups[1..]) && Ready(content, WindowEnd(content, groups[0]), groups[1..])
  {
    GroupsRest(content, groups);
    ReadyNext(content, q, groups[0], groups[1..]);
  }
}
