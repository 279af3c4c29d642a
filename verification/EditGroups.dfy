/** Widening matches to whole lines: the groups hold exactly the matches, each spans whole
    lines found nowhere earlier, and replacing group by group is replacing all at once. */
module EditGroups {
  import opened Text
  import opened LegacyWrites
  import opened EditMeaning

  // ----------------------------------------------------------- one group

  /** The one case in which a match is not widened to the line it starts in: lastIndexOf
      takes the position before the text for its first character. */
  predicate StartsOnFirstNewline(content: string, m: Match) {
    m.start == 0 && content != "" && content[0] == '\n'
  }

  predicate AllNewlines(s: string) {
    forall i | 0 <= i < |s| :: s[i] == '\n'
  }

  /** A group on whole lines that holds its matches in order. Only a match of the first
      newline can start before the group does. */
  ghost predicate Matched(content: string, g: Group) {
    && g.members != [] && InGroup(content, g)
    && IsLineStart(content, g.lineStart) && IsLineEnd(content, g.lineEnd)
    && Ordered(content, g.members, 0)
    && (g.lineStart <= g.members[0].start
        || (g.lineStart == 1 && StartsOnFirstNewline(content, g.members[0])))
  }

  lemma LineOfMatch(content: string, m: Match)
    requires InText(content, m)
    ensures LineStartOf(content, m) <= m.end <= LineEndOf(content, m) <= |content|
    ensures IsLineStart(content, LineStartOf(content, m)) && IsLineEnd(content, LineEndOf(content, m))
    ensures if StartsOnFirstNewline(content, m) then LineStartOf(content, m) == 1
            else LineStartOf(content, m) <= m.start
  {
    LastNewlineBounds(content, m.start - 1);
    IndexOfBounds(content, "\n", m.end);
    var end := LineEndOf(content, m);
    assert end < |content| ==> content[end..end + 1] == "\n";
  }

  lemma SliceOfSlice(s: string, a: nat, b: nat, i: nat, j: nat)
    requires i <= j && a + j <= b <= |s|
    ensures s[a..b][i..j] == s[a + i..a + j]
  {
    forall k | 0 <= k < j - i ensures s[a..b][i..j][k] == s[a + i..a + j][k] {
      assert s[a..b][i..j][k] == s[a..b][i + k] == s[a + i + k];
    }
  }

  /** Where the lines of a group occur, a match in it occurs as well. */
  lemma WindowHoldsMatch(content: string, g: Group, m: Match, x: nat)
    requires InGroup(content, g) && g.lineStart <= m.start < m.end <= g.lineEnd && x <= g.lineStart
    ensures OccursAt(EnsureFinal(content), OldText(content, g), x) ==>
              OccursAt(content, content[m.start..m.end], x + (m.start - g.lineStart))
  {
    var file, pattern := EnsureFinal(content), OldText(content, g);
    var offset, size := m.start - g.lineStart, m.end - m.start;
    if OccursAt(file, pattern, x) {
      assert Before(content, g) <= pattern;
      SliceOfSlice(content, g.lineStart, g.lineEnd, offset, offset + size);
      SliceOfSlice(file, x, x + |pattern|, offset, offset + size);
      assert pattern[offset..offset + size] == Before(content, g)[offset..offset + size];
      assert content[x + offset..x + offset + size] == file[x + offset..x + offset + size];
    }
  }

  /** The lines a hunk looks for contain an old text, so they occur nowhere before it. */
  lemma NoEarlierWindow(content: string, g: Group, x: nat)
    requires Matched(content, g) && g.lineStart <= g.members[0].start && x < g.lineStart
    ensures !OccursAt(EnsureFinal(content), OldText(content, g), x)
  {
    var m := g.members[0];
    assert InText(content, m) && m.end <= g.lineEnd && OnlyThere(content, m);
    WindowHoldsMatch(content, g, m, x);
  }

  /** A text equal to itself shifted by one repeats its first character. */
  lemma {:induction false} RepeatsFirst(s: string, n: nat)
    requires 0 < n < |s| && s[..n] == s[1..n + 1] && s[0] == '\n'
    ensures AllNewlines(s[..n + 1])
  {
    var i := 0;
    while i < n
      invariant i <= n && AllNewlines(s[..i + 1])
    {
      assert s[..n][i] == s[1..n + 1][i] && s[..i + 1][i] == '\n';
      i := i + 1;
    }
  }

  /** Fewer newlines than a text begins with occur one further on. */
  lemma ShiftOccurs(content: string, end: nat, n: nat)
    requires n <= |content| && AllNewlines(content[..n])
    ensures end < n ==> OccursAt(content, content[0..end], 1)
  {
    if end < n {
      forall i | 0 <= i < end ensures content[1..end + 1][i] == content[0..end][i] {
        assert content[..n][i] == '\n' && content[..n][i + 1] == '\n';
      }
    }
  }

  /** Past a text's leading newlines, a match that starts on the first one ends. */
  lemma EndsNewlines(content: string, m: Match, n: nat)
    requires InText(content, m) && m.start == 0 && OnlyThere(content, m)
    requires n <= |content| && AllNewlines(content[..n])
    ensures n <= m.end
  {
    ShiftOccurs(content, m.end, n);
  }

  /** The lines after a matched first newline do not already start on it, unless the whole
      file is newlines. */
  lemma NoWindowOnFirst(content: string, g: Group)
    requires Matched(content, g) && g.lineStart == 1 && StartsOnFirstNewline(content, g.members[0])
    requires !AllNewlines(content)
    ensures g.lineStart < g.lineEnd && !OccursAt(EnsureFinal(content), OldText(content, g), 0)
  {
    var m := g.members[0];
    assert InText(content, m) && m.end <= g.lineEnd && OnlyThere(content, m);
    assert content[..|content|] == content;
    if g.lineEnd == 1 {
      assert |content| > 1 && content[1] == '\n';
      assert content[..2] == "\n\n";
      EndsNewlines(content, m, 2);
      assert false;
    }
    if OccursAt(EnsureFinal(content), OldText(content, g), 0) {
      var n := g.lineEnd - 1;
      assert Before(content, g) <= OldText(content, g) == EnsureFinal(content)[..|OldText(content, g)|];
      assert content[..n] == OldText(content, g)[..n] == content[1..n + 1];
      RepeatsFirst(content, n);
      assert content[..n + 1] == content[..g.lineEnd];
      if g.lineEnd < |content| {
        assert content[..g.lineEnd + 1] == content[..g.lineEnd] + ['\n'];
        EndsNewlines(content, m, g.lineEnd + 1);
      }
      assert false;
    }
  }

  lemma MatchedOk(content: string, g: Group)
    requires Matched(content, g) && !AllNewlines(content)
    ensures GroupOk(content, g)
  {
    assert InText(content, g.members[0]) && g.members[0].end <= g.lineEnd;
    if g.lineStart <= g.members[0].start {
      forall x: nat | x < g.lineStart ensures !OccursAt(EnsureFinal(content), OldText(content, g), x) {
        NoEarlierWindow(content, g, x);
      }
    } else {
      NoWindowOnFirst(content, g);
    }
  }

  // ------------------------------------------------------------ grouping

  function Members(groups: seq<Group>): seq<Match> {
    if groups == [] then [] else Members(groups[..|groups| - 1]) + groups[|groups| - 1].members
  }

  /** The groups hold exactly some matches, in order, on whole lines. */
  ghost predicate Grouped(content: string, groups: seq<Group>, ms: seq<Match>) {
    && AllInGroup(content, groups)
    && (forall i | 0 <= i < |groups| :: Matched(content, groups[i]))
    && Separated(groups) && Members(groups) == ms
  }

  /** All matches so far end before a position. */
  predicate EndBefore(groups: seq<Group>, position: nat) {
    groups != [] ==>
      var ms := groups[|groups| - 1].members;
      ms != [] && ms[|ms| - 1].end <= position
  }

  lemma OrderedSnoc(content: string, ms: seq<Match>, m: Match)
    requires Ordered(content, ms, 0) && ms != [] && ms[|ms| - 1].end <= m.start
    requires InText(content, m) && OnlyThere(content, m)
    ensures Ordered(content, ms + [m], 0)
  {
    var all := ms + [m];
    forall i | 0 <= i < |all| ensures InText(content, all[i]) && OnlyThere(content, all[i]) {
      assert i < |ms| ==> all[i] == ms[i];
    }
    forall i, j | 0 <= i < j < |all| ensures all[i].end <= all[j].start {
      assert i < |ms| - 1 ==> ms[i].end <= ms[|ms| - 1].start;
      assert InText(content, ms[|ms| - 1]);
    }
  }

  lemma JoinGroup(content: string, last: Group, m: Match)
    requires Matched(content, last) && last.members[|last.members| - 1].end <= m.start
    requires InText(content, m) && OnlyThere(content, m)
    ensures var end := LineEndOf(content, m);
            Matched(content, Group(last.lineStart, if last.lineEnd < end then end else last.lineEnd, last.members + [m]))
  {
    LineOfMatch(content, m);
    OrderedSnoc(content, last.members, m);
  }

  lemma SeparatedLast(groups: seq<Group>, g: Group)
    requires Separated(groups)
    requires groups != [] ==> groups[|groups| - 1].lineEnd < g.lineStart
    requires forall i | 0 <= i < |groups| :: groups[i].lineStart <= groups[i].lineEnd
    ensures Separated(groups + [g])
  {
    var n := |groups| - 1;
    forall i | 0 <= i <= n ensures groups[i].lineEnd < g.lineStart {
      assert i < n ==> groups[i].lineEnd < groups[n].lineStart;
    }
  }

  /** One more group after the last. */
  lemma SnocGrouped(content: string, groups: seq<Group>, ms: seq<Match>, g: Group)
    requires Grouped(content, groups, ms) && Matched(content, g)
    requires groups != [] ==> groups[|groups| - 1].lineEnd < g.lineStart
    ensures Grouped(content, groups + [g], ms + g.members)
  {
    var all := groups + [g];
    forall i | 0 <= i < |all| ensures Matched(content, all[i]) {
      assert i < |groups| ==> all[i] == groups[i];
    }
    SeparatedLast(groups, g);
    assert all[..|groups|] == groups;
  }

  /** All groups but the last. */
  lemma InitGrouped(content: string, groups: seq<Group>, ms: seq<Match>)
    requires Grouped(content, groups, ms) && groups != []
    ensures var n := |groups| - 1;
            && Grouped(content, groups[..n], Members(groups[..n])) && Matched(content, groups[n])
            && ms == Members(groups[..n]) + groups[n].members
            && (n > 0 ==> groups[n - 1].lineEnd < groups[n].lineStart)
  {
    var n := |groups| - 1;
    forall i | 0 <= i < n ensures Matched(content, groups[..n][i]) {
      assert groups[..n][i] == groups[i];
    }
  }

  lemma LastEnds(groups: seq<Group>, g: Group, m: Match)
    requires g.members != [] && g.members[|g.members| - 1] == m
    ensures EndBefore(groups + [g], m.end)
  {
  }

  lemma JoinKeepsGroups(content: string, groups: seq<Group>, before: seq<Match>, m: Match)
    requires Grouped(content, groups, before) && EndBefore(groups, m.start) && groups != []
    requires InText(content, m) && OnlyThere(content, m)
    requires LineStartOf(content, m) <= groups[|groups| - 1].lineEnd
    ensures var r := AddToGroups(content, groups, m);
            Grouped(content, r, before + [m]) && EndBefore(r, m.end) && r != []
  {
    var n, end := |groups| - 1, LineEndOf(content, m);
    var last := groups[n];
    var g := Group(last.lineStart, if last.lineEnd < end then end else last.lineEnd, last.members + [m]);
    InitGrouped(content, groups, before);
    JoinGroup(content, last, m);
    SnocGrouped(content, groups[..n], Members(groups[..n]), g);
    Append(Members(groups[..n]), last.members, m);
    LastEnds(groups[..n], g, m);
  }

  lemma Append<T>(a: seq<T>, b: seq<T>, x: T)
    ensures a + (b + [x]) == (a + b) + [x]
  {
  }

  lemma NewKeepsGroups(content: string, groups: seq<Group>, before: seq<Match>, m: Match)
    requires Grouped(content, groups, before) && EndBefore(groups, m.start)
    requires InText(content, m) && OnlyThere(content, m)
    requires groups == [] || LineStartOf(content, m) > groups[|groups| - 1].lineEnd
    ensures var r := AddToGroups(content, groups, m);
            Grouped(content, r, before + [m]) && EndBefore(r, m.end) && r != []
  {
    LineOfMatch(content, m);
    var g := Group(LineStartOf(content, m), LineEndOf(content, m), [m]);
    assert Matched(content, g);
    SnocGrouped(content, groups, before, g);
  }

  lemma AddKeepsGroups(content: string, groups: seq<Group>, before: seq<Match>, m: Match)
    requires Grouped(content, groups, before) && EndBefore(groups, m.start)
    requires InText(content, m) && OnlyThere(content, m)
    ensures var r := AddToGroups(content, groups, m);
            Grouped(content, r, before + [m]) && EndBefore(r, m.end) && r != []
  {
    if groups != [] && LineStartOf(content, m) <= groups[|groups| - 1].lineEnd {
      JoinKeepsGroups(content, groups, before, m);
    } else {
      NewKeepsGroups(content, groups, before, m);
    }
  }

  /** Matches that can still be grouped after some groups. */
  ghost predicate CanFollow(content: string, groups: seq<Group>, ms: seq<Match>) {
    Ordered(content, ms, 0) && (ms != [] ==> EndBefore(groups, ms[0].start))
  }

  lemma HeadMatch(content: string, ms: seq<Match>)
    requires Ordered(content, ms, 0) && ms != []
    ensures InText(content, ms[0]) && OnlyThere(content, ms[0]) && Ordered(content, ms[1..], 0)
    ensures ms[1..] != [] ==> ms[0].end <= ms[1..][0].start
  {
  }

  lemma GroupOne(content: string, groups: seq<Group>, before: seq<Match>, ms: seq<Match>)
    requires Grouped(content, groups, before) && CanFollow(content, groups, ms) && ms != []
    ensures InText(content, ms[0])
    ensures var more := AddToGroups(content, groups, ms[0]);
            Grouped(content, more, before + [ms[0]]) && CanFollow(content, more, ms[1..]) && more != []
  {
    HeadMatch(content, ms);
    AddKeepsGroups(content, groups, before, ms[0]);
  }

  lemma {:induction false} GroupFromStep(content: string, groups: seq<Group>, ms: seq<Match>)
    requires AllInText(content, ms) && ms != []
    ensures InText(content, ms[0])
    ensures GroupFrom(content, groups, ms) == GroupFrom(content, AddToGroups(content, groups, ms[0]), ms[1..])
  {
  }

  lemma {:induction false} GroupingKeeps(content: string, groups: seq<Group>, before: seq<Match>, ms: seq<Match>)
    requires Grouped(content, groups, before) && CanFollow(content, groups, ms)
    ensures Grouped(content, GroupFrom(content, groups, ms), before + ms)
    ensures ms != [] || groups != [] ==> GroupFrom(content, groups, ms) != []
    decreases |ms|
  {
    if ms == [] {
      assert before + ms == before;
    } else {
      GroupOne(content, groups, before, ms);
      GroupFromStep(content, groups, ms);
      MoveFirst(before, ms);
      GroupingKeeps(content, AddToGroups(content, groups, ms[0]), before + [ms[0]], ms[1..]);
    }
  }

  lemma {:induction false} GroupedOk(content: string, groups: seq<Group>)
    requires Grouped(content, groups, Members(groups)) && !AllNewlines(content)
    ensures GroupsOk(content, groups)
  {
    forall i | 0 <= i < |groups| ensures GroupOk(content, groups[i]) {
      MatchedOk(content, groups[i]);
    }
  }

  /** The groups of any matches in order. */
  lemma {:induction false} GroupsOfMatches(content: string, ms: seq<Match>)
    requires Ordered(content, ms, 0) && ms != []
    ensures Grouped(content, GroupFrom(content, [], ms), ms) && GroupFrom(content, [], ms) != []
    ensures content != "" && (!AllNewlines(content) ==> GroupsOk(content, GroupFrom(content, [], ms)))
  {
    assert CanFollow(content, [], ms);
    GroupingKeeps(content, [], [], ms);
    assert [] + ms == ms;
    assert InText(content, ms[0]);
    if !AllNewlines(content) {
      GroupedOk(content, GroupFrom(content, [], ms));
    }
  }

  // ------------------------------------------------------- the intended text

  /** The content from a position on, with every group's span replaced by what its edits make of it. */
  function Intended(content: string, q: nat, groups: seq<Group>): string
    requires AllInGroup(content, groups)
    decreases |groups|
  {
    if groups == [] then (if q <= |content| then content[q..] else "")
    else
      Slice(content, q, groups[0].lineStart) + After(content, groups[0])
      + Intended(content, groups[0].lineEnd, groups[1..])
  }

  predicate AllEndBy(content: string, ms: seq<Match>, to: nat) {
    forall i | 0 <= i < |ms| :: InText(content, ms[i]) && ms[i].end <= to
  }

  lemma SliceJoin(content: string, a: nat, b: nat, c: nat)
    requires a <= b <= c <= |content|
    ensures Slice(content, a, b) + Slice(content, b, c) == Slice(content, a, c)
  {
  }

  lemma Assoc(a: string, b: string, c: string)
    ensures a + (b + c) == a + b + c
  {
  }

  lemma {:induction false} ReplacedAppend(content: string, from: nat, mid: nat, to: nat, a: seq<Match>, b: seq<Match>)
    requires from <= mid <= to <= |content|
    requires AllEndBy(content, a, mid) && AllEndBy(content, b, to) && (b != [] ==> mid <= b[0].start)
    ensures AllEndBy(content, a + b, to)
    ensures Replaced(content, from, to, a + b) == Replaced(content, from, mid, a) + Replaced(content, mid, to, b)
    decreases |a|
  {
    if a == [] {
      assert a + b == b;
      if b == [] {
        SliceJoin(content, from, mid, to);
      } else {
        assert InText(content, b[0]);
        SliceJoin(content, from, mid, b[0].start);
        Assoc(Slice(content, from, mid), Slice(content, mid, b[0].start), b[0].newText);
        Assoc(Slice(content, from, mid), Slice(content, mid, b[0].start) + b[0].newText,
              Replaced(content, b[0].end, to, b[1..]));
      }
    } else {
      assert InText(content, a[0]) && a[0].end <= mid;
      assert (a + b)[0] == a[0] && (a + b)[1..] == a[1..] + b;
      ReplacedAppend(content, a[0].end, mid, to, a[1..], b);
      Assoc(Slice(content, from, a[0].start) + a[0].newText,
            Replaced(content, a[0].end, mid, a[1..]), Replaced(content, mid, to, b));
    }
  }

  lemma {:induction false} MembersFirst(groups: seq<Group>)
    requires groups != []
    ensures Members(groups) == groups[0].members + Members(groups[1..])
    decreases |groups|
  {
    var n := |groups| - 1;
    if n == 0 {
      assert groups[..0] == [] && groups[1..] == [];
      assert Members(groups) == [] + groups[0].members;
    } else {
      var most, rest := groups[..n], groups[1..];
      MembersFirst(most);
      MiddleOf(groups);
      assert Members(groups) == (groups[0].members + Members(most[1..])) + groups[n].members;
      assert Members(rest) == Members(most[1..]) + groups[n].members;
    }
  }

  lemma MiddleOf(groups: seq<Group>)
    requires |groups| > 1
    ensures var n := |groups| - 1;
            && groups[..n] != [] && groups[..n][0] == groups[0]
            && groups[..n][1..] == groups[1..][..n - 1]
            && |groups[1..]| == n && groups[1..][n - 1] == groups[n]
  {
  }

  lemma {:induction false} MembersInText(content: string, groups: seq<Group>)
    requires AllInGroup(content, groups)
    ensures AllEndBy(content, Members(groups), |content|)
    decreases |groups|
  {
    if groups != [] {
      var n := |groups| - 1;
      MembersInText(content, groups[..n]);
      assert InGroup(content, groups[n]);
    }
  }

  lemma {:induction false} MemberOfGroup(groups: seq<Group>, k: nat, m: Match)
    requires k < |groups| && m in groups[k].members
    ensures m in Members(groups)
    decreases |groups|
  {
    var n := |groups| - 1;
    if k < n {
      assert groups[..n][k] == groups[k];
      MemberOfGroup(groups[..n], k, m);
    }
  }

  /** All groups but the first. */
  lemma {:induction false} TailGrouped(content: string, groups: seq<Group>)
    requires Grouped(content, groups, Members(groups)) && groups != []
    ensures Grouped(content, groups[1..], Members(groups[1..])) && Matched(content, groups[0])
    ensures |groups| > 1 ==> groups[0].lineEnd < groups[1].lineStart && Matched(content, groups[1])
  {
    var rest := groups[1..];
    forall i | 0 <= i < |rest| ensures Matched(content, rest[i]) {
      assert rest[i] == groups[i + 1];
    }
  }

  lemma {:induction false} GroupedRest(content: string, groups: seq<Group>)
    requires Grouped(content, groups, Members(groups)) && groups != []
    ensures var g, rest := groups[0], groups[1..];
            && Matched(content, g) && Grouped(content, rest, Members(rest))
            && Members(groups) == g.members + Members(rest)
            && (rest != [] ==> g.lineEnd < rest[0].lineStart <= Members(rest)[..1][0].start)
  {
    TailGrouped(content, groups);
    MembersFirst(groups);
    LineOfFirst(content, groups[0]);
    if groups[1..] != [] {
      MembersFirst(groups[1..]);
      LineOfFirst(content, groups[1]);
      FirstOf(groups[1].members, Members(groups[1..][1..]));
    }
  }

  /** A group's first match ends in it, and but for the first newline starts in it. */
  lemma LineOfFirst(content: string, g: Group)
    requires Matched(content, g)
    ensures 0 < g.lineEnd && (g.lineStart > 1 ==> g.lineStart <= g.members[0].start)
  {
    assert InText(content, g.members[0]) && g.members[0].end <= g.lineEnd;
  }

  lemma {:induction false} ReplacedOne(content: string, q: nat, groups: seq<Group>)
    requires Grouped(content, groups, Members(groups)) && groups != [] && q <= groups[0].lineStart
    requires q == groups[0].lineStart || groups[0].lineStart <= groups[0].members[0].start
    requires AllEndBy(content, Members(groups), |content|) && AllEndBy(content, Members(groups[1..]), |content|)
    ensures var g := groups[0];
            Replaced(content, q, |content|, Members(groups)) ==
            Slice(content, q, g.lineStart) + After(content, g)
            + Replaced(content, g.lineEnd, |content|, Members(groups[1..]))
  {
    var g, ms := groups[0], Members(groups[1..]);
    GroupedRest(content, groups);
    ReplacedAppend(content, g.lineStart, g.lineEnd, |content|, g.members, ms);
    if q < g.lineStart {
      assert [] + Members(groups) == Members(groups);
      ReplacedAppend(content, q, g.lineStart, |content|, [], Members(groups));
    } else {
      assert Slice(content, q, g.lineStart) == "";
    }
    Assoc(Slice(content, q, g.lineStart), After(content, g), Replaced(content, g.lineEnd, |content|, ms));
  }

  /** Replacing every match at once is the same as replacing group by group. */
  lemma {:induction false} ReplacedGroups(content: string, q: nat, groups: seq<Group>)
    requires Grouped(content, groups, Members(groups)) && q <= |content|
    requires groups != [] ==> q <= groups[0].lineStart
    requires groups != [] ==> q == groups[0].lineStart || groups[0].lineStart <= groups[0].members[0].start
    ensures AllEndBy(content, Members(groups), |content|)
    ensures Replaced(content, q, |content|, Members(groups)) == Intended(content, q, groups)
    decreases |groups|
  {
    MembersInText(content, groups);
    if groups != [] {
      GroupedRest(content, groups);
      var rest := groups[1..];
      if rest != [] {
        MembersFirst(rest);
      }
      ReplacedGroups(content, groups[0].lineEnd, rest);
      ReplacedOne(content, q, groups);
    }
  }
}
