/** Which edit requests are accepted, and the matches of those that are. */
module EditAcceptance {
  import opened Text
  import opened LegacyWrites
  import opened EditMeaning

  // ------------------------------------------------------- accepted requests

  ghost predicate OccursOnlyAt(s: string, t: string, i: nat) {
    OccursAt(s, t, i) && forall j: nat :: OccursAt(s, t, j) ==> j == i
  }

  /** The span of an edit's only occurrence. */
  ghost predicate IsMatch(content: string, edit: Edit, index: nat, m: Match) {
    var pattern := NormalizeEol(edit.oldText);
    && pattern != ""
    && OccursOnlyAt(content, pattern, m.start)
    && m == Match(index, m.start, m.start + |pattern|, NormalizeEol(edit.newText))
  }

  ghost predicate OccursOnce(content: string, edit: Edit) {
    var pattern := NormalizeEol(edit.oldText);
    pattern != "" && exists i: nat :: OccursOnlyAt(content, pattern, i)
  }

  /** A match is found exactly for a nonempty old text with one occurrence. */
  lemma FindMatchMeaning(content: string, edit: Edit, index: nat)
    ensures var r := FindMatch(content, edit, index);
            && (r.Done? <==> OccursOnce(content, edit))
            && (r.Done? ==> IsMatch(content, edit, index, r.value))
  {
    var pattern := NormalizeEol(edit.oldText);
    var start := IndexOf(content, pattern, 0);
    IndexOfBounds(content, pattern, 0);
    if start >= 0 {
      IndexOfBounds(content, pattern, start + 1);
      var again := IndexOf(content, pattern, start + 1);
      if again < 0 {
        assert OccursOnlyAt(content, pattern, start);
      } else {
        assert OccursAt(content, pattern, start) && OccursAt(content, pattern, again);
      }
    }
  }

  /** Every edit from an index on is matched, in the order of the list. */
  ghost predicate MatchedFrom(content: string, edits: seq<Edit>, index: nat, ms: seq<Match>)
    requires index <= |edits|
  {
    && |ms| == |edits| - index
    && forall i | index <= i < |edits| :: IsMatch(content, edits[i], i, ms[i - index])
  }

  lemma MatchedCons(content: string, edits: seq<Edit>, index: nat, m: Match, ms: seq<Match>)
    requires index < |edits| && IsMatch(content, edits[index], index, m) && MatchedFrom(content, edits, index + 1, ms)
    ensures MatchedFrom(content, edits, index, [m] + ms)
  {
    forall i | index <= i < |edits| ensures IsMatch(content, edits[i], i, ([m] + ms)[i - index]) {
      if i > index {
        assert ([m] + ms)[i - index] == ms[i - (index + 1)];
      }
    }
  }

  ghost predicate OccurOnceFrom(content: string, edits: seq<Edit>, index: nat) {
    forall i | index <= i < |edits| :: OccursOnce(content, edits[i])
  }

  lemma {:induction false} FindMatchesMeaning(content: string, edits: seq<Edit>, index: nat)
    requires index <= |edits|
    ensures var r := FindMatches(content, edits, index);
            && (r.Done? <==> OccurOnceFrom(content, edits, index))
            && (r.Done? ==> MatchedFrom(content, edits, index, r.value))
    decreases |edits| - index
  {
    if index < |edits| {
      FindMatchMeaning(content, edits[index], index);
      FindMatchesMeaning(content, edits, index + 1);
      var first, rest := FindMatch(content, edits[index], index), FindMatches(content, edits, index + 1);
      if first.Done? && rest.Done? {
        MatchedCons(content, edits, index, first.value, rest.value);
      }
    }
  }

  predicate SortedByStart(ms: seq<Match>) {
    forall i, j | 0 <= i < j < |ms| :: ms[i].start <= ms[j].start
  }

  predicate DistinctIndices(ms: seq<Match>) {
    forall i, j | 0 <= i < j < |ms| :: ms[i].index != ms[j].index
  }

  lemma {:induction false} InsertMembers(m: Match, ms: seq<Match>)
    ensures forall x :: x in InsertByStart(m, ms) <==> x == m || x in ms
  {
    if ms != [] && m.start > ms[0].start {
      InsertMembers(m, ms[1..]);
      assert ms == [ms[0]] + ms[1..];
    }
  }

  lemma {:induction false} InsertSorts(m: Match, ms: seq<Match>)
    requires SortedByStart(ms) && DistinctIndices(ms) && forall i | 0 <= i < |ms| :: ms[i].index != m.index
    ensures SortedByStart(InsertByStart(m, ms)) && DistinctIndices(InsertByStart(m, ms))
  {
    if ms != [] && m.start > ms[0].start {
      InsertSorts(m, ms[1..]);
      InsertMembers(m, ms[1..]);
      var r := InsertByStart(m, ms[1..]);
      forall i | 0 <= i < |r| ensures ms[0].start <= r[i].start && ms[0].index != r[i].index {
        assert r[i] in r;
      }
    }
  }

  /** Sorting keeps exactly the matches it is given. */
  lemma {:induction false} SortMembers(ms: seq<Match>)
    ensures forall x :: x in SortByStart(ms) <==> x in ms
  {
    if ms != [] {
      SortMembers(ms[1..]);
      InsertMembers(ms[0], SortByStart(ms[1..]));
      assert ms == [ms[0]] + ms[1..];
    }
  }

  lemma {:induction false} SortSorts(ms: seq<Match>)
    requires DistinctIndices(ms)
    ensures SortedByStart(SortByStart(ms)) && DistinctIndices(SortByStart(ms))
    ensures ms != [] ==> SortByStart(ms) != []
  {
    if ms != [] {
      SortSorts(ms[1..]);
      SortMembers(ms[1..]);
      var r := SortByStart(ms[1..]);
      forall i | 0 <= i < |r| ensures r[i].index != ms[0].index {
        assert r[i] in r;
      }
      InsertSorts(ms[0], r);
    }
  }

  predicate Apart(ms: seq<Match>) {
    forall i, j | 0 <= i < j < |ms| :: ms[i].end <= ms[j].start
  }

  lemma {:induction false} FirstOverlapMeaning(ms: seq<Match>, i: nat)
    requires 1 <= i
    ensures FirstOverlap(ms, i).Done? <==> forall k | i <= k < |ms| :: ms[k - 1].end <= ms[k].start
    decreases |ms| - i
  {
    if i < |ms| && ms[i].start >= ms[i - 1].end {
      FirstOverlapMeaning(ms, i + 1);
    }
  }

  lemma {:induction false} ApartFromNeighbours(ms: seq<Match>, i: nat, j: nat)
    requires i < j < |ms| && forall k | 0 <= k < |ms| :: ms[k].start < ms[k].end
    requires forall k | 1 <= k < |ms| :: ms[k - 1].end <= ms[k].start
    ensures ms[i].end <= ms[j].start
    decreases j
  {
    if i < j - 1 {
      ApartFromNeighbours(ms, i, j - 1);
    }
  }

  lemma {:induction false} NoOverlapIsApart(ms: seq<Match>)
    requires forall k | 0 <= k < |ms| :: ms[k].start < ms[k].end
    ensures FirstOverlap(ms, 1).Done? <==> Apart(ms)
  {
    FirstOverlapMeaning(ms, 1);
    if FirstOverlap(ms, 1).Done? {
      forall i, j | 0 <= i < j < |ms| ensures ms[i].end <= ms[j].start {
        ApartFromNeighbours(ms, i, j);
      }
    }
  }

  /** Two edits whose occurrences share a character. */
  ghost predicate Collide(content: string, a: Edit, b: Edit) {
    var p, q := NormalizeEol(a.oldText), NormalizeEol(b.oldText);
    exists i: nat, j: nat :: OccursAt(content, p, i) && OccursAt(content, q, j) && i < j + |q| && j < i + |p|
  }

  /** What the edit contract asks of a request. */
  ghost predicate Acceptable(content: string, edits: seq<Edit>) {
    && edits != []
    && OccurOnceFrom(content, edits, 0)
    && (forall i, j | 0 <= i < j < |edits| :: !Collide(content, edits[i], edits[j]))
  }

  /** The matches found for a request, before and after sorting. */
  lemma {:induction false} FoundMatches(content: string, edits: seq<Edit>)
    requires FindMatches(content, edits, 0).Done?
    ensures var found := FindMatches(content, edits, 0).value;
            var ms := SortByStart(found);
            && MatchedFrom(content, edits, 0, found)
            && (forall x :: x in ms <==> x in found)
            && SortedByStart(ms) && DistinctIndices(ms) && AllInText(content, ms)
            && (edits != [] ==> ms != [])
  {
    var found := FindMatches(content, edits, 0).value;
    FindMatchesMeaning(content, edits, 0);
    FindMatchesInText(content, edits, 0);
    SortInText(content, found);
    assert DistinctIndices(found) by {
      forall i | 0 <= i < |edits| ensures found[i].index == i {
        assert IsMatch(content, edits[i], i, found[i - 0]);
      }
    }
    SortMembers(found);
    SortSorts(found);
  }

  lemma CollideIffOverlap(content: string, a: Edit, i: nat, m: Match, b: Edit, j: nat, n: Match)
    requires IsMatch(content, a, i, m) && IsMatch(content, b, j, n)
    ensures Collide(content, a, b) <==> (m.start < n.end && n.start < m.end)
  {
  }

  /** A match found for an edit, and where it stands after sorting. */
  lemma FoundAt(content: string, edits: seq<Edit>, i: nat) returns (a: nat)
    requires FindMatches(content, edits, 0).Done? && i < |edits|
    ensures var found := FindMatches(content, edits, 0).value;
            var ms := SortByStart(found);
            |found| == |edits| && IsMatch(content, edits[i], i, found[i]) && a < |ms| && ms[a] == found[i]
  {
    FoundMatches(content, edits);
    var found := FindMatches(content, edits, 0).value;
    assert IsMatch(content, edits[i], i, found[i - 0]);
    assert found[i] in SortByStart(found);
    a :| 0 <= a < |SortByStart(found)| && SortByStart(found)[a] == found[i];
  }

  /** A sorted match, and the edit it was found for. */
  lemma SortedFrom(content: string, edits: seq<Edit>, a: nat) returns (i: nat)
    requires FindMatches(content, edits, 0).Done?
    requires a < |SortByStart(FindMatches(content, edits, 0).value)|
    ensures var ms := SortByStart(FindMatches(content, edits, 0).value);
            i < |edits| && IsMatch(content, edits[i], i, ms[a])
  {
    FoundMatches(content, edits);
    var found := FindMatches(content, edits, 0).value;
    assert SortByStart(found)[a] in found;
    i :| 0 <= i < |found| && found[i] == SortByStart(found)[a];
    assert IsMatch(content, edits[i], i, found[i - 0]);
  }

  lemma {:induction false} ApartMeansNoneCollide(content: string, edits: seq<Edit>)
    requires FindMatches(content, edits, 0).Done? && Apart(SortByStart(FindMatches(content, edits, 0).value))
    ensures forall i, j | 0 <= i < j < |edits| :: !Collide(content, edits[i], edits[j])
  {
    var ms := SortByStart(FindMatches(content, edits, 0).value);
    forall i, j | 0 <= i < j < |edits| ensures !Collide(content, edits[i], edits[j]) {
      var a := FoundAt(content, edits, i);
      var b := FoundAt(content, edits, j);
      CollideIffOverlap(content, edits[i], i, ms[a], edits[j], j, ms[b]);
    }
  }

  lemma {:induction false} TooCloseMeansCollide(content: string, edits: seq<Edit>, a: nat, b: nat)
    requires FindMatches(content, edits, 0).Done?
    requires var ms := SortByStart(FindMatches(content, edits, 0).value); a < b < |ms| && ms[a].end > ms[b].start
    ensures exists i, j :: 0 <= i < j < |edits| && Collide(content, edits[i], edits[j])
  {
    FoundMatches(content, edits);
    var ms := SortByStart(FindMatches(content, edits, 0).value);
    var i := SortedFrom(content, edits, a);
    var j := SortedFrom(content, edits, b);
    CollideIffOverlap(content, edits[i], i, ms[a], edits[j], j, ms[b]);
    CollideIffOverlap(content, edits[j], j, ms[b], edits[i], i, ms[a]);
    assert ms[a].index == i && ms[b].index == j;
  }

  lemma {:induction false} ApartIffNoneCollide(content: string, edits: seq<Edit>)
    requires FindMatches(content, edits, 0).Done?
    ensures Apart(SortByStart(FindMatches(content, edits, 0).value)) <==>
            forall i, j | 0 <= i < j < |edits| :: !Collide(content, edits[i], edits[j])
  {
    var ms := SortByStart(FindMatches(content, edits, 0).value);
    if Apart(ms) {
      ApartMeansNoneCollide(content, edits);
    } else {
      var a, b :| 0 <= a < b < |ms| && ms[a].end > ms[b].start;
      TooCloseMeansCollide(content, edits, a, b);
    }
  }

  /** A request is accepted exactly when every old text occurs exactly once and no two
      occurrences overlap. */
  lemma {:induction false} AcceptedIff(path: string, edits: seq<Edit>, original: string)
    ensures EditPatch(path, edits, original).Done? <==> Acceptable(NormalizeEol(original), edits)
    ensures EditPatch(path, edits, original).Done? <==> SortedMatches(NormalizeEol(original), edits).Done?
  {
    var content := NormalizeEol(original);
    FindMatchesMeaning(content, edits, 0);
    if FindMatches(content, edits, 0).Done? {
      FoundMatches(content, edits);
      var ms := SortByStart(FindMatches(content, edits, 0).value);
      assert forall k | 0 <= k < |ms| :: InText(content, ms[k]);
      NoOverlapIsApart(ms);
      ApartIffNoneCollide(content, edits);
    }
  }

  lemma FoundAreMatches(content: string, edits: seq<Edit>, found: seq<Match>, m: Match)
    requires MatchedFrom(content, edits, 0, found)
    ensures m in found <==> exists i | 0 <= i < |edits| :: IsMatch(content, edits[i], i, m)
  {
    if m in found {
      var k :| 0 <= k < |found| && found[k] == m;
      assert IsMatch(content, edits[k], k, found[k - 0]);
    }
    if i :| 0 <= i < |edits| && IsMatch(content, edits[i], i, m) {
      assert IsMatch(content, edits[i], i, found[i - 0]);
      assert found[i] == m;
    }
  }

  lemma MatchIsOnly(content: string, edit: Edit, i: nat, m: Match)
    requires IsMatch(content, edit, i, m)
    ensures InText(content, m) && OnlyThere(content, m)
  {
    assert content[m.start..m.end] == NormalizeEol(edit.oldText);
  }

  /** The matches of an accepted request: those of its edits, in order, apart, each at
      the only occurrence of its old text. */
  lemma AcceptedMatches(content: string, edits: seq<Edit>)
    requires SortedMatches(content, edits).Done?
    ensures var ms := SortedMatches(content, edits).value;
            && ms != [] && Ordered(content, ms, 0)
            && forall m :: m in ms <==> exists i | 0 <= i < |edits| :: IsMatch(content, edits[i], i, m)
  {
    FoundMatches(content, edits);
    var found := FindMatches(content, edits, 0).value;
    var ms := SortedMatches(content, edits).value;
    assert forall k | 0 <= k < |ms| :: InText(content, ms[k]);
    NoOverlapIsApart(ms);
    forall m ensures m in ms <==> exists i | 0 <= i < |edits| :: IsMatch(content, edits[i], i, m) {
      FoundAreMatches(content, edits, found, m);
    }
    forall k | 0 <= k < |ms| ensures OnlyThere(content, ms[k]) {
      FoundAreMatches(content, edits, found, ms[k]);
      assert ms[k] in ms;
      var i :| 0 <= i < |edits| && IsMatch(content, edits[i], i, ms[k]);
      MatchIsOnly(content, edits[i], i, ms[k]);
    }
  }
}
