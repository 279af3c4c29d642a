/** Why an edit request is refused: by the first of its edits that is empty, missing or ambiguous,
    and otherwise by the first two in the file that overlap. */
module EditRefusals {
  import opened Text
  import opened LegacyWrites
  import opened EditMeaning
  import opened EditAcceptance

  ghost predicate Occurs(content: string, edit: Edit) {
    exists i: nat :: OccursAt(content, NormalizeEol(edit.oldText), i)
  }

  /** What is wrong with an edit whose old text does not occur exactly once. */
  ghost function Fault(content: string, edit: Edit, index: nat): EditError {
    if NormalizeEol(edit.oldText) == "" then EmptyOldText(index)
    else if !Occurs(content, edit) then NotFound(index)
    else Ambiguous(index)
  }

  lemma FindMatchFault(content: string, edit: Edit, index: nat)
    requires !OccursOnce(content, edit)
    ensures FindMatch(content, edit, index) == Refused(Fault(content, edit, index))
  {
    FindMatchMeaning(content, edit, index);
    var pattern := NormalizeEol(edit.oldText);
    IndexOfBounds(content, pattern, 0);
    var start := IndexOf(content, pattern, 0);
    if start >= 0 {
      assert OccursAt(content, pattern, start);
    }
  }

  /** The first edit that does not occur exactly once. */
  ghost predicate FirstFault(content: string, edits: seq<Edit>, k: nat) {
    k < |edits| && !OccursOnce(content, edits[k]) && forall i | 0 <= i < k :: OccursOnce(content, edits[i])
  }

  lemma {:induction false} FindMatchesFault(content: string, edits: seq<Edit>, k: nat, index: nat)
    requires index <= k && FirstFault(content, edits, k)
    ensures FindMatches(content, edits, index) == Refused(Fault(content, edits[k], k))
    decreases k - index
  {
    FindMatchMeaning(content, edits[index], index);
    if index == k {
      FindMatchFault(content, edits[k], k);
    } else {
      FindMatchesFault(content, edits, k, index + 1);
    }
  }

  lemma {:induction false} FirstOverlapAt(ms: seq<Match>, i: nat) returns (k: nat)
    requires 1 <= i && FirstOverlap(ms, i).Refused?
    ensures i <= k < |ms| && ms[k].start < ms[k - 1].end
    ensures FirstOverlap(ms, i) == Refused(Overlap(ms[k - 1].index, ms[k].index))
    ensures forall j | i <= j < k :: ms[j - 1].end <= ms[j].start
    decreases |ms| - i
  {
    if ms[i].start < ms[i - 1].end {
      k := i;
    } else {
      k := FirstOverlapAt(ms, i + 1);
    }
  }

  /** Where an edit's old text is, if it occurs once. */
  ghost predicate IsAt(content: string, edit: Edit, i: nat) {
    OccursOnlyAt(content, NormalizeEol(edit.oldText), i)
  }

  /** The overlap reported: two edits, in the order of their places, that overlap, while none do
      of those whose places begin before that of the second. */
  ghost predicate FirstCollision(content: string, edits: seq<Edit>, a: nat, b: nat) {
    && a < |edits| && b < |edits| && a != b && Collide(content, edits[a], edits[b])
    && exists i: nat, j: nat ::
         && IsAt(content, edits[a], i) && IsAt(content, edits[b], j) && i <= j
         && NoneCollideBefore(content, edits, j)
  }

  ghost predicate NoneCollideBefore(content: string, edits: seq<Edit>, place: nat) {
    forall p, q, i: nat, j: nat |
      0 <= p < |edits| && 0 <= q < |edits| && p != q && IsAt(content, edits[p], i) && IsAt(content, edits[q], j)
      && i < place && j < place :: !Collide(content, edits[p], edits[q])
  }

  lemma {:induction false} ApartBefore(ms: seq<Match>, k: nat, a: nat, b: nat)
    requires k < |ms| && SortedByStart(ms) && forall j | 0 <= j < |ms| :: ms[j].start < ms[j].end
    requires forall j | 1 <= j < k :: ms[j - 1].end <= ms[j].start
    requires a < b < |ms| && ms[b].start < ms[k].start
    ensures ms[a].end <= ms[b].start
  {
    assert b < k;
    var before := ms[..k];
    forall j | 1 <= j < |before| ensures before[j - 1].end <= before[j].start {
      assert before[j] == ms[j] && before[j - 1] == ms[j - 1];
    }
    ApartFromNeighbours(before, a, b);
  }

  lemma MatchPlace(content: string, edit: Edit, index: nat, m: Match, i: nat)
    requires IsMatch(content, edit, index, m) && IsAt(content, edit, i)
    ensures m.start == i
  {
  }

  /** Two edits placed before the second of the first overlapping neighbours do not overlap. */
  lemma {:induction false} NoneBefore(content: string, edits: seq<Edit>, k: nat, p: nat, q: nat, i: nat, j: nat)
    requires FindMatches(content, edits, 0).Done?
    requires var ms := SortByStart(FindMatches(content, edits, 0).value);
             k < |ms| && (forall j | 1 <= j < k :: ms[j - 1].end <= ms[j].start) && i < ms[k].start && j < ms[k].start
    requires p < |edits| && q < |edits| && p != q && IsAt(content, edits[p], i) && IsAt(content, edits[q], j)
    ensures !Collide(content, edits[p], edits[q])
  {
    FoundMatches(content, edits);
    var ms := SortByStart(FindMatches(content, edits, 0).value);
    var a := FoundAt(content, edits, p);
    var b := FoundAt(content, edits, q);
    MatchPlace(content, edits[p], p, ms[a], i);
    MatchPlace(content, edits[q], q, ms[b], j);
    CollideIffOverlap(content, edits[p], p, ms[a], edits[q], q, ms[b]);
    assert forall j | 0 <= j < |ms| :: InText(content, ms[j]);
    assert a != b;
    if a < b {
      ApartBefore(ms, k, a, b);
    } else {
      ApartBefore(ms, k, b, a);
    }
  }

  lemma {:induction false} OverlapReported(content: string, edits: seq<Edit>)
    requires edits != [] && FindMatches(content, edits, 0).Done? && SortedMatches(content, edits).Refused?
    ensures var e := SortedMatches(content, edits).error; e.Overlap? && FirstCollision(content, edits, e.first, e.second)
  {
    FoundMatches(content, edits);
    var ms := SortByStart(FindMatches(content, edits, 0).value);
    var k := FirstOverlapAt(ms, 1);
    var a := SortedFrom(content, edits, k - 1);
    var b := SortedFrom(content, edits, k);
    assert ms[k - 1].index == a && ms[k].index == b;
    CollideIffOverlap(content, edits[a], a, ms[k - 1], edits[b], b, ms[k]);
    assert InText(content, ms[k - 1]) && InText(content, ms[k]);
    forall p, q, i: nat, j: nat |
      0 <= p < |edits| && 0 <= q < |edits| && p != q && IsAt(content, edits[p], i) && IsAt(content, edits[q], j)
      && i < ms[k].start && j < ms[k].start
      ensures !Collide(content, edits[p], edits[q])
    {
      NoneBefore(content, edits, k, p, q, i, j);
    }
    assert NoneCollideBefore(content, edits, ms[k].start);
    assert IsAt(content, edits[a], ms[k - 1].start) && IsAt(content, edits[b], ms[k].start);
  }

  /** Why a request is refused, whenever it is. */
  lemma {:induction false} RefusalMeaning(path: string, edits: seq<Edit>, original: string)
    requires EditPatch(path, edits, original).Refused?
    ensures var content, error := NormalizeEol(original), EditPatch(path, edits, original).error;
            || (error.NoEdits? && edits == [])
            || (exists k: nat :: FirstFault(content, edits, k) && error == Fault(content, edits[k], k))
            || (OccurOnceFrom(content, edits, 0) && error.Overlap? && FirstCollision(content, edits, error.first, error.second))
  {
    var content := NormalizeEol(original);
    FindMatchesMeaning(content, edits, 0);
    if edits != [] {
      if OccurOnceFrom(content, edits, 0) {
        OverlapReported(content, edits);
      } else {
        var k := FirstFaultOf(content, edits, 0);
        FindMatchesFault(content, edits, k, 0);
      }
    }
  }

  lemma {:induction false} FirstFaultOf(content: string, edits: seq<Edit>, from: nat) returns (k: nat)
    requires from <= |edits| && !OccurOnceFrom(content, edits, from) && forall i | 0 <= i < from :: OccursOnce(content, edits[i])
    ensures FirstFault(content, edits, k)
    decreases |edits| - from
  {
    if OccursOnce(content, edits[from]) {
      k := FirstFaultOf(content, edits, from + 1);
    } else {
      k := from;
    }
  }
}
