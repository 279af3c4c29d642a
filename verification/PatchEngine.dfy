/** Applying update hunks to a file: splitting it into lines, finding each hunk's
    lines from a moving cursor, and splicing the new lines in. */
module PatchEngine {
  import opened Options
  import opened Text
  import opened PatchSyntax

  // --------------------------------------------------------------- splitting

  predicate HasCrLf(s: string) {
    exists i | 0 <= i < |s| - 1 :: s[i] == '\r' && s[i + 1] == '\n'
  }

  datatype SplitText = SplitText(lines: seq<string>, crlf: bool, finalNewline: bool)

  function SplitFile(content: string): SplitText {
    var normalized := NormalizeEol(content);
    var finalNewline := EndsWith(normalized, '\n');
    var lines := Split(normalized);
    SplitText(if finalNewline then lines[..|lines| - 1] else lines, HasCrLf(content), finalNewline)
  }

  lemma {:induction false} SplitLast(s: string)
    ensures var ls := Split(s + "\n"); ls == Split(s) + [""]
  {
    if s == [] {
      assert s + "\n" == ['\n'];
      SplitFirst("", "");
    } else {
      SplitLast(s[1..]);
      assert (s + "\n")[1..] == s[1..] + "\n";
      assert (s + "\n")[0] == s[0];
    }
  }

  /** Splitting a file gives the lines of its normalised text with a final newline ensured. */
  lemma {:induction false} SplitFileLines(content: string)
    ensures SplitFile(content).lines == Split(Strip(NormalizeEol(content)))
  {
    var s := NormalizeEol(content);
    if EndsWith(s, '\n') {
      SplitLast(Strip(s));
      assert Strip(s) + "\n" == s;
      DropLast(Split(Strip(s)), "");
    }
  }

  lemma DropLast<T>(a: seq<T>, x: T)
    ensures (a + [x])[..|a + [x]| - 1] == a
  {
  }

  // --------------------------------------------------------------- searching

  /** How closely lines are compared: exactly, then up to trailing blanks, then up to
      blanks at either end. */
  datatype Tier = Exact | Trailing | Surrounding

  function Fold(tier: Tier, line: string): string {
    match tier
    case Exact => line
    case Trailing => TrimEnd(line)
    case Surrounding => Trim(line)
  }

  predicate MatchesAt(hay: seq<string>, needle: seq<string>, index: nat, tier: Tier)
    requires index + |needle| <= |hay|
  {
    forall k | 0 <= k < |needle| :: Fold(tier, hay[index + k]) == Fold(tier, needle[k])
  }

  /** The first match at or after an index, or -1. */
  function FirstMatch(hay: seq<string>, needle: seq<string>, index: nat, tier: Tier): int
    decreases |hay| - index
  {
    if index + |needle| > |hay| then -1
    else if MatchesAt(hay, needle, index, tier) then index
    else if index == |hay| then -1
    else FirstMatch(hay, needle, index + 1, tier)
  }

  function SearchStart(hay: seq<string>, needle: seq<string>, from: nat, endOfFile: bool): nat {
    if endOfFile && |hay| - |needle| > from then |hay| - |needle| else from
  }

  const TIERS := [Exact, Trailing, Surrounding]

  function FindTier(hay: seq<string>, needle: seq<string>, start: nat, tiers: seq<Tier>): int {
    if tiers == [] then -1
    else
      var index := FirstMatch(hay, needle, start, tiers[0]);
      if index >= 0 then index else FindTier(hay, needle, start, tiers[1..])
  }

  /** The index found by the first tier that finds any, or -1. */
  function FindSequence(hay: seq<string>, needle: seq<string>, from: nat, endOfFile: bool): int {
    if needle == [] then from
    else FindTier(hay, needle, SearchStart(hay, needle, from, endOfFile), TIERS)
  }

  /** No index from start up to stop matches. */
  ghost predicate NoMatch(hay: seq<string>, needle: seq<string>, start: nat, stop: nat, tier: Tier) {
    forall i: nat | start <= i < stop && i + |needle| <= |hay| :: !MatchesAt(hay, needle, i, tier)
  }

  /** The index is the least match of the tier from start on. */
  ghost predicate LeastMatch(hay: seq<string>, needle: seq<string>, start: nat, index: nat, tier: Tier) {
    && start <= index && index + |needle| <= |hay|
    && MatchesAt(hay, needle, index, tier)
    && NoMatch(hay, needle, start, index, tier)
  }

  /** Nothing matches at an index: what holds from the next one on holds from it. */
  lemma LeastStep(hay: seq<string>, needle: seq<string>, index: nat, r: nat, tier: Tier)
    requires index + |needle| <= |hay| && !MatchesAt(hay, needle, index, tier)
    requires LeastMatch(hay, needle, index + 1, r, tier)
    ensures LeastMatch(hay, needle, index, r, tier)
  {
  }

  lemma NoMatchStep(hay: seq<string>, needle: seq<string>, index: nat, tier: Tier)
    requires index + |needle| <= |hay| && !MatchesAt(hay, needle, index, tier)
    requires NoMatch(hay, needle, index + 1, |hay| + 1, tier)
    ensures NoMatch(hay, needle, index, |hay| + 1, tier)
  {
  }

  /** What a search of one tier says of an index: the least match, or none. */
  ghost predicate Says(hay: seq<string>, needle: seq<string>, index: nat, tier: Tier, r: int) {
    if r >= 0 then LeastMatch(hay, needle, index, r, tier)
    else r == -1 && NoMatch(hay, needle, index, |hay| + 1, tier)
  }

  lemma {:induction false} FirstMatchMeaning(hay: seq<string>, needle: seq<string>, index: nat, tier: Tier)
    ensures Says(hay, needle, index, tier, FirstMatch(hay, needle, index, tier))
    decreases |hay| - index
  {
    if index + |needle| <= |hay| && !MatchesAt(hay, needle, index, tier) && index < |hay| {
      FirstMatchMeaning(hay, needle, index + 1, tier);
      var r := FirstMatch(hay, needle, index + 1, tier);
      if r >= 0 {
        LeastStep(hay, needle, index, r, tier);
      } else {
        NoMatchStep(hay, needle, index, tier);
      }
    }
  }

  lemma {:induction false} ThreeTiers(hay: seq<string>, needle: seq<string>, start: nat)
    ensures FindTier(hay, needle, start, TIERS) ==
            var exact := FirstMatch(hay, needle, start, Exact);
            var trailing := FirstMatch(hay, needle, start, Trailing);
            if exact >= 0 then exact else if trailing >= 0 then trailing
            else FirstMatch(hay, needle, start, Surrounding)
  {
    FirstMatchMeaning(hay, needle, start, Surrounding);
    var two, one := [Trailing, Surrounding], [Surrounding];
    assert TIERS[1..] == two && two[1..] == one && one[1..] == [];
    assert FindTier(hay, needle, start, one) == FirstMatch(hay, needle, start, Surrounding);
    assert FindTier(hay, needle, start, two) ==
           var trailing := FirstMatch(hay, needle, start, Trailing);
           if trailing >= 0 then trailing else FirstMatch(hay, needle, start, Surrounding);
  }

  /** What a search promises: the least match of the first tier with any match, at or
      after the cursor (and at the very end when asked for); -1 exactly when no tier matches. */
  lemma FindSequenceMeaning(hay: seq<string>, needle: seq<string>, from: nat, endOfFile: bool)
    requires needle != []
    ensures var r := FindSequence(hay, needle, from, endOfFile);
            var start := SearchStart(hay, needle, from, endOfFile);
            if r < 0 then
              && r == -1
              && NoMatch(hay, needle, start, |hay| + 1, Exact)
              && NoMatch(hay, needle, start, |hay| + 1, Trailing)
              && NoMatch(hay, needle, start, |hay| + 1, Surrounding)
            else
              && (LeastMatch(hay, needle, start, r, Exact)
                  || LeastMatch(hay, needle, start, r, Trailing)
                  || LeastMatch(hay, needle, start, r, Surrounding))
              && (!LeastMatch(hay, needle, start, r, Exact) ==> NoMatch(hay, needle, start, |hay| + 1, Exact))
              && (!LeastMatch(hay, needle, start, r, Exact) && !LeastMatch(hay, needle, start, r, Trailing) ==>
                    NoMatch(hay, needle, start, |hay| + 1, Trailing))
              && (endOfFile ==> r + |needle| == |hay|)
  {
    var start := SearchStart(hay, needle, from, endOfFile);
    FirstMatchMeaning(hay, needle, start, Exact);
    FirstMatchMeaning(hay, needle, start, Trailing);
    FirstMatchMeaning(hay, needle, start, Surrounding);
    ThreeTiers(hay, needle, start);
  }

  lemma ShiftedMatch(done: seq<string>, rest: seq<string>, needle: seq<string>, i: nat, tier: Tier)
    requires i + |needle| <= |rest|
    ensures MatchesAt(done + rest, needle, |done| + i, tier) <==> MatchesAt(rest, needle, i, tier)
  {
  }

  lemma ShiftedNoMatch(done: seq<string>, rest: seq<string>, needle: seq<string>, stop: nat, tier: Tier)
    ensures NoMatch(done + rest, needle, |done|, |done| + stop, tier) <==> NoMatch(rest, needle, 0, stop, tier)
  {
    forall i: nat | i < stop && i + |needle| <= |rest|
      ensures MatchesAt(done + rest, needle, |done| + i, tier) <==> MatchesAt(rest, needle, i, tier)
    {
      ShiftedMatch(done, rest, needle, i, tier);
    }
    if NoMatch(rest, needle, 0, stop, tier) {
      forall i: nat | |done| <= i < |done| + stop && i + |needle| <= |done + rest|
        ensures !MatchesAt(done + rest, needle, i, tier)
      {
        assert !MatchesAt(rest, needle, i - |done|, tier);
        ShiftedMatch(done, rest, needle, i - |done|, tier);
      }
    }
  }

  method SearchTier(hay: seq<string>, needle: seq<string>, from: nat, endOfFile: bool, tier: Tier) returns (r: int)
    ensures r == FirstMatch(hay, needle, SearchStart(hay, needle, from, endOfFile), tier)
  {
    var start := if endOfFile then |hay| - |needle| else from;
    ghost var low := SearchStart(hay, needle, from, endOfFile);
    var end := |hay| - |needle|;
    var index := start;
    while index <= end
      invariant start <= index
      invariant FirstMatch(hay, needle, low, tier) == FirstMatch(hay, needle, if index < low then low else index, tier)
      decreases end - index
    {
      if index >= from && MatchesAt(hay, needle, index, tier) {
        return index;
      }
      index := index + 1;
    }
    return -1;
  }

  method Search(hay: seq<string>, needle: seq<string>, from: nat, endOfFile: bool) returns (r: int)
    ensures r == FindSequence(hay, needle, from, endOfFile)
  {
    if needle == [] {
      return from;
    }
    ghost var low := SearchStart(hay, needle, from, endOfFile);
    for t := 0 to |TIERS|
      invariant FindTier(hay, needle, low, TIERS) == FindTier(hay, needle, low, TIERS[t..])
    {
      assert TIERS[t..][0] == TIERS[t] && TIERS[t..][1..] == TIERS[t + 1..];
      var index := SearchTier(hay, needle, from, endOfFile, TIERS[t]);
      if index >= 0 {
        return index;
      }
    }
    return -1;
  }

  // ---------------------------------------------------------------- applying

  function OldLines(ls: seq<HunkLine>): seq<string> {
    if ls == [] then [] else (if ls[0].kind.Add? then [] else [ls[0].text]) + OldLines(ls[1..])
  }

  function NewLines(ls: seq<HunkLine>): seq<string> {
    if ls == [] then [] else (if ls[0].kind.Remove? then [] else [ls[0].text]) + NewLines(ls[1..])
  }

  /** The lines of a file while hunks are applied, and where the next search begins. */
  datatype Edited = Edited(lines: seq<string>, cursor: nat)

  lemma FindSequenceBounds(hay: seq<string>, needle: seq<string>, from: nat, endOfFile: bool)
    requires from <= |hay|
    ensures var r := FindSequence(hay, needle, from, endOfFile);
            r >= -1 && (r >= 0 ==> from <= r && r + |needle| <= |hay|)
  {
    if needle != [] {
      FindSequenceMeaning(hay, needle, from, endOfFile);
    }
  }

  function HunkStart(path: string, e: Edited, h: Hunk): (r: Result<nat>)
    requires e.cursor <= |e.lines|
    ensures r.Ok? ==> r.value <= |e.lines|
  {
    match h.changeContext
    case None => Ok(e.cursor)
    case Some(context) =>
      FindSequenceBounds(e.lines, [context], e.cursor, false);
      var index := FindSequence(e.lines, [context], e.cursor, false);
      if index < 0 then Err(ContextNotFound(path)) else Ok(index + 1)
  }

  function ApplyHunk(path: string, e: Edited, h: Hunk): (r: Result<Edited>)
    requires e.cursor <= |e.lines|
    ensures r.Ok? ==> r.value.cursor <= |r.value.lines|
  {
    var cursor :- HunkStart(path, e, h);
    var before := OldLines(h.lines);
    var after := NewLines(h.lines);
    FindSequenceBounds(e.lines, before, cursor, h.endOfFile);
    var index := if h.endOfFile && before == [] then |e.lines| else FindSequence(e.lines, before, cursor, h.endOfFile);
    if index < 0 then Err(ContextNotFound(path))
    else Ok(Edited(e.lines[..index] + after + e.lines[index + |before|..], index + |after|))
  }

  function ApplyLines(path: string, e: Edited, hunks: seq<Hunk>): (r: Result<Edited>)
    requires e.cursor <= |e.lines|
    decreases |hunks|
  {
    if hunks == [] then Ok(e)
    else
      var next :- ApplyHunk(path, e, hunks[0]);
      ApplyLines(path, next, hunks[1..])
  }

  lemma {:induction false} ApplyLinesStep(path: string, e: Edited, hunks: seq<Hunk>, i: nat)
    requires e.cursor <= |e.lines| && i < |hunks|
    ensures ApplyLines(path, e, hunks[i..]) ==
            match ApplyHunk(path, e, hunks[i])
            case Err(error) => Err(error)
            case Ok(next) => ApplyLines(path, next, hunks[i + 1..])
  {
    assert hunks[i..][0] == hunks[i] && hunks[i..][1..] == hunks[i + 1..];
  }

  /** The text of edited lines, in the end-of-line style of the file they came from. */
  function Assemble(lines: seq<string>, crlf: bool): string {
    var normalized := Join(lines) + "\n";
    if crlf then LfToCrLf(normalized) else normalized
  }

  function ApplyText(path: string, content: string, hunks: seq<Hunk>): Result<string> {
    var file := SplitFile(content);
    var edited :- ApplyLines(path, Edited(file.lines, 0), hunks);
    Ok(Assemble(edited.lines, file.crlf))
  }

  method SpliceHunk(path: string, e: Edited, hunk: Hunk) returns (r: Result<Edited>)
    requires e.cursor <= |e.lines|
    ensures r == ApplyHunk(path, e, hunk)
  {
    var lines, cursor := e.lines, e.cursor;
    if hunk.changeContext.Some? {
      FindSequenceBounds(lines, [hunk.changeContext.value], cursor, false);
      var contextIndex := Search(lines, [hunk.changeContext.value], cursor, false);
      if contextIndex < 0 {
        return Err(ContextNotFound(path));
      }
      cursor := contextIndex + 1;
    }

    var oldLines := OldLines(hunk.lines);
    var newLines := NewLines(hunk.lines);
    FindSequenceBounds(lines, oldLines, cursor, hunk.endOfFile);
    var index := |lines|;
    if !(hunk.endOfFile && oldLines == []) {
      index := Search(lines, oldLines, cursor, hunk.endOfFile);
    }
    if index < 0 {
      return Err(ContextNotFound(path));
    }
    return Ok(Edited(lines[..index] + newLines + lines[index + |oldLines|..], index + |newLines|));
  }

  method ApplyHunks(path: string, content: string, hunks: seq<Hunk>) returns (r: Result<string>)
    ensures r == ApplyText(path, content, hunks)
  {
    var file := SplitFile(content);
    var edited := Edited(file.lines, 0);
    for i := 0 to |hunks|
      invariant edited.cursor <= |edited.lines|
      invariant ApplyLines(path, Edited(file.lines, 0), hunks) == ApplyLines(path, edited, hunks[i..])
    {
      ApplyLinesStep(path, edited, hunks, i);
      edited :- SpliceHunk(path, edited, hunks[i]);
    }
    return Ok(Assemble(edited.lines, file.crlf));
  }
}
