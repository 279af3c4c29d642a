/** What one hunk does to a file, whatever lines it is made of: where it lands, what it leaves
    there, when it is refused, and how it is undone. */
module HunkMeaning {
  import opened Options
  import opened Text
  import opened PatchSyntax
  import opened PatchEngine

  // ------------------------------------------------------------- its two sides

  /** The old lines are the texts of context and removed lines, the new ones those of context and
      added lines: line by line, and in order. */
  lemma SidesOfLine(l: HunkLine)
    ensures OldLines([l]) == (if l.kind.Add? then [] else [l.text])
    ensures NewLines([l]) == (if l.kind.Remove? then [] else [l.text])
  {
    assert [l][1..] == [];
  }

  lemma {:induction false} OldAppend(a: seq<HunkLine>, b: seq<HunkLine>)
    ensures OldLines(a + b) == OldLines(a) + OldLines(b)
  {
    if a == [] {
      assert a + b == b;
    } else {
      FirstOf(a, b);
      OldAppend(a[1..], b);
    }
  }

  lemma {:induction false} NewAppend(a: seq<HunkLine>, b: seq<HunkLine>)
    ensures NewLines(a + b) == NewLines(a) + NewLines(b)
  {
    if a == [] {
      assert a + b == b;
    } else {
      FirstOf(a, b);
      NewAppend(a[1..], b);
    }
  }

  lemma SidesAppend(a: seq<HunkLine>, b: seq<HunkLine>)
    ensures OldLines(a + b) == OldLines(a) + OldLines(b)
    ensures NewLines(a + b) == NewLines(a) + NewLines(b)
  {
    OldAppend(a, b);
    NewAppend(a, b);
  }

  function SwappedKind(kind: LineKind): LineKind {
    match kind
    case Context => Context
    case Add => Remove
    case Remove => Add
  }

  /** The lines of the hunk that takes a hunk back. */
  function Swapped(ls: seq<HunkLine>): (r: seq<HunkLine>)
    ensures |r| == |ls| && forall i | 0 <= i < |ls| :: r[i] == HunkLine(SwappedKind(ls[i].kind), ls[i].text)
  {
    seq(|ls|, i requires 0 <= i < |ls| => HunkLine(SwappedKind(ls[i].kind), ls[i].text))
  }

  lemma {:induction false} SwappedSides(ls: seq<HunkLine>)
    ensures OldLines(Swapped(ls)) == NewLines(ls) && NewLines(Swapped(ls)) == OldLines(ls)
  {
    if ls != [] {
      SwappedSides(ls[1..]);
      assert Swapped(ls)[1..] == Swapped(ls[1..]);
    }
  }

  predicate ContextOnly(ls: seq<HunkLine>) {
    forall i | 0 <= i < |ls| :: ls[i].kind.Context?
  }

  lemma {:induction false} ContextSides(ls: seq<HunkLine>)
    requires ContextOnly(ls)
    ensures OldLines(ls) == NewLines(ls) && |OldLines(ls)| == |ls|
    ensures forall i | 0 <= i < |ls| :: OldLines(ls)[i] == ls[i].text
  {
    if ls != [] {
      ContextSides(ls[1..]);
    }
  }

  // --------------------------------------------------------- how lines compare

  predicate Blank(s: string) {
    forall i | 0 <= i < |s| :: IsSpace(s[i])
  }

  /** Two texts that are the same but for blanks at the end. */
  ghost predicate SameButEnd(a: string, b: string) {
    exists core, x, y :: a == core + x && b == core + y && Blank(x) && Blank(y)
  }

  /** Two texts that are the same but for blanks at either end. */
  ghost predicate SameButEnds(a: string, b: string) {
    exists u, v, core, x, y ::
      a == u + core + x && b == v + core + y && Blank(u) && Blank(v) && Blank(x) && Blank(y)
  }

  lemma {:induction false} TrimEndDrops(s: string)
    ensures TrimEnd(s) <= s && Blank(s[|TrimEnd(s)|..])
    ensures TrimEnd(s) == [] || !IsSpace(TrimEnd(s)[|TrimEnd(s)| - 1])
  {
    if s != [] && IsSpace(s[|s| - 1]) {
      var shorter := s[..|s| - 1];
      TrimEndDrops(shorter);
      var n := |TrimEnd(s)|;
      forall i | 0 <= i < |s| - n ensures IsSpace(s[n..][i]) {
        assert i < |s| - n - 1 ==> s[n..][i] == shorter[n..][i];
      }
    }
  }

  lemma {:induction false} TrimStartDrops(s: string)
    ensures |TrimStart(s)| <= |s| && s[|s| - |TrimStart(s)|..] == TrimStart(s) && Blank(s[..|s| - |TrimStart(s)|])
    ensures TrimStart(s) == [] || !IsSpace(TrimStart(s)[0])
  {
    TrimStartSuffix(s);
    if s != [] && IsSpace(s[0]) {
      TrimStartDrops(s[1..]);
      var n := |s| - |TrimStart(s)|;
      forall i | 0 <= i < n ensures IsSpace(s[..n][i]) {
        assert i > 0 ==> s[..n][i] == s[1..][..n - 1][i - 1];
      }
    }
  }

  lemma {:induction false} TrimEndOf(core: string, x: string)
    requires Blank(x)
    ensures TrimEnd(core + x) == TrimEnd(core)
    decreases |x|
  {
    if x == [] {
      assert core + x == core;
    } else {
      assert (core + x)[..|core + x| - 1] == core + x[..|x| - 1];
      TrimEndOf(core, x[..|x| - 1]);
    }
  }

  lemma {:induction false} TrimStartOf(u: string, core: string)
    requires Blank(u)
    ensures TrimStart(u + core) == TrimStart(core)
  {
    if u == [] {
      assert u + core == core;
    } else {
      FirstOf(u, core);
      TrimStartOf(u[1..], core);
    }
  }

  /** Trailing blanks appended to a text stay at the end of what is left of it, or vanish. */
  lemma {:induction false} TrimStartEnd(core: string, x: string)
    requires Blank(x)
    ensures TrimEnd(TrimStart(core + x)) == TrimEnd(TrimStart(core))
  {
    if core == [] {
      BlankTrims(x);
      assert core + x == x;
    } else if IsSpace(core[0]) {
      FirstOf(core, x);
      TrimStartEnd(core[1..], x);
      assert TrimStart(core) == TrimStart(core[1..]);
    } else {
      FirstOf(core, x);
      assert TrimStart(core + x) == core + x && TrimStart(core) == core;
      TrimEndOf(core, x);
    }
  }

  lemma BlankTrims(x: string)
    requires Blank(x)
    ensures TrimStart(x) == []
  {
    TrimStartOf(x, []);
    assert x + [] == x;
  }

  /** The three tiers: equal, equal but for blanks at the end, and equal but for blanks at
      either end. */
  lemma TierMeaning(a: string, b: string)
    ensures Fold(Exact, a) == Fold(Exact, b) <==> a == b
    ensures Fold(Trailing, a) == Fold(Trailing, b) <==> SameButEnd(a, b)
    ensures Fold(Surrounding, a) == Fold(Surrounding, b) <==> SameButEnds(a, b)
  {
    TrailingMeaning(a, b);
    SurroundingMeaning(a, b);
  }

  lemma TrailingMeaning(a: string, b: string)
    ensures TrimEnd(a) == TrimEnd(b) <==> SameButEnd(a, b)
  {
    TrimEndDrops(a);
    TrimEndDrops(b);
    if TrimEnd(a) == TrimEnd(b) {
      var core := TrimEnd(a);
      assert a == core + a[|core|..] && b == core + b[|core|..];
    }
    if SameButEnd(a, b) {
      var core, x, y :| a == core + x && b == core + y && Blank(x) && Blank(y);
      TrimEndOf(core, x);
      TrimEndOf(core, y);
    }
  }

  lemma JoinParts(a: string, u: string, t: string, core: string, x: string)
    requires a == u + t && t == core + x
    ensures a == u + core + x
  {
  }

  lemma StartParts(a: string) returns (u: string)
    ensures a == u + TrimStart(a) && Blank(u)
  {
    TrimStartDrops(a);
    var n := |a| - |TrimStart(a)|;
    u := a[..n];
    assert a == a[..n] + a[n..];
  }

  lemma EndParts(t: string) returns (x: string)
    ensures t == TrimEnd(t) + x && Blank(x)
  {
    TrimEndDrops(t);
    x := t[|TrimEnd(t)|..];
  }

  /** A text is its trim between blanks. */
  lemma TrimParts(a: string) returns (u: string, x: string)
    ensures a == u + Trim(a) + x && Blank(u) && Blank(x)
  {
    u := StartParts(a);
    x := EndParts(TrimStart(a));
    JoinParts(a, u, TrimStart(a), Trim(a), x);
  }

  lemma TrimOf(u: string, core: string, x: string)
    requires Blank(u) && Blank(x)
    ensures Trim(u + core + x) == Trim(core)
  {
    assert u + core + x == u + (core + x);
    TrimStartOf(u, core + x);
    TrimStartEnd(core, x);
  }

  lemma SurroundingMeaning(a: string, b: string)
    ensures Trim(a) == Trim(b) <==> SameButEnds(a, b)
  {
    if Trim(a) == Trim(b) {
      var u, x := TrimParts(a);
      var v, y := TrimParts(b);
      assert SameButEnds(a, b);
    }
    if SameButEnds(a, b) {
      var u, v, core, x, y :|
        a == u + core + x && b == v + core + y && Blank(u) && Blank(v) && Blank(x) && Blank(y);
      TrimOf(u, core, x);
      TrimOf(v, core, y);
    }
  }

  // --------------------------------------------------------------- where it lands

  /** The first match of the first tier that has any, from a line on. */
  ghost predicate Hit(hay: seq<string>, needle: seq<string>, start: nat, index: nat, tier: Tier) {
    && LeastMatch(hay, needle, start, index, tier)
    && (!tier.Exact? ==> NoMatch(hay, needle, start, |hay| + 1, Exact))
    && (tier.Surrounding? ==> NoMatch(hay, needle, start, |hay| + 1, Trailing))
  }

  ghost predicate Found(hay: seq<string>, needle: seq<string>, start: nat, index: nat) {
    exists tier :: Hit(hay, needle, start, index, tier)
  }

  /** No tier has a match, from a line on. */
  ghost predicate Missing(hay: seq<string>, needle: seq<string>, start: nat) {
    && NoMatch(hay, needle, start, |hay| + 1, Exact)
    && NoMatch(hay, needle, start, |hay| + 1, Trailing)
    && NoMatch(hay, needle, start, |hay| + 1, Surrounding)
  }

  /** The first line a search tries: at the end of the file, the last that leaves room. */
  function SearchFrom(count: nat, needed: nat, from: nat, endOfFile: bool): nat {
    if endOfFile && count - needed > from then count - needed else from
  }

  lemma SearchHitsOrMisses(hay: seq<string>, needle: seq<string>, from: nat, endOfFile: bool) returns (tier: Tier)
    requires needle != []
    ensures var r := FindSequence(hay, needle, from, endOfFile);
            var start := SearchFrom(|hay|, |needle|, from, endOfFile);
            r >= -1 && if r < 0 then Missing(hay, needle, start) else Hit(hay, needle, start, r, tier)
  {
    FindSequenceMeaning(hay, needle, from, endOfFile);
    var r, start := FindSequence(hay, needle, from, endOfFile), SearchStart(hay, needle, from, endOfFile);
    tier := if r < 0 || LeastMatch(hay, needle, start, r, Exact) then Exact
            else if LeastMatch(hay, needle, start, r, Trailing) then Trailing else Surrounding;
  }

  /** A match leaves no tier without one. */
  lemma HitIsNotMissing(hay: seq<string>, needle: seq<string>, start: nat, index: nat, tier: Tier)
    requires Hit(hay, needle, start, index, tier)
    ensures !Missing(hay, needle, start)
  {
    assert MatchesAt(hay, needle, index, tier);
    assert !NoMatch(hay, needle, start, |hay| + 1, tier);
  }

  /** Where the search for a hunk's old lines begins: at the cursor, or on the line after the one
      its context is found on. */
  ghost predicate Begins(e: Edited, h: Hunk, start: nat) {
    match h.changeContext
    case None => start == e.cursor
    case Some(c) => exists line: nat, tier :: Hit(e.lines, [c], e.cursor, line, tier) && start == line + 1
  }

  /** Where a hunk goes, given where its search begins: to the very end when it is marked for the
      end of the file, and with nothing to look for right there. */
  ghost predicate Lands(lines: seq<string>, h: Hunk, start: nat, index: nat) {
    var o := OldLines(h.lines);
    if o == [] then index == if h.endOfFile then |lines| else start
    else
      && (h.endOfFile ==> index + |o| == |lines|)
      && Found(lines, o, SearchFrom(|lines|, |o|, start, h.endOfFile), index)
  }

  lemma ContextFound(path: string, e: Edited, h: Hunk)
    requires e.cursor <= |e.lines| && HunkStart(path, e, h).Ok?
    ensures Begins(e, h, HunkStart(path, e, h).value)
  {
    if h.changeContext.Some? {
      var tier := SearchHitsOrMisses(e.lines, [h.changeContext.value], e.cursor, false);
      assert Hit(e.lines, [h.changeContext.value], e.cursor, HunkStart(path, e, h).value - 1, tier);
    }
  }

  /** Where the search for old lines ends up. */
  function Landing(h: Hunk, lines: seq<string>, start: nat): int {
    if h.endOfFile && OldLines(h.lines) == [] then |lines|
    else FindSequence(lines, OldLines(h.lines), start, h.endOfFile)
  }

  lemma LandsThere(lines: seq<string>, h: Hunk, start: nat)
    requires start <= |lines| && Landing(h, lines, start) >= 0
    ensures Lands(lines, h, start, Landing(h, lines, start))
    ensures start <= Landing(h, lines, start) && Landing(h, lines, start) + |OldLines(h.lines)| <= |lines|
  {
    var o := OldLines(h.lines);
    FindSequenceBounds(lines, o, start, h.endOfFile);
    if o != [] {
      var tier := SearchHitsOrMisses(lines, o, start, h.endOfFile);
      FindSequenceMeaning(lines, o, start, h.endOfFile);
    }
  }

  lemma StartBounds(path: string, e: Edited, h: Hunk)
    requires e.cursor <= |e.lines| && HunkStart(path, e, h).Ok?
    ensures e.cursor <= HunkStart(path, e, h).value <= |e.lines|
  {
    if h.changeContext.Some? {
      FindSequenceBounds(e.lines, [h.changeContext.value], e.cursor, false);
    }
  }

  lemma HunkSpliced(path: string, e: Edited, h: Hunk)
    requires e.cursor <= |e.lines| && ApplyHunk(path, e, h).Ok?
    ensures HunkStart(path, e, h).Ok?
    ensures var index := Landing(h, e.lines, HunkStart(path, e, h).value);
            && 0 <= index && index + |OldLines(h.lines)| <= |e.lines|
            && var n := NewLines(h.lines);
               ApplyHunk(path, e, h).value ==
               Edited(e.lines[..index] + n + e.lines[index + |OldLines(h.lines)|..], index + |n|)
  {
    FindSequenceBounds(e.lines, OldLines(h.lines), HunkStart(path, e, h).value, h.endOfFile);
  }

  /** A hunk that applies: the lines from where it lands, as many as its old ones, give way to its
      new ones, every other line stays, and the next search begins after them. */
  lemma HunkApplied(path: string, e: Edited, h: Hunk) returns (start: nat, index: nat)
    requires e.cursor <= |e.lines| && ApplyHunk(path, e, h).Ok?
    ensures Begins(e, h, start) && e.cursor <= start <= |e.lines|
    ensures Lands(e.lines, h, start, index) && start <= index && index + |OldLines(h.lines)| <= |e.lines|
    ensures var n := NewLines(h.lines);
            ApplyHunk(path, e, h).value == Edited(e.lines[..index] + n + e.lines[index + |OldLines(h.lines)|..], index + |n|)
  {
    HunkSpliced(path, e, h);
    ContextFound(path, e, h);
    StartBounds(path, e, h);
    start := HunkStart(path, e, h).value;
    LandsThere(e.lines, h, start);
    index := Landing(h, e.lines, start);
  }

  ghost predicate OldMissing(lines: seq<string>, h: Hunk, start: nat) {
    Missing(lines, OldLines(h.lines), SearchFrom(|lines|, |OldLines(h.lines)|, start, h.endOfFile))
  }

  /** A hunk is refused exactly when its context is not in the file from the cursor on, or its old
      lines are not there from where their search begins. */
  lemma HunkRefused(path: string, e: Edited, h: Hunk)
    requires e.cursor <= |e.lines|
    ensures ApplyHunk(path, e, h).Err? ==> ApplyHunk(path, e, h) == Err(ContextNotFound(path))
    ensures ApplyHunk(path, e, h).Err? <==>
            || (h.changeContext.Some? && Missing(e.lines, [h.changeContext.value], e.cursor))
            || (OldLines(h.lines) != [] && exists start: nat :: Begins(e, h, start) && OldMissing(e.lines, h, start))
  {
    var o := OldLines(h.lines);
    if HunkStart(path, e, h).Ok? {
      ContextFound(path, e, h);
      var start := HunkStart(path, e, h).value;
      BeginsOnce(e, h, start);
      if h.changeContext.Some? {
        var line: nat, tier :| Hit(e.lines, [h.changeContext.value], e.cursor, line, tier) && start == line + 1;
        HitIsNotMissing(e.lines, [h.changeContext.value], e.cursor, line, tier);
      }
      if o != [] {
        var low := SearchFrom(|e.lines|, |o|, start, h.endOfFile);
        var tier := SearchHitsOrMisses(e.lines, o, start, h.endOfFile);
        if FindSequence(e.lines, o, start, h.endOfFile) >= 0 {
          HitIsNotMissing(e.lines, o, low, FindSequence(e.lines, o, start, h.endOfFile), tier);
        }
      }
    } else {
      var tier := SearchHitsOrMisses(e.lines, [h.changeContext.value], e.cursor, false);
    }
  }

  lemma HitOnce(hay: seq<string>, needle: seq<string>, start: nat, i: nat, s: Tier, j: nat, t: Tier)
    requires Hit(hay, needle, start, i, s) && Hit(hay, needle, start, j, t)
    ensures i == j
  {
    assert MatchesAt(hay, needle, i, s) && MatchesAt(hay, needle, j, t);
  }

  lemma BeginsOnce(e: Edited, h: Hunk, start: nat)
    requires Begins(e, h, start)
    ensures forall other: nat :: Begins(e, h, other) ==> other == start
  {
    forall other: nat | Begins(e, h, other) ensures other == start {
      if h.changeContext.Some? {
        var needle := [h.changeContext.value];
        var i: nat, s :| Hit(e.lines, needle, e.cursor, i, s) && start == i + 1;
        var j: nat, t :| Hit(e.lines, needle, e.cursor, j, t) && other == j + 1;
        HitOnce(e.lines, needle, e.cursor, i, s, j, t);
      }
    }
  }

  // ----------------------------------------------------- context, and taking back

  lemma SplicedSame(lines: seq<string>, n: seq<string>, index: nat, ls: seq<HunkLine>)
    requires |n| == |ls| && index + |n| <= |lines| && forall k | 0 <= k < |n| :: n[k] == ls[k].text
    ensures var after := lines[..index] + n + lines[index + |n|..];
            && |after| == |lines|
            && (forall i | 0 <= i < |lines| :: after[i] == if index <= i < index + |n| then n[i - index] else lines[i])
            && (after == lines <==> forall k | 0 <= k < |ls| :: lines[index + k] == ls[k].text)
  {
    var after := lines[..index] + n + lines[index + |n|..];
    if after == lines {
      forall k | 0 <= k < |ls| ensures lines[index + k] == ls[k].text {
        assert after[index + k] == n[k];
      }
    }
    if forall k | 0 <= k < |ls| :: lines[index + k] == ls[k].text {
      forall i | 0 <= i < |lines| ensures after[i] == lines[i] {
        assert index <= i < index + |n| ==> lines[index + (i - index)] == ls[i - index].text;
      }
    }
  }

  lemma LandedLine(lines: seq<string>, h: Hunk, start: nat, index: nat, i: nat)
    requires Lands(lines, h, start, index) && index <= i < index + |OldLines(h.lines)| <= |lines|
    ensures Trim(OldLines(h.lines)[i - index]) == Trim(lines[i])
  {
    var o := OldLines(h.lines);
    var tier :| Hit(lines, o, SearchFrom(|lines|, |o|, start, h.endOfFile), index, tier);
    HitLine(lines, o, index, tier, i);
    FoldedTrim(o[i - index], lines[i], tier);
  }

  lemma HitLine(lines: seq<string>, o: seq<string>, index: nat, tier: Tier, i: nat)
    requires index <= i < index + |o| <= |lines| && MatchesAt(lines, o, index, tier)
    ensures Fold(tier, lines[i]) == Fold(tier, o[i - index])
  {
    assert lines[index + (i - index)] == lines[i];
  }

  lemma FoldedTrim(a: string, b: string, tier: Tier)
    requires Fold(tier, a) == Fold(tier, b)
    ensures Trim(a) == Trim(b)
  {
    TrimOfTrimEnd(a);
    TrimOfTrimEnd(b);
  }

  lemma TrimOfTrimEnd(a: string)
    ensures Trim(TrimEnd(a)) == Trim(a)
  {
    TrimEndDrops(a);
    var core := TrimEnd(a);
    assert a == core + a[|core|..];
    TrimStartEnd(core, a[|core|..]);
  }

  /** A line after a hunk that puts back lines no different but for blanks. */
  lemma LineStays(lines: seq<string>, after: seq<string>, h: Hunk, start: nat, index: nat, i: nat)
    requires Lands(lines, h, start, index) && index + |OldLines(h.lines)| <= |lines| && i < |lines| == |after|
    requires after[i] == if index <= i < index + |OldLines(h.lines)| then OldLines(h.lines)[i - index] else lines[i]
    ensures Trim(after[i]) == Trim(lines[i])
  {
    if index <= i < index + |OldLines(h.lines)| {
      LandedLine(lines, h, start, index, i);
    }
  }

  lemma ContextSpliced(e: Edited, h: Hunk, start: nat, index: nat)
    requires ContextOnly(h.lines) && Lands(e.lines, h, start, index) && index + |OldLines(h.lines)| <= |e.lines|
    ensures |OldLines(h.lines)| == |h.lines|
    ensures var lines := e.lines[..index] + NewLines(h.lines) + e.lines[index + |OldLines(h.lines)|..];
            && |lines| == |e.lines|
            && (forall i | 0 <= i < |lines| :: Trim(lines[i]) == Trim(e.lines[i]))
            && (lines == e.lines <==> forall k | 0 <= k < |h.lines| :: e.lines[index + k] == h.lines[k].text)
  {
    ContextSides(h.lines);
    var o := OldLines(h.lines);
    var lines := e.lines[..index] + o + e.lines[index + |o|..];
    SplicedSame(e.lines, o, index, h.lines);
    forall i | 0 <= i < |lines| ensures Trim(lines[i]) == Trim(e.lines[i]) {
      LineStays(e.lines, lines, h, start, index, i);
    }
  }

  /** A hunk of context lines only leaves every line as it was but for blanks at its ends, and
      the text itself where it stands exactly as the hunk has it. */
  lemma ContextStays(path: string, e: Edited, h: Hunk) returns (index: nat)
    requires e.cursor <= |e.lines| && ContextOnly(h.lines) && ApplyHunk(path, e, h).Ok?
    ensures var lines := ApplyHunk(path, e, h).value.lines;
            && |lines| == |e.lines| && index + |h.lines| <= |lines|
            && (forall i | 0 <= i < |lines| :: SameButEnds(lines[i], e.lines[i]))
            && (lines == e.lines <==> forall k | 0 <= k < |h.lines| :: e.lines[index + k] == h.lines[k].text)
  {
    var start;
    start, index := HunkApplied(path, e, h);
    ContextSpliced(e, h, start, index);
    var lines := ApplyHunk(path, e, h).value.lines;
    forall i | 0 <= i < |lines| ensures SameButEnds(lines[i], e.lines[i]) {
      SurroundingMeaning(lines[i], e.lines[i]);
    }
  }

  lemma FoundHunk(path: string, e: Edited, h: Hunk, index: nat)
    requires e.cursor <= |e.lines| && h.changeContext.None? && !h.endOfFile
    requires FindSequence(e.lines, OldLines(h.lines), e.cursor, false) == index
    ensures index + |OldLines(h.lines)| <= |e.lines|
    ensures ApplyHunk(path, e, h) ==
            Ok(Edited(e.lines[..index] + NewLines(h.lines) + e.lines[index + |OldLines(h.lines)|..],
                      index + |NewLines(h.lines)|))
  {
    FindSequenceBounds(e.lines, OldLines(h.lines), e.cursor, false);
  }

  /** The hunk with its added and removed lines swapped takes a hunk back that found its lines
      exactly, when its search comes to the same place. */
  lemma SwappedUndoes(path: string, e: Edited, h: Hunk, index: nat)
    requires e.cursor <= |e.lines| && h.changeContext.None? && !h.endOfFile
    requires var o := OldLines(h.lines);
             && index + |o| <= |e.lines| && e.lines[index..index + |o|] == o
             && FindSequence(e.lines, o, e.cursor, false) == index
    requires ApplyHunk(path, e, h).Ok? && e.cursor <= |ApplyHunk(path, e, h).value.lines|
    requires FindSequence(ApplyHunk(path, e, h).value.lines, NewLines(h.lines), e.cursor, false) == index
    ensures ApplyHunk(path, Edited(ApplyHunk(path, e, h).value.lines, e.cursor), h.(lines := Swapped(h.lines))) ==
            Ok(Edited(e.lines, index + |OldLines(h.lines)|))
  {
    SwappedSides(h.lines);
    FoundHunk(path, e, h, index);
    SpliceBack(e.lines, index, OldLines(h.lines), NewLines(h.lines));
    FoundHunk(path, Edited(ApplyHunk(path, e, h).value.lines, e.cursor), h.(lines := Swapped(h.lines)), index);
  }

  lemma SpliceBack(lines: seq<string>, index: nat, o: seq<string>, n: seq<string>)
    requires index + |o| <= |lines| && lines[index..index + |o|] == o
    ensures var after := lines[..index] + n + lines[index + |o|..];
            after[..index] + o + after[index + |n|..] == lines
  {
    var after := lines[..index] + n + lines[index + |o|..];
    assert after[..index] == lines[..index] && after[index + |n|..] == lines[index + |o|..];
  }
}
