/** Where the hunks of an edit request land once they have been printed and parsed, each line
    less one trailing CR, and the text they leave. */
module EditLanding {
  import opened Options
  import opened Text
  import opened PatchSyntax
  import opened PatchRoundTrip
  import opened PatchEngine
  import opened LegacyWrites
  import opened EditArrival
  import opened EditMeaning

  // ------------------------------------------------------------- one search

  /** When a search for some lines, each less one trailing CR, finds them in their own place:
      none of them lost a CR, or what they became is not a line of the rest anywhere, nor one
      up to trailing blanks before that place. */
  ghost predicate LandsAt(rest: seq<string>, o: seq<string>, index: nat) {
    || NoCrEnds(o)
    || (NoMatch(rest, DropCrs(o), 0, |rest| + 1, Exact) && NoMatch(rest, DropCrs(o), 0, index, Trailing))
  }

  lemma {:induction false} TrimsAway(l: string)
    ensures TrimEnd(DropCr(l)) == TrimEnd(l)
  {
  }

  /** In their own place the lines match up to trailing blanks, and exactly when no CR was lost. */
  lemma OwnPlace(hay: seq<string>, o: seq<string>, index: nat)
    requires index + |o| <= |hay| && hay[index..index + |o|] == o
    ensures MatchesAt(hay, DropCrs(o), index, Trailing)
    ensures MatchesAt(hay, DropCrs(o), index, Exact) <==> NoCrEnds(o)
  {
    forall k | 0 <= k < |o| ensures hay[index + k] == o[k] && TrimEnd(hay[index + k]) == TrimEnd(DropCrs(o)[k]) {
      assert hay[index..index + |o|][k] == o[k];
      TrimsAway(o[k]);
    }
    NoCrsDropped(o);
    if MatchesAt(hay, DropCrs(o), index, Exact) {
      forall k | 0 <= k < |o| ensures DropCrs(o)[k] == o[k] {
        assert Fold(Exact, hay[index + k]) == Fold(Exact, DropCrs(o)[k]);
      }
    }
  }

  /** A search finds a place that matches up to trailing blanks but not exactly just when
      nothing matches exactly and nothing before it up to trailing blanks. */
  lemma TrailingHit(hay: seq<string>, needle: seq<string>, start: nat, index: nat)
    requires needle != [] && start <= index && index + |needle| <= |hay|
    requires MatchesAt(hay, needle, index, Trailing) && !MatchesAt(hay, needle, index, Exact)
    ensures FindSequence(hay, needle, start, false) == index <==>
            NoMatch(hay, needle, start, |hay| + 1, Exact) && NoMatch(hay, needle, start, index, Trailing)
  {
    FirstMatchMeaning(hay, needle, start, Exact);
    FirstMatchMeaning(hay, needle, start, Trailing);
    ThreeTiers(hay, needle, start);
  }

  /** Past the lines already dealt with, the search for o less its CRs finds o right after a
      exactly when it lands there. */
  lemma SearchLands(done: seq<string>, a: seq<string>, o: seq<string>, r: seq<string>)
    requires o != [] && NotBefore(a, o, r)
    ensures FindSequence(done + (a + o + r), DropCrs(o), |done|, false) == |done| + |a| <==> LandsAt(a + o + r, o, |a|)
  {
    var rest := a + o + r;
    var hay, index := done + rest, |done| + |a|;
    NoCrsDropped(o);
    if NoCrEnds(o) {
      SearchHits(done, a, o, r);
    } else {
      CutHay(done, a, o, r);
      OwnPlace(hay, o, index);
      TrailingHit(hay, DropCrs(o), |done|, index);
      ShiftedNoMatch(done, rest, DropCrs(o), |rest| + 1, Exact);
      ShiftedNoMatch(done, rest, DropCrs(o), |a|, Trailing);
    }
  }

  // --------------------------------------------------------------- one hunk

  lemma {:induction false} OldLinesOf(a: seq<string>, b: seq<string>)
    ensures OldLines(OfKind(Remove, a) + OfKind(Add, b)) == a
    decreases |a| + |b|
  {
    var ls := OfKind(Remove, a) + OfKind(Add, b);
    if a != [] {
      assert ls[1..] == OfKind(Remove, a[1..]) + OfKind(Add, b);
      OldLinesOf(a[1..], b);
    } else if b != [] {
      assert ls[1..] == OfKind(Remove, []) + OfKind(Add, b[1..]);
      OldLinesOf([], b[1..]);
    }
  }

  lemma {:induction false} NewLinesOf(a: seq<string>, b: seq<string>)
    ensures NewLines(OfKind(Remove, a) + OfKind(Add, b)) == b
    decreases |a| + |b|
  {
    var ls := OfKind(Remove, a) + OfKind(Add, b);
    if a != [] {
      assert ls[1..] == OfKind(Remove, a[1..]) + OfKind(Add, b);
      NewLinesOf(a[1..], b);
    } else if b != [] {
      assert ls[1..] == OfKind(Remove, []) + OfKind(Add, b[1..]);
      NewLinesOf([], b[1..]);
    }
  }

  /** A hunk that only removes and adds lines, found at an index. */
  lemma PlainHunkApplies(path: string, e: Edited, o: seq<string>, n: seq<string>, index: nat)
    requires e.cursor <= |e.lines| && index + |o| <= |e.lines| && FindSequence(e.lines, o, e.cursor, false) == index
    ensures ApplyHunk(path, e, Hunk(OfKind(Remove, o) + OfKind(Add, n), None, false)) ==
            Ok(Edited(e.lines[..index] + n + e.lines[index + |o|..], index + |n|))
  {
    OldLinesOf(o, n);
    NewLinesOf(o, n);
  }

  /** A hunk that lands replaces the lines o by its new lines, and the next search begins after
      them. */
  lemma HunkReplaces(path: string, done: seq<string>, a: seq<string>, o: seq<string>, r: seq<string>, n: seq<string>)
    requires o != [] && NotBefore(a, o, r) && LandsAt(a + o + r, o, |a|)
    ensures var h := Hunk(OfKind(Remove, DropCrs(o)) + OfKind(Add, n), None, false);
            var before := done + a + n;
            ApplyHunk(path, Edited(done + (a + o + r), |done|), h) == Ok(Edited(before + r, |before|))
  {
    SearchLands(done, a, o, r);
    var hay, index := done + (a + o + r), |done| + |a|;
    CutHay(done, a, o, r);
    PlainHunkApplies(path, Edited(hay, |done|), DropCrs(o), n, index);
  }

  /** The lines a group's hunk arrives with. */
  function NewArrived(content: string, g: Group): seq<string>
    requires InGroup(content, g)
  {
    DropCrs(GroupNewLines(content, g))
  }

  lemma ArrivingAppend(a: seq<HunkLine>, b: seq<HunkLine>)
    ensures ArrivingLines(a + b) == ArrivingLines(a) + ArrivingLines(b)
  {
  }

  lemma ArrivingOfKind(kind: LineKind, ls: seq<string>)
    ensures ArrivingLines(OfKind(kind, ls)) == OfKind(kind, DropCrs(ls))
  {
  }

  lemma GroupArrives(content: string, g: Group)
    requires InGroup(content, g)
    ensures ArrivingHunk(GroupHunk(content, g)) ==
            Hunk(OfKind(Remove, DropCrs(GroupOldLines(content, g))) + OfKind(Add, NewArrived(content, g)), None, false)
  {
    var o, n := GroupOldLines(content, g), GroupNewLines(content, g);
    ArrivingAppend(OfKind(Remove, o), OfKind(Add, n));
    ArrivingOfKind(Remove, o);
    ArrivingOfKind(Add, n);
  }

  /** Whether a group's hunk lands when the search begins at a position of the file. */
  ghost predicate GroupLands(content: string, q: nat, g: Group)
    requires InGroup(content, g)
  {
    var file := EnsureFinal(content);
    LandsAt(ContentLines(Slice(file, q, |file|)), GroupOldLines(content, g), |ContentLines(Slice(file, q, g.lineStart))|)
  }

  /** A group's hunk on a text cut at its window. */
  lemma ApplyCut(path: string, content: string, g: Group, p: string, text: string, r: string, done: seq<string>)
    requires InGroup(content, g) && text == p + OldText(content, g) + r
    requires Terminated(p) && Terminated(r) && Terminated(text)
    requires forall x: nat | x < |p| :: !OccursAt(text, OldText(content, g), x)
    requires LandsAt(Lines(text), GroupOldLines(content, g), |Lines(p)|)
    ensures var before := done + Lines(p) + NewArrived(content, g);
            ApplyHunk(path, Edited(done + Lines(text), |done|), ArrivingHunk(GroupHunk(content, g))) ==
            Ok(Edited(before + Lines(r), |before|))
  {
    var o := OldText(content, g);
    SplitStrip(Before(content, g));
    CutLines(p, o, r);
    CutNotBefore(p, o, r);
    GroupArrives(content, g);
    HunkReplaces(path, done, Lines(p), GroupOldLines(content, g), Lines(r), NewArrived(content, g));
  }

  /** One group's hunk, from wherever the cursor is. */
  lemma ApplyGroup(path: string, content: string, g: Group, q: nat, done: seq<string>)
    requires GroupOk(content, g) && Ready(content, q, [g]) && GroupLands(content, q, g)
    ensures var file, w := EnsureFinal(content), WindowEnd(content, g);
            && q <= g.lineStart < w <= |file| && file[w - 1] == '\n'
            && Terminated(file[q..]) && Terminated(file[q..g.lineStart]) && Terminated(file[w..])
            && var before := done + Lines(file[q..g.lineStart]) + NewArrived(content, g);
               ApplyHunk(path, Edited(done + Lines(file[q..]), |done|), ArrivingHunk(GroupHunk(content, g))) ==
               Ok(Edited(before + Lines(file[w..]), |before|))
  {
    var file, w := EnsureFinal(content), WindowEnd(content, g);
    CutAtWindow(content, q, g);
    NotBeforeWindow(content, q, g);
    assert Slice(file, q, |file|) == file[q..];
    ApplyCut(path, content, g, file[q..g.lineStart], file[q..], file[w..], done);
  }

  // --------------------------------------------------------- all the hunks

  /** Every hunk lands, each from the end of the window before it. */
  ghost predicate AllLand(content: string, q: nat, groups: seq<Group>)
    requires AllInGroup(content, groups)
    decreases |groups|
  {
    groups != [] ==> GroupLands(content, q, groups[0]) && AllLand(content, WindowEnd(content, groups[0]), groups[1..])
  }

  /** The file from a position on, with every group's window replaced by the lines that arrive. */
  function Arrived(content: string, q: nat, groups: seq<Group>): string
    requires AllInGroup(content, groups)
    decreases |groups|
  {
    var file := EnsureFinal(content);
    if groups == [] then (if q <= |file| then file[q..] else "")
    else
      Slice(file, q, groups[0].lineStart) + Unlines(NewArrived(content, groups[0]))
      + Arrived(content, WindowEnd(content, groups[0]), groups[1..])
  }

  lemma HunksFirst(content: string, groups: seq<Group>)
    requires AllInGroup(content, groups) && groups != []
    ensures AllInGroup(content, groups[1..])
    ensures ArrivingHunks(GroupHunks(content, groups))[0] == ArrivingHunk(GroupHunk(content, groups[0]))
    ensures ArrivingHunks(GroupHunks(content, groups))[1..] == ArrivingHunks(GroupHunks(content, groups[1..]))
  {
  }

  lemma {:induction false} ApplyLinesCons(path: string, e: Edited, hunks: seq<Hunk>, next: Edited)
    requires e.cursor <= |e.lines| && next.cursor <= |next.lines|
    requires hunks != [] && ApplyHunk(path, e, hunks[0]) == Ok(next)
    ensures ApplyLines(path, e, hunks) == ApplyLines(path, next, hunks[1..])
  {
  }

  lemma {:induction false} UnlinesThree(a: seq<string>, b: seq<string>, c: seq<string>)
    ensures Unlines(a + b + c) == Unlines(a) + Unlines(b) + Unlines(c)
  {
    UnlinesAppend(a, b);
    UnlinesAppend(a + b, c);
  }

  lemma Regroup(a: string, b: string, c: string, d: string)
    ensures a + b + c + d == a + (b + c + d)
  {
  }

  lemma {:induction false} ArrivedStep(content: string, q: nat, groups: seq<Group>, done: seq<string>)
    requires AllInGroup(content, groups) && groups != [] && q <= groups[0].lineStart
    requires Terminated(EnsureFinal(content)[q..groups[0].lineStart])
    ensures var g := groups[0];
            var before := done + Lines(EnsureFinal(content)[q..g.lineStart]) + NewArrived(content, g);
            Unlines(before) + Arrived(content, WindowEnd(content, g), groups[1..]) ==
            Unlines(done) + Arrived(content, q, groups)
  {
    var g := groups[0];
    var p := EnsureFinal(content)[q..g.lineStart];
    UnlinesThree(done, Lines(p), NewArrived(content, g));
    UnlinesLines(p);
    Regroup(Unlines(done), p, Unlines(NewArrived(content, g)), Arrived(content, WindowEnd(content, g), groups[1..]));
  }

  /** Every hunk lands on its own window, whatever the hunks before it did to the lines. */
  lemma {:induction false} ApplyGroups(path: string, content: string, groups: seq<Group>, q: nat, done: seq<string>)
    returns (final: Edited)
    requires AllInGroup(content, groups) && GroupsOk(content, groups) && Ready(content, q, groups)
    requires AllLand(content, q, groups)
    ensures Terminated(EnsureFinal(content)[q..])
    ensures ApplyLines(path, Edited(done + Lines(EnsureFinal(content)[q..]), |done|),
                       ArrivingHunks(GroupHunks(content, groups))) == Ok(final)
    ensures Unlines(final.lines) == Unlines(done) + Arrived(content, q, groups)
    decreases |groups|
  {
    var file := EnsureFinal(content);
    FromLineStart(content, q, |file|);
    var start := Edited(done + Lines(file[q..]), |done|);
    if groups == [] {
      final := start;
      UnlinesAppend(done, Lines(file[q..]));
      UnlinesLines(file[q..]);
    } else {
      var g := groups[0];
      var w := WindowEnd(content, g);
      ReadyAfter(content, q, groups);
      ApplyGroup(path, content, g, q, done);
      var before := done + Lines(file[q..g.lineStart]) + NewArrived(content, g);
      HunksFirst(content, groups);
      ApplyLinesCons(path, start, ArrivingHunks(GroupHunks(content, groups)), Edited(before + Lines(file[w..]), |before|));
      final := ApplyGroups(path, content, groups[1..], w, before);
      ArrivedStep(content, q, groups, done);
    }
  }

  // ------------------------------------------------- when they land for sure

  predicate OldLinesKept(content: string, groups: seq<Group>)
    requires AllInGroup(content, groups)
  {
    forall k | 0 <= k < |groups| :: NoCrEnds(GroupOldLines(content, groups[k]))
  }

  predicate NewLinesKept(content: string, groups: seq<Group>)
    requires AllInGroup(content, groups)
  {
    forall k | 0 <= k < |groups| :: NoCrEnds(GroupNewLines(content, groups[k]))
  }

  /** Hunks that lose no CR of a line they remove always land. */
  lemma {:induction false} KeptOldLinesLand(content: string, q: nat, groups: seq<Group>)
    requires AllInGroup(content, groups) && OldLinesKept(content, groups)
    ensures AllLand(content, q, groups)
    decreases |groups|
  {
    if groups != [] {
      assert NoCrEnds(GroupOldLines(content, groups[0]));
      var rest := groups[1..];
      assert forall k | 0 <= k < |rest| :: rest[k] == groups[k + 1];
      KeptOldLinesLand(content, WindowEnd(content, groups[0]), rest);
    }
  }

  // ---------------------------------------------------------- CRs that are lost

  lemma NewKeptFirst(content: string, groups: seq<Group>)
    requires AllInGroup(content, groups) && groups != []
    ensures AllInGroup(content, groups[1..])
    ensures NewLinesKept(content, groups) <==> NoCrEnds(GroupNewLines(content, groups[0])) && NewLinesKept(content, groups[1..])
  {
    var rest := groups[1..];
    forall k | 0 <= k < |groups| && k > 0 ensures groups[k] == rest[k - 1] {
    }
    if NewLinesKept(content, groups) {
      forall k | 0 <= k < |rest| ensures NoCrEnds(GroupNewLines(content, rest[k])) {
        assert rest[k] == groups[k + 1];
      }
    }
  }

  lemma GroupCrs(content: string, g: Group)
    requires InGroup(content, g)
    ensures Crs(Unlines(NewArrived(content, g))) <= Crs(NewText(content, g))
    ensures Crs(Unlines(NewArrived(content, g))) == Crs(NewText(content, g)) <==> NoCrEnds(GroupNewLines(content, g))
    ensures NoCrEnds(GroupNewLines(content, g)) ==> Unlines(NewArrived(content, g)) == NewText(content, g)
  {
    var n := GroupNewLines(content, g);
    GroupLines(content, g);
    CrsOfLines(n);
    NoCrsDropped(n);
  }

  /** The text that arrives has as many CRs as the text compiled exactly when no new line lost
      one, and is then that text. */
  lemma {:induction false} ArrivedCrs(content: string, q: nat, groups: seq<Group>)
    requires AllInGroup(content, groups)
    ensures Crs(Arrived(content, q, groups)) <= Crs(Adjusted(content, q, groups))
    ensures Crs(Arrived(content, q, groups)) == Crs(Adjusted(content, q, groups)) <==> NewLinesKept(content, groups)
    ensures NewLinesKept(content, groups) ==> Arrived(content, q, groups) == Adjusted(content, q, groups)
    decreases |groups|
  {
    if groups != [] {
      var g, w, rest := groups[0], WindowEnd(content, groups[0]), groups[1..];
      var p := Slice(EnsureFinal(content), q, g.lineStart);
      NewKeptFirst(content, groups);
      ArrivedCrs(content, w, rest);
      GroupCrs(content, g);
      CrsThree(p, Unlines(NewArrived(content, g)), Arrived(content, w, rest));
      CrsThree(p, NewText(content, g), Adjusted(content, w, rest));
    }
  }
}
