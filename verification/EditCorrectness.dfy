/** An accepted edit request, compiled to a patch, parsed back and applied, against the text
    it asks for: every old text replaced at once by its new text. */
module EditCorrectness {
  import opened Options
  import opened Text
  import opened PatchSyntax
  import opened PatchRoundTrip
  import opened PatchNormalForm
  import opened PatchEngine
  import opened LegacyWrites
  import opened EditArrival
  import opened EditMeaning
  import opened EditLanding
  import opened EditAcceptance
  import opened EditGroups
  import opened EditPieces
  import opened EditRequests

  /** Where the widened lines begin: after the first newline when it is itself replaced. */
  function FirstLine(content: string, ms: seq<Match>): nat
    requires ms != []
  {
    if StartsOnFirstNewline(content, ms[0]) then 1 else 0
  }

  /** The exact condition: newlines gained and lost at the groups make up for one another.
      A file of one newline, and one emptied altogether, are cases of their own. */
  predicate Faithful(content: string, ms: seq<Match>)
    requires AllInText(content, ms) && ms != []
  {
    GroupFromInGroup(content, [], ms);
    var ahead := FirstLine(content, ms);
    || content == "\n"
    || (Requested(content, ms) == "" && (ahead == 0 || EndsWith(content, '\n')))
    || Even(Pieces(content, ahead, GroupFrom(content, [], ms)), ahead)
  }

  // ------------------------------------------------------------------- the run

  /** Lines joined and closed by a newline: a lone newline when there are none. */
  function Closed(s: string): string {
    if s == "" then "\n" else s
  }

  lemma {:induction false} AssembleLines(ls: seq<string>, crlf: bool)
    ensures Assemble(ls, crlf) == InStyle(Closed(Unlines(ls)), crlf)
  {
    if ls == [] {
      assert Join(ls) + "\n" == "\n";
    } else {
      JoinUnlines(ls);
    }
  }

  lemma {:induction false} ApplyTextIs(path: string, original: string, hunks: seq<Hunk>, final: Edited)
    requires ApplyLines(path, Edited(Split(Strip(NormalizeEol(original))), 0), hunks) == Ok(final)
    ensures ApplyText(path, original, hunks) == Ok(InStyle(Closed(Unlines(final.lines)), HasCrLf(original)))
  {
    SplitFileLines(original);
    AssembleLines(final.lines, HasCrLf(original));
  }

  /** The text the hunks leave where they land, unless the file is nothing but newlines. */
  lemma {:induction false} HunksLeave(path: string, original: string, groups: seq<Group>)
    requires var content := NormalizeEol(original);
             AllInGroup(content, groups) && GroupsOk(content, groups) && AllLand(content, 0, groups)
    ensures var content := NormalizeEol(original);
            ApplyText(path, original, ArrivingHunks(GroupHunks(content, groups))) ==
            Ok(InStyle(Closed(Arrived(content, 0, groups)), HasCrLf(original)))
  {
    var content := NormalizeEol(original);
    SplitStrip(content);
    var file := EnsureFinal(content);
    assert file[0..] == file && [] + Lines(file) == Lines(file);
    var final := ApplyGroups(path, content, groups, 0, []);
    assert Unlines([]) + Arrived(content, 0, groups) == Arrived(content, 0, groups);
    ApplyTextIs(path, original, ArrivingHunks(GroupHunks(content, groups)), final);
  }

  lemma {:induction false} LfToCrLfStart(s: string)
    ensures LfToCrLf(s) == "" || LfToCrLf(s)[0] != '\n'
    ensures LfToCrLf(s) == "" <==> s == ""
  {
  }

  /** Writing LF as CR LF loses nothing. */
  lemma {:induction false} LfToCrLfInjective(s: string, t: string)
    requires LfToCrLf(s) == LfToCrLf(t)
    ensures s == t
  {
    LfToCrLfStart(s);
    LfToCrLfStart(t);
    if s != "" && t != "" {
      LfToCrLfStart(s[1..]);
      LfToCrLfStart(t[1..]);
      var a := if s[0] == '\n' then "\r\n" else [s[0]];
      var b := if t[0] == '\n' then "\r\n" else [t[0]];
      assert LfToCrLf(s)[|a|..] == LfToCrLf(s[1..]) && LfToCrLf(t)[|b|..] == LfToCrLf(t[1..]);
      assert s[0] == t[0];
      LfToCrLfInjective(s[1..], t[1..]);
      assert s == [s[0]] + s[1..] && t == [t[0]] + t[1..];
    }
  }

  lemma SameInStyle(s: string, t: string, crlf: bool)
    ensures InStyle(s, crlf) == InStyle(t, crlf) <==> s == t
  {
    if crlf && InStyle(s, crlf) == InStyle(t, crlf) {
      LfToCrLfInjective(s, t);
    }
  }

  // ------------------------------------------------------ the general file

  /** Where the first group begins, and what stands before it. */
  lemma {:induction false} FirstGroup(content: string, ms: seq<Match>)
    requires Ordered(content, ms, 0) && ms != []
    ensures var groups, ahead := GroupFrom(content, [], ms), FirstLine(content, ms);
            && Grouped(content, groups, ms) && groups != [] && ahead <= groups[0].lineStart
            && (ahead == groups[0].lineStart || groups[0].lineStart <= groups[0].members[0].start)
            && (ahead == 1 ==> groups[0].lineStart == 1 && content[0] == '\n') && ahead <= |content|
  {
    GroupsOfMatches(content, ms);
    var groups := GroupFrom(content, [], ms);
    MembersFirst(groups);
    assert groups[0].members[0] == ms[0];
    assert Matched(content, groups[0]) && InText(content, ms[0]);
    FirstGroupStart(content, ms);
    LineOfMatch(content, ms[0]);
  }

  lemma {:induction false} FirstStays(content: string, groups: seq<Group>, ms: seq<Match>)
    requires AllInText(content, ms) && groups != []
    ensures GroupFrom(content, groups, ms) != [] && GroupFrom(content, groups, ms)[0].lineStart == groups[0].lineStart
    decreases |ms|
  {
    if ms != [] {
      assert InText(content, ms[0]);
      FirstStays(content, AddToGroups(content, groups, ms[0]), ms[1..]);
    }
  }

  lemma {:induction false} FirstGroupStart(content: string, ms: seq<Match>)
    requires AllInText(content, ms) && ms != []
    ensures var groups := GroupFrom(content, [], ms);
            InText(content, ms[0]) && groups != [] && groups[0].lineStart == LineStartOf(content, ms[0])
  {
    assert InText(content, ms[0]);
    FirstStays(content, AddToGroups(content, [], ms[0]), ms[1..]);
  }

  lemma {:induction false} RequestedIntended(content: string, ms: seq<Match>)
    requires Ordered(content, ms, 0) && ms != [] && AllInGroup(content, GroupFrom(content, [], ms))
    ensures Requested(content, ms) == Intended(content, FirstLine(content, ms), GroupFrom(content, [], ms))
  {
    FirstGroup(content, ms);
    var groups, ahead := GroupFrom(content, [], ms), FirstLine(content, ms);
    ReplacedGroups(content, ahead, groups);
    if ahead == 1 {
      assert InText(content, ms[0]);
      assert Slice(content, 0, ms[0].start) == "" == Slice(content, ahead, ms[0].start);
    }
  }

  /** Groups of a file that is not all newlines, and whether a newline stands before them
      that should have been replaced. */
  ghost predicate Begins(content: string, groups: seq<Group>, ahead: nat) {
    && AllInGroup(content, groups) && GroupsOk(content, groups) && groups != [] && content != ""
    && ahead <= 1 && ahead <= |content| && Ready(content, ahead, groups)
    && (ahead == 1 ==> groups[0].lineStart == 1 && content[0] == '\n')
  }

  lemma {:induction false} MatchesBegin(content: string, ms: seq<Match>)
    requires Ordered(content, ms, 0) && ms != [] && !AllNewlines(content)
    ensures Begins(content, GroupFrom(content, [], ms), FirstLine(content, ms))
  {
    FirstGroup(content, ms);
    GroupsOfMatches(content, ms);
    ReadyThere(content, GroupFrom(content, [], ms), FirstLine(content, ms));
  }

  lemma ReadyThere(content: string, groups: seq<Group>, ahead: nat)
    requires ahead <= 1 && ahead <= |content| && (ahead == 1 ==> content[0] == '\n')
    requires groups != [] && ahead <= groups[0].lineStart
    ensures Ready(content, ahead, groups)
  {
  }

  lemma {:induction false} AdjustedSkip(content: string, groups: seq<Group>)
    requires AllInGroup(content, groups) && groups != []
    requires groups[0].lineStart == 1 && content != "" && content[0] == '\n'
    ensures Adjusted(content, 0, groups) == "\n" + Adjusted(content, 1, groups)
  {
    var file, n := EnsureFinal(content), NewText(content, groups[0]);
    assert Slice(file, 0, 1) == "\n" && Slice(file, 1, 1) == "" && "" + n == n;
    Assoc("\n", n, Adjusted(content, WindowEnd(content, groups[0]), groups[1..]));
  }

  lemma {:induction false} AdjustedFromStart(content: string, groups: seq<Group>, ahead: nat)
    requires Begins(content, groups, ahead)
    ensures Adjusted(content, 0, groups) == Pad(ahead) + Adjusted(content, ahead, groups)
  {
    if ahead == 1 {
      AdjustedSkip(content, groups);
      assert Pad(1) == "\n" + Pad(0) == "\n";
    } else {
      assert Pad(0) + Adjusted(content, 0, groups) == Adjusted(content, 0, groups);
    }
  }

  lemma {:induction false} EmptyIsKept(content: string, q: nat, groups: seq<Group>)
    requires AllInGroup(content, groups) && Obtained(Pieces(content, q, groups)) == ""
    ensures NothingChanges(Pieces(content, q, groups))
    decreases |groups|
  {
    var ps := Pieces(content, q, groups);
    if groups != [] {
      FirstPiece(content, q, groups);
      assert Obtained(ps[1..]) == "" && ps[0].text == "" && !ps[0].change.Gained?;
      assert NewText(content, groups[0]) == "";
      EmptyIsKept(content, WindowEnd(content, groups[0]), groups[1..]);
      NothingChangesCons(ps);
    }
  }

  /** When nothing is obtained, nothing is asked for. */
  lemma {:induction false} EmptyIsEven(content: string, groups: seq<Group>, ahead: nat)
    requires Begins(content, groups, ahead) && Adjusted(content, 0, groups) == ""
    ensures ahead == 0 && Even(Pieces(content, ahead, groups), ahead)
  {
    AdjustedFromStart(content, groups, ahead);
    ObtainedAdjusted(content, ahead, groups);
    PadNewlines(ahead);
    EmptyIsKept(content, ahead, groups);
    UnchangedIsEven(Pieces(content, ahead, groups));
  }

  /** Something is asked for: the texts are the same exactly when the pieces are even. */
  lemma {:induction false} SomethingIntended(content: string, groups: seq<Group>, ahead: nat)
    requires Begins(content, groups, ahead) && Intended(content, ahead, groups) != ""
    ensures Closed(Adjusted(content, 0, groups)) == EnsureFinal(Intended(content, ahead, groups)) <==>
            Even(Pieces(content, ahead, groups), ahead)
  {
    var ps := Pieces(content, ahead, groups);
    AdjustedFromStart(content, groups, ahead);
    ObtainedAdjusted(content, ahead, groups);
    WantedIntended(content, ahead, groups);
    EvenIff(ps, ahead);
    if Adjusted(content, 0, groups) == "" {
      EmptyIsEven(content, groups, ahead);
    }
  }

  lemma {:induction false} EmptyIntended(content: string, q: nat, groups: seq<Group>)
    requires AllInGroup(content, groups) && GroupsOk(content, groups) && groups != [] && q <= groups[0].lineStart
    requires Intended(content, q, groups) == ""
    ensures groups == [groups[0]] && groups[0].lineStart == q && groups[0].lineEnd == |content|
    ensures After(content, groups[0]) == ""
  {
    GroupsRest(content, groups);
    OthersEndEarlier(content, groups);
    var g := groups[0];
    assert InGroup(content, g);
    assert Slice(content, q, g.lineStart) == "" && After(content, g) == "";
    if g.lineEnd < |content| {
      IntendedFirst(content, q, groups);
      assert false;
    }
  }

  lemma {:induction false} EmptyAdjusted(content: string, q: nat, g: Group)
    requires GroupOk(content, g) && g.lineStart == q && g.lineEnd == |content| && After(content, g) == ""
    ensures Adjusted(content, q, [g]) == if EndsWith(content, '\n') then "" else "\n"
  {
    var file, w := EnsureFinal(content), WindowEnd(content, g);
    assert EndsWith(Before(content, g), '\n') == EndsWith(content, '\n');
    assert w == |file| && [g][1..] == [];
    assert Adjusted(content, w, []) == "";
    assert Slice(file, q, q) == "";
    assert "" + NewText(content, g) + "" == NewText(content, g);
  }

  /** Everything is deleted: what is left besides the final newline is the first newline,
      and one added after a file that has no final newline. */
  lemma {:induction false} NothingIntended(content: string, groups: seq<Group>, ahead: nat)
    requires Begins(content, groups, ahead) && Intended(content, ahead, groups) == ""
    ensures Closed(Adjusted(content, 0, groups)) == "\n" <==> ahead == 0 || EndsWith(content, '\n')
  {
    GroupsRest(content, groups);
    EmptyIntended(content, ahead, groups);
    EmptyAdjusted(content, ahead, groups[0]);
    AdjustedFromStart(content, groups, ahead);
    PadNewlines(ahead);
    if ahead == 0 {
      assert Pad(0) + Adjusted(content, 0, groups) == Adjusted(content, 0, groups);
    } else {
      assert Pad(1) == "\n" + Pad(0) == "\n";
    }
  }

  lemma {:induction false} NothingEven(content: string, groups: seq<Group>, ahead: nat)
    requires Begins(content, groups, ahead) && Intended(content, ahead, groups) == ""
    requires Even(Pieces(content, ahead, groups), ahead)
    ensures ahead == 0
  {
    WantedIntended(content, ahead, groups);
    EvenIff(Pieces(content, ahead, groups), ahead);
    PadNewlines(ahead);
  }

  lemma {:induction false} FaithfulNothing(content: string, ms: seq<Match>)
    requires Ordered(content, ms, 0) && ms != [] && !AllNewlines(content) && Requested(content, ms) == ""
    ensures AllInGroup(content, GroupFrom(content, [], ms))
    ensures Closed(Adjusted(content, 0, GroupFrom(content, [], ms))) == EnsureFinal(Requested(content, ms)) <==>
            Faithful(content, ms)
  {
    MatchesBegin(content, ms);
    RequestedIntended(content, ms);
    var groups, ahead := GroupFrom(content, [], ms), FirstLine(content, ms);
    assert content != "\n";
    NothingIntended(content, groups, ahead);
    if Even(Pieces(content, ahead, groups), ahead) {
      NothingEven(content, groups, ahead);
    }
  }

  lemma {:induction false} FaithfulSomething(content: string, ms: seq<Match>)
    requires Ordered(content, ms, 0) && ms != [] && !AllNewlines(content) && Requested(content, ms) != ""
    ensures AllInGroup(content, GroupFrom(content, [], ms))
    ensures Closed(Adjusted(content, 0, GroupFrom(content, [], ms))) == EnsureFinal(Requested(content, ms)) <==>
            Faithful(content, ms)
  {
    MatchesBegin(content, ms);
    RequestedIntended(content, ms);
    assert content != "\n";
    SomethingIntended(content, GroupFrom(content, [], ms), FirstLine(content, ms));
  }

  /** The text the hunks leave is the one asked for exactly when the request is faithful. */
  lemma {:induction false} FaithfulText(content: string, ms: seq<Match>)
    requires Ordered(content, ms, 0) && ms != [] && !AllNewlines(content)
    ensures AllInGroup(content, GroupFrom(content, [], ms))
    ensures Closed(Adjusted(content, 0, GroupFrom(content, [], ms))) == EnsureFinal(Requested(content, ms)) <==>
            Faithful(content, ms)
  {
    if Requested(content, ms) == "" {
      FaithfulNothing(content, ms);
    } else {
      FaithfulSomething(content, ms);
    }
  }

  // ----------------------------------------------------------- counting CRs

  lemma {:induction false} CrsOfEnds(s: string)
    ensures Crs(Closed(s)) == Crs(EnsureFinal(s)) == Crs(Terminate(s)) == Crs(s)
  {
    CrsAppend(s, "\n");
  }

  lemma {:induction false} PadCrs(n: nat, s: string)
    ensures Crs(Pad(n) + s) == Crs(s)
  {
    PadNewlines(n);
    CrsAppend(Pad(n), s);
    NoCrs(Pad(n));
  }

  /** Both sides of the pieces have the same CRs. */
  lemma {:induction false} PiecesCrs(ps: seq<Piece>)
    ensures Crs(Obtained(ps)) == Crs(Wanted(ps))
    decreases |ps|
  {
    if ps != [] {
      var p, o, w := ps[0], Obtained(ps[1..]), Wanted(ps[1..]);
      PiecesCrs(ps[1..]);
      CrsThree(p.text, if p.change.Gained? then "\n" else "", o);
      CrsThree(p.text, if p.change.Lost? then "\n" else "", w);
    }
  }

  /** The compiled text has the CRs of the text asked for. */
  lemma {:induction false} AdjustedCrs(content: string, groups: seq<Group>, ahead: nat)
    requires Begins(content, groups, ahead)
    ensures Crs(Adjusted(content, 0, groups)) == Crs(Intended(content, ahead, groups))
  {
    AdjustedFromStart(content, groups, ahead);
    PadCrs(ahead, Adjusted(content, ahead, groups));
    ObtainedAdjusted(content, ahead, groups);
    WantedIntended(content, ahead, groups);
    PiecesCrs(Pieces(content, ahead, groups));
    CrsOfEnds(Intended(content, ahead, groups));
  }

  /** No line of any new text ends in a CR. */
  predicate NewTextKept(content: string, ms: seq<Match>)
    requires AllInText(content, ms)
  {
    GroupFromInGroup(content, [], ms);
    NewLinesKept(content, GroupFrom(content, [], ms))
  }

  /** The text that arrives is the one asked for exactly when the request is faithful and no
      new line loses a CR: a CR lost is not made up for anywhere. */
  lemma {:induction false} ArrivedText(content: string, ms: seq<Match>)
    requires Ordered(content, ms, 0) && ms != [] && !AllNewlines(content)
    ensures AllInGroup(content, GroupFrom(content, [], ms))
    ensures Closed(Arrived(content, 0, GroupFrom(content, [], ms))) == EnsureFinal(Requested(content, ms)) <==>
            Faithful(content, ms) && NewTextKept(content, ms)
  {
    MatchesBegin(content, ms);
    RequestedIntended(content, ms);
    FaithfulText(content, ms);
    var groups := GroupFrom(content, [], ms);
    ArrivedCrs(content, 0, groups);
    AdjustedCrs(content, groups, FirstLine(content, ms));
    CrsOfEnds(Arrived(content, 0, groups));
    CrsOfEnds(Requested(content, ms));
  }

  // ------------------------------------------------ a file of newlines only

  lemma NewlinesMatchedWhole(content: string, ms: seq<Match>)
    requires Ordered(content, ms, 0) && ms != [] && AllNewlines(content)
    ensures ms == [ms[0]] && ms[0].start == 0 && ms[0].end == |content| && content != ""
  {
    assert InText(content, ms[0]);
    assert |ms| > 1 ==> ms[0].end <= ms[1].start < ms[1].end by {
      assert |ms| > 1 ==> InText(content, ms[1]);
    }
    forall k | 0 <= k < |ms| ensures ms[k].start == 0 && ms[k].end == |content| {
      assert InText(content, ms[k]) && OnlyThere(content, ms[k]);
      NewlinesOccurBeside(content, ms[k]);
    }
  }

  lemma NewlinesOccurBeside(content: string, m: Match)
    requires InText(content, m) && AllNewlines(content)
    ensures m.end < |content| ==> OccursAt(content, content[m.start..m.end], m.start + 1)
    ensures m.start > 0 ==> OccursAt(content, content[m.start..m.end], m.start - 1)
  {
    var t := content[m.start..m.end];
    if m.end < |content| {
      NewlinesAre(content[m.start + 1..m.end + 1], t);
    }
    if m.start > 0 {
      NewlinesAre(content[m.start - 1..m.end - 1], t);
    }
  }

  lemma {:induction false} NewlinesGroup(content: string, ms: seq<Match>)
    requires Ordered(content, ms, 0) && ms != [] && AllNewlines(content)
    ensures content != "" && GroupFrom(content, [], ms) == [Group(1, |content|, ms)]
    ensures InGroup(content, Group(1, |content|, ms)) && FirstLine(content, ms) == 1
    ensures Before(content, Group(1, |content|, ms)) == content[1..]
    ensures After(content, Group(1, |content|, ms)) == ms[0].newText == Requested(content, ms)
  {
    NewlinesMatchedWhole(content, ms);
    var m := ms[0];
    assert InText(content, m);
    LineOfMatch(content, m);
    assert content[0] == '\n';
    assert ms[1..] == [];
    assert AddToGroups(content, [], m) == [Group(1, |content|, [m])];
    assert GroupFrom(content, [], ms) == GroupFrom(content, [Group(1, |content|, [m])], []);
    assert Replaced(content, m.end, |content|, []) == "";
    assert Slice(content, 0, 0) == "" == Slice(content, 1, 0);
    assert "" + m.newText + "" == m.newText;
  }

  /** What follows the window when it wrongly begins on the first line. */
  function LeftBehind(content: string): string {
    if |content| == 1 then "" else "\n"
  }

  lemma NewlinesLines(content: string, g: Group)
    requires content != "" && AllNewlines(content) && g.lineStart == 1 && g.lineEnd == |content| && InGroup(content, g)
    ensures Terminated(content) && Terminated(LeftBehind(content))
    ensures Lines(content) == [] + GroupOldLines(content, g) + Lines(LeftBehind(content))
  {
    var o, r := EnsureFinal(Before(content, g)), LeftBehind(content);
    SplitStrip(Before(content, g));
    assert AllNewlines("" + o + r);
    NewlinesAre(content, "" + o + r);
    CutLines("", o, r);
  }

  /** In a file of newlines only, the hunk lands on the first line. */
  lemma NewlinesHunk(path: string, content: string, g: Group)
    requires content != "" && AllNewlines(content) && g.lineStart == 1 && g.lineEnd == |content| && InGroup(content, g)
    ensures Terminated(content) && Terminated(LeftBehind(content))
    ensures var ns := NewArrived(content, g);
            ApplyHunk(path, Edited(Lines(content), 0), ArrivingHunk(GroupHunk(content, g))) ==
            Ok(Edited(ns + Lines(LeftBehind(content)), |ns|))
  {
    NewlinesLines(content, g);
    SplitCrFree(Strip(Before(content, g)));
    GroupArrives(content, g);
    var o, n, r := GroupOldLines(content, g), NewArrived(content, g), Lines(LeftBehind(content));
    assert [] + ([] + o + r) == Lines(content) && [] + [] + n == n;
    HunkReplaces(path, [], [], o, r, n);
  }

  /** One newline stays behind the hunk, unless the file is a single newline. */
  lemma {:induction false} NewlinesLeave(path: string, original: string, g: Group)
    requires var content := NormalizeEol(original);
             && content != "" && AllNewlines(content) && g.lineStart == 1 && g.lineEnd == |content|
             && InGroup(content, g)
    ensures var content := NormalizeEol(original);
            ApplyText(path, original, [ArrivingHunk(GroupHunk(content, g))]) ==
            Ok(InStyle(Closed(Unlines(NewArrived(content, g)) + LeftBehind(content)), HasCrLf(original)))
  {
    var content := NormalizeEol(original);
    var ns, r := NewArrived(content, g), LeftBehind(content);
    SplitFileLines(original);
    SplitStrip(content);
    NewlinesHunk(path, content, g);
    ApplyLinesCons(path, Edited(Lines(content), 0), [ArrivingHunk(GroupHunk(content, g))], Edited(ns + Lines(r), |ns|));
    UnlinesAppend(ns, Lines(r));
    UnlinesLines(r);
    AssembleLines(ns + Lines(r), HasCrLf(original));
  }

  lemma {:induction false} EvenTwo(p: Piece, last: Piece, ahead: int)
    requires last.change.Kept?
    ensures Even([p, last], ahead) <==> (ahead == 0 || AllNewlines(p.text)) && ahead + Shift(p.change) == 0
  {
    assert [p, last][1..] == [last] && [last][1..] == [];
    assert Even([last], ahead + Shift(p.change)) <==> ahead + Shift(p.change) == 0;
  }

  lemma {:induction false} EvenOneGroup(content: string, q: nat, g: Group, ahead: int)
    requires InGroup(content, g)
    ensures Even(Pieces(content, q, [g]), ahead) <==>
            (ahead == 0 || AllNewlines(GroupPiece(content, q, g).text)) && ahead + Shift(GroupChange(content, g)) == 0
  {
    var rest := Pieces(content, WindowEnd(content, g), []);
    FirstPiece(content, q, [g]);
    assert [g][1..] == [];
    assert Pieces(content, q, [g]) == [GroupPiece(content, q, g), rest[0]];
    EvenTwo(GroupPiece(content, q, g), rest[0], ahead);
  }

  lemma {:induction false} NewlinesUneven(content: string, g: Group)
    requires |content| > 1 && AllNewlines(content) && g.lineStart == 1 && g.lineEnd == |content| && InGroup(content, g)
    ensures !Even(Pieces(content, 1, [g]), 1)
  {
    EvenOneGroup(content, 1, g, 1);
    assert Before(content, g)[|content| - 2] == content[|content| - 1];
  }

  lemma NewlinesFaithful(content: string, ms: seq<Match>)
    requires Ordered(content, ms, 0) && ms != [] && AllNewlines(content)
    ensures InGroup(content, Group(1, |content|, ms))
    ensures Closed(NewText(content, Group(1, |content|, ms)) + LeftBehind(content)) == EnsureFinal(Requested(content, ms)) <==>
            Faithful(content, ms)
  {
    NewlinesGroup(content, ms);
    var g := Group(1, |content|, ms);
    var n, y := NewText(content, g), Requested(content, ms);
    if |content| == 1 {
      assert content == "\n";
      assert n + "" == n == EnsureFinal(y);
    } else {
      NewlinesUneven(content, g);
      assert EndsWith(Before(content, g), '\n');
      assert |n + "\n"| == |n| + 1;
    }
  }

  lemma NewlinesArrived(content: string, ms: seq<Match>)
    requires Ordered(content, ms, 0) && ms != [] && AllNewlines(content)
    ensures InGroup(content, Group(1, |content|, ms))
    ensures Closed(Unlines(NewArrived(content, Group(1, |content|, ms))) + LeftBehind(content)) ==
            EnsureFinal(Requested(content, ms)) <==>
            Faithful(content, ms) && NewTextKept(content, ms)
  {
    NewlinesGroup(content, ms);
    NewlinesFaithful(content, ms);
    var g := Group(1, |content|, ms);
    var arrived, left := Unlines(NewArrived(content, g)), LeftBehind(content);
    GroupCrs(content, g);
    assert NewTextKept(content, ms) <==> NoCrEnds(GroupNewLines(content, g));
    NoCrs(left);
    CrsAppend(arrived, left);
    CrsAppend(NewText(content, g), left);
    CrsOfEnds(arrived + left);
    CrsOfEnds(After(content, g));
  }

  // ----------------------------------------------------------------- theorem

  /** Every hunk of a request lands, each from the end of the window before it. */
  ghost predicate Lands(content: string, ms: seq<Match>)
    requires AllInText(content, ms)
  {
    GroupFromInGroup(content, [], ms);
    AllLand(content, 0, GroupFrom(content, [], ms))
  }

  lemma {:induction false} NewlinesMeaning(path: string, original: string, content: string, ms: seq<Match>)
    requires content == NormalizeEol(original) && Ordered(content, ms, 0) && ms != [] && AllNewlines(content)
    ensures (ApplyText(path, original, ArrivingHunks(EditHunks(content, ms))) ==
             Ok(InStyle(EnsureFinal(Requested(content, ms)), HasCrLf(original)))) <==>
            Faithful(content, ms) && NewTextKept(content, ms)
  {
    var g := Group(1, |content|, ms);
    NewlinesGroup(content, ms);
    NewlinesLeave(path, original, g);
    NewlinesArrived(content, ms);
    assert ArrivingHunks(EditHunks(content, ms)) == [ArrivingHunk(GroupHunk(content, g))];
    SameInStyle(Closed(Unlines(NewArrived(content, g)) + LeftBehind(content)),
                EnsureFinal(Requested(content, ms)), HasCrLf(original));
  }

  lemma {:induction false} GeneralMeaning(path: string, original: string, content: string, ms: seq<Match>)
    requires content == NormalizeEol(original) && Ordered(content, ms, 0) && ms != [] && !AllNewlines(content)
    requires Lands(content, ms)
    ensures (ApplyText(path, original, ArrivingHunks(EditHunks(content, ms))) ==
             Ok(InStyle(EnsureFinal(Requested(content, ms)), HasCrLf(original)))) <==>
            Faithful(content, ms) && NewTextKept(content, ms)
  {
    var groups := GroupFrom(content, [], ms);
    MatchesBegin(content, ms);
    HunksLeave(path, original, groups);
    ArrivedText(content, ms);
    SameInStyle(Closed(Arrived(content, 0, groups)), EnsureFinal(Requested(content, ms)), HasCrLf(original));
  }

  /** An accepted request whose hunks land does to the file exactly what it asks for, up to a
      final newline and the file's own line ends, if and only if it is faithful and no line of
      a new text ends in a CR. */
  lemma EditsPreserveMeaning(path: string, edits: seq<Edit>, original: string, content: string, ms: seq<Match>)
    requires GoodPath(path) && Accepted(edits, original, content, ms) && Lands(content, ms)
    ensures Preserved(path, edits, original, content, ms) <==> Faithful(content, ms) && NewTextKept(content, ms)
  {
    AcceptedMatches(content, edits);
    RequestsArrive(path, edits, original, content, ms);
    if AllNewlines(content) {
      NewlinesMeaning(path, original, content, ms);
    } else {
      GeneralMeaning(path, original, content, ms);
    }
  }

  /** In particular whenever no line to be removed ends in a CR: the request does what it asks
      for if and only if it is faithful and no line of any hunk ends in a CR. */
  lemma {:induction false} KeptOldLinesMeaning(path: string, edits: seq<Edit>, original: string, content: string, ms: seq<Match>)
    requires GoodPath(path) && Accepted(edits, original, content, ms)
    requires AllInGroup(content, GroupFrom(content, [], ms)) && OldLinesKept(content, GroupFrom(content, [], ms))
    ensures Preserved(path, edits, original, content, ms) <==> Faithful(content, ms) && HunksSurvive(content, ms)
  {
    KeptOldLinesLand(content, 0, GroupFrom(content, [], ms));
    EditsPreserveMeaning(path, edits, original, content, ms);
  }

  /** When no group gains or loses a newline, and the first newline is not replaced, a
      request is faithful: each group reaches the end of the file and leaves something or
      ends in a newline, or its old and new text agree on ending in one, or it ends in one
      and leaves nothing. */
  lemma {:induction false} KeptIsFaithful(content: string, ms: seq<Match>)
    requires Ordered(content, ms, 0) && ms != [] && FirstLine(content, ms) == 0
    requires AllInGroup(content, GroupFrom(content, [], ms)) && AllKept(content, GroupFrom(content, [], ms))
    ensures Faithful(content, ms)
  {
    var groups := GroupFrom(content, [], ms);
    KeptPieces(content, 0, groups);
    UnchangedIsEven(Pieces(content, 0, groups));
  }

  /** A single group is faithful only so: nothing after it can make up for a newline. */
  lemma {:induction false} OneGroupFaithful(content: string, ms: seq<Match>, g: Group)
    requires AllInText(content, ms) && ms != [] && FirstLine(content, ms) == 0
    requires GroupFrom(content, [], ms) == [g] && InGroup(content, g)
    ensures Faithful(content, ms) <==>
            content == "\n" || Requested(content, ms) == "" || GroupChange(content, g).Kept?
  {
    EvenOneGroup(content, 0, g, 0);
  }

  /** A group that begins after a first newline that is replaced: its new text has to bring
      that newline back. */
  lemma {:induction false} AfterFirstNewline(content: string, ms: seq<Match>, g: Group)
    requires AllInText(content, ms) && ms != [] && FirstLine(content, ms) == 1
    requires GroupFrom(content, [], ms) == [g] && InGroup(content, g) && g.lineStart == 1
    ensures Faithful(content, ms) <==>
            || content == "\n"
            || (Requested(content, ms) == "" && EndsWith(content, '\n'))
            || (g.lineEnd < |content| && !EndsWith(Before(content, g), '\n')
                && After(content, g) != "" && AllNewlines(After(content, g)))
  {
    EvenOneGroup(content, 1, g, 1);
    var after := After(content, g);
    assert Slice(EnsureFinal(content), 1, 1) == "" && "" + after == after;
    assert after != "" && AllNewlines(after) ==> EndsWith(after, '\n');
    assert GroupChange(content, g).Lost? ==> GroupPiece(content, 1, g).text == after;
  }

  /** The whole lines a match is widened to; one that starts on the first newline is not widened
      to the line that newline ends. */
  predicate OnLines(content: string, m: Match, lineStart: nat, lineEnd: nat) {
    && InText(content, m) && lineStart <= lineEnd <= |content| && m.end <= lineEnd
    && (if StartsOnFirstNewline(content, m) then lineStart == 1
        else lineStart <= m.start && IsLineStart(content, lineStart) && forall i | lineStart <= i < m.start :: content[i] != '\n')
    && IsLineEnd(content, lineEnd) && (forall i | m.end <= i < lineEnd :: content[i] != '\n')
  }

  lemma LinesAre(content: string, m: Match, lineStart: nat, lineEnd: nat)
    requires OnLines(content, m, lineStart, lineEnd)
    ensures LineStartOf(content, m) == lineStart && LineEndOf(content, m) == lineEnd
  {
    LastNewlineBounds(content, m.start - 1);
    IndexOfBounds(content, "\n", m.end);
    var r := IndexOf(content, "\n", m.end);
    if r >= 0 {
      assert content[r..r + 1][0] == content[r] == '\n';
    }
    if lineEnd < |content| {
      assert content[lineEnd..lineEnd + 1] == "\n";
      assert OccursAt(content, "\n", lineEnd);
    }
  }

  lemma {:induction false} OneMatchGroup(content: string, m: Match, lineStart: nat, lineEnd: nat)
    requires OnLines(content, m, lineStart, lineEnd)
    ensures var g := Group(lineStart, lineEnd, [m]);
            && InGroup(content, g) && AllInText(content, [m]) && GroupFrom(content, [], [m]) == [g]
            && After(content, g) == Slice(content, lineStart, m.start) + m.newText + content[m.end..lineEnd]
            && Requested(content, [m]) == content[..m.start] + m.newText + content[m.end..]
  {
    LinesAre(content, m, lineStart, lineEnd);
    var g := Group(lineStart, lineEnd, [m]);
    assert [m][1..] == [];
    assert AddToGroups(content, [], m) == [g];
    assert GroupFrom(content, [], [m]) == GroupFrom(content, [g], []);
    assert Replaced(content, m.end, lineEnd, []) == content[m.end..lineEnd];
    assert Replaced(content, m.end, |content|, []) == content[m.end..];
  }

  /** What one edit needs: its lines, before and after, and whether they reach the end. */
  predicate KeepsNewline(before: string, after: string, reachesEnd: bool) {
    if reachesEnd then EndsWith(before, '\n') || after != ""
    else EndsWith(before, '\n') == EndsWith(after, '\n') || (EndsWith(before, '\n') && after == "")
  }

  /** What an edit needs that replaces the first newline. */
  predicate BringsNewline(before: string, after: string, reachesEnd: bool) {
    !reachesEnd && !EndsWith(before, '\n') && after != "" && AllNewlines(after)
  }

  /** What is asked of one edit on its lines. */
  predicate OneFaithful(content: string, m: Match, before: string, after: string, reachesEnd: bool)
    requires InText(content, m)
  {
    var first := StartsOnFirstNewline(content, m);
    || content == "\n"
    || (content[..m.start] + m.newText + content[m.end..] == "" && (!first || EndsWith(content, '\n')))
    || (if first then BringsNewline(before, after, reachesEnd) else KeepsNewline(before, after, reachesEnd))
  }

  /** The lines a hunk puts in place of its own. */
  function LinesAfter(before: string, after: string): seq<string> {
    if EndsWith(before, '\n') && after == "" then [] else Split(Strip(after))
  }

  lemma OneFaithfulIff(content: string, m: Match, lineStart: nat, lineEnd: nat)
    requires OnLines(content, m, lineStart, lineEnd) && AllInText(content, [m])
    ensures var after := Slice(content, lineStart, m.start) + m.newText + content[m.end..lineEnd];
            && (Faithful(content, [m]) <==>
                OneFaithful(content, m, content[lineStart..lineEnd], after, lineEnd == |content|))
            && (NewTextKept(content, [m]) <==> NoCrEnds(LinesAfter(content[lineStart..lineEnd], after)))
  {
    var g := Group(lineStart, lineEnd, [m]);
    OneMatchGroup(content, m, lineStart, lineEnd);
    if StartsOnFirstNewline(content, m) {
      AfterFirstNewline(content, [m], g);
    } else {
      OneGroupFaithful(content, [m], g);
    }
  }

  lemma OneLands(content: string, g: Group)
    requires AllInGroup(content, [g]) && InGroup(content, g)
    requires LandsAt(ContentLines(EnsureFinal(content)), GroupOldLines(content, g), |ContentLines(content[..g.lineStart])|)
    ensures AllLand(content, 0, [g])
  {
    var file := EnsureFinal(content);
    assert Slice(file, 0, |file|) == file && Slice(file, 0, g.lineStart) == content[..g.lineStart];
    assert [g][1..] == [];
  }

  /** One edit, whatever its match: if its hunk lands, it does what it asks for if and only if
      its lines keep their newline, or it empties the file, or the file is a single newline,
      and no new line ends in a CR. */
  lemma OneEditMeaning(path: string, edit: Edit, original: string, content: string, m: Match, lineStart: nat, lineEnd: nat)
    requires GoodPath(path) && Accepted([edit], original, content, [m])
    requires OnLines(content, m, lineStart, lineEnd)
    requires LandsAt(ContentLines(EnsureFinal(content)), Split(Strip(content[lineStart..lineEnd])),
                     |ContentLines(content[..lineStart])|)
    ensures var before := content[lineStart..lineEnd];
            var after := Slice(content, lineStart, m.start) + m.newText + content[m.end..lineEnd];
            Preserved(path, [edit], original, content, [m]) <==>
            OneFaithful(content, m, before, after, lineEnd == |content|) && NoCrEnds(LinesAfter(before, after))
  {
    OneMatchGroup(content, m, lineStart, lineEnd);
    OneLands(content, Group(lineStart, lineEnd, [m]));
    EditsPreserveMeaning(path, [edit], original, content, [m]);
    OneFaithfulIff(content, m, lineStart, lineEnd);
  }
}
