/** The text an edit request yields against the text it asks for, piece by piece: compiling
    to whole lines gains or loses a newline at some groups, and the two texts are the same
    exactly when every gain is made good by a loss across nothing but newlines. */
module EditPieces {
  import opened Text
  import opened LegacyWrites
  import opened EditMeaning
  import opened EditGroups

  datatype Change = Kept | Gained | Lost

  /** A text both sides share, and then a newline that only one of them has. */
  datatype Piece = Piece(text: string, change: Change)

  function Obtained(ps: seq<Piece>): string {
    if ps == [] then "" else ps[0].text + (if ps[0].change.Gained? then "\n" else "") + Obtained(ps[1..])
  }

  function Wanted(ps: seq<Piece>): string {
    if ps == [] then "" else ps[0].text + (if ps[0].change.Lost? then "\n" else "") + Wanted(ps[1..])
  }

  function Shift(change: Change): int {
    match change
    case Kept => 0
    case Gained => 1
    case Lost => -1
  }

  /** While one side is newlines ahead, the texts that follow are newlines only, and in the
      end neither is ahead. */
  predicate Even(ps: seq<Piece>, ahead: int) {
    if ps == [] then ahead == 0
    else (ahead == 0 || AllNewlines(ps[0].text)) && Even(ps[1..], ahead + Shift(ps[0].change))
  }

  // ------------------------------------------------------------- newlines

  function Pad(n: nat): string {
    if n == 0 then "" else "\n" + Pad(n - 1)
  }

  lemma {:induction false} PadNewlines(n: nat)
    ensures |Pad(n)| == n && AllNewlines(Pad(n))
  {
    if n > 0 {
      PadNewlines(n - 1);
    }
  }

  lemma NewlinesAre(s: string, t: string)
    requires AllNewlines(s) && AllNewlines(t) && |s| == |t|
    ensures s == t
  {
    forall i | 0 <= i < |s| ensures s[i] == t[i] {
      assert s[i] == '\n' && t[i] == '\n';
    }
  }

  lemma {:induction false} PadCommutes(n: nat, s: string)
    requires AllNewlines(s)
    ensures Pad(n) + s == s + Pad(n)
  {
    PadNewlines(n);
    NewlinesAre(Pad(n) + s, s + Pad(n));
  }

  lemma {:induction false} ShiftedIsNewlines(n: nat, s: string, a: string, b: string)
    requires n > 0 && Pad(n) + (s + a) == s + b
    ensures AllNewlines(s)
  {
    PadNewlines(n);
    var i := 0;
    while i < |s|
      invariant i <= |s| && forall j | 0 <= j < i :: s[j] == '\n'
    {
      assert (s + b)[i] == s[i];
      assert (Pad(n) + (s + a))[i] == if i < n then Pad(n)[i] else s[i - n];
      i := i + 1;
    }
  }

  lemma Cancel(a: string, b: string, c: string)
    ensures a + b == a + c <==> b == c
  {
    if a + b == a + c {
      assert (a + b)[|a|..] == b && (a + c)[|a|..] == c;
    }
  }

  lemma {:induction false} PadText(n: nat, s: string, a: string, b: string)
    ensures Pad(n) + (s + a) == s + b <==> (n == 0 || AllNewlines(s)) && Pad(n) + a == b
  {
    if n > 0 && Pad(n) + (s + a) == s + b {
      ShiftedIsNewlines(n, s, a, b);
    }
    if n == 0 {
      assert Pad(n) + (s + a) == s + a && Pad(n) + a == a;
      Cancel(s, a, b);
    } else if AllNewlines(s) {
      PadCommutes(n, s);
      Assoc(Pad(n), s, a);
      Assoc(s, Pad(n), a);
      Cancel(s, Pad(n) + a, b);
    }
  }

  // ------------------------------------------------------------- balance

  /** The same, once the side ahead is given its newlines. */
  predicate Balanced(ahead: int, obtained: string, wanted: string) {
    if ahead >= 0 then Pad(ahead) + obtained == wanted else obtained == Pad(-ahead) + wanted
  }

  lemma BalancedText(ahead: int, s: string, obtained: string, wanted: string)
    ensures Balanced(ahead, s + obtained, s + wanted) <==>
            (ahead == 0 || AllNewlines(s)) && Balanced(ahead, obtained, wanted)
  {
    if ahead >= 0 {
      PadText(ahead, s, obtained, wanted);
    } else {
      PadText(-ahead, s, wanted, obtained);
    }
  }

  lemma PadStep(n: nat, s: string)
    ensures Pad(n + 1) + s == "\n" + (Pad(n) + s) == Pad(n) + ("\n" + s)
  {
    Assoc("\n", Pad(n), s);
    PadCommutes(n, "\n");
    Assoc(Pad(n), "\n", s);
  }

  lemma BalancedGain(ahead: int, obtained: string, wanted: string)
    ensures Balanced(ahead, "\n" + obtained, wanted) <==> Balanced(ahead + 1, obtained, wanted)
  {
    if ahead >= 0 {
      PadStep(ahead, obtained);
    } else {
      PadStep(-ahead - 1, wanted);
      Cancel("\n", obtained, Pad(-ahead - 1) + wanted);
      assert Pad(0) + obtained == obtained && Pad(0) + wanted == wanted;
    }
  }

  lemma BalancedLoss(ahead: int, obtained: string, wanted: string)
    ensures Balanced(ahead, obtained, "\n" + wanted) <==> Balanced(ahead - 1, obtained, wanted)
  {
    if ahead > 0 {
      PadStep(ahead - 1, obtained);
      Cancel("\n", Pad(ahead - 1) + obtained, wanted);
    } else {
      PadStep(-ahead, wanted);
      assert Pad(0) + obtained == obtained && Pad(0) + ("\n" + wanted) == "\n" + wanted;
    }
  }

  /** Being even is what makes the two texts the same. */
  lemma {:induction false} EvenIff(ps: seq<Piece>, ahead: int)
    ensures Even(ps, ahead) <==> Balanced(ahead, Obtained(ps), Wanted(ps))
    decreases |ps|
  {
    if ps == [] {
      PadNewlines(if ahead >= 0 then ahead else -ahead);
    } else {
      var p, o, w := ps[0], Obtained(ps[1..]), Wanted(ps[1..]);
      EvenIff(ps[1..], ahead + Shift(p.change));
      match p.change {
        case Kept =>
          assert p.text + "" == p.text;
          BalancedText(ahead, p.text, o, w);
        case Gained =>
          Assoc(p.text, "\n", o);
          assert p.text + "" == p.text;
          BalancedText(ahead, p.text, "\n" + o, w);
          BalancedGain(ahead, o, w);
        case Lost =>
          Assoc(p.text, "\n", w);
          assert p.text + "" == p.text;
          BalancedText(ahead, p.text, o, "\n" + w);
          BalancedLoss(ahead, o, w);
      }
    }
  }

  predicate NothingChanges(ps: seq<Piece>) {
    forall i | 0 <= i < |ps| :: ps[i].change.Kept?
  }

  lemma {:induction false} UnchangedIsEven(ps: seq<Piece>)
    requires NothingChanges(ps)
    ensures Even(ps, 0)
    decreases |ps|
  {
    if ps != [] {
      UnchangedIsEven(ps[1..]);
    }
  }

  // ----------------------------------------------------- the pieces of a file

  /** Whether compiling a group to whole lines keeps the newlines its edits ask for. */
  function GroupChange(content: string, g: Group): Change
    requires InGroup(content, g)
  {
    var before, after := EndsWith(Before(content, g), '\n'), EndsWith(After(content, g), '\n');
    if g.lineEnd == |content| then (if !before && After(content, g) == "" then Gained else Kept)
    else if before then (if after || After(content, g) == "" then Kept else Gained)
    else (if after then Lost else Kept)
  }

  function GroupPiece(content: string, q: nat, g: Group): Piece
    requires InGroup(content, g)
  {
    var change := GroupChange(content, g);
    Piece(Slice(content, q, g.lineStart) + (if change.Gained? then After(content, g) else NewText(content, g)), change)
  }

  /** The file from a position on, with a piece for every group. */
  function Pieces(content: string, q: nat, groups: seq<Group>): seq<Piece>
    requires AllInGroup(content, groups)
    decreases |groups|
  {
    var file := EnsureFinal(content);
    if groups == [] then [Piece(if q <= |file| then file[q..] else "", Kept)]
    else [GroupPiece(content, q, groups[0])] + Pieces(content, WindowEnd(content, groups[0]), groups[1..])
  }

  predicate AllKept(content: string, groups: seq<Group>)
    requires AllInGroup(content, groups)
  {
    forall i | 0 <= i < |groups| :: GroupChange(content, groups[i]).Kept?
  }

  lemma {:induction false} FirstPiece(content: string, q: nat, groups: seq<Group>)
    requires AllInGroup(content, groups) && groups != []
    ensures var ps := Pieces(content, q, groups);
            ps[0] == GroupPiece(content, q, groups[0])
            && ps[1..] == Pieces(content, WindowEnd(content, groups[0]), groups[1..])
  {
  }

  lemma NothingChangesCons(ps: seq<Piece>)
    requires ps != []
    ensures NothingChanges(ps) <==> ps[0].change.Kept? && NothingChanges(ps[1..])
  {
    var rest := ps[1..];
    if ps[0].change.Kept? && NothingChanges(rest) {
      forall i | 0 <= i < |ps| ensures ps[i].change.Kept? {
        assert i > 0 ==> ps[i] == rest[i - 1];
      }
    }
  }

  lemma AllKeptCons(content: string, groups: seq<Group>)
    requires AllInGroup(content, groups) && groups != []
    ensures AllInGroup(content, groups[1..])
    ensures AllKept(content, groups) <==> GroupChange(content, groups[0]).Kept? && AllKept(content, groups[1..])
  {
    assert groups == [groups[0]] + groups[1..];
    if AllKept(content, groups) {
      forall i | 0 <= i < |groups| - 1 ensures GroupChange(content, groups[1..][i]).Kept? {
        assert groups[1..][i] == groups[i + 1];
      }
    }
    if GroupChange(content, groups[0]).Kept? && AllKept(content, groups[1..]) {
      forall i | 0 <= i < |groups| ensures GroupChange(content, groups[i]).Kept? {
        assert i > 0 ==> groups[i] == groups[1..][i - 1];
      }
    }
  }

  lemma {:induction false} KeptPieces(content: string, q: nat, groups: seq<Group>)
    requires AllInGroup(content, groups)
    ensures NothingChanges(Pieces(content, q, groups)) <==> AllKept(content, groups)
    decreases |groups|
  {
    if groups != [] {
      FirstPiece(content, q, groups);
      KeptPieces(content, WindowEnd(content, groups[0]), groups[1..]);
      NothingChangesCons(Pieces(content, q, groups));
      AllKeptCons(content, groups);
    }
  }

  /** A final newline ensured, unless there is nothing at all. */
  function Terminate(s: string): string {
    if s == "" then "" else EnsureFinal(s)
  }

  lemma TerminateTail(a: string, b: string)
    requires b != ""
    ensures Terminate(a + b) == a + Terminate(b)
  {
  }

  /** Past a line's end, its newline is kept. */
  lemma IntendedSkip(content: string, q: nat, groups: seq<Group>)
    requires AllInGroup(content, groups) && q < |content| && content[q] == '\n'
    requires groups != [] ==> q < groups[0].lineStart
    ensures Intended(content, q, groups) == "\n" + Intended(content, q + 1, groups)
  {
    if groups == [] {
      assert content[q..] == "\n" + content[q + 1..];
    } else {
      assert InGroup(content, groups[0]);
      var from := groups[0].lineStart;
      assert Slice(content, q, from) == "\n" + Slice(content, q + 1, from);
      Assoc("\n", Slice(content, q + 1, from), After(content, groups[0]));
      Assoc("\n", Slice(content, q + 1, from) + After(content, groups[0]), Intended(content, groups[0].lineEnd, groups[1..]));
    }
  }

  lemma SameSlice(content: string, q: nat, to: nat)
    requires q <= to <= |content|
    ensures Slice(EnsureFinal(content), q, to) == Slice(content, q, to)
  {
  }

  lemma ObtainedText(x: string, y: string, n: string, change: Change, rest: string)
    requires change.Gained? ==> n == y + "\n"
    ensures x + n + rest == (x + (if change.Gained? then y else n)) + (if change.Gained? then "\n" else "") + rest
  {
    if change.Gained? {
      Assoc(x, y, "\n");
    } else {
      assert x + n + "" == x + n;
    }
  }

  /** The text the hunks leave is the obtained side of the pieces. */
  lemma {:induction false} ObtainedAdjusted(content: string, q: nat, groups: seq<Group>)
    requires AllInGroup(content, groups) && GroupsOk(content, groups) && Ready(content, q, groups)
    ensures Adjusted(content, q, groups) == Obtained(Pieces(content, q, groups))
    decreases |groups|
  {
    if groups == [] {
      var ps := Pieces(content, q, groups);
      assert ps[1..] == [] && ps[0].text + "" + "" == ps[0].text;
    } else {
      var g := groups[0];
      var w := WindowEnd(content, g);
      ReadyAfter(content, q, groups);
      ObtainedAdjusted(content, w, groups[1..]);
      FirstPiece(content, q, groups);
      assert InGroup(content, g);
      SameSlice(content, q, g.lineStart);
      ObtainedText(Slice(content, q, g.lineStart), After(content, g), NewText(content, g),
                   GroupChange(content, g), Adjusted(content, w, groups[1..]));
    }
  }

  lemma OthersEndEarlier(content: string, groups: seq<Group>)
    requires AllInGroup(content, groups) && GroupsOk(content, groups)
    ensures |groups| > 1 ==> groups[0].lineEnd < |content|
  {
    if |groups| > 1 {
      assert groups[0].lineEnd < groups[1].lineStart && InGroup(content, groups[1]);
    }
  }

  lemma TerminateEnd(x: string, y: string, before: bool)
    requires Terminated(x)
    ensures var text := x + (if !before && y == "" then y else if before && y == "" then "" else EnsureFinal(y));
            Terminate(x + y + "") == text + "" + ""
  {
    assert x + y + "" == x + y;
    if y != "" {
      TerminateTail(x, y);
    }
  }

  lemma {:induction false} WantedOne(content: string, q: nat, g: Group)
    requires InGroup(content, g) && g.lineEnd == |content| && WindowEnd(content, g) >= |EnsureFinal(content)|
    ensures var p := GroupPiece(content, q, g);
            Wanted(Pieces(content, q, [g])) == p.text + (if p.change.Lost? then "\n" else "") + ""
  {
    assert [g][1..] == [];
    FirstPiece(content, q, [g]);
    var last := Pieces(content, WindowEnd(content, g), []);
    assert last[0].text == "" && last[1..] == [];
    assert Wanted(last) == "";
  }

  /** The piece of a group that reaches the end of the file. */
  lemma LastPiece(content: string, q: nat, g: Group)
    requires InGroup(content, g) && g.lineEnd == |content|
    ensures var before, y := EndsWith(Before(content, g), '\n'), After(content, g);
            && !GroupChange(content, g).Lost?
            && GroupPiece(content, q, g).text ==
               Slice(content, q, g.lineStart) + (if !before && y == "" then y else if before && y == "" then "" else EnsureFinal(y))
  {
  }

  lemma {:induction false} IntendedOne(content: string, q: nat, g: Group)
    requires InGroup(content, g) && g.lineEnd == |content|
    ensures Intended(content, q, [g]) == Slice(content, q, g.lineStart) + After(content, g) + ""
  {
    assert [g][1..] == [];
  }

  lemma LastCut(content: string, q: nat, g: Group)
    requires GroupOk(content, g) && Ready(content, q, [g]) && g.lineEnd == |content|
    ensures q <= g.lineStart && Terminated(Slice(content, q, g.lineStart))
    ensures WindowEnd(content, g) >= |EnsureFinal(content)|
  {
    var before := Before(content, g);
    assert before[|before| - 1] == content[|content| - 1];
    assert q < g.lineStart ==> content[q..g.lineStart][g.lineStart - q - 1] == content[g.lineStart - 1];
  }

  lemma WantedLast(content: string, q: nat, g: Group)
    requires GroupOk(content, g) && Ready(content, q, [g]) && g.lineEnd == |content|
    ensures Agree(content, q, [g])
  {
    LastCut(content, q, g);
    IntendedOne(content, q, g);
    WantedOne(content, q, g);
    LastPiece(content, q, g);
    TerminateEnd(Slice(content, q, g.lineStart), After(content, g), EndsWith(Before(content, g), '\n'));
  }

  lemma TerminateInside(x: string, y: string, before: bool, later: string)
    ensures var after := EndsWith(y, '\n');
            if before then
              var n := if y == "" then "" else EnsureFinal(y);
              Terminate(x + y + ("\n" + later)) == (x + (if after || y == "" then n else y)) + "" + Terminate("\n" + later)
            else
              Terminate(x + y + ("\n" + later)) == (x + EnsureFinal(y)) + (if after then "\n" else "") + Terminate(later)
  {
    TerminateTail(x + y, "\n" + later);
    Assoc(x, y, "\n");
    if before {
      assert x + y + "" == x + y;
    } else {
      assert Terminate("\n" + later) == "\n" + Terminate(later);
      Assoc(x + y, "\n", Terminate(later));
      assert x + EnsureFinal(y) + "" == x + EnsureFinal(y);
    }
  }

  lemma IntendedFirst(content: string, q: nat, groups: seq<Group>)
    requires AllInGroup(content, groups) && groups != []
    requires groups[0].lineEnd < |content| && content[groups[0].lineEnd] == '\n'
    requires groups[1..] != [] ==> groups[0].lineEnd < groups[1..][0].lineStart
    ensures var g, rest := groups[0], groups[1..];
            var later := "\n" + Intended(content, g.lineEnd + 1, rest);
            && Intended(content, q, groups) == Slice(content, q, g.lineStart) + After(content, g) + later
            && Intended(content, g.lineEnd, rest) == later
  {
    IntendedSkip(content, groups[0].lineEnd, groups[1..]);
  }

  lemma {:induction false} WantedFirst(content: string, q: nat, groups: seq<Group>)
    requires AllInGroup(content, groups) && groups != []
    ensures var p, rest := GroupPiece(content, q, groups[0]), Pieces(content, WindowEnd(content, groups[0]), groups[1..]);
            Wanted(Pieces(content, q, groups)) == p.text + (if p.change.Lost? then "\n" else "") + Wanted(rest)
  {
    FirstPiece(content, q, groups);
  }

  lemma WantedPiece(content: string, q: nat, g: Group, later: string, rest: string)
    requires InGroup(content, g) && g.lineEnd < |content|
    requires rest == Terminate(if EndsWith(Before(content, g), '\n') then "\n" + later else later)
    ensures var p := GroupPiece(content, q, g);
            Terminate(Slice(content, q, g.lineStart) + After(content, g) + ("\n" + later)) ==
            p.text + (if p.change.Lost? then "\n" else "") + rest
  {
    TerminateInside(Slice(content, q, g.lineStart), After(content, g), EndsWith(Before(content, g), '\n'), later);
  }

  /** The text intended and the text wanted agree on what a list of groups comes to. */
  ghost predicate Agree(content: string, q: nat, groups: seq<Group>)
    requires AllInGroup(content, groups)
  {
    Terminate(Intended(content, q, groups)) == Wanted(Pieces(content, q, groups))
  }

  lemma {:induction false} SameIntended(content: string, a: nat, b: nat, groups: seq<Group>)
    requires AllInGroup(content, groups) && a == b
    ensures Intended(content, a, groups) == Intended(content, b, groups)
  {
  }

  lemma {:induction false} WindowIntended(content: string, g: Group, rest: seq<Group>)
    requires InGroup(content, g) && AllInGroup(content, rest)
    ensures EndsWith(Before(content, g), '\n') ==>
              Intended(content, WindowEnd(content, g), rest) == Intended(content, g.lineEnd, rest)
    ensures !EndsWith(Before(content, g), '\n') ==>
              Intended(content, WindowEnd(content, g), rest) == Intended(content, g.lineEnd + 1, rest)
  {
    if EndsWith(Before(content, g), '\n') {
      SameIntended(content, WindowEnd(content, g), g.lineEnd, rest);
    } else {
      SameIntended(content, WindowEnd(content, g), g.lineEnd + 1, rest);
    }
  }

  /** What is wanted after a group, when the pieces there agree. */
  lemma {:induction false} LaterWanted(content: string, g: Group, rest: seq<Group>)
    requires InGroup(content, g) && AllInGroup(content, rest) && Agree(content, WindowEnd(content, g), rest)
    requires Intended(content, g.lineEnd, rest) == "\n" + Intended(content, g.lineEnd + 1, rest)
    ensures Wanted(Pieces(content, WindowEnd(content, g), rest)) ==
            Terminate(if EndsWith(Before(content, g), '\n') then "\n" + Intended(content, g.lineEnd + 1, rest)
                      else Intended(content, g.lineEnd + 1, rest))
  {
    WindowIntended(content, g, rest);
  }

  lemma WantedInside(content: string, q: nat, groups: seq<Group>)
    requires AllInGroup(content, groups) && groups != []
    requires groups[0].lineEnd < |content| && content[groups[0].lineEnd] == '\n'
    requires groups[1..] != [] ==> groups[0].lineEnd < groups[1..][0].lineStart
    requires Agree(content, WindowEnd(content, groups[0]), groups[1..])
    ensures Agree(content, q, groups)
  {
    var g, rest := groups[0], groups[1..];
    IntendedFirst(content, q, groups);
    LaterWanted(content, g, rest);
    WantedFirst(content, q, groups);
    WantedPiece(content, q, g, Intended(content, g.lineEnd + 1, rest), Wanted(Pieces(content, WindowEnd(content, g), rest)));
  }

  /** From the beginning of a line on, the text with its final newline ensured is the file's. */
  lemma EndTerminated(content: string, q: nat)
    requires content != "" && Ready(content, q, []) && q <= |content|
    ensures Terminate(content[q..]) == EnsureFinal(content)[q..]
  {
    if q == |content| {
      assert EnsureFinal(content)[q - 1] == content[q - 1];
    } else {
      assert content[q..][|content| - q - 1] == content[|content| - 1];
      if !EndsWith(content, '\n') {
        assert (content + "\n")[q..] == content[q..] + "\n";
      }
    }
  }

  lemma WantedEnd(content: string, q: nat)
    requires content != "" && Ready(content, q, []) && q <= |content|
    ensures Agree(content, q, [])
  {
    var ps := Pieces(content, q, []);
    EndTerminated(content, q);
    assert ps[1..] == [] && ps[0].text + "" + "" == ps[0].text;
  }

  lemma WantedOnly(content: string, q: nat, groups: seq<Group>)
    requires AllInGroup(content, groups) && GroupsOk(content, groups) && groups != []
    requires Ready(content, q, groups) && groups[0].lineEnd == |content|
    ensures Agree(content, q, groups)
  {
    OthersEndEarlier(content, groups);
    assert groups == [groups[0]];
    GroupsRest(content, groups);
    WantedLast(content, q, groups[0]);
  }

  /** The text asked for is the wanted side of the pieces. */
  lemma {:induction false} WantedIntended(content: string, q: nat, groups: seq<Group>)
    requires content != "" && AllInGroup(content, groups) && GroupsOk(content, groups)
    requires Ready(content, q, groups) && q <= |content|
    ensures Agree(content, q, groups)
    decreases |groups|
  {
    if groups == [] {
      WantedEnd(content, q);
    } else if groups[0].lineEnd == |content| {
      WantedOnly(content, q, groups);
    } else {
      ReadyAfter(content, q, groups);
      GroupsRest(content, groups);
      assert InGroup(content, groups[0]);
      WantedIntended(content, WindowEnd(content, groups[0]), groups[1..]);
      WantedInside(content, q, groups);
    }
  }
}
