/** Strings and lines: the JavaScript string operations the patch code relies on
    (split, join, trim, end-of-line normalisation), and the correspondence between
    a text whose every line is terminated and its sequence of lines. */
module Text {

  /** The characters removed by JavaScript's trim: white space and line terminators. */
  predicate IsSpace(c: char) {
    || c == ' ' || c == '\t' || c == '\n' || c == '\r' || c == '\U{0B}' || c == '\U{0C}'
    || c == '\U{A0}' || c == '\U{1680}' || '\U{2000}' <= c <= '\U{200A}'
    || c == '\U{2028}' || c == '\U{2029}' || c == '\U{202F}' || c == '\U{205F}'
    || c == '\U{3000}' || c == '\U{FEFF}'
  }

  function TrimStart(s: string): string {
    if s == [] || !IsSpace(s[0]) then s else TrimStart(s[1..])
  }

  function TrimEnd(s: string): string {
    if s == [] || !IsSpace(s[|s| - 1]) then s else TrimEnd(s[..|s| - 1])
  }

  function Trim(s: string): string {
    TrimEnd(TrimStart(s))
  }

  /** A text that begins and ends with visible characters is its own trim. */
  predicate Trimmed(s: string) {
    s != [] ==> !IsSpace(s[0]) && !IsSpace(s[|s| - 1])
  }

  lemma {:induction false} TrimStartSuffix(s: string)
    ensures |TrimStart(s)| <= |s| && TrimStart(s) == s[|s| - |TrimStart(s)|..]
    ensures TrimStart(s) == [] || !IsSpace(TrimStart(s)[0])
  {
    if s != [] && IsSpace(s[0]) {
      TrimStartSuffix(s[1..]);
    }
  }

  lemma {:induction false} TrimEndPrefix(s: string)
    ensures TrimEnd(s) <= s
    ensures TrimEnd(s) == [] || !IsSpace(TrimEnd(s)[|TrimEnd(s)| - 1])
  {
    if s != [] && IsSpace(s[|s| - 1]) {
      TrimEndPrefix(s[..|s| - 1]);
    }
  }

  lemma {:induction false} TrimYieldsTrimmed(s: string)
    ensures Trimmed(Trim(s))
    ensures Trimmed(s) ==> Trim(s) == s
  {
    TrimStartSuffix(s);
    TrimEndPrefix(TrimStart(s));
  }

  predicate StartsWith(s: string, p: string) {
    p <= s
  }

  predicate EndsWith(s: string, c: char) {
    s != [] && s[|s| - 1] == c
  }

  /** Removes one final newline, as replace(/\n$/, "") does. */
  function Strip(s: string): string {
    if EndsWith(s, '\n') then s[..|s| - 1] else s
  }

  /** Adds a final newline unless there is one. */
  function EnsureFinal(s: string): string {
    if EndsWith(s, '\n') then s else s + "\n"
  }

  /** Replaces every CR LF pair by LF, in one pass from the left. */
  function NormalizeEol(s: string): string {
    if s == [] then []
    else if |s| >= 2 && s[0] == '\r' && s[1] == '\n' then "\n" + NormalizeEol(s[2..])
    else [s[0]] + NormalizeEol(s[1..])
  }

  lemma {:induction false} NormalizeCrFree(s: string)
    requires '\r' !in s
    ensures NormalizeEol(s) == s
  {
    if s != [] {
      assert s[0] in s;
      NormalizeCrFree(s[1..]);
    }
  }

  /** No CR LF pair: what is left when every pair has been replaced and no CR stood before one. */
  predicate PairFree(s: string) {
    forall i | 0 < i < |s| && s[i] == '\n' :: s[i - 1] != '\r'
  }

  /** Replaces every LF by CR LF. */
  function LfToCrLf(s: string): string {
    if s == [] then [] else (if s[0] == '\n' then "\r\n" else [s[0]]) + LfToCrLf(s[1..])
  }

  /** Sequence facts, kept apart from the proofs that use them. */
  lemma MoveFirst<T>(a: seq<T>, b: seq<T>)
    requires b != []
    ensures (a + [b[0]]) + b[1..] == a + b
  {
  }

  lemma CutAt<T>(s: seq<T>, n: nat, tail: seq<T>)
    requires n <= |s|
    ensures s + tail == s[..n] + (s[n..] + tail)
  {
  }

  lemma TwoFirst<T>(a: T, b: T, ls: seq<T>, c: T)
    ensures [a, b] + ls + [c] == [a] + ([b] + ls) + [c]
  {
  }

  lemma FirstOf<T>(s: seq<T>, tail: seq<T>)
    requires s != []
    ensures (s + tail)[0] == s[0] && (s + tail)[1..] == s[1..] + tail
  {
  }

  /** A line: a text without a newline. */
  predicate IsLine(s: string) {
    '\n' !in s
  }

  predicate AreLines(ls: seq<string>) {
    forall i | 0 <= i < |ls| :: IsLine(ls[i])
  }

  /** split("\n"): never empty. */
  function Split(s: string): (r: seq<string>)
    ensures r != [] && AreLines(r)
  {
    if s == [] then [""]
    else
      var rest := Split(s[1..]);
      if s[0] == '\n' then
        assert forall i | 0 < i < |rest| + 1 :: ([""] + rest)[i] == rest[i - 1];
        [""] + rest
      else [[s[0]] + rest[0]] + rest[1..]
  }

  /** join("\n"). */
  function Join(ls: seq<string>): string {
    if ls == [] then "" else if |ls| == 1 then ls[0] else ls[0] + "\n" + Join(ls[1..])
  }

  /** The text in which every line is followed by a newline. */
  function Unlines(ls: seq<string>): string {
    if ls == [] then "" else ls[0] + "\n" + Unlines(ls[1..])
  }

  /** Texts in which every line is terminated. */
  predicate Terminated(s: string) {
    s == [] || EndsWith(s, '\n')
  }

  /** The lines of a terminated text. */
  function Lines(s: string): seq<string>
    requires Terminated(s)
  {
    if s == [] then [] else Split(Strip(s))
  }

  lemma {:induction false} SplitLine(l: string)
    requires IsLine(l)
    ensures Split(l) == [l]
  {
    if l != [] {
      assert l[0] in l;
      SplitLine(l[1..]);
      assert l == [l[0]] + l[1..];
    }
  }

  lemma {:induction false} SplitFirst(l: string, rest: string)
    requires IsLine(l)
    ensures Split(l + "\n" + rest) == [l] + Split(rest)
  {
    var s := l + "\n" + rest;
    if l == [] {
      assert s[1..] == rest;
    } else {
      assert l[0] in l && s[0] == l[0];
      assert s[1..] == l[1..] + "\n" + rest;
      SplitFirst(l[1..], rest);
      var tail := [l[1..]] + Split(rest);
      assert tail[0] == l[1..] && tail[1..] == Split(rest);
      assert l == [l[0]] + l[1..];
    }
  }

  lemma {:induction false} SplitJoin(ls: seq<string>)
    requires ls != [] && AreLines(ls)
    ensures Split(Join(ls)) == ls
  {
    if |ls| == 1 {
      SplitLine(ls[0]);
    } else {
      SplitJoin(ls[1..]);
      SplitFirst(ls[0], Join(ls[1..]));
    }
  }

  lemma {:induction false} JoinSplit(s: string)
    ensures Join(Split(s)) == s
  {
    if s != [] {
      var rest := Split(s[1..]);
      JoinSplit(s[1..]);
      if s[0] == '\n' {
        assert Split(s)[1..] == rest;
        assert Join(Split(s)) == "" + "\n" + s[1..];
      } else if |rest| > 1 {
        assert Split(s)[1..] == rest[1..];
        assert Join(Split(s)) == [s[0]] + rest[0] + "\n" + Join(rest[1..]);
      }
    }
  }

  lemma {:induction false} JoinUnlines(ls: seq<string>)
    requires ls != []
    ensures Unlines(ls) == Join(ls) + "\n"
  {
    if |ls| > 1 {
      JoinUnlines(ls[1..]);
    }
  }

  lemma {:induction false} UnlinesTerminated(ls: seq<string>)
    ensures Terminated(Unlines(ls))
  {
    if ls != [] {
      JoinUnlines(ls);
    }
  }

  lemma {:induction false} UnlinesAppend(a: seq<string>, b: seq<string>)
    ensures Unlines(a + b) == Unlines(a) + Unlines(b)
  {
    if a == [] {
      assert a + b == b;
    } else {
      UnlinesAppend(a[1..], b);
      assert (a + b)[1..] == a[1..] + b;
    }
  }

  /** Lines is the inverse of Unlines on terminated texts. */
  lemma {:induction false} UnlinesLines(s: string)
    requires Terminated(s)
    ensures Unlines(Lines(s)) == s && AreLines(Lines(s))
  {
    if s != [] {
      var ls := Split(Strip(s));
      JoinUnlines(ls);
      JoinSplit(Strip(s));
      assert Strip(s) + "\n" == s;
    }
  }

  /** Unlines is injective on lines: Lines recovers them. */
  lemma {:induction false} LinesUnlines(ls: seq<string>)
    requires AreLines(ls)
    ensures Terminated(Unlines(ls)) && Lines(Unlines(ls)) == ls
  {
    UnlinesTerminated(ls);
    if ls != [] {
      JoinUnlines(ls);
      assert Strip(Unlines(ls)) == Join(ls);
      SplitJoin(ls);
    }
  }

  lemma {:induction false} LinesAppend(a: string, b: string)
    requires Terminated(a) && Terminated(b)
    ensures Terminated(a + b) && Lines(a + b) == Lines(a) + Lines(b)
  {
    UnlinesLines(a);
    UnlinesLines(b);
    UnlinesAppend(Lines(a), Lines(b));
    LinesUnlines(Lines(a) + Lines(b));
  }

  /** The lines of any text, after its final newline has been stripped or not,
      are the lines of the text with its final newline ensured. */
  lemma {:induction false} SplitStrip(s: string)
    ensures Terminated(EnsureFinal(s)) && Lines(EnsureFinal(s)) == Split(Strip(s))
    ensures Unlines(Split(Strip(s))) == EnsureFinal(s)
  {
    assert Strip(EnsureFinal(s)) == Strip(s);
    UnlinesLines(EnsureFinal(s));
  }

  /** One trailing CR removed. */
  function DropCr(l: string): string {
    if EndsWith(l, '\r') then l[..|l| - 1] else l
  }

  lemma {:induction false} NormalizeStep(c: char, t: string)
    requires c == '\r' ==> t == [] || t[0] != '\n'
    ensures NormalizeEol([c] + t) == [c] + NormalizeEol(t)
  {
    var s := [c] + t;
    assert s[1..] == t;
    assert |s| >= 2 ==> s[1] == t[0];
  }

  lemma {:induction false} NormalizePair(t: string)
    ensures NormalizeEol("\r\n" + t) == "\n" + NormalizeEol(t)
  {
    var s := "\r\n" + t;
    assert s[0] == '\r' && s[1] == '\n' && s[2..] == t;
  }

  lemma {:induction false} NormalizeOneMore(c: char, m: string, tail: string, result: string)
    requires c == '\r' ==> m != [] && m[0] != '\n'
    requires NormalizeEol(m + tail) == DropCr(m) + result
    ensures NormalizeEol(([c] + m) + tail) == DropCr([c] + m) + result
  {
    NormalizeStep(c, m + tail);
    assert ([c] + m) + tail == [c] + (m + tail);
    DropCrLead(c, m);
    assert ([c] + DropCr(m)) + result == [c] + (DropCr(m) + result);
  }

  lemma DropCrLead(c: char, m: string)
    requires c == '\r' ==> m != []
    ensures DropCr([c] + m) == [c] + DropCr(m)
  {
  }

  /** Normalising a line followed by a newline removes one trailing CR from the line. */
  lemma {:induction false} NormalizeFirst(l: string, rest: string)
    requires IsLine(l)
    ensures NormalizeEol(l + ("\n" + rest)) == DropCr(l) + ("\n" + NormalizeEol(rest))
  {
    if l == [] {
      NormalizeStep('\n', rest);
      assert l + ("\n" + rest) == ['\n'] + rest;
    } else if |l| == 1 && l[0] == '\r' {
      NormalizePair(rest);
      assert l + ("\n" + rest) == "\r\n" + rest && DropCr(l) == [];
    } else {
      assert |l| > 1 ==> l[1] in l && l[1..][0] == l[1];
      NormalizeFirst(l[1..], rest);
      NormalizeOneMore(l[0], l[1..], "\n" + rest, "\n" + NormalizeEol(rest));
      assert [l[0]] + l[1..] == l;
    }
  }

  lemma {:induction false} NormalizeLine(l: string)
    requires IsLine(l)
    ensures NormalizeEol(l) == l
  {
    if l != [] {
      NormalizeLine(l[1..]);
    }
  }

  /** One trailing CR removed from every line. */
  function DropCrs(ls: seq<string>): (r: seq<string>)
    ensures |r| == |ls| && forall i | 0 <= i < |ls| :: r[i] == DropCr(ls[i])
  {
    seq(|ls|, i requires 0 <= i < |ls| => DropCr(ls[i]))
  }

  /** Whether dropping CRs leaves every line as it is. */
  predicate NoCrEnds(ls: seq<string>) {
    forall i | 0 <= i < |ls| :: !EndsWith(ls[i], '\r')
  }

  lemma NoCrsDropped(ls: seq<string>)
    ensures DropCrs(ls) == ls <==> NoCrEnds(ls)
  {
    forall i | 0 <= i < |ls| ensures DropCr(ls[i]) == ls[i] <==> !EndsWith(ls[i], '\r') {
      assert EndsWith(ls[i], '\r') ==> |DropCr(ls[i])| < |ls[i]|;
    }
    if DropCrs(ls) == ls {
      forall i | 0 <= i < |ls| ensures !EndsWith(ls[i], '\r') {
        assert DropCrs(ls)[i] == ls[i];
      }
    }
  }

  /** How many CRs a text has. */
  function Crs(s: string): nat {
    if s == [] then 0 else (if s[0] == '\r' then 1 else 0) + Crs(s[1..])
  }

  lemma {:induction false} CrsAppend(a: string, b: string)
    ensures Crs(a + b) == Crs(a) + Crs(b)
  {
    if a == [] {
      assert a + b == b;
    } else {
      FirstOf(a, b);
      CrsAppend(a[1..], b);
    }
  }

  lemma {:induction false} NoCrs(s: string)
    requires '\r' !in s
    ensures Crs(s) == 0
  {
    if s != [] {
      NoCrs(s[1..]);
    }
  }

  lemma {:induction false} CrsThree(a: string, b: string, c: string)
    ensures Crs(a + b + c) == Crs(a) + Crs(b) + Crs(c)
  {
    CrsAppend(a, b);
    CrsAppend(a + b, c);
  }

  lemma {:induction false} CrsDropped(l: string)
    ensures Crs(l) == Crs(DropCr(l)) + if EndsWith(l, '\r') then 1 else 0
  {
    if EndsWith(l, '\r') {
      assert l == DropCr(l) + "\r";
      CrsAppend(DropCr(l), "\r");
    }
  }

  lemma NoCrEndsFirst(ls: seq<string>)
    requires ls != []
    ensures NoCrEnds(ls) <==> !EndsWith(ls[0], '\r') && NoCrEnds(ls[1..])
  {
    assert ls == [ls[0]] + ls[1..];
  }

  /** Lines that lose CRs are told by their number. */
  lemma {:induction false} CrsOfLines(ls: seq<string>)
    ensures Crs(Unlines(DropCrs(ls))) <= Crs(Unlines(ls))
    ensures Crs(Unlines(DropCrs(ls))) == Crs(Unlines(ls)) <==> NoCrEnds(ls)
  {
    if ls != [] {
      CrsOfLines(ls[1..]);
      CrsDropped(ls[0]);
      CrsThree(ls[0], "\n", Unlines(ls[1..]));
      CrsThree(DropCr(ls[0]), "\n", Unlines(DropCrs(ls[1..])));
      assert DropCrs(ls)[1..] == DropCrs(ls[1..]);
      NoCrEndsFirst(ls);
    }
  }

  lemma {:induction false} JoinFirst(l: string, rest: seq<string>)
    requires rest != []
    ensures Join([l] + rest) == l + ("\n" + Join(rest))
  {
    assert ([l] + rest)[1..] == rest;
  }

  lemma DropCrsFirst(ls: seq<string>)
    requires |ls| > 1
    ensures var n, rest := |ls| - 1, ls[1..];
            DropCrs(ls[..n]) + [ls[n]] == [DropCr(ls[0])] + (DropCrs(rest[..n - 1]) + [rest[n - 1]])
  {
    var n, rest := |ls| - 1, ls[1..];
    var a, b := DropCrs(ls[..n]), [DropCr(ls[0])] + DropCrs(rest[..n - 1]);
    forall i | 0 <= i < n ensures a[i] == b[i] {
      assert i > 0 ==> rest[..n - 1][i - 1] == ls[i];
    }
    assert a == b && rest[n - 1] == ls[n];
  }

  /** Normalising joined lines removes one trailing CR from every line but the last. */
  lemma {:induction false} NormalizeJoin(ls: seq<string>)
    requires ls != [] && AreLines(ls)
    ensures NormalizeEol(Join(ls)) == Join(DropCrs(ls[..|ls| - 1]) + [ls[|ls| - 1]])
  {
    var n := |ls| - 1;
    if n == 0 {
      NormalizeLine(ls[0]);
      assert DropCrs(ls[..n]) + [ls[n]] == ls;
    } else {
      var rest := ls[1..];
      var es := DropCrs(rest[..n - 1]) + [rest[n - 1]];
      NormalizeFirst(ls[0], Join(rest));
      NormalizeJoin(rest);
      JoinFirst(ls[0], rest);
      JoinFirst(DropCr(ls[0]), es);
      assert [ls[0]] + rest == ls;
      DropCrsFirst(ls);
    }
  }
}
