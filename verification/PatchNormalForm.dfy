/** Everything the parser accepts is well formed, so printing what was parsed gives
    a normal form: parsing it again changes nothing. */
module PatchNormalForm {
  import opened Options
  import opened Text
  import opened PatchSyntax
  import opened PatchRoundTrip
  import opened PatchCrs

  /** What is known of a scanned line whose text is a good line. */
  predicate ScannedWell(s: ScannedLine) {
    && GoodLine(s.text)
    && (s.header.AddHeader? || s.header.DeleteHeader? || s.header.UpdateHeader? ==> GoodPath(s.header.path))
    && (s.moveTo.Some? ==> GoodPath(s.moveTo.value))
    && (s.hunkContext.Some? ==> Trimmed(s.hunkContext.value) && IsLine(s.hunkContext.value))
    && (!s.isEndOfFile ==> Trim(s.text) != END_OF_FILE)
  }

  predicate AllScannedWell(ss: seq<ScannedLine>) {
    forall i | 0 <= i < |ss| :: ScannedWell(ss[i])
  }

  lemma TrimIsLine(l: string)
    requires IsLine(l)
    ensures IsLine(Trim(l))
  {
    TrimStartSuffix(l);
    TrimEndPrefix(TrimStart(l));
    forall i | 0 <= i < |Trim(l)| ensures Trim(l)[i] != '\n' {
      assert Trim(l)[i] == TrimStart(l)[i] == l[|l| - |TrimStart(l)| + i];
      assert l[|l| - |TrimStart(l)| + i] in l;
    }
  }

  lemma MarkerPath(marker: string, trimmed: string)
    requires marker != "" && marker[|marker| - 1] == ' ' && StartsWith(trimmed, marker)
    requires Trimmed(trimmed) && IsLine(trimmed)
    ensures GoodPath(trimmed[|marker|..])
  {
    assert trimmed != marker;
  }

  lemma ReadHeaderGood(t: string)
    requires Trimmed(t) && IsLine(t)
    ensures var h := ReadHeader(t); h.AddHeader? || h.DeleteHeader? || h.UpdateHeader? ==> GoodPath(h.path)
  {
    if StartsWith(t, ADD) {
      MarkerPath(ADD, t);
    } else if StartsWith(t, DELETE) {
      MarkerPath(DELETE, t);
    } else if StartsWith(t, UPDATE) {
      MarkerPath(UPDATE, t);
    }
  }

  lemma ReadContextGood(t: string)
    requires IsLine(t) && |t| >= 2
    ensures Trimmed(Trim(t[2..])) && IsLine(Trim(t[2..]))
  {
    TrimIsLine(t[2..]);
    TrimYieldsTrimmed(t[2..]);
  }

  lemma ScanGood(l: string)
    requires GoodLine(l)
    ensures ScannedWell(Scan(l))
  {
    var t := Trim(l);
    TrimIsLine(l);
    TrimYieldsTrimmed(l);
    ReadHeaderGood(t);
    if StartsWith(t, MOVE) {
      MarkerPath(MOVE, t);
    }
    if StartsWith(t, "@@") {
      ReadContextGood(t);
    }
  }

  lemma {:induction false} AddBodyGood(ss: seq<ScannedLine>)
    requires AllScannedWell(ss) && ParseAddBody(ss).Ok?
    ensures GoodLines(ParseAddBody(ss).value.content) && AllScannedWell(ParseAddBody(ss).value.rest)
  {
    if ss != [] && ss[0].header == NoHeader {
      AddBodyGood(ss[1..]);
    }
  }

  lemma {:induction false} JoinNoFinal(ls: seq<string>)
    requires ls != [] && AreLines(ls) && EndsWith(Join(ls), '\n')
    ensures |ls| > 1 && ls[|ls| - 1] == "" && Strip(Join(ls)) == Join(ls[..|ls| - 1])
  {
    if |ls| > 1 {
      var rest := ls[1..];
      JoinFirst(ls[0], rest);
      assert [ls[0]] + rest == ls;
      if Join(rest) == "" {
        if |rest| == 1 {
          assert ls[..1] == [ls[0]];
        }
      } else {
        JoinNoFinal(rest);
        JoinFirst(ls[0], rest[..|rest| - 1]);
        assert [ls[0]] + rest[..|rest| - 1] == ls[..|ls| - 1];
      }
    }
  }

  lemma AddContentGood(ls: seq<string>, finalNewline: bool)
    requires GoodLines(ls)
    ensures GoodContent(AddContent(ls, finalNewline))
  {
    if ls == [] {
    } else if finalNewline {
      SplitJoin(ls);
      assert Strip(Join(ls) + "\n") == Join(ls);
    } else if EndsWith(Join(ls), '\n') {
      assert Join(ls) + "" == Join(ls);
      JoinNoFinal(ls);
      SplitJoin(ls[..|ls| - 1]);
    } else {
      assert Join(ls) + "" == Join(ls);
      SplitJoin(ls);
    }
  }

  /** A hunk still being read, if there is one. */
  predicate GoodCurrent(current: Option<Hunk>) {
    match current
    case None => true
    case Some(h) =>
      && (forall i | 0 <= i < |h.lines| :: GoodHunkLine(h.lines[i]))
      && (h.changeContext.Some? ==> h.changeContext.value != "" && Trimmed(h.changeContext.value) && IsLine(h.changeContext.value))
  }

  lemma StepGood(s: ScannedLine, hunks: seq<Hunk>, current: Option<Hunk>, path: string)
    requires ScannedWell(s) && GoodHunks(hunks) && GoodCurrent(current)
    ensures var step := StepUpdate(s, hunks, current, path);
            step.Continue? ==> GoodHunks(step.hunks) && GoodCurrent(step.current)
  {
    if s.text != "" {
      var text := s.text[1..];
      assert IsLine(text) by {
        forall i | 0 <= i < |text| ensures text[i] != '\n' {
          assert text[i] == s.text[i + 1] && s.text[i + 1] in s.text;
        }
      }
      assert GoodLine(text);
      assert s.Leads(' ') ==> s.text == " " + text;
    }
  }

  lemma {:induction false} UpdateBodyGood(ss: seq<ScannedLine>, hunks: seq<Hunk>, current: Option<Hunk>, path: string)
    requires AllScannedWell(ss) && GoodHunks(hunks) && GoodCurrent(current)
    requires ParseUpdateBody(ss, hunks, current, path).Ok?
    ensures GoodHunks(ParseUpdateBody(ss, hunks, current, path).value.hunks)
    ensures AllScannedWell(ParseUpdateBody(ss, hunks, current, path).value.rest)
  {
    if ss != [] {
      StepGood(ss[0], hunks, current, path);
      var step := StepUpdate(ss[0], hunks, current, path);
      if step.Continue? {
        UpdateBodyGood(ss[1..], step.hunks, step.current, path);
      }
    }
  }

  lemma ParseActionGood(s: ScannedLine, ss: seq<ScannedLine>)
    requires ScannedWell(s) && AllScannedWell(ss) && ParseAction(s, ss).Ok?
    ensures var parsed := ParseAction(s, ss).value;
            AllScannedWell(parsed.rest) && (parsed.action.Some? ==> GoodAction(parsed.action.value))
  {
    match s.header {
      case AddHeader(path) =>
        AddBodyGood(ss);
        var body := ParseAddBody(ss).value;
        AddContentGood(body.content, body.finalNewline);
      case UpdateHeader(path) =>
        var moveTo := MoveDestination(ss);
        assert moveTo.Some? ==> ScannedWell(ss[0]);
        UpdateBodyGood(if moveTo.Some? then ss[1..] else ss, [], None, path);
      case _ =>
    }
  }

  lemma {:induction false} ParseActionsGood(ss: seq<ScannedLine>, before: seq<Action>)
    requires AllScannedWell(ss) && GoodActions(before) && ParseActions(ss, before).Ok?
    ensures GoodActions(ParseActions(ss, before).value)
    decreases |ss|
  {
    if ss == [] {
    } else if ss[0].trimmed == "" {
      ParseActionsGood(ss[1..], before);
    } else {
      ParseActionGood(ss[0], ss[1..]);
      var parsed := ParseAction(ss[0], ss[1..]).value;
      ParseActionsGood(parsed.rest, if parsed.action.Some? then before + [parsed.action.value] else before);
    }
  }

  lemma PairFreeRest(s: string)
    requires PairFree(s) && s != []
    ensures PairFree(s[1..])
  {
    forall i | 0 < i < |s| - 1 && s[1..][i] == '\n' ensures s[1..][i - 1] != '\r' {
      assert s[i + 1] == '\n';
    }
  }

  lemma {:induction false} SplitPairFree(s: string)
    requires PairFree(s) && !EndsWith(s, '\r')
    ensures GoodLines(Split(s))
  {
    if s != [] {
      PairFreeRest(s);
      SplitPairFree(s[1..]);
      SplitHead(s[1..]);
      var rest := Split(s[1..]);
      assert forall i | 0 <= i < |rest| :: GoodLine(rest[i]);
      assert s[0] == '\r' && |s| > 1 ==> s[1] != '\n';
    }
  }

  /** The first line is empty only before a newline or at the end. */
  lemma {:induction false} SplitHead(s: string)
    ensures Split(s)[0] == "" <==> s == "" || s[0] == '\n'
  {
  }

  lemma TrimPairFree(s: string)
    requires PairFree(s)
    ensures PairFree(Trim(s)) && !EndsWith(Trim(s), '\r')
  {
    TrimStartSuffix(s);
    TrimEndPrefix(TrimStart(s));
    TrimYieldsTrimmed(s);
    var skipped := |s| - |TrimStart(s)|;
    forall i | 0 < i < |Trim(s)| && Trim(s)[i] == '\n' ensures Trim(s)[i - 1] != '\r' {
      assert Trim(s)[i] == s[skipped + i] && Trim(s)[i - 1] == s[skipped + i - 1];
    }
  }

  lemma {:induction false} SplitCrFree(s: string)
    requires '\r' !in s
    ensures GoodLines(Split(s))
  {
    SplitPairFree(s);
  }

  lemma {:induction false} PatchLinesGood(patch: string)
    requires PairFree(NormalizeEol(patch))
    ensures GoodLines(PatchLines(patch))
  {
    TrimPairFree(NormalizeEol(patch));
    SplitPairFree(Trim(NormalizeEol(patch)));
  }

  lemma ScanAllGood(ls: seq<string>)
    requires GoodLines(ls)
    ensures AllScannedWell(ScanAll(ls))
  {
    forall i | 0 <= i < |ls| ensures ScannedWell(ScanAll(ls)[i]) {
      ScanGood(ls[i]);
    }
  }

  /** Whatever a patch text parses to is well formed, in whichever line ends it comes, unless a
      CR is left before a newline. */
  lemma {:induction false} ParsedIsGood(patch: string)
    requires PairFree(NormalizeEol(patch)) && Parse(patch).Ok?
    ensures Parse(patch).value != [] && GoodActions(Parse(patch).value)
  {
    var lines := PatchLines(patch);
    PatchLinesGood(patch);
    var body := lines[1..|lines| - 1];
    ScanAllGood(body);
    ParseActionsGood(ScanAll(body), []);
  }

  /** Parsing, printing and parsing again is the same as parsing once. */
  lemma {:induction false} ParseThenPrint(patch: string)
    requires PairFree(NormalizeEol(patch)) && Parse(patch).Ok?
    ensures Parse(Print(Parse(patch).value)) == Parse(patch)
  {
    ParsedIsGood(patch);
    PrintThenParse(Parse(patch).value);
  }

  /** The nonempty well-formed action lists are exactly those that survive the round trip. */
  lemma RoundTripIff(actions: seq<Action>)
    ensures Parse(Print(actions)) == Ok(actions) <==> actions != [] && GoodActions(actions)
  {
    if actions != [] && GoodActions(actions) {
      PrintThenParse(actions);
    }
    if Parse(Print(actions)) == Ok(actions) {
      ParsedCrs(Print(actions));
      NormalizeCrs(Print(actions));
      ParsedIsGood(Print(actions));
    }
  }
}
