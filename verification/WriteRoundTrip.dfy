/** Whole-file writes: what the patch of a write parses to, for every content. */
module WriteRoundTrip {
  import opened Options
  import opened Text
  import opened PatchSyntax
  import opened PatchRoundTrip
  import opened PatchNormalForm
  import opened LegacyWrites

  /** The content a write arrives with: each line less one trailing CR. */
  function Arriving(content: string): string {
    AddContent(DropCrs(ContentLines(content)), EndsWith(content, '\n'))
  }

  lemma {:induction false} WrittenDocument(path: string, content: string)
    ensures WritePatch(path, content) == Join([BEGIN] + ([ADD + path] + AddLines(NormalizeEol(content))) + [END])
  {
    WriteDocument(path, NormalizeEol(content));
    TwoFirst(BEGIN, ADD + path, AddLines(NormalizeEol(content)), END);
  }

  function AddBodyLines(ls: seq<string>, finalNewline: bool): seq<string> {
    Prefixed('+', ls) + (if finalNewline then [] else [NO_NEWLINE])
  }

  lemma AddLinesAreBody(content: string)
    ensures AddLines(content) == AddBodyLines(ContentLines(content), EndsWith(content, '\n'))
  {
    assert Prefixed('+', ContentLines(content)) == if content == "" then [] else Prefixed('+', Split(Strip(content)));
  }

  lemma DropPlus(l: string)
    ensures DropCr("+" + l) == "+" + DropCr(l)
  {
  }

  lemma DropBody(ls: seq<string>, finalNewline: bool)
    ensures DropCrs(AddBodyLines(ls, finalNewline)) == AddBodyLines(DropCrs(ls), finalNewline)
  {
    var a, b := DropCrs(AddBodyLines(ls, finalNewline)), AddBodyLines(DropCrs(ls), finalNewline);
    assert DropCr(NO_NEWLINE) == NO_NEWLINE;
    forall i | 0 <= i < |a| ensures a[i] == b[i] {
      if i < |ls| {
        DropPlus(ls[i]);
        assert AddBodyLines(ls, finalNewline)[i] == "+" + ls[i];
      }
    }
  }

  lemma BodyAreLines(ls: seq<string>, finalNewline: bool)
    requires AreLines(ls)
    ensures AreLines(AddBodyLines(ls, finalNewline))
  {
    var body := AddBodyLines(ls, finalNewline);
    assert IsLine(NO_NEWLINE);
    forall i | 0 <= i < |body| ensures IsLine(body[i]) {
      assert i < |ls| ==> body[i] == "+" + ls[i] && IsLine(ls[i]);
    }
  }

  lemma ParseOneAdd(path: string, ls: seq<string>, finalNewline: bool)
    requires GoodPath(path) && (ls != [] || !finalNewline)
    ensures ParseActions(ScanAll([ADD + path] + AddBodyLines(ls, finalNewline)), []) ==
            Ok([AddFile(path, AddContent(ls, finalNewline))])
  {
    var body := AddBodyLines(ls, finalNewline);
    HeaderPrinted(AddFile(path, ""));
    ScanAllRest(ADD + path, body);
    AddLinesPrinted(ls, finalNewline);
    assert ScanAll(body) + [] == ScanAll(body);
    ParseAddLines(ScanAll(body), path, ls, finalNewline, []);
    var done := AddFile(path, AddContent(ls, finalNewline));
    ParseActionsStep(ScanAll([ADD + path] + body), Parsed(Some(done), []), []);
    assert [] + [done] == [done];
  }

  lemma AddedLines(path: string, ls: seq<string>, finalNewline: bool)
    requires GoodPath(path) && AreLines(ls)
    ensures var all := [ADD + path] + AddBodyLines(ls, finalNewline);
            AreLines(all) && DropCrs(all) == [ADD + path] + AddBodyLines(DropCrs(ls), finalNewline)
  {
    var body := AddBodyLines(ls, finalNewline);
    var all := [ADD + path] + body;
    HeaderGood(ADD, path);
    BodyAreLines(ls, finalNewline);
    DropBody(ls, finalNewline);
    forall i | 0 <= i < |all| ensures IsLine(all[i]) {
      assert i > 0 ==> all[i] == body[i - 1];
    }
    assert DropCrs(all) == [ADD + path] + DropCrs(body);
  }

  lemma ParseWritten(path: string, ls: seq<string>, finalNewline: bool)
    requires GoodPath(path) && AreLines(ls) && (ls != [] || !finalNewline)
    ensures Parse(Join([BEGIN] + ([ADD + path] + AddBodyLines(ls, finalNewline)) + [END])) ==
            Ok([AddFile(path, AddContent(DropCrs(ls), finalNewline))])
  {
    var all := [ADD + path] + AddBodyLines(ls, finalNewline);
    AddedLines(path, ls, finalNewline);
    DocumentLines(all);
    ParseDocument(DropCrs(all));
    ParseOneAdd(path, DropCrs(ls), finalNewline);
  }

  /** What a write parses to, whatever its content. */
  lemma {:induction false} WriteMeaning(path: string, content: string)
    requires GoodPath(path)
    ensures Parse(WritePatch(path, content)) == Ok([AddFile(path, Arriving(NormalizeEol(content)))])
  {
    var n := NormalizeEol(content);
    WrittenDocument(path, content);
    AddLinesAreBody(n);
    ParseWritten(path, ContentLines(n), EndsWith(n, '\n'));
  }

  lemma {:induction false} ArrivingIff(content: string)
    ensures Arriving(content) == content <==> GoodContent(content)
  {
    var ls, fin := ContentLines(content), EndsWith(content, '\n');
    AddContentBack(content);
    if content == "" {
      SplitLine("");
    } else {
      var e := if fin then "\n" else "";
      if Arriving(content) == content {
        assert Join(DropCrs(ls)) + e == Join(ls) + e;
        assert Join(DropCrs(ls)) == (Join(DropCrs(ls)) + e)[..|Join(ls)|] == Join(ls);
        SplitJoin(ls);
        assert forall i | 0 <= i < |ls| :: IsLine(ls[i]);
        SplitJoin(DropCrs(ls));
        assert DropCrs(ls) == ls;
        forall i | 0 <= i < |ls| ensures GoodLine(ls[i]) {
          assert DropCr(ls[i]) == ls[i];
        }
      } else if GoodContent(content) {
        GoodLinesKept(ls);
      }
    }
  }

  /** A write arrives as exactly one added file with its normalised content if and only if
      no line of that content ends in a CR. */
  lemma {:induction false} WriteRoundTrip(path: string, content: string)
    requires GoodPath(path)
    ensures Parse(WritePatch(path, content)) == Ok([AddFile(path, NormalizeEol(content))]) <==>
            GoodContent(NormalizeEol(content))
  {
    WriteMeaning(path, content);
    ArrivingIff(NormalizeEol(content));
  }

  /** A CR-free content, empty or not, terminated or not, always arrives. */
  lemma {:induction false} CrFreeWrite(path: string, content: string)
    requires GoodPath(path) && '\r' !in NormalizeEol(content)
    ensures Parse(WritePatch(path, content)) == Ok([AddFile(path, NormalizeEol(content))])
  {
    var n := NormalizeEol(content);
    SplitCrFree(Strip(n));
    WriteRoundTrip(path, content);
  }
}
