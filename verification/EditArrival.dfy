/** What the parser sees of an update whose hunks only remove and add lines, whatever their
    text: every line less one trailing CR. */
module EditArrival {
  import opened Options
  import opened Text
  import opened PatchSyntax
  import opened PatchRoundTrip
  import opened LegacyWrites

  function ArrivingLines(ls: seq<HunkLine>): (r: seq<HunkLine>)
    ensures |r| == |ls| && forall i | 0 <= i < |ls| :: r[i] == HunkLine(ls[i].kind, DropCr(ls[i].text))
  {
    seq(|ls|, i requires 0 <= i < |ls| => HunkLine(ls[i].kind, DropCr(ls[i].text)))
  }

  function ArrivingHunk(h: Hunk): Hunk {
    h.(lines := ArrivingLines(h.lines))
  }

  function ArrivingHunks(hs: seq<Hunk>): (r: seq<Hunk>)
    ensures |r| == |hs| && forall i | 0 <= i < |hs| :: r[i] == ArrivingHunk(hs[i])
  {
    seq(|hs|, i requires 0 <= i < |hs| => ArrivingHunk(hs[i]))
  }

  /** A hunk of removed and added lines only, as edits compile to. */
  predicate Plain(h: Hunk) {
    && h.lines != [] && h.changeContext.None? && !h.endOfFile
    && forall i | 0 <= i < |h.lines| :: !h.lines[i].kind.Context? && IsLine(h.lines[i].text)
  }

  predicate AllPlain(hs: seq<Hunk>) {
    forall i | 0 <= i < |hs| :: Plain(hs[i])
  }

  lemma DropLead(c: char, l: string)
    requires c != '\r'
    ensures DropCr([c] + l) == [c] + DropCr(l)
  {
  }

  lemma HunkArrives(h: Hunk)
    requires Plain(h)
    ensures AreLines(PrintHunk(h)) && DropCrs(PrintHunk(h)) == PrintHunk(ArrivingHunk(h))
  {
    var ls, arrived := PrintHunk(h), PrintHunk(ArrivingHunk(h));
    assert ls[0] == "@@" == arrived[0] && IsLine("@@") && DropCr("@@") == "@@";
    forall i | 0 <= i < |ls| ensures IsLine(ls[i]) && DropCr(ls[i]) == arrived[i] {
      if i > 0 {
        var l := h.lines[i - 1];
        assert ls[i] == [KindChar(l.kind)] + l.text && IsLine(l.text);
        DropLead(KindChar(l.kind), l.text);
      }
    }
  }

  lemma DropAppend(a: seq<string>, b: seq<string>)
    ensures DropCrs(a + b) == DropCrs(a) + DropCrs(b)
  {
  }

  lemma {:induction false} HunksArriveLines(hs: seq<Hunk>)
    requires AllPlain(hs)
    ensures AreLines(PrintHunks(hs)) && DropCrs(PrintHunks(hs)) == PrintHunks(ArrivingHunks(hs))
  {
    if hs != [] {
      HunkArrives(hs[0]);
      HunksArriveLines(hs[1..]);
      DropAppend(PrintHunk(hs[0]), PrintHunks(hs[1..]));
      assert ArrivingHunks(hs)[1..] == ArrivingHunks(hs[1..]);
    }
  }

  lemma {:induction false} ParseUpdateBodyLines(path: string, hs: seq<Hunk>)
    requires GoodPath(path) && hs != [] && ReadableHunks(hs)
    ensures ParseLines([BEGIN] + ([UPDATE + path] + PrintHunks(hs)) + [END]) == Ok([UpdateFile(path, None, hs)])
  {
    var a := UpdateFile(path, None, hs);
    var body := [UPDATE + path] + PrintHunks(hs);
    UpdateBodyLines(path, None, hs);
    assert [] + PrintHunks(hs) == PrintHunks(hs);
    UpdatePrinted(path, None, hs);
    ParseDocument(body);
    assert ScanAll(body) + [] == ScanAll(body);
    ParseFirstAction(ScanAll(body), a, [], []);
    assert [] + [a] == [a];
  }

  lemma {:induction false} BodyArrives(path: string, hs: seq<Hunk>)
    requires GoodPath(path) && AllPlain(hs)
    ensures var body := [UPDATE + path] + PrintHunks(hs);
            AreLines(body) && DropCrs(body) == [UPDATE + path] + PrintHunks(ArrivingHunks(hs))
  {
    var body := [UPDATE + path] + PrintHunks(hs);
    HeaderGood(UPDATE, path);
    HunksArriveLines(hs);
    DropAppend([UPDATE + path], PrintHunks(hs));
    assert DropCrs([UPDATE + path]) == [UPDATE + path];
    forall i | 0 <= i < |body| ensures IsLine(body[i]) {
      assert i > 0 ==> body[i] == PrintHunks(hs)[i - 1];
    }
  }

  lemma {:induction false} UpdateBody(path: string, hs: seq<Hunk>)
    ensures Print([UpdateFile(path, None, hs)]) == Join([BEGIN] + ([UPDATE + path] + PrintHunks(hs)) + [END])
  {
    UpdateDocument(path, hs);
    TwoFirst(BEGIN, UPDATE + path, PrintHunks(hs), END);
  }

  /** The update a compiled request parses to. */
  lemma HunksArrive(path: string, hs: seq<Hunk>)
    requires GoodPath(path) && hs != [] && AllPlain(hs)
    ensures Parse(Print([UpdateFile(path, None, hs)])) == Ok([UpdateFile(path, None, ArrivingHunks(hs))])
  {
    UpdateBody(path, hs);
    BodyArrives(path, hs);
    DocumentLines([UPDATE + path] + PrintHunks(hs));
    ParseUpdateBodyLines(path, ArrivingHunks(hs));
  }
}
