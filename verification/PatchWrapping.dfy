/** What around a patch does not matter: blanks around its headers and markers, and the words a
    shell would want around it to read it from a here-document. */
module PatchWrapping {
  import opened Options
  import opened Text
  import opened PatchSyntax
  import opened PatchRoundTrip
  import opened HunkMeaning

  /** A header, a destination, a hunk's title and the end-of-file marker are the same with blanks
      around them. */
  lemma BlanksAround(u: string, l: string, x: string)
    requires Blank(u) && Blank(x)
    ensures var a, b := Scan(u + l + x), Scan(l);
            a.header == b.header && a.moveTo == b.moveTo && a.hunkContext == b.hunkContext
            && a.isEndOfFile == b.isEndOfFile && (a.trimmed == "" <==> b.trimmed == "")
  {
    TrimOf(u, l, x);
  }

  /** What each header says, its text trimmed. */
  lemma HeaderMeaning(path: string)
    requires Trimmed(path) && path != ""
    ensures Scan("*** Add File: " + path).header == AddHeader(path)
    ensures Scan("*** Delete File: " + path).header == DeleteHeader(path)
    ensures Scan("*** Update File: " + path).header == UpdateHeader(path)
    ensures Scan("*** Environment ID: " + path).header == EnvironmentHeader(path)
    ensures Scan("*** Move to: " + path).moveTo == Some(path)
  {
    OneHeader(ADD, path);
    OneHeader(DELETE, path);
    OneHeader(UPDATE, path);
    OneHeader(ENVIRONMENT, path);
    OneHeader(MOVE, path);
    MarkersDiffer(ADD, path);
    MarkersDiffer(DELETE, path);
    MarkersDiffer(UPDATE, path);
  }

  lemma OneHeader(marker: string, path: string)
    requires Trimmed(path) && path != "" && marker != "" && !IsSpace(marker[0])
    ensures Trim(marker + path) == marker + path && StartsWith(marker + path, marker)
    ensures (marker + path)[|marker|..] == path
  {
    TrimYieldsTrimmed(marker + path);
  }

  // ------------------------------------------------------------------- here-documents

  /** A text whose first line begins, and whose last line ends, with something visible. */
  predicate FramedByText(doc: seq<string>) {
    && doc != [] && AreLines(doc)
    && doc[0] != "" && !IsSpace(doc[0][0])
    && doc[|doc| - 1] != "" && !IsSpace(doc[|doc| - 1][|doc[|doc| - 1]| - 1])
  }

  lemma {:induction false} FramedClean(doc: seq<string>)
    requires FramedByText(doc)
    ensures FramedByText(DropCrs(doc))
    ensures NormalizeEol(Join(doc)) == Join(DropCrs(doc))
  {
    var n := |doc| - 1;
    assert DropCr(doc[n]) == doc[n];
    assert DropCr(doc[0]) != "" && DropCr(doc[0])[0] == doc[0][0];
    NormalizeJoin(doc);
    assert DropCrs(doc[..n]) + [doc[n]] == DropCrs(doc);
    forall i | 0 <= i < |doc| ensures IsLine(DropCr(doc[i])) {
      assert IsLine(doc[i]);
    }
  }

  lemma {:induction false} FramedTrim(doc: seq<string>)
    requires FramedByText(doc)
    ensures Trim(Join(doc)) == Join(doc)
  {
    var n := |doc| - 1;
    assert doc == [doc[0]] + doc[1..] && doc == doc[..n] + [doc[n]];
    JoinStarts(doc[0], doc[1..]);
    JoinEnds(doc[..n], doc[n]);
    TrimYieldsTrimmed(Join(doc));
  }

  lemma {:induction false} LinesArrive(doc: seq<string>)
    requires FramedByText(doc)
    ensures Split(Trim(NormalizeEol(Join(doc)))) == DropCrs(doc)
  {
    FramedClean(doc);
    FramedTrim(DropCrs(doc));
    SplitJoin(DropCrs(doc));
  }

  lemma WrapperMeaning(lines: seq<string>)
    requires lines != []
    ensures WithoutWrapper(lines) ==
            if |lines| >= 4 && OpensHereDocument(Trim(lines[0])) && ClosesHereDocument(Trim(lines[|lines| - 1]))
            then lines[1..|lines| - 1] else lines
  {
  }

  /** The lines a patch text comes to: each less one trailing CR, and the first and the last left
      out exactly when they open and close a here-document around at least two lines. */
  lemma {:induction false} PatchLinesMeaning(doc: seq<string>)
    requires FramedByText(doc)
    ensures var lines := DropCrs(doc);
            PatchLines(Join(doc)) ==
            if |lines| >= 4 && OpensHereDocument(Trim(lines[0])) && ClosesHereDocument(Trim(lines[|lines| - 1]))
            then lines[1..|lines| - 1] else lines
  {
    LinesArrive(doc);
    WrapperMeaning(DropCrs(doc));
  }

  lemma {:induction false} WrappedFramed(opener: string, doc: seq<string>)
    requires OpensHereDocument(opener) && AreLines(doc)
    ensures FramedByText([opener] + doc + ["EOF"])
  {
    var wrapped := [opener] + doc + ["EOF"];
    forall i | 0 <= i < |wrapped| ensures IsLine(wrapped[i]) {
      assert 0 < i < |wrapped| - 1 ==> wrapped[i] == doc[i - 1];
    }
  }

  lemma {:induction false} Unwrapped(opener: string, body: seq<string>)
    requires OpensHereDocument(opener) && |body| >= 2
    ensures WithoutWrapper([opener] + body + ["EOF"]) == body
  {
    TrimYieldsTrimmed(opener);
    TrimYieldsTrimmed("EOF");
    var lines := [opener] + body + ["EOF"];
    assert lines[|lines| - 1] == "EOF" && lines[1..|lines| - 1] == body;
  }

  lemma {:induction false} WrappedLines(opener: string, doc: seq<string>)
    requires OpensHereDocument(opener) && AreLines(doc) && |doc| >= 2
    ensures PatchLines(Join([opener] + doc + ["EOF"])) == DropCrs(doc)
  {
    WrappedFramed(opener, doc);
    LinesArrive([opener] + doc + ["EOF"]);
    DropCrsWrapped(opener, doc, "EOF");
    Unwrapped(opener, DropCrs(doc));
  }

  lemma {:induction false} DropCrsWrapped(first: string, doc: seq<string>, last: string)
    requires !EndsWith(first, '\r') && !EndsWith(last, '\r')
    ensures DropCrs([first] + doc + [last]) == [first] + DropCrs(doc) + [last]
  {
    var ls := [first] + doc + [last];
    forall i | 0 <= i < |ls| ensures DropCrs(ls)[i] == ([first] + DropCrs(doc) + [last])[i] {
      assert 0 < i < |ls| - 1 ==> ls[i] == doc[i - 1];
    }
  }

  /** A patch in a here-document, quoted or not, means what it means without it. */
  lemma {:induction false} HereDocument(opener: string, doc: seq<string>)
    requires OpensHereDocument(opener) && FramedByText(doc) && |doc| >= 2 && !OpensHereDocument(Trim(DropCr(doc[0])))
    ensures Parse(Join([opener] + doc + ["EOF"])) == Parse(Join(doc))
  {
    WrappedLines(opener, doc);
    PatchLinesMeaning(doc);
  }

  /** So a printed patch can be passed on in a here-document. */
  lemma {:induction false} PrintedHereDocument(opener: string, actions: seq<Action>)
    requires OpensHereDocument(opener) && actions != [] && GoodActions(actions)
    ensures Parse(opener + "\n" + Print(actions) + "\nEOF") == Ok(actions)
  {
    var doc := PatchDocument(actions);
    PrintThenParse(actions);
    PrintedFramed(actions);
    TrimYieldsTrimmed(BEGIN);
    assert DropCr(BEGIN) == BEGIN && BEGIN[0] == '*';
    HereDocument(opener, doc);
    JoinWrapped(opener, doc);
  }

  lemma {:induction false} PrintedFramed(actions: seq<Action>)
    requires GoodActions(actions)
    ensures FramedByText(PatchDocument(actions)) && |PatchDocument(actions)| >= 2
    ensures PatchDocument(actions)[0] == BEGIN
  {
    ActionsPrintGood(actions);
    GoodLinesKept(PrintActions(actions));
    FramedDocument(PrintActions(actions));
  }

  lemma FramedDocument(body: seq<string>)
    requires AreLines(body)
    ensures FramedByText([BEGIN] + body + [END])
  {
    var doc := [BEGIN] + body + [END];
    assert doc[|doc| - 1] == END && IsLine(BEGIN) && IsLine(END);
    forall i | 0 <= i < |doc| ensures IsLine(doc[i]) {
      assert 0 < i < |doc| - 1 ==> doc[i] == body[i - 1];
    }
  }

  lemma {:induction false} JoinWrapped(opener: string, doc: seq<string>)
    requires doc != []
    ensures Join([opener] + doc + ["EOF"]) == opener + "\n" + Join(doc) + "\nEOF"
  {
    assert [opener] + doc + ["EOF"] == [opener] + (doc + ["EOF"]);
    JoinFirst(opener, doc + ["EOF"]);
    JoinLast(doc, "EOF");
  }

  lemma {:induction false} JoinLast(doc: seq<string>, last: string)
    requires doc != []
    ensures Join(doc + [last]) == Join(doc) + "\n" + last
  {
    if |doc| == 1 {
      JoinFirst(doc[0], [last]);
      assert doc + [last] == [doc[0]] + [last];
    } else {
      JoinLast(doc[1..], last);
      assert doc + [last] == [doc[0]] + (doc[1..] + [last]) && doc == [doc[0]] + doc[1..];
      JoinFirst(doc[0], doc[1..] + [last]);
      JoinFirst(doc[0], doc[1..]);
    }
  }
}
