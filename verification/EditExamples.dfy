/** Requests the edit contract accepts, and what they come to: newlines and CRs that are gained or
    lost, and a hunk that lands on another line. */
module EditExamples {
  import opened Options
  import opened Text
  import opened PatchSyntax
  import opened PatchRoundTrip
  import opened PatchNormalForm
  import opened PatchEngine
  import opened LegacyWrites
  import opened EditArrival
  import opened EditMeaning
  import opened EditLanding
  import opened EditAcceptance
  import opened EditGroups
  import opened EditRequests
  import opened EditCorrectness

  /** An edit whose texts have no CR LF, and whose old text occurs once. */
  ghost predicate Acceptable(content: string, edit: Edit, start: nat) {
    && NormalizeEol(edit.oldText) == edit.oldText && NormalizeEol(edit.newText) == edit.newText
    && edit.oldText != "" && OccursOnlyAt(content, edit.oldText, start)
  }

  lemma {:induction false} AcceptMatch(original: string, content: string, edit: Edit, start: nat)
    requires content == NormalizeEol(original) && Acceptable(content, edit, start)
    ensures var ms := [Match(0, start, start + |edit.oldText|, edit.newText)];
            Accepted([edit], original, content, ms) && Ordered(content, ms, 0)
  {
    var edits, ms := [edit], [Match(0, start, start + |edit.oldText|, edit.newText)];
    FindMatchMeaning(content, edit, 0);
    assert OccursOnce(content, edit);
    assert FindMatches(content, edits, 1) == Done([]);
    assert [ms[0]] + [] == ms && ms[1..] == [];
    assert SortByStart(ms[1..]) == [];
    AcceptedMatches(content, edits);
  }

  // --------------------------------------------------- newlines gained and lost

  /** A text whose first character occurs only once in the file occurs only there. */
  predicate OnlyFirstAt(s: string, t: string, i: nat) {
    t != "" && OccursAt(s, t, i) && forall j | 0 <= j < |s| && s[j] == t[0] :: j == i
  }

  lemma OnlyFirst(s: string, t: string, i: nat)
    requires OnlyFirstAt(s, t, i)
    ensures OccursOnlyAt(s, t, i)
  {
    forall j: nat | OccursAt(s, t, j) ensures j == i {
      assert s[j..j + |t|][0] == s[j];
    }
  }

  lemma AcceptCrFree(content: string, edit: Edit, start: nat)
    requires '\r' !in content && '\r' !in edit.oldText && '\r' !in edit.newText
    requires OnlyFirstAt(content, edit.oldText, start)
    ensures Accepted([edit], content, content, [Match(0, start, start + |edit.oldText|, edit.newText)])
  {
    NormalizeCrFree(content);
    NormalizeCrFree(edit.oldText);
    NormalizeCrFree(edit.newText);
    OnlyFirst(content, edit.oldText, start);
    AcceptMatch(content, content, edit, start);
  }

  /** One edit of a CR-free file that does not keep the newline of its lines. */
  lemma NewlineNotKept(content: string, edit: Edit, m: Match, lineStart: nat, lineEnd: nat, before: string, after: string)
    requires '\r' !in content && '\r' !in edit.oldText && '\r' !in edit.newText && content != "\n"
    requires OnlyFirstAt(content, edit.oldText, m.start)
    requires m == Match(0, m.start, m.start + |edit.oldText|, edit.newText)
    requires OnLines(content, m, lineStart, lineEnd) && !StartsOnFirstNewline(content, m)
    requires content[..m.start] + m.newText + content[m.end..] != ""
    requires before == content[lineStart..lineEnd]
    requires after == content[lineStart..m.start] + m.newText + content[m.end..lineEnd]
    requires !KeepsNewline(before, after, lineEnd == |content|)
    ensures Accepted([edit], content, content, [m]) && !Preserved("f", [edit], content, content, [m])
  {
    AcceptCrFree(content, edit, m.start);
    SplitCrFree(Strip(before));
    OneEditMeaning("f", edit, content, content, m, lineStart, lineEnd);
  }

  /** Replacing "a\n" by "X" in "a\n\nb\n" keeps the newline that was to go. */
  lemma NewlineGained()
    ensures var content, m := "a\n\nb\n", Match(0, 0, 2, "X");
            Accepted([Edit("a\n", "X")], content, content, [m])
            && !Preserved("f", [Edit("a\n", "X")], content, content, [m])
  {
    var content := "a\n\nb\n";
    assert content[0..2] == "a\n" && "" + "X" + "" == "X";
    NewlineNotKept(content, Edit("a\n", "X"), Match(0, 0, 2, "X"), 0, 2, "a\n", "X");
  }

  /** Replacing "a" by "X\n" in "a\nb\n" loses the newline that was to come. */
  lemma NewlineLost()
    ensures var content, m := "a\nb\n", Match(0, 0, 1, "X\n");
            Accepted([Edit("a", "X\n")], content, content, [m])
            && !Preserved("f", [Edit("a", "X\n")], content, content, [m])
  {
    var content := "a\nb\n";
    assert content[0..1] == "a" && "" + "X\n" + "" == "X\n";
    NewlineNotKept(content, Edit("a", "X\n"), Match(0, 0, 1, "X\n"), 0, 1, "a", "X\n");
  }

  /** Deleting "y" at the end of "x\ny" leaves an empty line behind. */
  lemma LastLineKept()
    ensures var content, m := "x\ny", Match(0, 2, 3, "");
            Accepted([Edit("y", "")], content, content, [m])
            && !Preserved("f", [Edit("y", "")], content, content, [m])
  {
    var content := "x\ny";
    assert content[2..3] == "y" && content[2..2] + "" + content[3..3] == "";
    NewlineNotKept(content, Edit("y", ""), Match(0, 2, 3, ""), 2, 3, "y", "");
  }

  // ------------------------------------------------------- lines that end in a CR

  const CR_FILE := "a\r\r\n"
  const CR_TEXT := "a\r\n"
  const TWO_FILE := "a\na\r\r\n"
  const TWO_TEXT := "a\na\r\n"

  lemma CrText()
    ensures NormalizeEol(CR_FILE) == CR_TEXT && HasCrLf(CR_FILE)
  {
    NormalizeFirst("a\r\r", "");
    assert "a\r\r" + ("\n" + "") == CR_FILE && "a\r" + ("\n" + NormalizeEol("")) == CR_TEXT;
    assert CR_FILE[2] == '\r' && CR_FILE[3] == '\n';
  }

  lemma TwoNormalized()
    ensures NormalizeEol(TWO_FILE) == TWO_TEXT && HasCrLf(TWO_FILE)
  {
    CrText();
    NormalizeFirst("a", CR_FILE);
    assert "a" + ("\n" + CR_FILE) == TWO_FILE && "a" + ("\n" + CR_TEXT) == TWO_TEXT;
    assert TWO_FILE[4] == '\r' && TWO_FILE[5] == '\n';
  }

  /** An edit of a line into "b" is one the contract can accept. */
  lemma LineEdit(content: string, oldText: string, start: nat)
    requires IsLine(oldText) && oldText != "" && OccursOnlyAt(content, oldText, start)
    ensures Acceptable(content, Edit(oldText, "b"), start)
  {
    NormalizeLine(oldText);
    NormalizeLine("b");
  }

  /** The one line of the file is found although its CR is lost. */
  lemma CrLineLands()
    ensures LandsAt(ContentLines(EnsureFinal(CR_TEXT)), Split(Strip("a\r")), 0)
  {
    SplitLine("a\r");
    assert Strip(EnsureFinal(CR_TEXT)) == "a\r" && Strip("a\r") == "a\r";
    var rest, o := ["a\r"], ["a\r"];
    forall i: nat | i + 1 <= |rest| ensures !MatchesAt(rest, DropCrs(o), i, Exact) {
      assert Fold(Exact, rest[i + 0]) != Fold(Exact, DropCrs(o)[0]);
    }
  }

  lemma CrOnlyThere(oldText: string)
    requires oldText == "a" || oldText == "a\r"
    ensures OccursOnlyAt(CR_TEXT, oldText, 0)
  {
    OnlyFirst(CR_TEXT, oldText, 0);
  }

  lemma CrAccepted(oldText: string)
    requires oldText == "a" || oldText == "a\r"
    ensures Accepted([Edit(oldText, "b")], CR_FILE, CR_TEXT, [Match(0, 0, |oldText|, "b")])
  {
    CrText();
    CrOnlyThere(oldText);
    LineEdit(CR_TEXT, oldText, 0);
    AcceptMatch(CR_FILE, CR_TEXT, Edit(oldText, "b"), 0);
  }

  lemma OneLineFile(content: string, m: Match, before: string, after: string)
    requires content == before + "\n" && IsLine(before) && m.start < m.end <= |before|
    requires after == before[..m.start] + m.newText + before[m.end..] && IsLine(after) && after != ""
    ensures OnLines(content, m, 0, |before|) && !StartsOnFirstNewline(content, m) && EnsureFinal(content) == content
    ensures content[0..|before|] == before && content[..0] == "" && !EndsWith(before, '\n')
    ensures Slice(content, 0, m.start) + m.newText + content[m.end..|before|] == after
    ensures content[..m.start] + m.newText + content[m.end..] == after + "\n"
  {
    assert forall i | 0 <= i < |before| :: before[i] in before && content[i] == before[i];
    assert content[m.end..] == before[m.end..] + "\n" && content[m.end..|before|] == before[m.end..];
    assert before[|before| - 1] in before;
  }

  /** One edit inside the only line of a file. */
  lemma OneLineMeaning(edit: Edit, original: string, content: string, m: Match, before: string, after: string)
    requires Accepted([edit], original, content, [m]) && content == before + "\n" && IsLine(before) && m.start < m.end <= |before|
    requires after == before[..m.start] + m.newText + before[m.end..] && IsLine(after) && after != ""
    requires LandsAt(ContentLines(EnsureFinal(content)), Split(Strip(before)), 0)
    ensures Preserved("f", [edit], original, content, [m]) <==> !EndsWith(after, '\r')
  {
    OneLineFile(content, m, before, after);
    assert after[|after| - 1] in after;
    SplitLine(after);
    assert NoCrEnds([after]) <==> !EndsWith([after][0], '\r');
    OneEditMeaning("f", edit, original, content, m, 0, |before|);
  }

  lemma CrMeaning(edit: Edit, m: Match, after: string)
    requires Accepted([edit], CR_FILE, CR_TEXT, [m]) && m.start == 0 < m.end <= 2
    requires after == m.newText + "a\r"[m.end..] && IsLine(after) && after != ""
    ensures Preserved("f", [edit], CR_FILE, CR_TEXT, [m]) <==> !EndsWith(after, '\r')
  {
    CrLineLands();
    assert CR_TEXT == "a\r" + "\n" && "a\r"[..0] + m.newText == m.newText;
    OneLineMeaning(edit, CR_FILE, CR_TEXT, m, "a\r", after);
  }

  /** Replacing "a" by "b" in a file whose line ends in two CRs and a LF loses one of the CRs. */
  lemma CrLost()
    ensures var m := Match(0, 0, 1, "b");
            Accepted([Edit("a", "b")], CR_FILE, CR_TEXT, [m])
            && !Preserved("f", [Edit("a", "b")], CR_FILE, CR_TEXT, [m])
  {
    CrAccepted("a");
    assert "b" + "a\r"[1..] == "b\r";
    CrMeaning(Edit("a", "b"), Match(0, 0, 1, "b"), "b\r");
  }

  lemma CrRemoved(m: Match)
    requires m == Match(0, 0, 2, "b")
    ensures AllInText(CR_TEXT, [m]) && !HunksSurvive(CR_TEXT, [m])
  {
    var g := Group(0, 2, [m]);
    OneMatchGroup(CR_TEXT, m, 0, 2);
    assert Before(CR_TEXT, g) == "a\r";
    SplitLine("a\r");
    var groups := GroupFrom(CR_TEXT, [], [m]);
    assert groups[0] == g && EndsWith(GroupOldLines(CR_TEXT, groups[0])[0], '\r');
    assert !NoCrEnds(GroupOldLines(CR_TEXT, groups[0]));
  }

  /** Replacing the CR as well does what is asked for, although a removed line ends in a CR. */
  lemma CrReplaced()
    ensures var m := Match(0, 0, 2, "b");
            && Accepted([Edit("a\r", "b")], CR_FILE, CR_TEXT, [m]) && !HunksSurvive(CR_TEXT, [m])
            && Preserved("f", [Edit("a\r", "b")], CR_FILE, CR_TEXT, [m])
  {
    CrAccepted("a\r");
    CrRemoved(Match(0, 0, 2, "b"));
    assert "b" + "a\r"[2..] == "b";
    CrMeaning(Edit("a\r", "b"), Match(0, 0, 2, "b"), "b");
  }

  const ARRIVED_HUNK := Hunk([HunkLine(Remove, "a"), HunkLine(Add, "b")], None, false)

  lemma TwoOnlyThere()
    ensures OccursOnlyAt(TWO_TEXT, "a\r", 2)
  {
    forall j: nat | OccursAt(TWO_TEXT, "a\r", j) ensures j == 2 {
      assert TWO_TEXT[j..j + 2][0] == TWO_TEXT[j] && TWO_TEXT[j..j + 2][1] == TWO_TEXT[j + 1];
    }
    assert TWO_TEXT[2..4] == "a\r";
  }

  lemma TwoAccepted(m: Match)
    requires m == Match(0, 2, 4, "b")
    ensures Accepted([Edit("a\r", "b")], TWO_FILE, TWO_TEXT, [m])
  {
    TwoNormalized();
    TwoOnlyThere();
    LineEdit(TWO_TEXT, "a\r", 2);
    AcceptMatch(TWO_FILE, TWO_TEXT, Edit("a\r", "b"), 2);
  }

  lemma OneLineArrives(content: string, g: Group, before: string, after: string)
    requires InGroup(content, g) && Before(content, g) == before && After(content, g) == after
    requires IsLine(before) && IsLine(after) && !EndsWith(before, '\n') && !EndsWith(after, '\n')
    ensures ArrivingHunk(GroupHunk(content, g)) ==
            Hunk(OfKind(Remove, [DropCr(before)]) + OfKind(Add, [DropCr(after)]), None, false)
  {
    SplitLine(before);
    SplitLine(after);
    GroupArrives(content, g);
    assert DropCrs([before]) == [DropCr(before)] && DropCrs([after]) == [DropCr(after)];
  }

  lemma {:induction false} OneHunk(content: string, m: Match, g: Group, hunk: Hunk)
    requires AllInText(content, [m]) && GroupFrom(content, [], [m]) == [g]
    requires InGroup(content, g) && ArrivingHunk(GroupHunk(content, g)) == hunk
    ensures ArrivingHunks(EditHunks(content, [m])) == [hunk]
  {
  }

  /** The hunk of one match on one line, as it arrives. */
  lemma OneHunkArrives(content: string, m: Match, lineStart: nat, lineEnd: nat, before: string, after: string)
    requires OnLines(content, m, lineStart, lineEnd) && !StartsOnFirstNewline(content, m)
    requires before == content[lineStart..lineEnd] && IsLine(before) && !EndsWith(before, '\n')
    requires after == content[lineStart..m.start] + m.newText + content[m.end..lineEnd]
    requires IsLine(after) && !EndsWith(after, '\n')
    ensures AllInText(content, [m])
    ensures ArrivingHunks(EditHunks(content, [m])) ==
            [Hunk(OfKind(Remove, [DropCr(before)]) + OfKind(Add, [DropCr(after)]), None, false)]
  {
    var g := Group(lineStart, lineEnd, [m]);
    OneMatchGroup(content, m, lineStart, lineEnd);
    OneLineArrives(content, g, before, after);
    OneHunk(content, m, g, ArrivingHunk(GroupHunk(content, g)));
  }

  lemma TwoHunks(m: Match)
    requires m == Match(0, 2, 4, "b")
    ensures AllInText(TWO_TEXT, [m]) && ArrivingHunks(EditHunks(TWO_TEXT, [m])) == [ARRIVED_HUNK]
  {
    assert TWO_TEXT[2..4] == "a\r" && TWO_TEXT[2..2] == "" && TWO_TEXT[4..4] == "" && "" + "b" + "" == "b";
    OneHunkArrives(TWO_TEXT, m, 2, 4, "a\r", "b");
    assert DropCr("a\r") == "a" && DropCr("b") == "b";
    assert OfKind(Remove, ["a"]) + OfKind(Add, ["b"]) == ARRIVED_HUNK.lines;
  }

  lemma TwoRequested(m: Match)
    requires m == Match(0, 2, 4, "b")
    ensures AllInText(TWO_TEXT, [m]) && Requested(TWO_TEXT, [m]) == "a\nb\n"
  {
    assert TWO_TEXT[..2] == "a\n" && TWO_TEXT[4..] == "\n" && "a\n" + "b" + "\n" == "a\nb\n";
    OneMatchGroup(TWO_TEXT, m, 2, 4);
  }

  lemma TwoApplied()
    ensures ApplyLines("f", Edited(["a", "a\r"], 0), [ARRIVED_HUNK]) == Ok(Edited(["b", "a\r"], 1))
  {
    var hay := ["a", "a\r"];
    OldLinesOf(["a"], ["b"]);
    NewLinesOf(["a"], ["b"]);
    assert OfKind(Remove, ["a"]) + OfKind(Add, ["b"]) == ARRIVED_HUNK.lines;
    assert MatchesAt(hay, ["a"], 0, Exact);
    FirstMatchIs(hay, ["a"], 0, 0);
    assert hay[..0] + ["b"] + hay[1..] == ["b", "a\r"];
    ApplyLinesCons("f", Edited(hay, 0), [ARRIVED_HUNK], Edited(["b", "a\r"], 1));
    assert [ARRIVED_HUNK][1..] == [];
  }

  lemma TwoLines()
    ensures Split(Strip(TWO_TEXT)) == ["a", "a\r"] && Unlines(["b", "a\r"]) == "b\na\r\n"
  {
    assert Strip(TWO_TEXT) == "a" + "\n" + "a\r";
    SplitFirst("a", "a\r");
    SplitLine("a\r");
    assert ["b", "a\r"][1..] == ["a\r"] && ["a\r"][1..] == [];
    assert "b" + "\n" + ("a\r" + "\n" + "") == "b\na\r\n";
  }

  lemma TwoText()
    ensures ApplyText("f", TWO_FILE, [ARRIVED_HUNK]) == Ok(InStyle("b\na\r\n", true))
  {
    TwoNormalized();
    TwoApplied();
    TwoLines();
    ApplyTextIs("f", TWO_FILE, [ARRIVED_HUNK], Edited(["b", "a\r"], 1));
  }

  lemma OneHunkOutcome(edits: seq<Edit>, original: string, content: string, ms: seq<Match>, hunk: Hunk, text: string)
    requires Accepted(edits, original, content, ms) && ArrivingHunks(EditHunks(content, ms)) == [hunk]
    requires ApplyText("f", original, [hunk]) == Ok(text)
    ensures ApplyEdits("f", edits, original) == Some(text)
  {
    RequestsArrive("f", edits, original, content, ms);
  }

  lemma TwoDiffer()
    ensures HasCrLf(TWO_FILE) && InStyle("b\na\r\n", true) != InStyle(EnsureFinal("a\nb\n"), true)
  {
    TwoNormalized();
    SameInStyle("b\na\r\n", EnsureFinal("a\nb\n"), true);
  }

  /** Replacing the only "a" and CR in a file whose first line is "a": without its CR the line
      removed is that first line, and so the wrong line is edited. */
  lemma WrongLine()
    ensures var m := Match(0, 2, 4, "b");
            && Accepted([Edit("a\r", "b")], TWO_FILE, TWO_TEXT, [m]) && Requested(TWO_TEXT, [m]) == "a\nb\n"
            && ApplyEdits("f", [Edit("a\r", "b")], TWO_FILE) == Some(InStyle("b\na\r\n", true))
            && !Preserved("f", [Edit("a\r", "b")], TWO_FILE, TWO_TEXT, [m])
  {
    var m := Match(0, 2, 4, "b");
    TwoAccepted(m);
    TwoHunks(m);
    TwoRequested(m);
    TwoText();
    OneHunkOutcome([Edit("a\r", "b")], TWO_FILE, TWO_TEXT, [m], ARRIVED_HUNK, InStyle("b\na\r\n", true));
    TwoDiffer();
  }
}
