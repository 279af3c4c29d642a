/** What an accepted edit request asks for, and what the patch it compiles to arrives as. */
module EditRequests {
  import opened Options
  import opened Text
  import opened PatchSyntax
  import opened PatchRoundTrip
  import opened PatchNormalForm
  import opened PatchEngine
  import opened LegacyWrites
  import opened EditArrival
  import opened EditMeaning
  import opened EditLanding
  import opened EditAcceptance
  import opened EditGroups

  /** What a legacy edit call comes to: compile the request, parse the patch, apply it. */
  function ApplyEdits(path: string, edits: seq<Edit>, original: string): Option<string> {
    match EditPatch(path, edits, original)
    case Refused(_) => None
    case Done(patch) =>
      match Parse(patch)
      case Err(_) => None
      case Ok(actions) =>
        if |actions| == 1 && actions[0].UpdateFile? && actions[0].path == path && actions[0].moveTo.None? then
          match ApplyText(path, original, actions[0].hunks)
          case Err(_) => None
          case Ok(text) => Some(text)
        else None
  }

  /** The text an accepted request asks for: every match replaced at once by its new text. */
  function Requested(content: string, ms: seq<Match>): string
    requires AllInText(content, ms)
  {
    Replaced(content, 0, |content|, ms)
  }

  function InStyle(text: string, crlf: bool): string {
    if crlf then LfToCrLf(text) else text
  }

  /** A request accepted for a file, with the file's normalised text and its sorted matches. */
  ghost predicate Accepted(edits: seq<Edit>, original: string, content: string, ms: seq<Match>) {
    && content == NormalizeEol(original)
    && SortedMatches(content, edits) == Done(ms)
    && AllInText(content, ms) && ms != []
  }

  /** The text obtained is the one asked for, with a final newline, in the file's own style. */
  ghost predicate Preserved(path: string, edits: seq<Edit>, original: string, content: string, ms: seq<Match>)
    requires Accepted(edits, original, content, ms)
  {
    ApplyEdits(path, edits, original) == Some(InStyle(EnsureFinal(Requested(content, ms)), HasCrLf(original)))
  }

  // ------------------------------------------------------ compile and parse

  lemma CompiledPatch(path: string, edits: seq<Edit>, original: string, content: string, ms: seq<Match>)
    requires Accepted(edits, original, content, ms)
    ensures EditHunks(content, ms) != []
    ensures EditPatch(path, edits, original) == Done(Print([UpdateFile(path, None, EditHunks(content, ms))]))
  {
    AcceptedMatches(content, edits);
    GroupsOfMatches(content, ms);
  }

  lemma PlainLines(o: seq<string>, n: seq<string>)
    requires o != [] && AreLines(o) && AreLines(n)
    ensures Plain(Hunk(OfKind(Remove, o) + OfKind(Add, n), None, false))
  {
    var ls := OfKind(Remove, o) + OfKind(Add, n);
    forall i | 0 <= i < |ls| ensures !ls[i].kind.Context? && IsLine(ls[i].text) {
      assert i >= |o| ==> ls[i] == HunkLine(Add, n[i - |o|]);
    }
  }

  lemma EditHunksPlain(content: string, ms: seq<Match>)
    requires AllInText(content, ms)
    ensures AllPlain(EditHunks(content, ms))
  {
    GroupFromInGroup(content, [], ms);
    var groups := GroupFrom(content, [], ms);
    forall k | 0 <= k < |groups| ensures Plain(GroupHunk(content, groups[k])) {
      assert InGroup(content, groups[k]);
      GroupLines(content, groups[k]);
      PlainLines(GroupOldLines(content, groups[k]), GroupNewLines(content, groups[k]));
    }
  }

  /** Every accepted request, CRs or not: its hunks are applied, each line less one trailing CR. */
  lemma RequestsArrive(path: string, edits: seq<Edit>, original: string, content: string, ms: seq<Match>)
    requires GoodPath(path) && Accepted(edits, original, content, ms)
    ensures ApplyEdits(path, edits, original) ==
            match ApplyText(path, original, ArrivingHunks(EditHunks(content, ms)))
            case Err(_) => None
            case Ok(text) => Some(text)
  {
    CompiledPatch(path, edits, original, content, ms);
    EditHunksPlain(content, ms);
    HunksArrive(path, EditHunks(content, ms));
  }

  // ------------------------------------------------------ lines that keep their CRs

  /** No line of any hunk ends in a CR. */
  ghost predicate HunksSurvive(content: string, ms: seq<Match>)
    requires AllInText(content, ms)
  {
    GroupFromInGroup(content, [], ms);
    var groups := GroupFrom(content, [], ms);
    OldLinesKept(content, groups) && NewLinesKept(content, groups)
  }

  lemma GroupSurvives(content: string, g: Group)
    requires InGroup(content, g)
    ensures ArrivingHunk(GroupHunk(content, g)) == GroupHunk(content, g) <==>
            NoCrEnds(GroupOldLines(content, g)) && NoCrEnds(GroupNewLines(content, g))
  {
    var o, n := GroupOldLines(content, g), GroupNewLines(content, g);
    GroupArrives(content, g);
    OldLinesOf(o, n);
    NewLinesOf(o, n);
    OldLinesOf(DropCrs(o), DropCrs(n));
    NewLinesOf(DropCrs(o), DropCrs(n));
    NoCrsDropped(o);
    NoCrsDropped(n);
  }

  lemma GroupsSurvive(content: string, groups: seq<Group>)
    requires AllInGroup(content, groups)
    ensures ArrivingHunks(GroupHunks(content, groups)) == GroupHunks(content, groups) <==>
            OldLinesKept(content, groups) && NewLinesKept(content, groups)
  {
    var hs := GroupHunks(content, groups);
    forall k | 0 <= k < |hs|
      ensures ArrivingHunks(hs)[k] == hs[k] <==>
              NoCrEnds(GroupOldLines(content, groups[k])) && NoCrEnds(GroupNewLines(content, groups[k]))
    {
      GroupSurvives(content, groups[k]);
    }
  }

  /** Compiling to patch text and parsing it back is invisible if and only if no line of any
      hunk ends in a CR. */
  lemma CompiledHunks(path: string, edits: seq<Edit>, original: string, content: string, ms: seq<Match>)
    requires GoodPath(path) && Accepted(edits, original, content, ms)
    ensures EditPatch(path, edits, original).Done?
    ensures Parse(EditPatch(path, edits, original).value) == Ok([UpdateFile(path, None, EditHunks(content, ms))]) <==>
            HunksSurvive(content, ms)
  {
    CompiledPatch(path, edits, original, content, ms);
    EditHunksPlain(content, ms);
    HunksArrive(path, EditHunks(content, ms));
    GroupFromInGroup(content, [], ms);
    GroupsSurvive(content, GroupFrom(content, [], ms));
  }

  lemma {:induction false} ReplacedCrFree(content: string, from: nat, to: nat, ms: seq<Match>)
    requires to <= |content| && AllEndBy(content, ms, to)
    requires '\r' !in content && forall i | 0 <= i < |ms| :: '\r' !in ms[i].newText
    ensures '\r' !in Replaced(content, from, to, ms)
    decreases |ms|
  {
    if ms != [] {
      assert InText(content, ms[0]);
      ReplacedCrFree(content, ms[0].end, to, ms[1..]);
    }
  }

  lemma GroupCrFree(content: string, g: Group)
    requires InGroup(content, g)
    requires '\r' !in content && forall i | 0 <= i < |g.members| :: '\r' !in g.members[i].newText
    ensures NoCrEnds(GroupOldLines(content, g)) && NoCrEnds(GroupNewLines(content, g))
  {
    ReplacedCrFree(content, g.lineStart, g.lineEnd, g.members);
    SplitCrFree(Strip(Before(content, g)));
    SplitCrFree(Strip(After(content, g)));
  }

  /** A text free of CRs compiles to hunks that survive. */
  lemma CrFreeSurvives(content: string, ms: seq<Match>)
    requires Ordered(content, ms, 0) && ms != []
    requires '\r' !in content && forall i | 0 <= i < |ms| :: '\r' !in ms[i].newText
    ensures HunksSurvive(content, ms)
  {
    GroupsOfMatches(content, ms);
    var groups := GroupFrom(content, [], ms);
    forall k | 0 <= k < |groups|
      ensures NoCrEnds(GroupOldLines(content, groups[k])) && NoCrEnds(GroupNewLines(content, groups[k]))
    {
      forall i | 0 <= i < |groups[k].members| ensures '\r' !in groups[k].members[i].newText {
        MemberOfGroup(groups, k, groups[k].members[i]);
      }
      assert InGroup(content, groups[k]);
      GroupCrFree(content, groups[k]);
    }
  }
}
