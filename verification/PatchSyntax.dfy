/** Patch actions, their textual form, and the grammar the parser implements. */
module PatchSyntax {
  import opened Options
  import opened Text

  datatype LineKind = Context | Add | Remove
  datatype HunkLine = HunkLine(kind: LineKind, text: string)
  datatype Hunk = Hunk(lines: seq<HunkLine>, changeContext: Option<string>, endOfFile: bool)

  datatype Action =
    | AddFile(path: string, content: string)
    | DeleteFile(path: string)
    | UpdateFile(path: string, moveTo: Option<string>, hunks: seq<Hunk>)

  datatype PatchError =
    | MissingBegin
    | MissingEnd
    | NoActions
    | EmptyEnvironmentId
    | UnknownHeader(header: string)
    | AddLineWithoutPlus(line: string)
    | AddWithoutContent(path: string)
    | UpdateWithoutHunks(path: string)
    | MarkerWithoutHunk(path: string)
    | EmptyHunk(path: string)
    | BadHunkLine(line: string)
    | ContextNotFound(path: string)
    | FileMissing(path: string)
    | Unreadable(path: string)
    | BadPath(path: string)

  datatype Result<+T> = Ok(value: T) | Err(error: PatchError) {
    predicate IsFailure() {
      Err?
    }

    function PropagateFailure<U>(): Result<U>
      requires Err?
    {
      Err(error)
    }

    function Extract(): T
      requires Ok?
    {
      value
    }
  }

  const BEGIN := "*** Begin Patch"
  const END := "*** End Patch"
  const ADD := "*** Add File: "
  const DELETE := "*** Delete File: "
  const UPDATE := "*** Update File: "
  const ENVIRONMENT := "*** Environment ID: "
  const MOVE := "*** Move to: "
  const END_OF_FILE := "*** End of File"
  const NO_NEWLINE := "\\ No newline at end of file"

  // ---------------------------------------------------------------- printing

  function Prefixed(c: char, ls: seq<string>): (r: seq<string>)
    ensures |r| == |ls| && forall i | 0 <= i < |ls| :: r[i] == [c] + ls[i]
  {
    seq(|ls|, i requires 0 <= i < |ls| => [c] + ls[i])
  }

  function AddLines(content: string): seq<string> {
    (if content == "" then [] else Prefixed('+', Split(Strip(content))))
    + (if EndsWith(content, '\n') then [] else [NO_NEWLINE])
  }

  function KindChar(kind: LineKind): char {
    match kind
    case Context => ' '
    case Add => '+'
    case Remove => '-'
  }

  function HunkLines(lines: seq<HunkLine>): (r: seq<string>)
    ensures |r| == |lines|
    ensures forall i | 0 <= i < |lines| :: r[i] == [KindChar(lines[i].kind)] + lines[i].text
  {
    seq(|lines|, i requires 0 <= i < |lines| => [KindChar(lines[i].kind)] + lines[i].text)
  }

  function PrintHunk(h: Hunk): seq<string> {
    [match h.changeContext case None => "@@" case Some(c) => "@@ " + c]
    + HunkLines(h.lines)
    + (if h.endOfFile then [END_OF_FILE] else [])
  }

  function PrintHunks(hs: seq<Hunk>): seq<string> {
    if hs == [] then [] else PrintHunk(hs[0]) + PrintHunks(hs[1..])
  }

  function PrintMove(moveTo: Option<string>): seq<string> {
    match moveTo case None => [] case Some(p) => [MOVE + p]
  }

  function PrintAction(a: Action): seq<string> {
    match a
    case AddFile(path, content) => [ADD + path] + AddLines(content)
    case DeleteFile(path) => [DELETE + path]
    case UpdateFile(path, moveTo, hunks) => [UPDATE + path] + PrintMove(moveTo) + PrintHunks(hunks)
  }

  function PrintActions(actions: seq<Action>): seq<string> {
    if actions == [] then [] else PrintAction(actions[0]) + PrintActions(actions[1..])
  }

  function PatchDocument(actions: seq<Action>): seq<string> {
    [BEGIN] + PrintActions(actions) + [END]
  }

  /** The patch text of a list of actions. */
  function Print(actions: seq<Action>): string {
    Join(PatchDocument(actions))
  }

  // ---------------------------------------------------------------- scanning

  /** A top-level header line, by its trimmed text. */
  datatype Header =
    | AddHeader(path: string)
    | DeleteHeader(path: string)
    | UpdateHeader(path: string)
    | EnvironmentHeader(id: string)
    | NoHeader

  function ReadHeader(trimmed: string): Header {
    if StartsWith(trimmed, ENVIRONMENT) then EnvironmentHeader(trimmed[|ENVIRONMENT|..])
    else if StartsWith(trimmed, ADD) then AddHeader(trimmed[|ADD|..])
    else if StartsWith(trimmed, DELETE) then DeleteHeader(trimmed[|DELETE|..])
    else if StartsWith(trimmed, UPDATE) then UpdateHeader(trimmed[|UPDATE|..])
    else NoHeader
  }

  /** A line with everything the grammar asks about it. */
  datatype ScannedLine = ScannedLine(
    text: string,
    trimmed: string,
    header: Header,
    moveTo: Option<string>,
    hunkContext: Option<string>,
    isEndOfFile: bool,
    isNoNewline: bool)
  {
    predicate Leads(c: char) {
      text != "" && text[0] == c
    }
  }

  function Scan(line: string): ScannedLine {
    var trimmed := Trim(line);
    ScannedLine(
      line,
      trimmed,
      ReadHeader(trimmed),
      if StartsWith(trimmed, MOVE) then Some(trimmed[|MOVE|..]) else None,
      if StartsWith(trimmed, "@@") then Some(Trim(trimmed[2..])) else None,
      trimmed == END_OF_FILE,
      line == NO_NEWLINE)
  }

  function ScanAll(lines: seq<string>): (r: seq<ScannedLine>)
    ensures |r| == |lines| && forall i | 0 <= i < |lines| :: r[i] == Scan(lines[i])
  {
    seq(|lines|, i requires 0 <= i < |lines| => Scan(lines[i]))
  }

  // ----------------------------------------------------------------- grammar

  /** The body of an added file: its content lines, whether the final newline is
      kept, and the lines left. */
  datatype AddBody = AddBody(content: seq<string>, finalNewline: bool, rest: seq<ScannedLine>)

  function ParseAddBody(ls: seq<ScannedLine>): (r: Result<AddBody>)
    ensures r.Ok? ==> |r.value.rest| <= |ls|
  {
    if ls == [] || ls[0].header != NoHeader then
      Ok(AddBody([], true, ls))
    else if ls[0].isNoNewline then
      var body :- ParseAddBody(ls[1..]);
      Ok(body.(finalNewline := false))
    else if !ls[0].Leads('+') then
      Err(AddLineWithoutPlus(ls[0].text))
    else
      var body :- ParseAddBody(ls[1..]);
      Ok(body.(content := [ls[0].text[1..]] + body.content))
  }

  function AddContent(content: seq<string>, finalNewline: bool): string {
    if content == [] then "" else Join(content) + (if finalNewline then "\n" else "")
  }

  /** A parsed action, or none for an environment header, and the lines left. */
  datatype Parsed = Parsed(action: Option<Action>, rest: seq<ScannedLine>)

  function ParseAdd(path: string, ls: seq<ScannedLine>): (r: Result<Parsed>)
    ensures r.Ok? ==> |r.value.rest| <= |ls|
  {
    var body :- ParseAddBody(ls);
    if body.content == [] && body.finalNewline then Err(AddWithoutContent(path))
    else Ok(Parsed(Some(AddFile(path, AddContent(body.content, body.finalNewline))), body.rest))
  }

  function FlushHunk(hunks: seq<Hunk>, current: Option<Hunk>, path: string): Result<seq<Hunk>> {
    match current
    case None => Ok(hunks)
    case Some(h) => if h.lines == [] then Err(EmptyHunk(path)) else Ok(hunks + [h])
  }

  function AppendHunkLine(h: Hunk, line: ScannedLine): Result<Hunk> {
    if line.Leads(' ') then Ok(h.(lines := h.lines + [HunkLine(Context, line.text[1..])]))
    else if line.Leads('+') then Ok(h.(lines := h.lines + [HunkLine(Add, line.text[1..])]))
    else if line.Leads('-') then Ok(h.(lines := h.lines + [HunkLine(Remove, line.text[1..])]))
    else if line.isNoNewline then Ok(h)
    else Err(BadHunkLine(line.text))
  }

  function OpenHunk(context: string): Hunk {
    Hunk([], if context == "" then None else Some(context), false)
  }

  /** What one line of an update does to the hunks closed so far and the one being read. */
  datatype UpdateStep =
    | Continue(hunks: seq<Hunk>, current: Option<Hunk>)
    | Stop
    | Fail(error: PatchError)

  function StepUpdate(line: ScannedLine, hunks: seq<Hunk>, current: Option<Hunk>, path: string): UpdateStep {
    if current.None? && line.trimmed == "" then
      Continue(hunks, current)
    else if line.isEndOfFile then
      if current.None? then Fail(MarkerWithoutHunk(path))
      else Continue(hunks, Some(current.value.(endOfFile := true)))
    else if (current.None? || !line.Leads(' ')) && line.header != NoHeader then
      Stop
    else if line.hunkContext.Some? && !line.Leads(' ') then
      match FlushHunk(hunks, current, path)
      case Err(e) => Fail(e)
      case Ok(done) => Continue(done, Some(OpenHunk(line.hunkContext.value)))
    else
      match AppendHunkLine(if current.Some? then current.value else Hunk([], None, false), line)
      case Err(e) => Fail(e)
      case Ok(h) => Continue(hunks, Some(h))
  }

  datatype UpdateBody = UpdateBody(hunks: seq<Hunk>, rest: seq<ScannedLine>)

  /** The hunks of an update and the lines left, given the hunks closed and the one being read. */
  function ParseUpdateBody(ls: seq<ScannedLine>, hunks: seq<Hunk>, current: Option<Hunk>, path: string): (r: Result<UpdateBody>)
    ensures r.Ok? ==> |r.value.rest| <= |ls|
  {
    if ls == [] then
      var done :- FlushHunk(hunks, current, path);
      Ok(UpdateBody(done, []))
    else
      match StepUpdate(ls[0], hunks, current, path)
      case Continue(hunks', current') => ParseUpdateBody(ls[1..], hunks', current', path)
      case Fail(e) => Err(e)
      case Stop =>
        var done :- FlushHunk(hunks, current, path);
        Ok(UpdateBody(done, ls))
  }

  /** The move destination, when the next line names one. */
  function MoveDestination(ls: seq<ScannedLine>): Option<string> {
    if ls == [] then None else ls[0].moveTo
  }

  function ParseUpdate(path: string, ls: seq<ScannedLine>): (r: Result<Parsed>)
    ensures r.Ok? ==> |r.value.rest| <= |ls|
  {
    var moveTo := MoveDestination(ls);
    var body :- ParseUpdateBody(if moveTo.Some? then ls[1..] else ls, [], None, path);
    // An empty destination is no destination.
    if body.hunks == [] && (moveTo.None? || moveTo.value == "") then Err(UpdateWithoutHunks(path))
    else Ok(Parsed(Some(UpdateFile(path, moveTo, body.hunks)), body.rest))
  }

  function ParseAction(line: ScannedLine, ls: seq<ScannedLine>): (r: Result<Parsed>)
    ensures r.Ok? ==> |r.value.rest| <= |ls|
  {
    match line.header
    case EnvironmentHeader(id) => if Trim(id) == "" then Err(EmptyEnvironmentId) else Ok(Parsed(None, ls))
    case AddHeader(path) => ParseAdd(path, ls)
    case DeleteHeader(path) => Ok(Parsed(Some(DeleteFile(path)), ls))
    case UpdateHeader(path) => ParseUpdate(path, ls)
    case NoHeader => Err(UnknownHeader(line.trimmed))
  }

  /** The actions of the lines between the patch markers, after those already read. */
  function ParseActions(ls: seq<ScannedLine>, actions: seq<Action>): Result<seq<Action>>
    decreases |ls|
  {
    if ls == [] then Ok(actions)
    else if ls[0].trimmed == "" then ParseActions(ls[1..], actions)
    else
      var parsed :- ParseAction(ls[0], ls[1..]);
      ParseActions(parsed.rest, if parsed.action.Some? then actions + [parsed.action.value] else actions)
  }

  predicate OpensHereDocument(l: string) {
    l == "<<EOF" || l == "<<'EOF'" || l == "<<\"EOF\""
  }

  predicate ClosesHereDocument(l: string) {
    |l| >= 3 && l[|l| - 3..] == "EOF"
  }

  function WithoutWrapper(lines: seq<string>): (r: seq<string>)
    requires lines != []
    ensures r != []
  {
    if OpensHereDocument(Trim(lines[0])) && ClosesHereDocument(Trim(lines[|lines| - 1])) && |lines| >= 4
    then lines[1..|lines| - 1]
    else lines
  }

  /** The lines of a patch, without a here-document wrapper. */
  function PatchLines(patch: string): (r: seq<string>)
    ensures r != []
  {
    WithoutWrapper(Split(Trim(NormalizeEol(patch))))
  }

  /** The meaning of the lines of a patch. */
  function ParseLines(lines: seq<string>): Result<seq<Action>>
    requires lines != []
  {
    if Trim(lines[0]) != BEGIN then Err(MissingBegin)
    else if |lines| == 1 || Trim(lines[|lines| - 1]) != END then Err(MissingEnd)
    else
      var actions :- ParseActions(ScanAll(lines[1..|lines| - 1]), []);
      if actions == [] then Err(NoActions) else Ok(actions)
  }

  /** The meaning of a patch text. */
  function Parse(patch: string): Result<seq<Action>> {
    ParseLines(PatchLines(patch))
  }
}
