/** The patch parser: one pass over the lines with a cursor, proved to compute the
    grammar's meaning of the text. */
module PatchParser {
  import opened Options
  import opened Text
  import opened PatchSyntax

  class PatchCursor {
    const lines: seq<ScannedLine>
    var index: nat

    constructor (lines: seq<ScannedLine>)
      ensures this.lines == lines && index == 0
    {
      this.lines := lines;
      index := 0;
    }

    ghost predicate Valid()
      reads this
    {
      index <= |lines|
    }

    /** The lines not read yet. */
    ghost function Rest(): seq<ScannedLine>
      reads this
      requires Valid()
    {
      lines[index..]
    }
  }

  /** A method's outcome and the lines it leaves are those of the grammar. */
  ghost predicate Agrees(r: Result<Action>, rest: seq<ScannedLine>, spec: Result<Parsed>) {
    match spec
    case Err(e) => r == Err(e)
    case Ok(parsed) => r.Ok? && parsed == Parsed(Some(r.value), rest)
  }

  /** What reading a body comes to when some of it has been read already. */
  ghost function AfterAdded(content: seq<string>, finalNewline: bool, r: Result<AddBody>): Result<AddBody> {
    match r
    case Err(e) => Err(e)
    case Ok(body) => Ok(AddBody(content + body.content, finalNewline && body.finalNewline, body.rest))
  }

  lemma {:induction false} AfterNothing(ls: seq<ScannedLine>)
    ensures AfterAdded([], true, ParseAddBody(ls)) == ParseAddBody(ls)
  {
    if ParseAddBody(ls).Ok? {
      assert [] + ParseAddBody(ls).value.content == ParseAddBody(ls).value.content;
    }
  }

  /** Reading one more line of an added file. */
  lemma {:induction false} AddStep(content: seq<string>, finalNewline: bool, ls: seq<ScannedLine>)
    requires ls != [] && ls[0].header == NoHeader
    ensures AfterAdded(content, finalNewline, ParseAddBody(ls)) ==
            if ls[0].isNoNewline then AfterAdded(content, false, ParseAddBody(ls[1..]))
            else if !ls[0].Leads('+') then Err(AddLineWithoutPlus(ls[0].text))
            else AfterAdded(content + [ls[0].text[1..]], finalNewline, ParseAddBody(ls[1..]))
  {
    if ParseAddBody(ls[1..]).Ok? && ls[0].Leads('+') {
      var more := ParseAddBody(ls[1..]).value.content;
      assert content + ([ls[0].text[1..]] + more) == (content + [ls[0].text[1..]]) + more;
    }
  }

  method ParseAddFile(cursor: PatchCursor, path: string) returns (r: Result<Action>)
    requires cursor.Valid()
    modifies cursor`index
    ensures cursor.Valid()
    ensures Agrees(r, cursor.Rest(), ParseAdd(path, old(cursor.Rest())))
  {
    var content: seq<string> := [];
    var finalNewline := true;
    ghost var start := cursor.Rest();
    ghost var rest := start;
    AfterNothing(start);
    while cursor.index < |cursor.lines| && cursor.lines[cursor.index].header == NoHeader
      invariant cursor.Valid() && rest == cursor.Rest()
      invariant ParseAddBody(start) == AfterAdded(content, finalNewline, ParseAddBody(rest))
      decreases |cursor.lines| - cursor.index
    {
      var line := cursor.lines[cursor.index];
      AddStep(content, finalNewline, rest);
      cursor.index := cursor.index + 1;
      rest := rest[1..];
      if line.isNoNewline {
        finalNewline := false;
        continue;
      }
      if !line.Leads('+') {
        return Err(AddLineWithoutPlus(line.text));
      }
      content := content + [line.text[1..]];
    }
    assert content + [] == content;
    if content == [] && finalNewline {
      return Err(AddWithoutContent(path));
    }
    return Ok(AddFile(path, AddContent(content, finalNewline)));
  }

  method ParseMoveDestination(cursor: PatchCursor) returns (moveTo: Option<string>)
    requires cursor.Valid()
    modifies cursor`index
    ensures cursor.Valid()
    ensures moveTo == MoveDestination(old(cursor.Rest()))
    ensures cursor.Rest() == if moveTo.Some? then old(cursor.Rest())[1..] else old(cursor.Rest())
  {
    if cursor.index == |cursor.lines| {
      return None;
    }
    moveTo := cursor.lines[cursor.index].moveTo;
    if moveTo.Some? {
      cursor.index := cursor.index + 1;
    }
  }

  method ParseUpdateFile(cursor: PatchCursor, path: string) returns (r: Result<Action>)
    requires cursor.Valid()
    modifies cursor`index
    ensures cursor.Valid()
    ensures Agrees(r, cursor.Rest(), ParseUpdate(path, old(cursor.Rest())))
  {
    var hunks: seq<Hunk> := [];
    var moveTo := ParseMoveDestination(cursor);
    var current: Option<Hunk> := None;
    ghost var start := cursor.Rest();
    ghost var rest := start;
    while cursor.index < |cursor.lines|
      invariant cursor.Valid() && rest == cursor.Rest()
      invariant ParseUpdateBody(start, [], None, path) == ParseUpdateBody(rest, hunks, current, path)
      decreases |cursor.lines| - cursor.index
    {
      var line := cursor.lines[cursor.index];
      assert line == rest[0] && rest[1..] == cursor.lines[cursor.index + 1..];
      if current.None? && line.trimmed == "" {
        cursor.index, rest := cursor.index + 1, rest[1..];
        continue;
      }
      if line.isEndOfFile {
        if current.None? {
          return Err(MarkerWithoutHunk(path));
        }
        current := Some(current.value.(endOfFile := true));
        cursor.index, rest := cursor.index + 1, rest[1..];
        continue;
      }
      if (current.None? || !line.Leads(' ')) && line.header != NoHeader {
        break;
      }
      if line.hunkContext.Some? && !line.Leads(' ') {
        hunks :- FlushHunk(hunks, current, path);
        current := Some(OpenHunk(line.hunkContext.value));
        cursor.index, rest := cursor.index + 1, rest[1..];
        continue;
      }
      var h := if current.Some? then current.value else Hunk([], None, false);
      cursor.index, rest := cursor.index + 1, rest[1..];
      h :- AppendHunkLine(h, line);
      current := Some(h);
    }

    hunks :- FlushHunk(hunks, current, path);
    if hunks == [] && (moveTo.None? || moveTo.value == "") {
      return Err(UpdateWithoutHunks(path));
    }
    return Ok(UpdateFile(path, moveTo, hunks));
  }

  /** Reads one action after its header line; none for an environment header. */
  method ParsePatchAction(cursor: PatchCursor, line: ScannedLine) returns (r: Result<Option<Action>>)
    requires cursor.Valid()
    modifies cursor`index
    ensures cursor.Valid()
    ensures var spec := ParseAction(line, old(cursor.Rest()));
            if spec.Ok? then r.Ok? && spec.value == Parsed(r.value, cursor.Rest())
            else r == Err(spec.error)
  {
    match line.header {
      case EnvironmentHeader(id) =>
        if Trim(id) == "" {
          return Err(EmptyEnvironmentId);
        }
        return Ok(None);
      case AddHeader(path) =>
        var added :- ParseAddFile(cursor, path);
        return Ok(Some(added));
      case DeleteHeader(path) =>
        return Ok(Some(DeleteFile(path)));
      case UpdateHeader(path) =>
        var updated :- ParseUpdateFile(cursor, path);
        return Ok(Some(updated));
      case NoHeader =>
        return Err(UnknownHeader(line.trimmed));
    }
  }

  method ParsePatchLines(patchLines: seq<string>) returns (r: Result<seq<Action>>)
    requires patchLines != []
    ensures r == ParseLines(patchLines)
  {
    var lines := patchLines;
    if Trim(lines[0]) != BEGIN {
      return Err(MissingBegin);
    }
    lines := lines[1..];
    if lines == [] || Trim(lines[|lines| - 1]) != END {
      return Err(MissingEnd);
    }
    lines := lines[..|lines| - 1];
    assert lines == patchLines[1..|patchLines| - 1];

    var cursor := new PatchCursor(ScanAll(lines));
    var actions: seq<Action> := [];
    ghost var start := cursor.Rest();
    assert start == ScanAll(lines);
    ghost var rest := start;
    while cursor.index < |cursor.lines|
      invariant cursor.Valid() && rest == cursor.Rest()
      invariant ParseActions(start, []) == ParseActions(rest, actions)
      decreases |cursor.lines| - cursor.index
    {
      var line := cursor.lines[cursor.index];
      cursor.index := cursor.index + 1;
      assert cursor.Rest() == rest[1..];
      if line.trimmed == "" {
        rest := cursor.Rest();
        continue;
      }
      var action :- ParsePatchAction(cursor, line);
      if action.Some? {
        actions := actions + [action.value];
      }
      rest := cursor.Rest();
    }
    if actions == [] {
      return Err(NoActions);
    }
    return Ok(actions);
  }

  method ParsePatch(patch: string) returns (r: Result<seq<Action>>)
    ensures r == Parse(patch)
  {
    r := ParsePatchLines(PatchLines(patch));
  }
}
