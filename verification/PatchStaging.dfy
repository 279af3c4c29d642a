/** Applying a whole patch: every action is staged over the files on disk, and only when all
    of them have succeeded is anything written. Applying the actions one after another to
    the disk is what it must amount to. */
module PatchStaging {
  import opened Options
  import opened Text
  import opened PatchSyntax
  import opened PatchEngine

  /** Where a file is, after resolving the path the patch gives it. */
  type Place = string

  /** A regular file of text, or something that cannot be read as one. */
  datatype Node = TextFile(content: string) | NotText

  type Disk = map<Place, Node>

  /** The place of a path, unless it is refused. */
  type Resolver = string -> Option<Place>

  datatype Operation = Added | Updated | Deleted | Moved
  datatype AppliedFile = AppliedFile(path: string, previousPath: Option<string>, operation: Operation)

  datatype Done = Done(disk: Disk, files: seq<AppliedFile>)

  // ------------------------------------------------- one action after another

  function Resolve(resolve: Resolver, path: string): Result<Place> {
    match resolve(path)
    case None => Err(BadPath(path))
    case Some(place) => Ok(place)
  }

  function Read(disk: Disk, place: Place, path: string): Result<Option<string>> {
    if place !in disk then Ok(None)
    else
      match disk[place]
      case NotText => Err(Unreadable(path))
      case TextFile(content) => Ok(Some(content))
  }

  function ReadRequired(disk: Disk, place: Place, path: string): Result<string> {
    var file :- Read(disk, place, path);
    if file.None? then Err(FileMissing(path)) else Ok(file.value)
  }

  /** Added text takes over the line ends of the file it replaces. */
  function AddedContent(original: Option<string>, content: string): string {
    if original.Some? && HasCrLf(original.value) then LfToCrLf(content) else content
  }

  /** What one action does to the disk. */
  function ApplyAction(resolve: Resolver, d: Done, action: Action): Result<Done> {
    var place :- Resolve(resolve, action.path);
    match action
    case AddFile(path, content) =>
      var original :- Read(d.disk, place, path);
      Ok(Done(d.disk[place := TextFile(AddedContent(original, content))],
              d.files + [AppliedFile(path, None, if original.Some? then Updated else Added)]))
    case DeleteFile(path) =>
      var _ :- ReadRequired(d.disk, place, path);
      Ok(Done(d.disk - {place}, d.files + [AppliedFile(path, None, Deleted)]))
    case UpdateFile(path, moveTo, hunks) =>
      var file :- ReadRequired(d.disk, place, path);
      var updated :- ApplyText(path, file, hunks);
      if moveTo.None? || moveTo.value == "" then
        Ok(Done(d.disk[place := TextFile(updated)], d.files + [AppliedFile(path, None, Updated)]))
      else
        var destination :- Resolve(resolve, moveTo.value);
        var _ :- if destination == place then Ok(None) else Read(d.disk, destination, moveTo.value);
        Ok(Done((d.disk - {place})[destination := TextFile(updated)],
                d.files + [AppliedFile(moveTo.value, Some(path), Moved)]))
  }

  function ApplyActions(resolve: Resolver, d: Done, actions: seq<Action>): Result<Done>
    decreases |actions|
  {
    if actions == [] then Ok(d)
    else
      var next :- ApplyAction(resolve, d, actions[0]);
      ApplyActions(resolve, next, actions[1..])
  }

  // ------------------------------------------------------------- the overlay

  /** Files staged over the disk: their new content, or none for a file that is gone. */
  type Staged = map<Place, Option<string>>

  /** The disk as the staged files would leave it. */
  function Overlay(disk: Disk, staged: Staged): Disk {
    map place | place in disk.Keys + staged.Keys && (place in staged ==> staged[place].Some?) ::
      if place in staged then TextFile(staged[place].value) else disk[place]
  }

  lemma OverlayNothing(disk: Disk)
    ensures Overlay(disk, map[]) == disk
  {
  }

  /** Staging a file changes the overlay at its place only. */
  lemma OverlayStage(disk: Disk, staged: Staged, place: Place, file: Option<string>)
    ensures Overlay(disk, staged[place := file]) ==
            if file.Some? then Overlay(disk, staged)[place := TextFile(file.value)] else Overlay(disk, staged) - {place}
  {
  }

  /** Remembering a file that was read changes nothing. */
  lemma OverlayRead(disk: Disk, staged: Staged, place: Place, path: string)
    requires place !in staged && Read(disk, place, path).Ok?
    ensures Overlay(disk, staged[place := Read(disk, place, path).value]) == Overlay(disk, staged)
  {
  }

  /** Dropping what is staged for a place and then staging it again is just staging it. */
  lemma StageAgain(staged: Staged, place: Place, file: Option<string>)
    ensures (staged - {place})[place := file] == staged[place := file]
  {
  }

  // -------------------------------------------------------------- committing

  function Settle(disk: Disk, place: Place, file: Option<string>): Disk {
    if file.Some? then disk[place := TextFile(file.value)] else disk - {place}
  }

  /** What is staged for some places. */
  function Only(staged: Staged, places: set<Place>): Staged {
    map place | place in places && place in staged :: staged[place]
  }

  lemma GoneThere(staged: Staged, place: Place)
    requires place in staged.Keys - Present(staged)
    ensures staged[place].None?
  {
  }

  lemma OnlyAll(staged: Staged, places: set<Place>)
    requires places == staged.Keys
    ensures Only(staged, places) == staged
  {
  }

  function Present(staged: Staged): set<Place> {
    set place | place in staged && staged[place].Some?
  }

  lemma SettleNext(disk: Disk, staged: Staged, places: set<Place>, place: Place)
    requires place in staged
    ensures Settle(Overlay(disk, Only(staged, places)), place, staged[place]) == Overlay(disk, Only(staged, places + {place}))
  {
    OverlayStage(disk, Only(staged, places), place, staged[place]);
    assert Only(staged, places)[place := staged[place]] == Only(staged, places + {place});
  }

  function SettleAll(disk: Disk, staged: Staged, order: seq<Place>): Disk
    requires forall i | 0 <= i < |order| :: order[i] in staged
    decreases |order|
  {
    var n := |order| - 1;
    if order == [] then disk else Settle(SettleAll(disk, staged, order[..n]), order[n], staged[order[n]])
  }

  lemma {:induction false} SettleAllOverlays(disk: Disk, staged: Staged, order: seq<Place>)
    requires forall i | 0 <= i < |order| :: order[i] in staged
    ensures SettleAll(disk, staged, order) == Overlay(disk, Only(staged, (set place | place in order)))
    decreases |order|
  {
    var n := |order| - 1;
    if order == [] {
      OverlayNothing(disk);
      assert Only(staged, {}) == map[];
      assert (set place | place in order) == {};
    } else {
      SettleAllOverlays(disk, staged, order[..n]);
      SettleNext(disk, staged, (set place | place in order[..n]), order[n]);
      assert order == order[..n] + [order[n]];
      assert (set place | place in order) == (set place | place in order[..n]) + {order[n]};
    }
  }

  /** Writes and deletions of the staged files can be done in any order, mixed or not. */
  lemma {:induction false} CommitInAnyOrder(disk: Disk, staged: Staged, order: seq<Place>)
    requires forall place :: place in order <==> place in staged
    ensures SettleAll(disk, staged, order) == Overlay(disk, staged)
  {
    SettleAllOverlays(disk, staged, order);
    assert Only(staged, (set place | place in order)) == staged;
  }

  // ------------------------------------------------------------ applying a patch

  class Workspace {
    var disk: Disk

    constructor (disk: Disk)
      ensures this.disk == disk
    {
      this.disk := disk;
    }

    method WriteTextFile(place: Place, content: string)
      modifies this
      ensures disk == old(disk)[place := TextFile(content)]
    {
      disk := disk[place := TextFile(content)];
    }

    method Remove(place: Place)
      modifies this
      ensures disk == old(disk) - {place}
    {
      disk := disk - {place};
    }

    /** The staged file at a place, reading the disk the first time it is asked for. */
    method ReadStaged(staged: Staged, place: Place, path: string) returns (r: Result<Option<string>>, staged': Staged)
      ensures r == Read(Overlay(disk, staged), place, path)
      ensures Overlay(disk, staged') == Overlay(disk, staged)
    {
      staged' := staged;
      if place in staged {
        return Ok(staged[place]), staged;
      }
      r := Read(disk, place, path);
      if r.Ok? {
        OverlayRead(disk, staged, place, path);
        staged' := staged[place := r.value];
      }
    }

    method StageAdd(staged: Staged, place: Place, path: string, content: string)
      returns (r: Result<AppliedFile>, staged': Staged)
      ensures match Read(Overlay(disk, staged), place, path)
              case Err(e) => r == Err(e)
              case Ok(original) =>
                && r == Ok(AppliedFile(path, None, if original.Some? then Updated else Added))
                && Overlay(disk, staged') == Overlay(disk, staged)[place := TextFile(AddedContent(original, content))]
    {
      var original;
      original, staged' := ReadStaged(staged, place, path);
      if original.Err? {
        return Err(original.error), staged';
      }
      var text := content;
      if original.value.Some? && HasCrLf(original.value.value) {
        text := LfToCrLf(content);
      }
      OverlayStage(disk, staged', place, Some(text));
      staged' := staged'[place := Some(text)];
      return Ok(AppliedFile(path, None, if original.value.Some? then Updated else Added)), staged';
    }

    method StageMove(staged: Staged, place: Place, path: string, destination: Place, moveTo: string, updated: string)
      returns (r: Result<AppliedFile>, staged': Staged)
      ensures match (if destination == place then Ok(None) else Read(Overlay(disk, staged), destination, moveTo))
              case Err(e) => r == Err(e)
              case Ok(_) =>
                && r == Ok(AppliedFile(moveTo, Some(path), Moved))
                && Overlay(disk, staged') == (Overlay(disk, staged) - {place})[destination := TextFile(updated)]
    {
      staged' := staged;
      if destination == place {
        StageAgain(staged, place, Some(updated));
        staged' := staged' - {place};
        staged' := staged'[destination := Some(updated)];
        OverlayStage(disk, staged, place, Some(updated));
        assert (Overlay(disk, staged) - {place})[place := TextFile(updated)] == Overlay(disk, staged)[place := TextFile(updated)];
      } else {
        var file;
        file, staged' := ReadStaged(staged, destination, moveTo);
        if file.Err? {
          return Err(file.error), staged';
        }
        OverlayStage(disk, staged', destination, Some(updated));
        staged' := staged'[destination := Some(updated)];
        OverlayStage(disk, staged', place, None);
        staged' := staged'[place := None];
        assert Overlay(disk, staged)[destination := TextFile(updated)] - {place}
            == (Overlay(disk, staged) - {place})[destination := TextFile(updated)];
      }
      return Ok(AppliedFile(moveTo, Some(path), Moved)), staged';
    }

    method StageAction(resolve: Resolver, staged: Staged, action: Action, files: seq<AppliedFile>)
      returns (r: Result<AppliedFile>, staged': Staged)
      ensures match ApplyAction(resolve, Done(Overlay(disk, staged), files), action)
              case Err(e) => r == Err(e)
              case Ok(d) => r.Ok? && d == Done(Overlay(disk, staged'), files + [r.value])
    {
      staged' := staged;
      var place := Resolve(resolve, action.path);
      if place.Err? {
        return Err(place.error), staged';
      }
      if action.AddFile? {
        r, staged' := StageAdd(staged, place.value, action.path, action.content);
        return;
      }
      var file;
      file, staged' := ReadStaged(staged, place.value, action.path);
      if file.Err? {
        return Err(file.error), staged';
      }
      if file.value.None? {
        return Err(FileMissing(action.path)), staged';
      }
      if action.DeleteFile? {
        OverlayStage(disk, staged', place.value, None);
        return Ok(AppliedFile(action.path, None, Deleted)), staged'[place.value := None];
      }
      var updated := ApplyHunks(action.path, file.value.value, action.hunks);
      if updated.Err? {
        return Err(updated.error), staged';
      }
      if action.moveTo.Some? && action.moveTo.value != "" {
        var destination := Resolve(resolve, action.moveTo.value);
        if destination.Err? {
          return Err(destination.error), staged';
        }
        r, staged' := StageMove(staged', place.value, action.path, destination.value, action.moveTo.value, updated.value);
        return;
      }
      OverlayStage(disk, staged', place.value, Some(updated.value));
      return Ok(AppliedFile(action.path, None, Updated)), staged'[place.value := Some(updated.value)];
    }

    /** Writes one staged file, or deletes one that is gone. */
    method SettlePlace(staged: Staged, ghost before: Disk, ghost settled: set<Place>, place: Place)
      requires place in staged && disk == Overlay(before, Only(staged, settled))
      modifies this
      ensures disk == Overlay(before, Only(staged, settled + {place}))
    {
      SettleNext(before, staged, settled, place);
      if staged[place].Some? {
        WriteTextFile(place, staged[place].value);
      } else {
        Remove(place);
      }
    }

    /** Writes every staged file, in any order. */
    method WriteFiles(staged: Staged)
      modifies this
      ensures disk == Overlay(old(disk), Only(staged, Present(staged)))
    {
      ghost var before := disk;
      ghost var written: set<Place> := {};
      var files := Present(staged);
      OverlayNothing(disk);
      assert Only(staged, {}) == map[];
      while files != {}
        invariant files + written == Present(staged) && disk == Overlay(before, Only(staged, written))
        decreases |files|
      {
        var place :| place in files;
        SettlePlace(staged, before, written, place);
        files, written := files - {place}, written + {place};
      }
    }

    /** Deletes every file staged as gone, in any order. */
    method DeleteGone(staged: Staged, ghost before: Disk)
      requires disk == Overlay(before, Only(staged, Present(staged)))
      modifies this
      ensures disk == Overlay(before, staged)
    {
      ghost var settled := Present(staged);
      var gone := staged.Keys - Present(staged);
      while gone != {}
        invariant gone == staged.Keys - settled && Present(staged) <= settled <= staged.Keys
        invariant disk == Overlay(before, Only(staged, settled))
        decreases |gone|
      {
        var place :| place in gone;
        GoneThere(staged, place);
        SettlePlace(staged, before, settled, place);
        gone, settled := gone - {place}, settled + {place};
      }
      OnlyAll(staged, settled);
    }

    /** Writes, then deletes. */
    method Commit(staged: Staged)
      modifies this
      ensures disk == Overlay(old(disk), staged)
    {
      WriteFiles(staged);
      DeleteGone(staged, old(disk));
    }

    /** A patch either fails and leaves the disk alone, or leaves exactly the disk that
        applying its actions one after another would leave. */
    method ApplyPatch(resolve: Resolver, actions: seq<Action>) returns (r: Result<seq<AppliedFile>>)
      modifies this
      ensures match ApplyActions(resolve, Done(old(disk), []), actions)
              case Err(e) => r == Err(e) && disk == old(disk)
              case Ok(d) => r == Ok(d.files) && disk == d.disk
    {
      var staged: Staged := map[];
      var files: seq<AppliedFile> := [];
      OverlayNothing(disk);
      for i := 0 to |actions|
        invariant disk == old(disk)
        invariant ApplyActions(resolve, Done(old(disk), []), actions) ==
                  ApplyActions(resolve, Done(Overlay(disk, staged), files), actions[i..])
      {
        assert actions[i..][0] == actions[i] && actions[i..][1..] == actions[i + 1..];
        var applied;
        applied, staged := StageAction(resolve, staged, actions[i], files);
        if applied.Err? {
          return Err(applied.error);
        }
        files := files + [applied.value];
      }
      Commit(staged);
      return Ok(files);
    }
  }
}
