/** What a patch leaves on the disk, place by place, what it reports, and when it fails: stated
    on the actions themselves. */
module PatchOutcome {
  import opened Options
  import opened Text
  import opened PatchSyntax
  import opened PatchEngine
  import opened PatchStaging

  // ------------------------------------------------------ what an action is about

  predicate IsMove(a: Action) {
    a.UpdateFile? && a.moveTo.Some? && a.moveTo.value != ""
  }

  /** The path an action leaves a file at, unless it deletes it. */
  function Target(a: Action): string {
    if IsMove(a) then a.moveTo.value else a.path
  }

  predicate Writes(resolve: Resolver, a: Action, place: Place) {
    !a.DeleteFile? && resolve(Target(a)) == Some(place)
  }

  /** A delete, or a move away to another place. */
  predicate Removes(resolve: Resolver, a: Action, place: Place) {
    && resolve(a.path) == Some(place)
    && (a.DeleteFile? || (IsMove(a) && resolve(Target(a)) != Some(place)))
  }

  predicate Names(resolve: Resolver, a: Action, place: Place) {
    Writes(resolve, a, place) || Removes(resolve, a, place)
  }

  /** The text of a file there is. */
  predicate HasText(disk: Disk, place: Place, text: string) {
    place in disk && disk[place] == TextFile(text)
  }

  /** The text an action writes, given the disk it finds: added text in the line ends of the file
      it replaces, if any, and otherwise its file with its hunks applied. */
  ghost predicate WrittenText(resolve: Resolver, before: Disk, a: Action, text: string) {
    match a
    case AddFile(path, content) =>
      (exists place, replaced ::
         resolve(path) == Some(place) && HasText(before, place, replaced) &&
         text == if HasCrLf(replaced) then LfToCrLf(content) else content)
      || (exists place :: resolve(path) == Some(place) && place !in before && text == content)
    case DeleteFile(_) => false
    case UpdateFile(path, _, hunks) =>
      exists place, original ::
        resolve(path) == Some(place) && HasText(before, place, original) && ApplyText(path, original, hunks) == Ok(text)
  }

  /** What is reported of an action. */
  predicate Reports(resolve: Resolver, before: Disk, a: Action, file: AppliedFile) {
    match a
    case AddFile(path, _) =>
      && resolve(path).Some?
      && file == AppliedFile(path, None, if resolve(path).value in before then Updated else Added)
    case DeleteFile(path) => file == AppliedFile(path, None, Deleted)
    case UpdateFile(path, moveTo, _) =>
      file == if IsMove(a) then AppliedFile(moveTo.value, Some(path), Moved) else AppliedFile(path, None, Updated)
  }

  // --------------------------------------------------------------- one action

  lemma ActionLeaves(resolve: Resolver, d: Done, a: Action, place: Place)
    requires ApplyAction(resolve, d, a).Ok?
    ensures var disk := ApplyAction(resolve, d, a).value.disk;
            && (Removes(resolve, a, place) ==> place !in disk)
            && (Writes(resolve, a, place) ==> exists text :: HasText(disk, place, text) && WrittenText(resolve, d.disk, a, text))
            && (!Names(resolve, a, place) ==>
                  (place in disk <==> place in d.disk) && (place in disk ==> disk[place] == d.disk[place]))
  {
    var disk := ApplyAction(resolve, d, a).value.disk;
    if Writes(resolve, a, place) {
      ActionWrites(resolve, d, a, place);
    }
  }

  lemma ActionWrites(resolve: Resolver, d: Done, a: Action, place: Place)
    requires ApplyAction(resolve, d, a).Ok? && Writes(resolve, a, place)
    ensures var disk := ApplyAction(resolve, d, a).value.disk;
            exists text :: HasText(disk, place, text) && WrittenText(resolve, d.disk, a, text)
  {
    var disk := ApplyAction(resolve, d, a).value.disk;
    var text := disk[place].content;
    assert HasText(disk, place, text);
    match a {
      case AddFile(path, content) =>
        if place in d.disk {
          assert HasText(d.disk, place, d.disk[place].content);
        }
      case UpdateFile(path, _, hunks) =>
        var source := resolve(path).value;
        assert HasText(d.disk, source, d.disk[source].content);
    }
    assert WrittenText(resolve, d.disk, a, text);
  }

  lemma ActionReports(resolve: Resolver, d: Done, a: Action)
    requires ApplyAction(resolve, d, a).Ok?
    ensures var files := ApplyAction(resolve, d, a).value.files;
            |files| == |d.files| + 1 && files[..|d.files|] == d.files && Reports(resolve, d.disk, a, files[|d.files|])
  {
  }

  /** Why an action cannot be done on a disk, if it cannot. */
  function Obstacle(resolve: Resolver, disk: Disk, a: Action): Option<PatchError> {
    if resolve(a.path).None? then Some(BadPath(a.path))
    else
      var place := resolve(a.path).value;
      if place in disk && disk[place].NotText? then Some(Unreadable(a.path))
      else if a.AddFile? then None
      else if place !in disk then Some(FileMissing(a.path))
      else if a.DeleteFile? then None
      else
        match ApplyText(a.path, disk[place].content, a.hunks)
        case Err(e) => Some(e)
        case Ok(_) =>
          if !IsMove(a) then None
          else if resolve(Target(a)).None? then Some(BadPath(Target(a)))
          else
            var destination := resolve(Target(a)).value;
            if destination != place && destination in disk && disk[destination].NotText? then Some(Unreadable(Target(a)))
            else None
  }

  lemma ActionFails(resolve: Resolver, d: Done, a: Action)
    ensures match Obstacle(resolve, d.disk, a)
            case None => ApplyAction(resolve, d, a).Ok?
            case Some(e) => ApplyAction(resolve, d, a) == Err(e)
  {
  }

  // ------------------------------------------------------------- a whole patch

  lemma {:induction false} ApplyPrefix(resolve: Resolver, d: Done, actions: seq<Action>, k: nat)
    requires k <= |actions|
    ensures ApplyActions(resolve, d, actions) ==
            match ApplyActions(resolve, d, actions[..k])
            case Err(e) => Err(e)
            case Ok(d') => ApplyActions(resolve, d', actions[k..])
    decreases k
  {
    if k == 0 {
      assert actions[..0] == [] && actions[0..] == actions;
    } else {
      assert actions[..k][0] == actions[0] && actions[..k][1..] == actions[1..][..k - 1];
      assert actions[1..][k - 1..] == actions[k..];
      if ApplyAction(resolve, d, actions[0]).Ok? {
        ApplyPrefix(resolve, ApplyAction(resolve, d, actions[0]).value, actions[1..], k - 1);
      }
    }
  }

  /** The disk after the first actions of a patch. */
  function DiskAfter(resolve: Resolver, disk: Disk, actions: seq<Action>, k: nat): Result<Disk>
    requires k <= |actions|
  {
    var d :- ApplyActions(resolve, Done(disk, []), actions[..k]);
    Ok(d.disk)
  }

  lemma {:induction false} ApplyOne(resolve: Resolver, d: Done, actions: seq<Action>, k: nat)
    requires k < |actions| && ApplyActions(resolve, d, actions[..k + 1]).Ok?
    ensures ApplyActions(resolve, d, actions[..k]).Ok?
    ensures ApplyAction(resolve, ApplyActions(resolve, d, actions[..k]).value, actions[k]) ==
            ApplyActions(resolve, d, actions[..k + 1])
  {
    ApplyPrefix(resolve, d, actions[..k + 1], k);
    assert actions[..k + 1][..k] == actions[..k] && actions[..k + 1][k..] == [actions[k]];
    assert [actions[k]][1..] == [];
  }

  /** Places no action of a stretch names stay as they are over it. */
  lemma {:induction false} UnnamedStay(resolve: Resolver, d: Done, actions: seq<Action>, k: nat, m: nat, place: Place)
    requires k <= m <= |actions| && ApplyActions(resolve, d, actions[..m]).Ok?
    requires forall i | k <= i < m :: !Names(resolve, actions[i], place)
    ensures ApplyActions(resolve, d, actions[..k]).Ok?
    ensures var before, after := ApplyActions(resolve, d, actions[..k]).value.disk, ApplyActions(resolve, d, actions[..m]).value.disk;
            (place in after <==> place in before) && (place in after ==> after[place] == before[place])
    decreases m - k
  {
    if k < m {
      ApplyOne(resolve, d, actions, m - 1);
      UnnamedStay(resolve, d, actions, k, m - 1, place);
      ActionLeaves(resolve, ApplyActions(resolve, d, actions[..m - 1]).value, actions[m - 1], place);
    }
  }

  /** The last action that names a place, if any does. */
  ghost predicate LastNaming(resolve: Resolver, actions: seq<Action>, place: Place, k: nat) {
    && k < |actions| && Names(resolve, actions[k], place)
    && forall i | k < i < |actions| :: !Names(resolve, actions[i], place)
  }

  /** The disk a patch leaves, at a place no action names: what was there. */
  lemma {:induction false} PatchSpares(resolve: Resolver, disk: Disk, actions: seq<Action>, place: Place)
    requires ApplyActions(resolve, Done(disk, []), actions).Ok?
    requires forall i | 0 <= i < |actions| :: !Names(resolve, actions[i], place)
    ensures var after := ApplyActions(resolve, Done(disk, []), actions).value.disk;
            (place in after <==> place in disk) && (place in after ==> after[place] == disk[place])
  {
    assert actions[..|actions|] == actions && actions[..0] == [];
    UnnamedStay(resolve, Done(disk, []), actions, 0, |actions|, place);
  }

  /** At any other place the last action that names it decides. Deleted there or moved away from
      there, the file is gone; written there, it holds the text that action writes, given the
      disk it finds. */
  lemma {:induction false} PatchLeaves(resolve: Resolver, disk: Disk, actions: seq<Action>, place: Place, k: nat)
    requires ApplyActions(resolve, Done(disk, []), actions).Ok? && LastNaming(resolve, actions, place, k)
    ensures DiskAfter(resolve, disk, actions, k).Ok?
    ensures var after := ApplyActions(resolve, Done(disk, []), actions).value.disk;
            && (Removes(resolve, actions[k], place) ==> place !in after)
            && (Writes(resolve, actions[k], place) ==>
                  exists text :: HasText(after, place, text)
                                 && WrittenText(resolve, DiskAfter(resolve, disk, actions, k).value, actions[k], text))
  {
    var d := Done(disk, []);
    assert actions[..|actions|] == actions;
    UnnamedStay(resolve, d, actions, k + 1, |actions|, place);
    ApplyOne(resolve, d, actions, k);
    var before := ApplyActions(resolve, d, actions[..k]).value;
    ActionLeaves(resolve, before, actions[k], place);
    var mid, after := ApplyActions(resolve, d, actions[..k + 1]).value.disk, ApplyActions(resolve, d, actions).value.disk;
    if Writes(resolve, actions[k], place) {
      var text :| HasText(mid, place, text) && WrittenText(resolve, before.disk, actions[k], text);
      assert HasText(after, place, text);
    }
  }

  /** One report for every action, in order. */
  lemma {:induction false} PatchReports(resolve: Resolver, disk: Disk, actions: seq<Action>, k: nat)
    requires ApplyActions(resolve, Done(disk, []), actions).Ok? && k <= |actions|
    ensures ApplyActions(resolve, Done(disk, []), actions[..k]).Ok?
    ensures var files := ApplyActions(resolve, Done(disk, []), actions[..k]).value.files;
            |files| == k && forall i | 0 <= i < k ::
              DiskAfter(resolve, disk, actions, i).Ok?
              && Reports(resolve, DiskAfter(resolve, disk, actions, i).value, actions[i], files[i])
    decreases k
  {
    var d := Done(disk, []);
    ApplyPrefix(resolve, d, actions, k);
    if k > 0 {
      PatchReports(resolve, disk, actions, k - 1);
      ApplyOne(resolve, d, actions, k - 1);
      ActionReports(resolve, ApplyActions(resolve, d, actions[..k - 1]).value, actions[k - 1]);
      var before := ApplyActions(resolve, d, actions[..k - 1]).value.files;
      var files := ApplyActions(resolve, d, actions[..k]).value.files;
      forall i | 0 <= i < k
        ensures DiskAfter(resolve, disk, actions, i).Ok?
                && Reports(resolve, DiskAfter(resolve, disk, actions, i).value, actions[i], files[i])
      {
        assert i < k - 1 ==> files[i] == before[i];
      }
    }
  }

  /** A patch fails exactly when one of its actions meets an obstacle on the disk the actions
      before it leave, and then with that obstacle. */
  lemma {:induction false} PatchFails(resolve: Resolver, disk: Disk, actions: seq<Action>, e: PatchError)
    ensures ApplyActions(resolve, Done(disk, []), actions) == Err(e) <==>
            exists k | 0 <= k < |actions| ::
              DiskAfter(resolve, disk, actions, k).Ok?
              && Obstacle(resolve, DiskAfter(resolve, disk, actions, k).value, actions[k]) == Some(e)
  {
    var d := Done(disk, []);
    if k :| 0 <= k < |actions| && DiskAfter(resolve, disk, actions, k).Ok?
            && Obstacle(resolve, DiskAfter(resolve, disk, actions, k).value, actions[k]) == Some(e) {
      FailsThere(resolve, d, actions, k);
    }
    if ApplyActions(resolve, d, actions) == Err(e) {
      var k := FailsSomewhere(resolve, d, actions);
      assert DiskAfter(resolve, disk, actions, k).Ok?;
    }
  }

  lemma {:induction false} FailsThere(resolve: Resolver, d: Done, actions: seq<Action>, k: nat)
    requires k < |actions| && ApplyActions(resolve, d, actions[..k]).Ok?
    requires Obstacle(resolve, ApplyActions(resolve, d, actions[..k]).value.disk, actions[k]).Some?
    ensures ApplyActions(resolve, d, actions) ==
            Err(Obstacle(resolve, ApplyActions(resolve, d, actions[..k]).value.disk, actions[k]).value)
  {
    ApplyPrefix(resolve, d, actions, k);
    assert actions[k..][0] == actions[k];
    ActionFails(resolve, ApplyActions(resolve, d, actions[..k]).value, actions[k]);
  }

  lemma {:induction false} FailsSomewhere(resolve: Resolver, d: Done, actions: seq<Action>) returns (k: nat)
    requires ApplyActions(resolve, d, actions).Err?
    ensures k < |actions| && ApplyActions(resolve, d, actions[..k]).Ok?
    ensures Obstacle(resolve, ApplyActions(resolve, d, actions[..k]).value.disk, actions[k]) ==
            Some(ApplyActions(resolve, d, actions).error)
    decreases |actions|
  {
    ActionFails(resolve, d, actions[0]);
    if Obstacle(resolve, d.disk, actions[0]).Some? {
      k := 0;
      assert actions[..0] == [];
    } else {
      var next := ApplyAction(resolve, d, actions[0]).value;
      var j := FailsSomewhere(resolve, next, actions[1..]);
      k := j + 1;
      assert actions[..k][0] == actions[0] && actions[..k][1..] == actions[1..][..j];
    }
  }
}
