/** Pruning managed worktrees and restoring them: git seen as commits, refs and worktrees, the
    sessions kept beside it, and any step free to fail without effect. */
module Worktrees {
  import opened Options

  type Sha = nat
  type Tree = map<string, string>
  type SessionId = string

  datatype Commit = Commit(tree: Tree, parents: seq<Sha>)

  /** A checked-out worktree: its HEAD commit, index and tracked files, and whether it has
      files git does not track. */
  datatype Worktree = Worktree(head: Sha, index: Tree, files: Tree, untracked: bool)

  datatype RecoveryKind = Stash | Head

  datatype Status = Active | Pruned

  datatype Session = Session(
    root: string,
    status: Status,
    managed: bool,
    baseSha: Option<Sha>,
    recoveryKind: Option<RecoveryKind>)

  datatype Repo = Repo(commits: map<Sha, Commit>, refs: map<string, Sha>, worktrees: map<string, Worktree>)

  datatype World = World(repo: Repo, sessions: map<SessionId, Session>)

  /** Which of the steps succeed; a step that does not leaves everything as it was. */
  datatype RestoreSteps = RestoreSteps(checks: bool, add: bool, apply: bool, remove: bool)
  datatype PruneSteps = PruneSteps(
    checks: bool, status: bool, revParse: bool, stash: bool, updateRef: bool, recheck: bool, remove: bool,
    mark: bool, restore: RestoreSteps, markAgain: bool, delete: bool)
  datatype ReopenSteps = ReopenSteps(restore: RestoreSteps, reactivate: bool, discard: bool)

  datatype PruneOutcome = Removed | Missing | Skipped | PruneFailed

  const RECOVERY := "refs/devspace/recovery/"

  function RecoveryRef(id: SessionId): string {
    RECOVERY + id
  }

  // ------------------------------------------------------------- git commands

  predicate Clean(r: Repo, t: Worktree) {
    t.head in r.commits && t.index == r.commits[t.head].tree && t.files == t.index
  }

  /** worktree add --detach: a clean checkout of a commit. */
  function AddWorktree(r: Repo, path: string, sha: Sha): Option<Repo> {
    if path in r.worktrees || sha !in r.commits then None
    else Some(r.(worktrees := r.worktrees[path := Worktree(sha, r.commits[sha].tree, r.commits[sha].tree, false)]))
  }

  function RemoveWorktree(r: Repo, path: string): Repo {
    r.(worktrees := r.worktrees - {path})
  }

  /** stash create: the index as a commit on HEAD, and the files as a commit on both. */
  function StashCreate(r: Repo, t: Worktree, indexSha: Sha, filesSha: Sha): Repo {
    r.(commits := r.commits[indexSha := Commit(t.index, [t.head])][filesSha := Commit(t.files, [t.head, indexSha])])
  }

  /** A stash commit a ref names, with the commits of its HEAD and its index. */
  predicate IsStash(r: Repo, ref: string) {
    && ref in r.refs && r.refs[ref] in r.commits
    && var parents := r.commits[r.refs[ref]].parents;
       |parents| == 2 && parents[0] in r.commits && parents[1] in r.commits
  }

  /** stash apply --index: the index and the files of the stash. */
  function StashApply(r: Repo, path: string, ref: string): Option<Repo> {
    if path !in r.worktrees || !IsStash(r, ref) then None
    else
      var stash := r.commits[r.refs[ref]];
      Some(r.(worktrees := r.worktrees[path :=
        r.worktrees[path].(index := r.commits[stash.parents[1]].tree, files := stash.tree)]))
  }

  /** The commit a session is restored to. */
  function RestoreSha(r: Repo, id: SessionId, session: Session): Option<Sha> {
    match session.recoveryKind
    case Some(Stash) => if IsStash(r, RecoveryRef(id)) then Some(r.commits[r.refs[RecoveryRef(id)]].parents[0]) else None
    case Some(Head) => if RecoveryRef(id) in r.refs then Some(r.refs[RecoveryRef(id)]) else None
    case None => session.baseSha
  }

  // ------------------------------------------------------------------ restoring

  datatype Restored = Restored(repo: Repo, ok: bool)

  /** restoreManagedWorktree. */
  function Restore(r: Repo, id: SessionId, session: Session, steps: RestoreSteps): Restored {
    var sha := RestoreSha(r, id, session);
    if !session.managed || sha.None? || !steps.checks || session.root in r.worktrees || !steps.add then Restored(r, false)
    else
      match AddWorktree(r, session.root, sha.value)
      case None => Restored(r, false)
      case Some(added) =>
        if session.recoveryKind != Some(Stash) then Restored(added, true)
        else
          match StashApply(added, session.root, RecoveryRef(id))
          case Some(applied) =>
            if steps.apply then Restored(applied, true)
            else if steps.remove then Restored(RemoveWorktree(added, session.root), false)
            else Restored(added, false)
          case None =>
            if steps.remove then Restored(RemoveWorktree(added, session.root), false) else Restored(added, false)
  }

  /** restorePrunedWorkspace: restore, reactivate, or take the restored worktree away again. */
  function Reopen(w: World, id: SessionId, steps: ReopenSteps): (World, bool)
    requires id in w.sessions
  {
    var session := w.sessions[id];
    var restored := Restore(w.repo, id, session, steps.restore);
    if !restored.ok then (w.(repo := restored.repo), false)
    else if steps.reactivate && session.status.Pruned? then
      (World(restored.repo, w.sessions[id := session.(status := Active, recoveryKind := None)]), true)
    else if steps.discard then (w.(repo := RemoveWorktree(restored.repo, session.root)), false)
    else (w.(repo := restored.repo), false)
  }

  // -------------------------------------------------------------------- pruning

  function MarkPruned(w: World, id: SessionId, kind: Option<RecoveryKind>): World {
    if id !in w.sessions then w
    else w.(sessions := w.sessions[id := w.sessions[id].(status := Pruned, recoveryKind := kind)])
  }

  /** What the recovery ref will hold, if anything: a stash of changes, or a commit that is
      not the base. */
  function KindOf(r: Repo, session: Session, t: Worktree): Option<RecoveryKind> {
    if !Clean(r, t) then Some(Stash)
    else if session.baseSha != Some(t.head) then Some(Head)
    else None
  }

  /** The recovery commit made and named: the repository before the worktree is removed. */
  function Recorded(r: Repo, id: SessionId, kind: Option<RecoveryKind>, t: Worktree, indexSha: Sha, filesSha: Sha): Repo {
    match kind
    case None => r
    case Some(Head) => r.(refs := r.refs[RecoveryRef(id) := t.head])
    case Some(Stash) =>
      var stashed := StashCreate(r, t, indexSha, filesSha);
      stashed.(refs := stashed.refs[RecoveryRef(id) := filesSha])
  }

  /** After the worktree is gone: mark the session, or put the worktree back. */
  function Settle(w: World, id: SessionId, kind: Option<RecoveryKind>, steps: PruneSteps): (World, PruneOutcome)
    requires id in w.sessions
  {
    if steps.mark then (MarkPruned(w, id, kind), Removed)
    else
      var restored := Restore(w.repo, id, w.sessions[id].(recoveryKind := kind), steps.restore);
      var w' := w.(repo := restored.repo);
      if !restored.ok && steps.markAgain then (MarkPruned(w', id, kind), PruneFailed) else (w', PruneFailed)
  }

  /** cleanupManagedWorktree. */
  function Prune(w: World, id: SessionId, steps: PruneSteps, indexSha: Sha, filesSha: Sha): (World, PruneOutcome)
    requires id in w.sessions
  {
    var session, r := w.sessions[id], w.repo;
    if !steps.checks then (w, PruneFailed)
    else if session.root !in r.worktrees then
      if steps.delete then (w.(sessions := w.sessions - {id}), Missing) else (w, PruneFailed)
    else
      var t := r.worktrees[session.root];
      if !steps.status then (w, PruneFailed)
      else if t.untracked then (w, Skipped)
      else
        var kind := KindOf(r, session, t);
        if !steps.revParse || (kind == Some(Stash) && !steps.stash) then (w, PruneFailed)
        else if kind.Some? && !steps.updateRef then
          (w.(repo := if kind == Some(Stash) then StashCreate(r, t, indexSha, filesSha) else r), PruneFailed)
        else
          var recorded := Recorded(r, id, kind, t, indexSha, filesSha);
          if !steps.recheck || !steps.remove then (w.(repo := recorded), PruneFailed)
          else Settle(w.(repo := RemoveWorktree(recorded, session.root)), id, kind, steps)
  }

  /** One prune of a cleanup: how its steps go, and the commits git would make. */
  datatype PruneRun = PruneRun(steps: PruneSteps, indexSha: Sha, filesSha: Sha)

  /** Every stale session in turn. */
  function PruneAll(w: World, stale: seq<SessionId>, runs: seq<PruneRun>): World
    requires |stale| == |runs|
    decreases |stale|
  {
    if stale == [] then w
    else if stale[0] !in w.sessions then PruneAll(w, stale[1..], runs[1..])
    else PruneAll(Prune(w, stale[0], runs[0].steps, runs[0].indexSha, runs[0].filesSha).0, stale[1..], runs[1..])
  }

  lemma {:induction false} PruneAllStep(w: World, stale: seq<SessionId>, runs: seq<PruneRun>, k: nat)
    requires |stale| == |runs| && k < |stale| && stale[k] in w.sessions
    ensures PruneAll(w, stale[k..], runs[k..]) ==
            PruneAll(Prune(w, stale[k], runs[k].steps, runs[k].indexSha, runs[k].filesSha).0, stale[k + 1..], runs[k + 1..])
  {
    assert stale[k..][0] == stale[k] && stale[k..][1..] == stale[k + 1..];
    assert runs[k..][0] == runs[k] && runs[k..][1..] == runs[k + 1..];
  }

  /** A prune leaves the other sessions alone. */
  lemma OtherSessionsStay(w: World, id: SessionId, steps: PruneSteps, indexSha: Sha, filesSha: Sha, other: SessionId)
    requires id in w.sessions && other != id
    ensures var w' := Prune(w, id, steps, indexSha, filesSha).0;
            && (other in w'.sessions <==> other in w.sessions)
            && (other in w.sessions ==> w'.sessions[other] == w.sessions[other])
  {
  }

  /** Sessions kept, each named once. */
  ghost predicate Listed(w: World, stale: seq<SessionId>) {
    && (forall k | 0 <= k < |stale| :: stale[k] in w.sessions)
    && (forall j, k | 0 <= j < k < |stale| :: stale[j] != stale[k])
  }

  lemma ListedStays(w: World, stale: seq<SessionId>, run: PruneRun)
    requires stale != [] && Listed(w, stale)
    ensures Listed(Prune(w, stale[0], run.steps, run.indexSha, run.filesSha).0, stale[1..])
  {
    forall k | 1 <= k < |stale|
      ensures stale[k] in Prune(w, stale[0], run.steps, run.indexSha, run.filesSha).0.sessions
    {
      OtherSessionsStay(w, stale[0], run.steps, run.indexSha, run.filesSha, stale[k]);
    }
  }

  /** What each prune of a cleanup comes to. */
  ghost function OutcomesOf(w: World, stale: seq<SessionId>, runs: seq<PruneRun>): (r: seq<PruneOutcome>)
    requires |stale| == |runs| && Listed(w, stale)
    ensures |r| == |stale|
    decreases |stale|
  {
    if stale == [] then []
    else
      ListedStays(w, stale, runs[0]);
      var (w', outcome) := Prune(w, stale[0], runs[0].steps, runs[0].indexSha, runs[0].filesSha);
      [outcome] + OutcomesOf(w', stale[1..], runs[1..])
  }

  function Filing(ids: seq<SessionId>, id: SessionId, here: bool): seq<SessionId> {
    ids + if here then [id] else []
  }

  /** The sessions whose prunes came to an outcome, in order. */
  function Having(stale: seq<SessionId>, outcomes: seq<PruneOutcome>, outcome: PruneOutcome): seq<SessionId>
    requires |stale| == |outcomes|
    decreases |stale|
  {
    if stale == [] then []
    else
      var n := |stale| - 1;
      Filing(Having(stale[..n], outcomes[..n], outcome), stale[n], outcomes[n] == outcome)
  }

  /** One prune done, the outcomes still to come are those of the rest. */
  lemma {:induction false} OutcomesStep(w: World, stale: seq<SessionId>, runs: seq<PruneRun>, k: nat)
    requires |stale| == |runs| && k < |stale| && Listed(w, stale[k..])
    ensures var (w', outcome) := Prune(w, stale[k], runs[k].steps, runs[k].indexSha, runs[k].filesSha);
            Listed(w', stale[k + 1..]) && OutcomesOf(w, stale[k..], runs[k..]) == [outcome] + OutcomesOf(w', stale[k + 1..], runs[k + 1..])
  {
    assert stale[k..][0] == stale[k] && stale[k..][1..] == stale[k + 1..];
    assert runs[k..][0] == runs[k] && runs[k..][1..] == runs[k + 1..];
    ListedStays(w, stale[k..], runs[k]);
  }

  lemma {:induction false} HavingStep(stale: seq<SessionId>, outcomes: seq<PruneOutcome>, k: nat, last: PruneOutcome, outcome: PruneOutcome)
    requires |outcomes| == k < |stale|
    ensures Having(stale[..k + 1], outcomes + [last], outcome) ==
            Filing(Having(stale[..k], outcomes, outcome), stale[k], last == outcome)
  {
    assert stale[..k + 1][..k] == stale[..k] && (outcomes + [last])[..k] == outcomes;
  }

  /** Every session filed under what its prune came to. */
  predicate FiledAs(stale: seq<SessionId>, outcomes: seq<PruneOutcome>,
                    removed: seq<SessionId>, missing: seq<SessionId>, skipped: seq<SessionId>, failed: seq<SessionId>)
    requires |stale| == |outcomes|
  {
    && removed == Having(stale, outcomes, Removed) && missing == Having(stale, outcomes, Missing)
    && skipped == Having(stale, outcomes, Skipped) && failed == Having(stale, outcomes, PruneFailed)
  }

  lemma FiledOnce(outcome: PruneOutcome, id: SessionId, removed: seq<SessionId>, missing: seq<SessionId>,
                  skipped: seq<SessionId>, failed: seq<SessionId>)
    ensures multiset(Filing(removed, id, outcome == Removed)) + multiset(Filing(missing, id, outcome == Missing))
            + multiset(Filing(skipped, id, outcome == Skipped)) + multiset(Filing(failed, id, outcome == PruneFailed)) ==
            multiset(removed) + multiset(missing) + multiset(skipped) + multiset(failed) + multiset{id}
  {
  }

  /** Every session is filed exactly once. */
  lemma {:induction false} HavingAddUp(stale: seq<SessionId>, outcomes: seq<PruneOutcome>)
    requires |stale| == |outcomes|
    ensures multiset(Having(stale, outcomes, Removed)) + multiset(Having(stale, outcomes, Missing))
            + multiset(Having(stale, outcomes, Skipped)) + multiset(Having(stale, outcomes, PruneFailed)) == multiset(stale)
    decreases |stale|
  {
    if stale != [] {
      var n := |stale| - 1;
      var before, prior := stale[..n], outcomes[..n];
      HavingAddUp(before, prior);
      FiledOnce(outcomes[n], stale[n], Having(before, prior, Removed), Having(before, prior, Missing),
                Having(before, prior, Skipped), Having(before, prior, PruneFailed));
      assert stale == before + [stale[n]];
    }
  }

  // ------------------------------------------------------ the code, step by step

  class Host {
    var commits: map<Sha, Commit>
    var refs: map<string, Sha>
    var worktrees: map<string, Worktree>
    var sessions: map<SessionId, Session>

    function Disk(): Repo
      reads this
    {
      Repo(commits, refs, worktrees)
    }

    function State(): World
      reads this
    {
      World(Disk(), sessions)
    }

    method RestoreManagedWorktree(id: SessionId, session: Session, steps: RestoreSteps) returns (ok: bool)
      modifies this
      ensures sessions == old(sessions) && Restored(Disk(), ok) == Restore(old(Disk()), id, session, steps)
    {
      var sha := RestoreSha(Disk(), id, session);
      if !session.managed || sha.None? {
        return false;
      }
      if !steps.checks || session.root in worktrees {
        return false;
      }
      if !steps.add || sha.value !in commits {
        return false;
      }
      worktrees := worktrees[session.root := Worktree(sha.value, commits[sha.value].tree, commits[sha.value].tree, false)];
      if session.recoveryKind == Some(Stash) {
        var applied := StashApply(Disk(), session.root, RecoveryRef(id));
        if !steps.apply || applied.None? {
          if steps.remove {
            worktrees := worktrees - {session.root};
          }
          return false;
        }
        worktrees := applied.value.worktrees;
      }
      return true;
    }

    method RestorePrunedWorkspace(id: SessionId, steps: ReopenSteps) returns (ok: bool)
      requires id in sessions
      modifies this
      ensures (State(), ok) == Reopen(old(State()), id, steps)
    {
      var session := sessions[id];
      var restored := RestoreManagedWorktree(id, session, steps.restore);
      if !restored {
        return false;
      }
      if steps.reactivate && session.status.Pruned? {
        sessions := sessions[id := session.(status := Active, recoveryKind := None)];
        return true;
      }
      if steps.discard {
        worktrees := worktrees - {session.root};
      }
      return false;
    }

    method MarkSessionPruned(id: SessionId, kind: Option<RecoveryKind>, ok: bool)
      modifies this
      ensures State() == if ok then MarkPruned(old(State()), id, kind) else old(State())
    {
      if ok && id in sessions {
        sessions := sessions[id := sessions[id].(status := Pruned, recoveryKind := kind)];
      }
    }

    method CleanupManagedWorktree(id: SessionId, steps: PruneSteps, indexSha: Sha, filesSha: Sha) returns (outcome: PruneOutcome)
      requires id in sessions
      modifies this
      ensures (State(), outcome) == Prune(old(State()), id, steps, indexSha, filesSha)
    {
      var session := sessions[id];
      if !steps.checks {
        return PruneFailed;
      }
      if session.root !in worktrees {
        if !steps.delete {
          return PruneFailed;
        }
        sessions := sessions - {id};
        return Missing;
      }
      var t := worktrees[session.root];
      if !steps.status {
        return PruneFailed;
      }
      if t.untracked {
        return Skipped;
      }
      if !steps.revParse {
        return PruneFailed;
      }
      var kind: Option<RecoveryKind> := None;
      var recoverySha := t.head;
      if !Clean(Disk(), t) {
        if !steps.stash {
          return PruneFailed;
        }
        commits := commits[indexSha := Commit(t.index, [t.head])][filesSha := Commit(t.files, [t.head, indexSha])];
        kind, recoverySha := Some(Stash), filesSha;
      } else if session.baseSha != Some(t.head) {
        kind := Some(Head);
      }
      if kind.Some? {
        if !steps.updateRef {
          return PruneFailed;
        }
        refs := refs[RecoveryRef(id) := recoverySha];
      }
      if !steps.recheck || !steps.remove {
        return PruneFailed;
      }
      worktrees := worktrees - {session.root};
      if steps.mark {
        MarkSessionPruned(id, kind, true);
        return Removed;
      }
      var restored := RestoreManagedWorktree(id, session.(recoveryKind := kind), steps.restore);
      if !restored {
        MarkSessionPruned(id, kind, steps.markAgain);
      }
      return PruneFailed;
    }

    /** cleanupManagedWorktrees: one session's failure does not stop the others, and every session
        is filed under what its prune came to. */
    method CleanupManagedWorktrees(stale: seq<SessionId>, runs: seq<PruneRun>)
      returns (removed: seq<SessionId>, missing: seq<SessionId>, skipped: seq<SessionId>, failed: seq<SessionId>)
      requires |stale| == |runs| && Listed(State(), stale)
      modifies this
      ensures State() == PruneAll(old(State()), stale, runs)
      ensures multiset(removed) + multiset(missing) + multiset(skipped) + multiset(failed) == multiset(stale)
      ensures FiledAs(stale, old(OutcomesOf(State(), stale, runs)), removed, missing, skipped, failed)
    {
      removed, missing, skipped, failed := [], [], [], [];
      ghost var done: seq<PruneOutcome> := [];
      assert stale[0..] == stale && runs[0..] == runs;
      for k := 0 to |stale|
        invariant |done| == k && Listed(State(), stale[k..])
        invariant old(OutcomesOf(State(), stale, runs)) == done + OutcomesOf(State(), stale[k..], runs[k..])
        invariant PruneAll(old(State()), stale, runs) == PruneAll(State(), stale[k..], runs[k..])
        invariant FiledAs(stale[..k], done, removed, missing, skipped, failed)
      {
        assert stale[k] == stale[k..][0];
        PruneAllStep(State(), stale, runs, k);
        OutcomesStep(State(), stale, runs, k);
        var outcome := CleanupManagedWorktree(stale[k], runs[k].steps, runs[k].indexSha, runs[k].filesSha);
        removed, missing, skipped, failed := Filed(outcome, stale, k, done, removed, missing, skipped, failed);
        done := done + [outcome];
      }
      assert stale[|stale|..] == [] && stale[..|stale|] == stale;
      assert done == old(OutcomesOf(State(), stale, runs));
      HavingAddUp(stale, done);
    }
  }

  /** The list of an outcome gains the session. */
  method Filed(outcome: PruneOutcome, stale: seq<SessionId>, k: nat, ghost done: seq<PruneOutcome>,
               removed: seq<SessionId>, missing: seq<SessionId>, skipped: seq<SessionId>, failed: seq<SessionId>)
    returns (removed': seq<SessionId>, missing': seq<SessionId>, skipped': seq<SessionId>, failed': seq<SessionId>)
    requires |done| == k < |stale| && FiledAs(stale[..k], done, removed, missing, skipped, failed)
    ensures FiledAs(stale[..k + 1], done + [outcome], removed', missing', skipped', failed')
  {
    HavingStep(stale, done, k, outcome, Removed);
    HavingStep(stale, done, k, outcome, Missing);
    HavingStep(stale, done, k, outcome, Skipped);
    HavingStep(stale, done, k, outcome, PruneFailed);
    removed', missing', skipped', failed' := removed, missing, skipped, failed;
    match outcome {
      case Removed => removed' := removed + [stale[k]];
      case Missing => missing' := missing + [stale[k]];
      case Skipped => skipped' := skipped + [stale[k]];
      case PruneFailed => failed' := failed + [stale[k]];
    }
  }
}
