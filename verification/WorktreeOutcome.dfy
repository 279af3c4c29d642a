/** What a prune reports, when, and what it leaves behind, and how a cleanup of many files its
    sessions: in terms of the worktrees before it and of the steps that failed. */
module WorktreeOutcome {
  import opened Options
  import opened Worktrees
  import opened WorktreeRecovery

  // --------------------------------------------------------------------- one prune

  /** A worktree as its HEAD commit has it, in its index and its files. */
  predicate AsCommitted(r: Repo, t: Worktree) {
    t.head in r.commits && r.commits[t.head].tree == t.index == t.files
  }

  /** What has to be kept of a worktree: its changes, or a HEAD commit that is not the base. */
  lemma KindMeaning(r: Repo, session: Session, t: Worktree)
    ensures KindOf(r, session, t) == Some(Stash) <==> !AsCommitted(r, t)
    ensures KindOf(r, session, t) == None <==> AsCommitted(r, t) && session.baseSha == Some(t.head)
  {
  }

  predicate ComesToRemoved(w: World, session: Session, steps: PruneSteps) {
    session.root in w.repo.worktrees && steps.mark
    && var t := w.repo.worktrees[session.root]; TakenAway(KindOf(w.repo, session, t), t, steps)
  }

  predicate ComesToMissing(w: World, session: Session, steps: PruneSteps) {
    session.root !in w.repo.worktrees && steps.checks && steps.delete
  }

  predicate ComesToSkipped(w: World, session: Session, steps: PruneSteps) {
    session.root in w.repo.worktrees && steps.checks && steps.status && w.repo.worktrees[session.root].untracked
  }

  /** What a prune of a session comes to. */
  function Expected(w: World, session: Session, steps: PruneSteps): PruneOutcome {
    if ComesToRemoved(w, session, steps) then Removed
    else if ComesToMissing(w, session, steps) then Missing
    else if ComesToSkipped(w, session, steps) then Skipped
    else PruneFailed
  }

  /** A prune reports a worktree removed exactly when everything up to marking its session went
      well, missing exactly when there was none and the session is deleted, skipped exactly for
      untracked files; everything else is a failure. */
  lemma PruneReports(w: World, id: SessionId, steps: PruneSteps, indexSha: Sha, filesSha: Sha)
    requires id in w.sessions
    ensures Prune(w, id, steps, indexSha, filesSha).1 == Expected(w, w.sessions[id], steps)
  {
  }

  /** What a prune leaves, by what it reports. A removed worktree is gone, its session pruned, with
      a recovery ref exactly when there is something to recover. A missing one loses its session and
      nothing else changes. A skipped one stays, and so does all else. After a failure the session
      is still there, active with the worktree's place as before or put back, or else pruned. */
  lemma PruneLeaves(w: World, id: SessionId, steps: PruneSteps, indexSha: Sha, filesSha: Sha)
    requires id in w.sessions
    ensures var session := w.sessions[id];
            var (w', outcome) := Prune(w, id, steps, indexSha, filesSha);
            match outcome
            case Removed =>
              && session.root in w.repo.worktrees
              && var kind := KindOf(w.repo, session, w.repo.worktrees[session.root]);
                 && w'.repo.worktrees == w.repo.worktrees - {session.root}
                 && w'.sessions == w.sessions[id := session.(status := Pruned, recoveryKind := kind)]
                 && (kind.None? ==> w'.repo.refs == w.repo.refs)
                 && (kind.Some? ==> RecoveryRef(id) in w'.repo.refs)
            case Missing => w' == w.(sessions := w.sessions - {id})
            case Skipped => w' == w
            case PruneFailed =>
              id in w'.sessions
              && (w'.sessions == w.sessions
                  || (w'.sessions[id].status.Pruned? && session.root in w.repo.worktrees
                      && w'.sessions[id].recoveryKind == KindOf(w.repo, session, w.repo.worktrees[session.root])))
  {
    var session := w.sessions[id];
    if session.root in w.repo.worktrees {
      var kind := KindOf(w.repo, session, w.repo.worktrees[session.root]);
      assert session.(status := Pruned, recoveryKind := kind) == session.(recoveryKind := kind).(status := Pruned);
    }
  }

  /** A restore with nothing to restore to, or no place to restore it, changes nothing. */
  lemma RestoreRefused(r: Repo, id: SessionId, session: Session, steps: RestoreSteps)
    requires
      || !session.managed || !steps.checks || !steps.add || session.root in r.worktrees
      || (session.recoveryKind.None? && session.baseSha.None?)
      || (session.recoveryKind == Some(Head) && RecoveryRef(id) !in r.refs)
      || (session.recoveryKind == Some(Stash) && !IsStash(r, RecoveryRef(id)))
    ensures Restore(r, id, session, steps) == Restored(r, false)
  {
  }

  // ------------------------------------------------------------------ a whole cleanup

  /** A list of a cleanup holds exactly the sessions that came to its outcome. */
  lemma {:induction false} HavingMeaning(stale: seq<SessionId>, outcomes: seq<PruneOutcome>, outcome: PruneOutcome, id: SessionId)
    requires |stale| == |outcomes|
    ensures id in Having(stale, outcomes, outcome) <==> exists k :: 0 <= k < |stale| && stale[k] == id && outcomes[k] == outcome
    decreases |stale|
  {
    if stale != [] {
      var n := |stale| - 1;
      HavingMeaning(stale[..n], outcomes[..n], outcome, id);
      FilingMeaning(Having(stale[..n], outcomes[..n], outcome), stale[n], outcomes[n] == outcome, id);
      if id in Having(stale[..n], outcomes[..n], outcome) {
        var k :| 0 <= k < n && stale[..n][k] == id && outcomes[..n][k] == outcome;
        assert stale[k] == id && outcomes[k] == outcome;
      }
      forall k | 0 <= k < n && stale[k] == id && outcomes[k] == outcome
        ensures id in Having(stale[..n], outcomes[..n], outcome)
      {
        assert stale[..n][k] == id && outcomes[..n][k] == outcome;
      }
    }
  }

  lemma FilingMeaning(ids: seq<SessionId>, last: SessionId, here: bool, id: SessionId)
    ensures id in Filing(ids, last, here) <==> id in ids || (here && id == last)
  {
  }

  /** What a prune comes to depends on its own session and worktree only. */
  lemma ExpectedStays(w: World, w': World, session: Session, steps: PruneSteps)
    requires session.root in w.repo.worktrees <==> session.root in w'.repo.worktrees
    requires session.root in w.repo.worktrees ==>
               var t := w.repo.worktrees[session.root];
               && w'.repo.worktrees[session.root] == t && t.head in w.repo.commits
               && t.head in w'.repo.commits && w'.repo.commits[t.head] == w.repo.commits[t.head]
    ensures Expected(w', session, steps) == Expected(w, session, steps)
  {
  }

  predicate HeadKnown(w: World, session: Session) {
    session.root in w.repo.worktrees ==> w.repo.worktrees[session.root].head in w.repo.commits
  }

  lemma OthersExpect(w: World, id: SessionId, run: PruneRun, other: SessionId, steps: PruneSteps)
    requires id in w.sessions && other in w.sessions && Fresh(w.repo, run.indexSha, run.filesSha)
    requires other != id && w.sessions[other].root != w.sessions[id].root && HeadKnown(w, w.sessions[other])
    ensures var w' := Prune(w, id, run.steps, run.indexSha, run.filesSha).0;
            && other in w'.sessions && w'.sessions[other] == w.sessions[other] && HeadKnown(w', w.sessions[other])
            && Expected(w', w.sessions[other], steps) == Expected(w, w.sessions[other], steps)
  {
    var w' := Prune(w, id, run.steps, run.indexSha, run.filesSha).0;
    PruneFrame(w, id, run.steps, run.indexSha, run.filesSha);
    ExpectedStays(w, w', w.sessions[other], steps);
  }

  lemma {:induction false} OutcomesFirst(w: World, stale: seq<SessionId>, runs: seq<PruneRun>)
    requires |stale| == |runs| && stale != [] && Apart(w.sessions, stale) && AllFresh(w.repo, runs)
    ensures Listed(w, stale)
    ensures var (w', outcome) := Prune(w, stale[0], runs[0].steps, runs[0].indexSha, runs[0].filesSha);
            && Apart(w'.sessions, stale[1..]) && AllFresh(w'.repo, runs[1..]) && Listed(w', stale[1..])
            && OutcomesOf(w, stale, runs) == [outcome] + OutcomesOf(w', stale[1..], runs[1..])
  {
    CleanupStep(w, stale, runs);
    ListedStays(w, stale, runs[0]);
  }

  /** In a cleanup of any number of sessions, each is filed under what its prune would have come to
      had it been the only one: no prune's failure, and no prune's success, changes another's. */
  lemma {:induction false} CleanupReports(w: World, stale: seq<SessionId>, runs: seq<PruneRun>, k: nat)
    requires |stale| == |runs| && k < |stale| && Apart(w.sessions, stale) && AllFresh(w.repo, runs)
    requires HeadKnown(w, w.sessions[stale[k]])
    ensures Listed(w, stale)
    ensures OutcomesOf(w, stale, runs)[k] == Expected(w, w.sessions[stale[k]], runs[k].steps)
    decreases |stale|
  {
    OutcomesFirst(w, stale, runs);
    if k == 0 {
      PruneReports(w, stale[0], runs[0].steps, runs[0].indexSha, runs[0].filesSha);
    } else {
      OthersExpect(w, stale[0], runs[0], stale[k], runs[k].steps);
      CleanupReports(Prune(w, stale[0], runs[0].steps, runs[0].indexSha, runs[0].filesSha).0, stale[1..], runs[1..], k - 1);
    }
  }
}
