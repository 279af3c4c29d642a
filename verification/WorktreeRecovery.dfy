/** Pruning and restoring are inverse, and whatever steps fail, the tracked state of a
    worktree stays on disk, in the recovery ref, or is the base commit itself. */
module WorktreeRecovery {
  import opened Options
  import opened Worktrees

  // ------------------------------------------------------- where a state can be

  predicate SameTracked(a: Worktree, b: Worktree) {
    a.head == b.head && a.index == b.index && a.files == b.files
  }

  predicate OnDisk(r: Repo, session: Session, t: Worktree) {
    session.root in r.worktrees && SameTracked(r.worktrees[session.root], t)
  }

  /** Where a recovery kind says to look for a state. */
  predicate Leads(r: Repo, id: SessionId, baseSha: Option<Sha>, kind: Option<RecoveryKind>, t: Worktree) {
    match kind
    case None => baseSha == Some(t.head) && Clean(r, t)
    case Some(Head) => RecoveryRef(id) in r.refs && r.refs[RecoveryRef(id)] == t.head && Clean(r, t)
    case Some(Stash) =>
      && IsStash(r, RecoveryRef(id))
      && var stash := r.commits[r.refs[RecoveryRef(id)]];
         stash.parents[0] == t.head && r.commits[stash.parents[1]].tree == t.index && stash.tree == t.files
  }

  predicate Recoverable(r: Repo, id: SessionId, session: Session, t: Worktree) {
    || OnDisk(r, session, t)
    || Leads(r, id, session.baseSha, Some(Stash), t)
    || Leads(r, id, session.baseSha, Some(Head), t)
    || Leads(r, id, session.baseSha, None, t)
  }

  predicate Fresh(r: Repo, indexSha: Sha, filesSha: Sha) {
    indexSha !in r.commits && filesSha !in r.commits && indexSha != filesSha
  }

  /** An active session whose worktree is there. */
  predicate Open(w: World, id: SessionId) {
    && id in w.sessions && w.sessions[id].status.Active? && w.sessions[id].managed
    && w.sessions[id].root in w.repo.worktrees
    && w.repo.worktrees[w.sessions[id].root].head in w.repo.commits
  }

  // ----------------------------------------------------------------- recording

  /** The recovery commit leads back to the state it was made from. */
  lemma RecordedLeads(r: Repo, id: SessionId, session: Session, t: Worktree, indexSha: Sha, filesSha: Sha)
    requires t.head in r.commits && Fresh(r, indexSha, filesSha)
    ensures var kind := KindOf(r, session, t);
            Leads(Recorded(r, id, kind, t, indexSha, filesSha), id, session.baseSha, kind, t)
  {
  }

  /** Commits that are kept, with the same ref, lead where they led. */
  lemma LeadsKept(r: Repo, r': Repo, id: SessionId, baseSha: Option<Sha>, kind: Option<RecoveryKind>, t: Worktree)
    requires Leads(r, id, baseSha, kind, t)
    requires forall c | c in r.commits :: c in r'.commits && r'.commits[c] == r.commits[c]
    requires RecoveryRef(id) in r.refs ==> RecoveryRef(id) in r'.refs && r'.refs[RecoveryRef(id)] == r.refs[RecoveryRef(id)]
    ensures Leads(r', id, baseSha, kind, t)
  {
  }

  // ----------------------------------------------------------------- restoring

  predicate RestoreWorks(kind: Option<RecoveryKind>, steps: RestoreSteps) {
    steps.checks && steps.add && (kind == Some(Stash) ==> steps.apply)
  }

  /** The checkout is made, the stash is not applied, and the checkout is not taken away. */
  predicate LeavesPartial(kind: Option<RecoveryKind>, steps: RestoreSteps) {
    kind == Some(Stash) && steps.checks && steps.add && !steps.apply && !steps.remove
  }

  /** What a restore of a state comes to, whichever of its steps fail. */
  lemma RestoreMeaning(r: Repo, id: SessionId, session: Session, steps: RestoreSteps, t: Worktree)
    requires session.managed && session.root !in r.worktrees && t.head in r.commits
    requires Leads(r, id, session.baseSha, session.recoveryKind, t)
    ensures var restored := Restore(r, id, session, steps);
            && restored.ok == RestoreWorks(session.recoveryKind, steps)
            && restored.repo.commits == r.commits && restored.repo.refs == r.refs
            && restored.repo.worktrees ==
               (if restored.ok then r.worktrees[session.root := t.(untracked := false)]
                else if LeavesPartial(session.recoveryKind, steps) then
                  r.worktrees[session.root := Worktree(t.head, r.commits[t.head].tree, r.commits[t.head].tree, false)]
                else r.worktrees)
  {
    assert RestoreSha(r, id, session) == Some(t.head);
    var tree := r.commits[t.head].tree;
    var checkout := Worktree(t.head, tree, tree, false);
    var added := r.(worktrees := r.worktrees[session.root := checkout]);
    assert AddWorktree(r, session.root, t.head) == Some(added);
    assert added.worktrees - {session.root} == r.worktrees;
    if session.recoveryKind == Some(Stash) {
      assert StashApply(added, session.root, RecoveryRef(id)) ==
             Some(added.(worktrees := added.worktrees[session.root := t.(untracked := false)]));
      assert added.worktrees[session.root := t.(untracked := false)] == r.worktrees[session.root := t.(untracked := false)];
    }
  }

  // ----------------------------------------------------------- a whole prune

  /** Everything before the session is marked went well. */
  predicate TakenAway(kind: Option<RecoveryKind>, t: Worktree, steps: PruneSteps) {
    && steps.checks && steps.status && !t.untracked && steps.revParse
    && (kind == Some(Stash) ==> steps.stash) && (kind.Some? ==> steps.updateRef)
    && steps.recheck && steps.remove
  }

  /** The prune of an open session: either its worktree stays, or it goes with the recovery
      commit recorded and the session is settled afterwards. */
  lemma PruneMeaning(w: World, id: SessionId, steps: PruneSteps, indexSha: Sha, filesSha: Sha)
    requires Open(w, id) && Fresh(w.repo, indexSha, filesSha)
    ensures var session := w.sessions[id];
            var t := w.repo.worktrees[session.root];
            var kind := KindOf(w.repo, session, t);
            var (w', outcome) := Prune(w, id, steps, indexSha, filesSha);
            if TakenAway(kind, t, steps) then
              var gone := RemoveWorktree(Recorded(w.repo, id, kind, t, indexSha, filesSha), session.root);
              && (w', outcome) == Settle(w.(repo := gone), id, kind, steps)
              && Leads(gone, id, session.baseSha, kind, t) && t.head in gone.commits && session.root !in gone.worktrees
            else
              && w'.sessions == w.sessions && w'.repo.worktrees == w.repo.worktrees
              && (outcome.Skipped? || outcome.PruneFailed?)
  {
    var session := w.sessions[id];
    var t := w.repo.worktrees[session.root];
    var kind := KindOf(w.repo, session, t);
    RecordedLeads(w.repo, id, session, t, indexSha, filesSha);
    var recorded := Recorded(w.repo, id, kind, t, indexSha, filesSha);
    LeadsKept(recorded, RemoveWorktree(recorded, session.root), id, session.baseSha, kind, t);
  }

  lemma SettleMeaning(w: World, id: SessionId, kind: Option<RecoveryKind>, steps: PruneSteps, t: Worktree)
    requires id in w.sessions && w.sessions[id].managed && w.sessions[id].root !in w.repo.worktrees && t.head in w.repo.commits
    requires Leads(w.repo, id, w.sessions[id].baseSha, kind, t)
    ensures var session := w.sessions[id];
            var (w', outcome) := Settle(w, id, kind, steps);
            && id in w'.sessions && w'.sessions[id].root == session.root && w'.sessions[id].baseSha == session.baseSha
            && w'.repo.commits == w.repo.commits && w'.repo.refs == w.repo.refs
            && Leads(w'.repo, id, session.baseSha, kind, t)
  {
    var session := w.sessions[id].(recoveryKind := kind);
    RestoreMeaning(w.repo, id, session, steps.restore, t);
    var w' := Settle(w, id, kind, steps).0;
    LeadsKept(w.repo, w'.repo, id, session.baseSha, kind, t);
  }

  /** Whichever steps of a prune fail, its compensation included, the tracked state it began
      with is on disk, in the recovery ref, or is the base commit. */
  lemma PruneLosesNothing(w: World, id: SessionId, steps: PruneSteps, indexSha: Sha, filesSha: Sha)
    requires Open(w, id) && Fresh(w.repo, indexSha, filesSha)
    ensures var w' := Prune(w, id, steps, indexSha, filesSha).0;
            && id in w'.sessions
            && w'.sessions[id].root == w.sessions[id].root && w'.sessions[id].baseSha == w.sessions[id].baseSha
            && Recoverable(w'.repo, id, w'.sessions[id], w.repo.worktrees[w.sessions[id].root])
  {
    var session := w.sessions[id];
    var t := w.repo.worktrees[session.root];
    var kind := KindOf(w.repo, session, t);
    PruneMeaning(w, id, steps, indexSha, filesSha);
    if TakenAway(kind, t, steps) {
      var gone := RemoveWorktree(Recorded(w.repo, id, kind, t, indexSha, filesSha), session.root);
      SettleMeaning(w.(repo := gone), id, kind, steps, t);
    }
  }

  // ------------------------------------------------------------ round trip

  /** A session that says where its worktree's state is: on disk while active, and while
      pruned where its recovery kind leads. */
  predicate Settled(w: World, id: SessionId, t: Worktree) {
    && id in w.sessions && w.sessions[id].managed
    && var session := w.sessions[id];
       if session.status.Active? then OnDisk(w.repo, session, t)
       else
         session.root !in w.repo.worktrees && t.head in w.repo.commits
         && Leads(w.repo, id, session.baseSha, session.recoveryKind, t)
  }

  /** The compensation went wrong so far that the session no longer says where its state is. */
  predicate Strands(kind: Option<RecoveryKind>, steps: PruneSteps) {
    && !steps.mark && !RestoreWorks(kind, steps.restore)
    && (!steps.markAgain || LeavesPartial(kind, steps.restore))
  }

  lemma SettleSettles(w: World, id: SessionId, kind: Option<RecoveryKind>, steps: PruneSteps, t: Worktree)
    requires id in w.sessions && w.sessions[id].managed && w.sessions[id].status.Active?
    requires w.sessions[id].root !in w.repo.worktrees && t.head in w.repo.commits
    requires Leads(w.repo, id, w.sessions[id].baseSha, kind, t) && (kind == Some(Stash) ==> !Clean(w.repo, t))
    ensures Settled(Settle(w, id, kind, steps).0, id, t) <==> !Strands(kind, steps)
  {
    var session := w.sessions[id].(recoveryKind := kind);
    RestoreMeaning(w.repo, id, session, steps.restore, t);
    var w' := Settle(w, id, kind, steps).0;
    LeadsKept(w.repo, w'.repo, id, session.baseSha, kind, t);
  }

  /** A prune leaves its session settled exactly unless marking it fails, putting the worktree
      back fails too, and then the second marking fails or half a worktree is left behind. */
  lemma PruneSettles(w: World, id: SessionId, steps: PruneSteps, indexSha: Sha, filesSha: Sha)
    requires Open(w, id) && Fresh(w.repo, indexSha, filesSha)
    ensures var session := w.sessions[id];
            var t := w.repo.worktrees[session.root];
            var kind := KindOf(w.repo, session, t);
            Settled(Prune(w, id, steps, indexSha, filesSha).0, id, t) <==>
            !(TakenAway(kind, t, steps) && Strands(kind, steps))
  {
    var session := w.sessions[id];
    var t := w.repo.worktrees[session.root];
    var kind := KindOf(w.repo, session, t);
    PruneMeaning(w, id, steps, indexSha, filesSha);
    if TakenAway(kind, t, steps) {
      var gone := RemoveWorktree(Recorded(w.repo, id, kind, t, indexSha, filesSha), session.root);
      SettleSettles(w.(repo := gone), id, kind, steps, t);
    }
  }

  function Fault(ok: bool): nat {
    if ok then 0 else 1
  }

  function Faults(steps: PruneSteps): nat {
    Fault(steps.checks) + Fault(steps.status) + Fault(steps.revParse) + Fault(steps.stash) + Fault(steps.updateRef)
    + Fault(steps.recheck) + Fault(steps.remove) + Fault(steps.mark) + Fault(steps.markAgain) + Fault(steps.delete)
    + Fault(steps.restore.checks) + Fault(steps.restore.add) + Fault(steps.restore.apply) + Fault(steps.restore.remove)
  }

  /** So any two failures in one prune do no harm. */
  lemma TwoFaultsAreHarmless(w: World, id: SessionId, steps: PruneSteps, indexSha: Sha, filesSha: Sha)
    requires Open(w, id) && Fresh(w.repo, indexSha, filesSha) && Faults(steps) <= 2
    ensures Settled(Prune(w, id, steps, indexSha, filesSha).0, id, w.repo.worktrees[w.sessions[id].root])
  {
    PruneSettles(w, id, steps, indexSha, filesSha);
  }

  /** Opening a pruned workspace again: it is back with its HEAD commit, index and tracked
      changes exactly when no step fails that is needed for it. Otherwise it is as it was,
      or its state is at least on disk or in the recovery ref. */
  lemma ReopenMeaning(w: World, id: SessionId, steps: ReopenSteps, t: Worktree)
    requires Settled(w, id, t) && w.sessions[id].status.Pruned?
    ensures var session := w.sessions[id];
            var (w', ok) := Reopen(w, id, steps);
            && (ok <==> RestoreWorks(session.recoveryKind, steps.restore) && steps.reactivate)
            && (ok ==> w'.sessions[id].status.Active? && w'.sessions[id].recoveryKind.None? && OnDisk(w'.repo, session, t))
            && Recoverable(w'.repo, id, session, t)
            && (Settled(w', id, t) <==>
                  ok || (if RestoreWorks(session.recoveryKind, steps.restore) then steps.discard
                         else !LeavesPartial(session.recoveryKind, steps.restore)))
  {
    var session := w.sessions[id];
    RestoreMeaning(w.repo, id, session, steps.restore, t);
    var w' := Reopen(w, id, steps).0;
    assert RestoreWorks(session.recoveryKind, steps.restore) ==>
             w.repo.worktrees[session.root := t.(untracked := false)] - {session.root} == w.repo.worktrees;
    LeadsKept(w.repo, w'.repo, id, session.baseSha, session.recoveryKind, t);
  }

  const NOTHING_FAILS := RestoreSteps(true, true, true, true)

  /** Prune, then open again: the worktree is back exactly. */
  lemma PruneThenReopen(w: World, id: SessionId, steps: PruneSteps, indexSha: Sha, filesSha: Sha, again: ReopenSteps)
    requires Open(w, id) && Fresh(w.repo, indexSha, filesSha)
    requires Prune(w, id, steps, indexSha, filesSha).1.Removed?
    requires again.restore == NOTHING_FAILS && again.reactivate
    ensures var pruned := Prune(w, id, steps, indexSha, filesSha).0;
            && id in pruned.sessions
            && var (w', ok) := Reopen(pruned, id, again);
               && ok && w'.sessions == w.sessions[id := w.sessions[id].(recoveryKind := None)]
               && OnDisk(w'.repo, w.sessions[id], w.repo.worktrees[w.sessions[id].root])
  {
    var session := w.sessions[id];
    var t := w.repo.worktrees[session.root];
    PruneSettles(w, id, steps, indexSha, filesSha);
    PruneMeaning(w, id, steps, indexSha, filesSha);
    var pruned := Prune(w, id, steps, indexSha, filesSha).0;
    ReopenMeaning(pruned, id, again, t);
  }

  // ------------------------------------------------------- what a prune touches

  lemma RefsDiffer(a: SessionId, b: SessionId)
    requires a != b
    ensures RecoveryRef(a) != RecoveryRef(b)
  {
    assert RecoveryRef(a)[|RECOVERY|..] == a && RecoveryRef(b)[|RECOVERY|..] == b;
  }

  /** Commits and refs: none is forgotten but the session's own ref, and only fresh ones come. */
  ghost predicate RepoFrame(r: Repo, r': Repo, id: SessionId, root: string, indexSha: Sha, filesSha: Sha) {
    && (forall c | c in r.commits :: c in r'.commits && r'.commits[c] == r.commits[c])
    && (forall c | c in r'.commits :: c in r.commits || c == indexSha || c == filesSha)
    && (forall ref | ref != RecoveryRef(id) ::
          (ref in r'.refs <==> ref in r.refs) && (ref in r.refs ==> r'.refs[ref] == r.refs[ref]))
    && (forall path | path != root ::
          (path in r'.worktrees <==> path in r.worktrees) && (path in r.worktrees ==> r'.worktrees[path] == r.worktrees[path]))
  }

  lemma RestoreFrame(r: Repo, id: SessionId, session: Session, steps: RestoreSteps)
    ensures var r' := Restore(r, id, session, steps).repo;
            && r'.commits == r.commits && r'.refs == r.refs
            && forall path | path != session.root ::
                 (path in r'.worktrees <==> path in r.worktrees) && (path in r.worktrees ==> r'.worktrees[path] == r.worktrees[path])
  {
  }

  lemma RecordedFrame(r: Repo, id: SessionId, kind: Option<RecoveryKind>, t: Worktree, root: string, indexSha: Sha, filesSha: Sha)
    requires Fresh(r, indexSha, filesSha)
    ensures RepoFrame(r, Recorded(r, id, kind, t, indexSha, filesSha), id, root, indexSha, filesSha)
  {
  }

  /** A prune touches its own worktree, ref and session only, and forgets no commit. */
  lemma PruneFrame(w: World, id: SessionId, steps: PruneSteps, indexSha: Sha, filesSha: Sha)
    requires id in w.sessions && Fresh(w.repo, indexSha, filesSha)
    ensures var w' := Prune(w, id, steps, indexSha, filesSha).0;
            && RepoFrame(w.repo, w'.repo, id, w.sessions[id].root, indexSha, filesSha)
            && forall other | other != id ::
                 (other in w'.sessions <==> other in w.sessions)
                 && (other in w.sessions ==> w'.sessions[other] == w.sessions[other])
  {
    var session := w.sessions[id];
    forall other | other != id
      ensures var w' := Prune(w, id, steps, indexSha, filesSha).0;
              (other in w'.sessions <==> other in w.sessions)
              && (other in w.sessions ==> w'.sessions[other] == w.sessions[other])
    {
      OtherSessionsStay(w, id, steps, indexSha, filesSha, other);
    }
    if session.root in w.repo.worktrees {
      var t := w.repo.worktrees[session.root];
      var kind := KindOf(w.repo, session, t);
      var recorded := Recorded(w.repo, id, kind, t, indexSha, filesSha);
      RecordedFrame(w.repo, id, kind, t, session.root, indexSha, filesSha);
      RestoreFrame(RemoveWorktree(recorded, session.root), id, session.(recoveryKind := kind), steps.restore);
    }
  }

  /** Where another session's state can be found stays a place it can be found. */
  lemma OthersStayRecoverable(w: World, id: SessionId, steps: PruneSteps, indexSha: Sha, filesSha: Sha,
                              other: SessionId, session: Session, t: Worktree)
    requires id in w.sessions && Fresh(w.repo, indexSha, filesSha)
    requires other != id && session.root != w.sessions[id].root
    requires Recoverable(w.repo, other, session, t)
    ensures Recoverable(Prune(w, id, steps, indexSha, filesSha).0.repo, other, session, t)
  {
    var w' := Prune(w, id, steps, indexSha, filesSha).0;
    RefsDiffer(id, other);
    PruneFrame(w, id, steps, indexSha, filesSha);
    var kinds := [Some(Stash), Some(Head), None];
    forall k | 0 <= k < 3 && Leads(w.repo, other, session.baseSha, kinds[k], t)
      ensures Leads(w'.repo, other, session.baseSha, kinds[k], t)
    {
      LeadsKept(w.repo, w'.repo, other, session.baseSha, kinds[k], t);
    }
    assert kinds[0] == Some(Stash) && kinds[1] == Some(Head) && kinds[2] == None;
  }

  // ------------------------------------------------------------ two prunes

  /** The first prune left a checkout without the changes behind, and the second one takes it
      for the real worktree: it names the checkout's HEAD in the recovery ref, over the changes. */
  predicate Forgets(kind: Option<RecoveryKind>, baseSha: Option<Sha>, t: Worktree, first: PruneSteps, second: PruneSteps) {
    && TakenAway(kind, t, first) && !first.mark && LeavesPartial(kind, first.restore)
    && baseSha != Some(t.head)
    && second.checks && second.status && second.revParse && second.updateRef
  }

  lemma SameRecoverable(r: Repo, id: SessionId, session: Session, a: Worktree, b: Worktree)
    requires SameTracked(a, b)
    ensures Recoverable(r, id, session, a) <==> Recoverable(r, id, session, b)
  {
  }

  /** A prune of a session whose worktree holds the state, whatever it looked like before. */
  lemma PruneOfCopy(w: World, id: SessionId, steps: PruneSteps, indexSha: Sha, filesSha: Sha, t: Worktree)
    requires Open(w, id) && Fresh(w.repo, indexSha, filesSha)
    requires OnDisk(w.repo, w.sessions[id], t)
    ensures Recoverable(Prune(w, id, steps, indexSha, filesSha).0.repo, id, w.sessions[id], t)
  {
    var copy := w.repo.worktrees[w.sessions[id].root];
    var w' := Prune(w, id, steps, indexSha, filesSha).0;
    PruneLosesNothing(w, id, steps, indexSha, filesSha);
    SameRecoverable(w'.repo, id, w.sessions[id], copy, t);
  }

  /** A prune of a checkout left behind, its HEAD's changes in the recovery ref. */
  lemma PruneOfPartial(w: World, id: SessionId, steps: PruneSteps, indexSha: Sha, filesSha: Sha, t: Worktree)
    requires Open(w, id) && Fresh(w.repo, indexSha, filesSha)
    requires t.head in w.repo.commits && !Clean(w.repo, t) && Leads(w.repo, id, w.sessions[id].baseSha, Some(Stash), t)
    requires var tree := w.repo.commits[t.head].tree;
             w.repo.worktrees[w.sessions[id].root] == Worktree(t.head, tree, tree, false)
    requires var parents := w.repo.commits[t.head].parents; parents == [] || parents[0] != t.head
    ensures Recoverable(Prune(w, id, steps, indexSha, filesSha).0.repo, id, w.sessions[id], t) <==>
            !(w.sessions[id].baseSha != Some(t.head) && steps.checks && steps.status && steps.revParse && steps.updateRef)
  {
    var session := w.sessions[id];
    var partial := w.repo.worktrees[session.root];
    var kind := KindOf(w.repo, session, partial);
    var recorded := Recorded(w.repo, id, kind, partial, indexSha, filesSha);
    var gone := RemoveWorktree(recorded, session.root);
    RestoreFrame(gone, id, session.(recoveryKind := kind), steps.restore);
    PruneMeaning(w, id, steps, indexSha, filesSha);
    if TakenAway(kind, partial, steps) {
      RestoreMeaning(gone, id, session.(recoveryKind := kind), steps.restore, partial);
    }
  }

  /** Two prunes in a row, whichever of their steps fail: the tracked state is recoverable
      afterwards exactly unless the second one forgets what the first one recorded. */
  lemma TwoPrunes(w: World, id: SessionId, first: PruneSteps, indexSha: Sha, filesSha: Sha,
                  second: PruneSteps, indexSha': Sha, filesSha': Sha)
    requires Open(w, id) && Fresh(w.repo, indexSha, filesSha)
    requires var once := Prune(w, id, first, indexSha, filesSha).0;
             id in once.sessions && once.sessions[id].status.Active? && Fresh(once.repo, indexSha', filesSha')
    requires var head := w.repo.worktrees[w.sessions[id].root].head;
             var parents := w.repo.commits[head].parents;
             parents == [] || parents[0] != head
    ensures var session := w.sessions[id];
            var t := w.repo.worktrees[session.root];
            var once := Prune(w, id, first, indexSha, filesSha).0;
            Recoverable(Prune(once, id, second, indexSha', filesSha').0.repo, id, session, t) <==>
            !Forgets(KindOf(w.repo, session, t), session.baseSha, t, first, second)
  {
    var session := w.sessions[id];
    var t := w.repo.worktrees[session.root];
    var kind := KindOf(w.repo, session, t);
    var once := Prune(w, id, first, indexSha, filesSha).0;
    PruneFrame(w, id, first, indexSha, filesSha);
    PruneMeaning(w, id, first, indexSha, filesSha);
    if !TakenAway(kind, t, first) {
      PruneOfCopy(once, id, second, indexSha', filesSha', t);
    } else {
      var gone := RemoveWorktree(Recorded(w.repo, id, kind, t, indexSha, filesSha), session.root);
      SettleMeaning(w.(repo := gone), id, kind, first, t);
      RestoreMeaning(gone, id, session.(recoveryKind := kind), first.restore, t);
      if RestoreWorks(kind, first.restore) {
        PruneOfCopy(once, id, second, indexSha', filesSha', t);
      } else if LeavesPartial(kind, first.restore) {
        PruneOfPartial(once, id, second, indexSha', filesSha', t);
      }
    }
  }

  const MANY_FAULTS := PruneSteps(true, true, true, true, true, true, true,
                                  false, RestoreSteps(true, true, false, false), false, true)
  const NO_FAULTS := PruneSteps(true, true, true, true, true, true, true, true, NOTHING_FAILS, true, true)

  /** So after a prune whose whole compensation failed, one in which nothing fails can forget
      the changes. */
  lemma SecondPruneForgets(w: World, id: SessionId, indexSha: Sha, filesSha: Sha, indexSha': Sha, filesSha': Sha)
    requires Open(w, id) && Fresh(w.repo, indexSha, filesSha)
    requires var t := w.repo.worktrees[w.sessions[id].root];
             var parents := w.repo.commits[t.head].parents;
             !t.untracked && !Clean(w.repo, t) && w.sessions[id].baseSha != Some(t.head)
             && (parents == [] || parents[0] != t.head)
    requires Fresh(Prune(w, id, MANY_FAULTS, indexSha, filesSha).0.repo, indexSha', filesSha')
    ensures var t := w.repo.worktrees[w.sessions[id].root];
            var once := Prune(w, id, MANY_FAULTS, indexSha, filesSha).0;
            && id in once.sessions
            && !Recoverable(Prune(once, id, NO_FAULTS, indexSha', filesSha').0.repo, id, w.sessions[id], t)
  {
    TwoPrunes(w, id, MANY_FAULTS, indexSha, filesSha, NO_FAULTS, indexSha', filesSha');
  }

  // ----------------------------------------------------- cleanup of many

  predicate AllFresh(r: Repo, runs: seq<PruneRun>) {
    && (forall k | 0 <= k < |runs| :: Fresh(r, runs[k].indexSha, runs[k].filesSha))
    && (forall j, k | 0 <= j < k < |runs| ::
          && runs[j].indexSha != runs[k].indexSha && runs[j].indexSha != runs[k].filesSha
          && runs[j].filesSha != runs[k].indexSha && runs[j].filesSha != runs[k].filesSha)
  }

  /** Distinct sessions with worktrees of their own. */
  predicate Apart(sessions: map<SessionId, Session>, stale: seq<SessionId>) {
    && (forall k | 0 <= k < |stale| :: stale[k] in sessions)
    && (forall j, k | 0 <= j < k < |stale| :: stale[j] != stale[k] && sessions[stale[j]].root != sessions[stale[k]].root)
  }

  /** One prune done, the rest of a cleanup can go on. */
  lemma {:induction false} CleanupStep(w: World, stale: seq<SessionId>, runs: seq<PruneRun>)
    requires |stale| == |runs| && stale != [] && Apart(w.sessions, stale) && AllFresh(w.repo, runs)
    ensures var w' := Prune(w, stale[0], runs[0].steps, runs[0].indexSha, runs[0].filesSha).0;
            && Apart(w'.sessions, stale[1..]) && AllFresh(w'.repo, runs[1..])
            && (forall k | 0 < k < |stale| :: w'.sessions[stale[k]] == w.sessions[stale[k]])
            && PruneAll(w, stale, runs) == PruneAll(w', stale[1..], runs[1..])
  {
    PruneFrame(w, stale[0], runs[0].steps, runs[0].indexSha, runs[0].filesSha);
    assert forall k | 0 <= k < |stale| - 1 :: stale[1..][k] == stale[k + 1] && runs[1..][k] == runs[k + 1];
  }

  lemma {:induction false} RestStaysRecoverable(w: World, stale: seq<SessionId>, runs: seq<PruneRun>,
                                                other: SessionId, session: Session, t: Worktree)
    requires |stale| == |runs| && Apart(w.sessions, stale) && AllFresh(w.repo, runs)
    requires forall k | 0 <= k < |stale| :: other != stale[k] && session.root != w.sessions[stale[k]].root
    requires Recoverable(w.repo, other, session, t)
    ensures Recoverable(PruneAll(w, stale, runs).repo, other, session, t)
    decreases |stale|
  {
    if stale != [] {
      CleanupStep(w, stale, runs);
      OthersStayRecoverable(w, stale[0], runs[0].steps, runs[0].indexSha, runs[0].filesSha, other, session, t);
      var w' := Prune(w, stale[0], runs[0].steps, runs[0].indexSha, runs[0].filesSha).0;
      RestStaysRecoverable(w', stale[1..], runs[1..], other, session, t);
    }
  }

  lemma OpenStays(w: World, id: SessionId, run: PruneRun, other: SessionId)
    requires id in w.sessions && Fresh(w.repo, run.indexSha, run.filesSha) && Open(w, other)
    requires other != id && w.sessions[other].root != w.sessions[id].root
    ensures var w' := Prune(w, id, run.steps, run.indexSha, run.filesSha).0;
            && Open(w', other) && w'.sessions[other] == w.sessions[other]
            && w'.repo.worktrees[w.sessions[other].root] == w.repo.worktrees[w.sessions[other].root]
  {
    PruneFrame(w, id, run.steps, run.indexSha, run.filesSha);
  }

  /** A cleanup of any number of sessions, any of whose steps may fail, loses the tracked state
      of none of them. */
  lemma {:induction false} CleanupLosesNothing(w: World, stale: seq<SessionId>, runs: seq<PruneRun>, k: nat)
    requires |stale| == |runs| && k < |stale| && Apart(w.sessions, stale) && AllFresh(w.repo, runs)
    requires Open(w, stale[k])
    ensures Recoverable(PruneAll(w, stale, runs).repo, stale[k], w.sessions[stale[k]],
                        w.repo.worktrees[w.sessions[stale[k]].root])
    decreases |stale|
  {
    var session := w.sessions[stale[k]];
    var w' := Prune(w, stale[0], runs[0].steps, runs[0].indexSha, runs[0].filesSha).0;
    CleanupStep(w, stale, runs);
    if k == 0 {
      PruneLosesNothing(w, stale[0], runs[0].steps, runs[0].indexSha, runs[0].filesSha);
      RestStaysRecoverable(w', stale[1..], runs[1..], stale[0], session, w.repo.worktrees[session.root]);
    } else {
      OpenStays(w, stale[0], runs[0], stale[k]);
      CleanupLosesNothing(w', stale[1..], runs[1..], k - 1);
    }
  }
}
