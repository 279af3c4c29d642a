/** What holds of every trace of the runtime pool: closes are safe and happen once, nothing
    deadlocks, nothing leaks, and sessions are counted exactly. */
module RuntimePoolSafety {
  import opened Options
  import opened RuntimePool
  import opened RuntimePoolInvariant

  // --------------------------------------------------------------- close safety

  /** An entry callers can find is never closing; a runtime is closed at most once, and with
      runs on it only at shutdown or when it is dead. */
  lemma CloseSafety(states: seq<Pool>, steps: seq<Step>, n: nat)
    requires IsTrace(states, steps) && n <= |steps|
    ensures var s := states[n];
            && (forall k | k in s.entries :: IsEntry(s, s.entries[k]) && !s.es[s.entries[k]].Closing())
            && (forall e | 0 <= e < |s.es| ::
                  && s.es[e].closes <= 1
                  && (s.es[e].closer.ClosingRuntime? && s.es[e].activeRuns > 0 ==>
                        s.es[e].closer.reason.ServerShutdown? || !s.es[e].alive))
  {
    Reachable(states, steps, n);
    var s := states[n];
    forall e | 0 <= e < |s.es|
      ensures s.es[e].closes <= 1
      ensures s.es[e].closer.ClosingRuntime? && s.es[e].activeRuns > 0 ==>
                s.es[e].closer.reason.ServerShutdown? || !s.es[e].alive
    {
      assert EntryOk(s.runs, e, s.es[e]);
    }
  }

  /** What a step can do to an entry's close: it never reopens and never gains a run; the
      runtime is asked to close only for the first time, and with no run on it unless the
      pool shuts down or the runtime is dead. */
  ghost predicate ClosesSafely(before: Entry, after: Entry) {
    && (before.Closing() ==> after.Closing() && after.activeRuns <= before.activeRuns)
    && (after.closes != before.closes ==>
          && before.closes == 0 && after.closes == 1 && before.Closing()
          && after.closer.ClosingRuntime?
          && (before.activeRuns == 0 || after.closer.reason.ServerShutdown? || !before.alive))
  }

  lemma AcquireClosesSafely(s: Pool, r: nat, e: nat)
    requires Inv(s) && Enabled(s, Acquire(r)) && IsEntry(s, e)
    ensures IsEntry(AcquireStep(s, r), e) && ClosesSafely(s.es[e], AcquireStep(s, r).es[e])
  {
  }

  lemma AcquiringClosesSafely(s: Pool, step: Step, e: nat)
    requires Inv(s) && Enabled(s, step) && IsEntry(s, e)
    requires step.GotExisting? || step.GotOwn? || step.CloseSettled? || step.StartRun?
    ensures IsEntry(Next(s, step), e) && ClosesSafely(s.es[e], Next(s, step).es[e])
  {
  }

  lemma RunningClosesSafely(s: Pool, step: Step, e: nat)
    requires Inv(s) && Enabled(s, step) && IsEntry(s, e)
    requires step.SessionKnown? || step.Reserve? || step.Finish? || step.RunReturns?
    ensures IsEntry(Next(s, step), e) && ClosesSafely(s.es[e], Next(s, step).es[e])
  {
  }

  lemma CloserClosesSafely(s: Pool, step: Step, e: nat)
    requires Inv(s) && Enabled(s, step) && IsEntry(s, e)
    requires step.CloserCreated? || step.CloserRunsGone? || step.CloserReleased? || step.RuntimeClosed?
    ensures IsEntry(Next(s, step), e) && ClosesSafely(s.es[e], Next(s, step).es[e])
  {
    assert EntryOk(s.runs, e, s.es[e]);
  }

  lemma OtherClosesSafely(s: Pool, step: Step, e: nat)
    requires Inv(s) && Enabled(s, step) && IsEntry(s, e)
    requires step.EvictRelease? || step.EvictClose? || step.ClosePool? || step.CreateSettles? || step.Die? || step.ReleaseSettles?
    ensures IsEntry(Next(s, step), e) && ClosesSafely(s.es[e], Next(s, step).es[e])
  {
  }

  lemma StepClosesSafely(s: Pool, step: Step, e: nat)
    requires Inv(s) && Enabled(s, step) && IsEntry(s, e)
    ensures IsEntry(Next(s, step), e) && ClosesSafely(s.es[e], Next(s, step).es[e])
  {
    if step.Acquire? {
      AcquireClosesSafely(s, step.r, e);
    } else if step.GotExisting? || step.GotOwn? || step.CloseSettled? || step.StartRun? {
      AcquiringClosesSafely(s, step, e);
    } else if step.SessionKnown? || step.Reserve? || step.Finish? || step.RunReturns? {
      RunningClosesSafely(s, step, e);
    } else if step.CloserCreated? || step.CloserRunsGone? || step.CloserReleased? || step.RuntimeClosed? {
      CloserClosesSafely(s, step, e);
    } else {
      OtherClosesSafely(s, step, e);
    }
  }

  /** Over one step an entry's close behaves so. */
  lemma CloseStepSafety(states: seq<Pool>, steps: seq<Step>, n: nat, e: nat)
    requires IsTrace(states, steps) && n < |steps| && IsEntry(states[n], e)
    ensures IsEntry(states[n + 1], e) && ClosesSafely(states[n].es[e], states[n + 1].es[e])
  {
    Reachable(states, steps, n);
    StepClosesSafely(states[n], steps[n], e);
  }

  // ----------------------------------------------------------- deadlock freedom

  /** The close of an entry waits for the runs on it, of which this is one. */
  predicate CloseWaitsForRun(s: Pool, e: nat, r: nat) {
    && IsRun(s, r) && IsEntry(s, e) && s.es[e].closer.AwaitRuns? && s.es[e].activeRuns != 0
    && s.runs[r].holding == Some(e)
  }

  /** What a close waits for, the pool or the provider can still do. */
  predicate CloserCanStep(s: Pool, e: nat) {
    Enabled(s, CloserCreated(e)) || Enabled(s, CloserRunsGone(e)) || Enabled(s, CloserReleased(e))
  }

  predicate RunCanStep(s: Pool, r: nat) {
    || Enabled(s, Acquire(r)) || Enabled(s, GotExisting(r)) || Enabled(s, GotOwn(r))
    || Enabled(s, CloseSettled(r)) || Enabled(s, Reserve(r)) || Enabled(s, Finish(r))
  }

  /** The provider has still to settle a creation, a release or a close of an entry's runtime. */
  predicate ProviderOwes(s: Pool, e: nat) {
    IsEntry(s, e) && (s.es[e].creation.Pending? || s.es[e].inFlight != {} || s.es[e].closer.ClosingRuntime?)
  }

  /** The entry a run is at. */
  function At(run: Run): Option<nat> {
    match run.pc
    case AwaitExisting(e) => Some(e)
    case AwaitOwn(e) => Some(e)
    case AwaitClose(e, _) => Some(e)
    case _ => run.holding
  }

  lemma CloserProgress(s: Pool, e: nat)
    requires Inv(s) && IsEntry(s, e) && s.es[e].Closing() && !s.es[e].closer.Closed?
    ensures CloserCanStep(s, e) || ProviderOwes(s, e)
  {
    assert EntryOk(s.runs, e, s.es[e]);
  }

  lemma RunProgress(s: Pool, r: nat)
    requires Inv(s) && IsRun(s, r) && !s.runs[r].pc.Done? && !s.runs[r].pc.Running?
    ensures RunCanStep(s, r) ||
            (At(s.runs[r]).Some? && (CloserCanStep(s, At(s.runs[r]).value) || ProviderOwes(s, At(s.runs[r]).value)))
  {
    assert RunOk(s, s.runs[r]);
    if s.runs[r].pc.AwaitClose? && !s.es[s.runs[r].pc.entry].closer.Closed? {
      CloserProgress(s, s.runs[r].pc.entry);
    }
  }

  lemma NeverWaitsForRun(s: Pool, e: nat, r: nat)
    requires Inv(s)
    ensures !CloseWaitsForRun(s, e, r)
  {
    assert IsEntry(s, e) ==> EntryOk(s.runs, e, s.es[e]);
  }

  /** No close ever waits for a run, so none waits for a run that waits for it; and whatever
      a run waits for, it can step, or the close at its entry can, or the provider owes an
      answer there. */
  lemma NoDeadlock(states: seq<Pool>, steps: seq<Step>, n: nat)
    requires IsTrace(states, steps) && n <= |steps|
    ensures var s := states[n];
            && (forall e: nat, r: nat :: !CloseWaitsForRun(s, e, r))
            && (forall r | 0 <= r < |s.runs| && !s.runs[r].pc.Done? && !s.runs[r].pc.Running? ::
                  RunCanStep(s, r) ||
                  (At(s.runs[r]).Some? && (CloserCanStep(s, At(s.runs[r]).value) || ProviderOwes(s, At(s.runs[r]).value))))
            && (forall e | 0 <= e < |s.es| && s.es[e].Closing() && !s.es[e].closer.Closed? ::
                  CloserCanStep(s, e) || ProviderOwes(s, e))
  {
    Reachable(states, steps, n);
    var s := states[n];
    forall e: nat, r: nat ensures !CloseWaitsForRun(s, e, r) {
      NeverWaitsForRun(s, e, r);
    }
    forall r | 0 <= r < |s.runs| && !s.runs[r].pc.Done? && !s.runs[r].pc.Running?
      ensures RunCanStep(s, r) ||
              (At(s.runs[r]).Some? && (CloserCanStep(s, At(s.runs[r]).value) || ProviderOwes(s, At(s.runs[r]).value)))
    {
      RunProgress(s, r);
    }
    forall e | 0 <= e < |s.es| && s.es[e].Closing() && !s.es[e].closer.Closed?
      ensures CloserCanStep(s, e) || ProviderOwes(s, e)
    {
      CloserProgress(s, e);
    }
  }

  // ------------------------------------------------- single flight, and no leaks

  /** Two entries of one key are never both open: one creation per key is the pool's own. */
  lemma SingleFlight(states: seq<Pool>, steps: seq<Step>, n: nat, i: nat, j: nat)
    requires IsTrace(states, steps) && n <= |steps| && i < |states[n].es| && j < |states[n].es|
    requires states[n].es[i].key == states[n].es[j].key
    requires !states[n].es[i].Closing() && !states[n].es[i].creation.Failed?
    requires !states[n].es[j].Closing() && !states[n].es[j].creation.Failed?
    ensures i == j
  {
    Reachable(states, steps, n);
    assert Listed(states[n], i) && Listed(states[n], j);
  }

  /** Every runtime that was created can be found by its key, or its close has started. */
  lemma NoLeak(states: seq<Pool>, steps: seq<Step>, n: nat, e: nat)
    requires IsTrace(states, steps) && n <= |steps| && IsEntry(states[n], e) && states[n].es[e].creation.Ready?
    ensures states[n].es[e].Closing() <==>
            !(states[n].es[e].key in states[n].entries && states[n].entries[states[n].es[e].key] == e)
  {
    Reachable(states, steps, n);
    assert Listed(states[n], e);
  }

  lemma ClosingStays(s: Pool, step: Step)
    requires Enabled(s, step) && s.closing
    ensures Next(s, step).closing
  {
  }

  lemma {:induction false} ClosedForever(states: seq<Pool>, steps: seq<Step>, n: nat, m: nat)
    requires IsTrace(states, steps) && n <= m <= |steps| && states[n].closing
    ensures states[m].closing && states[m].entries == map[]
    decreases m - n
  {
    if n < m {
      ClosedForever(states, steps, n, m - 1);
      ClosingStays(states[m - 1], steps[m - 1]);
    }
    Reachable(states, steps, m);
  }

  /** No creation and no close is under way. */
  predicate Quiescent(s: Pool) {
    forall e | 0 <= e < |s.es| ::
      !s.es[e].creation.Pending? && (s.es[e].Closing() ==> s.es[e].closer.Closed?)
  }

  /** Once the pool is closed the map is empty for good, and when all has settled every
      runtime that was ever created has been closed, exactly once. */
  lemma ShutdownLeavesNothing(states: seq<Pool>, steps: seq<Step>, n: nat, m: nat)
    requires IsTrace(states, steps) && n <= m <= |steps| && states[n].closing
    ensures states[m].closing && states[m].entries == map[]
    ensures Quiescent(states[m]) ==>
              forall e | 0 <= e < |states[m].es| && states[m].es[e].creation.Ready? :: states[m].es[e].closes == 1
  {
    ClosedForever(states, steps, n, m);
    Reachable(states, steps, m);
    var s := states[m];
    if Quiescent(s) {
      forall e | 0 <= e < |s.es| && s.es[e].creation.Ready? ensures s.es[e].closes == 1 {
        assert EntryOk(s.runs, e, s.es[e]) && Listed(s, e);
      }
    }
  }

  // -------------------------------------------------------- session accounting

  /** Until its close forgets them, an entry's sessions count exactly the runs that hold them. */
  lemma {:induction false} SessionAccounting(states: seq<Pool>, steps: seq<Step>, n: nat, e: nat, sid: Sid)
    requires IsTrace(states, steps) && n <= |steps| && IsEntry(states[n], e) && !Cleared(states[n].es[e])
    ensures SessionRuns(states[n].es[e].sessions, sid) == Tally(states[n].runs, e, Some(sid))
    ensures states[n].es[e].activeRuns == Tally(states[n].runs, e, None)
  {
    Reachable(states, steps, n);
    assert EntryOk(states[n].runs, e, states[n].es[e]);
  }

  /** When a run ends, each session it holds loses exactly one run: the lower bound never acts. */
  lemma FinishTakesOne(states: seq<Pool>, steps: seq<Step>, n: nat)
    requires IsTrace(states, steps) && n < |steps| && steps[n].Finish?
    requires !Cleared(HeldEntry(states[n], steps[n].r))
    ensures var run := states[n].runs[steps[n].r];
            var e := run.holding.value;
            forall sid ::
              SessionRuns(states[n + 1].es[e].sessions, sid) ==
              SessionRuns(states[n].es[e].sessions, sid) - if sid in run.held then 1 else 0
  {
    Reachable(states, steps, n);
    NoClamp(states[n], steps[n].r);
  }

  /** A living provider is never asked to release a session that a run holds, and no run
      takes one while it is being released. */
  lemma ReleasesUnheld(states: seq<Pool>, steps: seq<Step>, n: nat, e: nat, sid: Sid)
    requires IsTrace(states, steps) && n <= |steps| && IsEntry(states[n], e)
    requires states[n].es[e].alive && sid in states[n].es[e].inFlight
    ensures forall r | 0 <= r < |states[n].runs| :: !Holds(states[n].runs[r], e, Some(sid))
  {
    Reachable(states, steps, n);
    var s := states[n];
    assert EntryOk(s.runs, e, s.es[e]);
    forall r | 0 <= r < |s.runs| ensures !Holds(s.runs[r], e, Some(sid)) {
      if Holds(s.runs[r], e, Some(sid)) {
        TallyMember(s.runs, r, e, Some(sid));
        assert false;
      }
    }
  }
}
