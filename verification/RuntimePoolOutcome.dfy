/** What becomes of a run of the runtime pool: it gets the runtime it waits for, it ends only for
    a reason that can be seen in the trace, and it holds the sessions it is told of. */
module RuntimePoolOutcome {
  import opened Options
  import opened RuntimePool
  import opened RuntimePoolInvariant

  // ------------------------------------------------------------ whose step it is

  /** The run a step belongs to, if it is one of a run. */
  function Actor(step: Step): Option<nat> {
    match step
    case Acquire(r) => Some(r)
    case GotExisting(r) => Some(r)
    case GotOwn(r) => Some(r)
    case CloseSettled(r) => Some(r)
    case Reserve(r) => Some(r)
    case Finish(r) => Some(r)
    case SessionKnown(r, _) => Some(r)
    case RunReturns(r, _) => Some(r)
    case _ => None
  }

  /** A run changes by its own steps only. */
  lemma OnlyOwnSteps(s: Pool, step: Step, r: nat)
    requires Enabled(s, step) && IsRun(s, r) && Actor(step) != Some(r)
    ensures IsRun(Next(s, step), r) && Next(s, step).runs[r] == s.runs[r]
  {
  }

  lemma RunsStay(s: Pool, step: Step)
    requires Enabled(s, step)
    ensures |Next(s, step).runs| == |s.runs| + if step.StartRun? then 1 else 0
  {
  }

  // -------------------------------------------------------------- why a run ends

  /** A run on its way out: it will not acquire a runtime any more, nor run on the one it has. */
  predicate Ending(pc: Pc) {
    || pc.Done? || pc.Finishing? || pc.ReserveOutput?
    || (pc.AwaitClose? && (pc.next.GiveUp? || pc.next.FinishRun?))
  }

  /** The reasons for which a run ends: it returns from the provider; the pool is closed; the
      creation it waits for fails; the close it waits for fails; the entry it created is already
      closing, or its runtime is dead at the second attempt; or its session is refused because
      its entry is closing. */
  predicate Ends(s: Pool, step: Step, r: nat)
    requires Enabled(s, step) && IsRun(s, r)
  {
    && Actor(step) == Some(r)
    && match step
       case RunReturns(_, _) => true
       case Acquire(_) => s.closing
       case GotExisting(_) => s.es[s.runs[r].pc.entry].creation.Failed?
       case GotOwn(_) =>
         var e := s.es[s.runs[r].pc.entry];
         e.creation.Failed? || e.Closing() || (!e.alive && s.runs[r].attempt > 0)
       case CloseSettled(_) => s.runs[r].pc.next.Retry? && s.es[s.runs[r].pc.entry].closer == Closed(false)
       case Reserve(_) =>
         && s.runs[r].input.Some? && s.runs[r].input.value !in s.runs[r].held && HeldEntry(s, r).Closing()
       case _ => false
  }

  lemma AcquireEnds(s: Pool, r: nat)
    requires Inv(s) && Enabled(s, Acquire(r))
    ensures Ending(AcquireStep(s, r).runs[r].pc) <==> Ends(s, Acquire(r), r)
  {
  }

  lemma GotOwnEnds(s: Pool, r: nat)
    requires Inv(s) && Enabled(s, GotOwn(r))
    ensures Ending(GotOwnStep(s, r).runs[r].pc) <==> Ends(s, GotOwn(r), r)
  {
    var e := s.runs[r].pc.entry;
    assert Listed(s, e);
    if s.es[e].creation.Ready? && !Current(s, e) {
      NotCurrentIsClosing(s, e);
    }
  }

  /** A run begins to end exactly for one of these reasons. */
  lemma EndsForReason(s: Pool, step: Step, r: nat)
    requires Inv(s) && Enabled(s, step) && IsRun(s, r) && !Ending(s.runs[r].pc)
    ensures IsRun(Next(s, step), r)
    ensures Ending(Next(s, step).runs[r].pc) <==> Ends(s, step, r)
  {
    RunsStay(s, step);
    if Actor(step) != Some(r) {
      OnlyOwnSteps(s, step, r);
    } else {
      match step {
        case Acquire(_) => AcquireEnds(s, r);
        case GotOwn(_) => GotOwnEnds(s, r);
        case _ =>
      }
    }
  }

  /** Whatever else happens, a run is done, or on its way out, only for a reason of its own that
      occurred in the trace. */
  lemma {:induction false} DoneForReason(states: seq<Pool>, steps: seq<Step>, n: nat, r: nat) returns (k: nat)
    requires IsTrace(states, steps) && n <= |steps| && IsRun(states[n], r) && Ending(states[n].runs[r].pc)
    ensures k < n && Enabled(states[k], steps[k]) && IsRun(states[k], r) && Ends(states[k], steps[k], r)
  {
    var s, step := states[n - 1], steps[n - 1];
    assert Enabled(s, step) && states[n] == Next(s, step);
    Reachable(states, steps, n - 1);
    RunsStay(s, step);
    if IsRun(s, r) && Ending(s.runs[r].pc) {
      k := DoneForReason(states, steps, n - 1, r);
    } else {
      if IsRun(s, r) {
        EndsForReason(s, step, r);
      }
      k := n - 1;
    }
  }

  /** So a run that is done without having returned from the provider was refused for one of the
      other reasons. */
  lemma DoneWithoutReturning(states: seq<Pool>, steps: seq<Step>, n: nat, r: nat) returns (k: nat)
    requires IsTrace(states, steps) && n <= |steps| && IsRun(states[n], r) && states[n].runs[r].pc.Done?
    requires forall i | 0 <= i < n :: !(steps[i].RunReturns? && steps[i].r == r)
    ensures k < n && Enabled(states[k], steps[k]) && IsRun(states[k], r)
    ensures var s, run := states[k], states[k].runs[r];
            || (steps[k] == Acquire(r) && s.closing)
            || ((steps[k] == GotExisting(r) || steps[k] == GotOwn(r)) && s.es[run.pc.entry].creation.Failed?)
            || (steps[k] == GotOwn(r) && s.es[run.pc.entry].Closing())
            || (steps[k] == GotOwn(r) && !s.es[run.pc.entry].alive && run.attempt > 0)
            || (steps[k] == CloseSettled(r) && s.es[run.pc.entry].closer == Closed(false))
            || (steps[k] == Reserve(r) && HeldEntry(s, r).Closing())
  {
    k := DoneForReason(states, steps, n, r);
  }

  // ------------------------------------------------------- getting the runtime

  /** The entry whose creation a run waits for. */
  function AwaitedEntry(pc: Pc): Option<nat> {
    match pc
    case AwaitExisting(e) => Some(e)
    case AwaitOwn(e) => Some(e)
    case _ => None
  }

  /** A run whose runtime is created, still the pool's own and alive gets it with its next step,
      its own creation or another run's: it is counted there, and nothing else changes. */
  lemma {:induction false} GetsItsRuntime(states: seq<Pool>, steps: seq<Step>, n: nat, r: nat, e: nat)
    requires IsTrace(states, steps) && n < |steps| && IsRun(states[n], r) && IsEntry(states[n], e)
    requires AwaitedEntry(states[n].runs[r].pc) == Some(e)
    requires states[n].es[e].creation.Ready? && states[n].es[e].alive && Current(states[n], e)
    requires Actor(steps[n]) == Some(r)
    ensures var s, s' := states[n], states[n + 1];
            && (steps[n] == GotOwn(r) || steps[n] == GotExisting(r))
            && |s'.runs| == |s.runs| && |s'.es| == |s.es| && s'.entries == s.entries
            && s'.runs[r] == s.runs[r].(holding := Some(e), pc := ReserveInput)
            && s'.es[e] == s.es[e].(activeRuns := s.es[e].activeRuns + 1)
            && (forall q | 0 <= q < |s.runs| && q != r :: s'.runs[q] == s.runs[q])
            && (forall i | 0 <= i < |s.es| && i != e :: s'.es[i] == s.es[i])
  {
    var s, step := states[n], steps[n];
    assert Enabled(s, step) && states[n + 1] == Next(s, step);
    Reachable(states, steps, n);
    assert RunOk(s, s.runs[r]);
  }

  /** At the head of the acquire loop a run waits for the entry the pool has for its key, and
      creates one exactly when there is none and the pool is not closed; it has a runtime closed
      only when that is dead. */
  lemma AcquireChooses(s: Pool, r: nat)
    requires Inv(s) && Enabled(s, Acquire(r))
    ensures var run, s' := s.runs[r], AcquireStep(s, r);
            && |s'.runs| == |s.runs|
            && var pc := s'.runs[r].pc;
               if run.key in s.entries then
                 var e := s.entries[run.key];
                 if s.es[e].creation.Ready? && !s.es[e].alive then
                   pc == AwaitClose(e, Retry) && s'.es == s.es[e := s.es[e].(closer := AwaitCreate(RuntimeNotAlive))]
                   && s'.entries == s.entries - {run.key}
                 else pc == AwaitExisting(e) && s'.es == s.es && s'.entries == s.entries
               else if s.closing then pc == Done && s'.es == s.es
               else
                 && pc == AwaitOwn(|s.es|) && s'.entries == s.entries[run.key := |s.es|]
                 && |s'.es| == |s.es| + 1 && s'.es[..|s.es|] == s.es
                 && s'.es[|s.es|] == Entry(run.key, Pending, false, 0, Open, map[], {}, 0)
  {
  }

  /** No run can find an entry by a key. */
  predicate Unlisted(s: Pool, e: nat) {
    forall key | key in s.entries :: s.entries[key] != e
  }

  /** A runtime found dead is off the map and closing before the run goes on: the creator tries
      once more, every other run until it gets a runtime or a close fails. */
  lemma DeadIsRetried(s: Pool, step: Step, r: nat)
    requires Inv(s) && Enabled(s, step) && IsRun(s, r)
    requires (step == GotOwn(r) && Current(s, s.runs[r].pc.entry)) || step == GotExisting(r)
    requires s.es[s.runs[r].pc.entry].creation.Ready? && !s.es[s.runs[r].pc.entry].alive
    ensures var e, s' := s.runs[r].pc.entry, Next(s, step);
            && IsRun(s', r) && IsEntry(s', e) && s'.es[e].Closing() && Unlisted(s', e)
            && s'.runs[r].pc == AwaitClose(e, if step.GotExisting? then Retry
                                              else if s.runs[r].attempt == 0 then RetryAnyway else GiveUp)
  {
    var e, s' := s.runs[r].pc.entry, Next(s, step);
    StepKeeps(s, step);
  }

  /** After the close it waited for, a run acquires again, or is done when that close failed. */
  lemma RetriesAfterClose(s: Pool, r: nat)
    requires Enabled(s, CloseSettled(r))
    ensures var run, s' := s.runs[r], CloseSettledStep(s, r);
            && |s'.runs| == |s.runs| && s'.es == s.es
            && var next, ok := run.pc.next, s.es[run.pc.entry].closer.ok;
               s'.runs[r] ==
               if next.Retry? && ok then run.(pc := AtLoop)
               else if next.RetryAnyway? then run.(attempt := 1, pc := AtLoop)
               else if next.FinishRun? then run.(pc := Finishing)
               else run.(pc := Done)
  {
  }

  // -------------------------------------------------------- the sessions of a run

  /** A run at the provider, or back from it, holds the session it was asked to go on with. */
  predicate HoldsInput(run: Run) {
    run.pc.Running? || run.pc.ReserveOutput? ==> (run.input.Some? ==> run.input.value in run.held)
  }

  lemma StepHoldsInput(s: Pool, step: Step, r: nat)
    requires Enabled(s, step) && IsRun(s, r) && HoldsInput(s.runs[r])
    ensures IsRun(Next(s, step), r) && HoldsInput(Next(s, step).runs[r])
  {
    RunsStay(s, step);
    if Actor(step) != Some(r) {
      OnlyOwnSteps(s, step, r);
    }
  }

  /** So at every point of every trace. */
  lemma {:induction false} InputHeld(states: seq<Pool>, steps: seq<Step>, n: nat, r: nat)
    requires IsTrace(states, steps) && n <= |steps| && IsRun(states[n], r)
    ensures HoldsInput(states[n].runs[r])
  {
    if n > 0 {
      var s, step := states[n - 1], steps[n - 1];
      assert Enabled(s, step) && states[n] == Next(s, step);
      RunsStay(s, step);
      if IsRun(s, r) {
        InputHeld(states, steps, n - 1, r);
        StepHoldsInput(s, step, r);
      }
    }
  }

  /** A session reported, before the run returns or with its result, is held from then on, unless
      its entry is closing. */
  lemma ReportedHeld(s: Pool, step: Step, sid: Sid)
    requires Enabled(s, step)
    requires step.SessionKnown? || step.Reserve?
    requires if step.SessionKnown? then step.sid == sid else Wanted(s.runs[step.r]) == Some(sid)
    ensures IsRun(Next(s, step), step.r)
    ensures sid in Next(s, step).runs[step.r].held || HeldEntry(s, step.r).Closing()
  {
  }

  /** A run goes to the provider once its session is reserved, and gives up its sessions only when
      it is done. */
  lemma HeldUntilDone(s: Pool, step: Step, r: nat)
    requires Inv(s) && Enabled(s, step) && IsRun(s, r)
    ensures IsRun(Next(s, step), r)
    ensures Next(s, step).runs[r].pc.Done? || s.runs[r].held <= Next(s, step).runs[r].held
    ensures step == Reserve(r) && s.runs[r].pc.ReserveInput? && !HeldEntry(s, r).Closing() ==>
              Next(s, step).runs[r].pc.Running?
  {
    RunsStay(s, step);
    if Actor(step) != Some(r) {
      OnlyOwnSteps(s, step, r);
    }
  }

  // ------------------------------------------------------------- what a close asks

  /** The first stage of a close: nothing is left to do for a failed creation; a close for
      idleness, or of an entry given up while it was created, waits for the runs on it; at
      shutdown only releases already asked for are waited for; and before a dead runtime is
      closed, the release of every session it has is asked for and waited for. */
  lemma CloseAsks(s: Pool, e: nat)
    requires Enabled(s, CloserCreated(e))
    ensures var before, after := s.es[e], CloserCreatedStep(s, e).es[e];
            var reason := before.closer.reason;
            && after.sessions == before.sessions && after.closes == before.closes
            && (before.creation.Failed? ==> after.closer == Closed(true) && after.inFlight == before.inFlight)
            && (before.creation.Ready? ==>
                  match reason
                  case ServerShutdown =>
                    after.inFlight == before.inFlight
                    && after.closer == AwaitReleases(reason, before.inFlight * before.sessions.Keys)
                  case RuntimeCrashed =>
                    after.inFlight == before.inFlight + before.sessions.Keys
                    && after.closer == AwaitReleases(reason, before.sessions.Keys)
                  case RuntimeNotAlive =>
                    after.inFlight == before.inFlight + before.sessions.Keys
                    && after.closer == AwaitReleases(reason, before.sessions.Keys)
                  case _ => after.inFlight == before.inFlight && after.closer == AwaitRuns(reason))
  {
  }

  /** A run that fails on a dead runtime has it closed, and waits for that before it ends. */
  lemma CrashIsClosed(s: Pool, r: nat)
    requires Inv(s) && Enabled(s, RunReturns(r, FailedRun)) && !HeldEntry(s, r).alive
    ensures var e, s' := s.runs[r].holding.value, RunReturnsStep(s, r, FailedRun);
            && IsRun(s', r) && IsEntry(s', e)
            && s'.es[e].Closing() && Unlisted(s', e) && s'.runs[r].pc == AwaitClose(e, FinishRun)
  {
    var e, s' := s.runs[r].holding.value, RunReturnsStep(s, r, FailedRun);
    StepKeeps(s, RunReturns(r, FailedRun));
  }

  /** An idle entry evicted is off the map and closing, unless its close has begun already. */
  lemma EvictionCloses(s: Pool, e: nat)
    requires Inv(s) && Enabled(s, EvictClose(e))
    ensures var s' := Next(s, EvictClose(e));
            && IsEntry(s', e) && s'.es[e].Closing() && Unlisted(s', e)
            && (!s.es[e].Closing() ==> s'.es[e].closer == AwaitCreate(IdleTimeout))
  {
    StepKeeps(s, EvictClose(e));
  }

  /** A session without runs is released when it is idle: it is asked for, no other is, and it is
      forgotten once that succeeds, unless a run has taken it meanwhile. */
  lemma IdleIsReleased(s: Pool, step: Step)
    requires Inv(s) && Enabled(s, step) && (step.EvictRelease? || step.ReleaseSettles?)
    ensures var before, after := s.es[step.e], Next(s, step).es[step.e];
            if step.EvictRelease? then
              after == before.(inFlight := before.inFlight + {step.sid}) && Tally(s.runs, step.e, Some(step.sid)) == 0
            else
              && after.inFlight == before.inFlight - {step.sid}
              && (step.ok && SessionRuns(before.sessions, step.sid) == 0 ==> step.sid !in after.sessions)
              && (!step.ok || SessionRuns(before.sessions, step.sid) != 0 ==> after.sessions == before.sessions)
              && forall other | other != step.sid :: SessionRuns(after.sessions, other) == SessionRuns(before.sessions, other)
  {
    assert EntryOk(s.runs, step.e, s.es[step.e]);
  }

  /** Closing the pool closes it for good, and starts the close of every entry it has. */
  lemma ClosePoolCloses(s: Pool, e: nat)
    requires Inv(s) && Enabled(s, ClosePool) && IsEntry(s, e)
    ensures var s' := ClosePoolStep(s);
            && s'.closing && s'.entries == map[] && s'.runs == s.runs && |s'.es| == |s.es|
            && s'.es[e] == (if s.es[e].Closing() || s.es[e].creation.Failed? then s.es[e]
                            else s.es[e].(closer := AwaitCreate(ServerShutdown)))
            && forall key, input :: !Enabled(s', StartRun(key, input))
  {
    assert Listed(s, e);
  }

  // ------------------------------------------------ what the provider says is believed

  /** Nothing happens to a run between two of its own steps. */
  lemma {:induction false} Undisturbed(states: seq<Pool>, steps: seq<Step>, n: nat, m: nat, r: nat)
    requires IsTrace(states, steps) && n <= m <= |steps| && IsRun(states[n], r)
    requires forall i | n <= i < m :: Actor(steps[i]) != Some(r)
    ensures IsRun(states[m], r) && states[m].runs[r] == states[n].runs[r]
    decreases m - n
  {
    if n < m {
      Undisturbed(states, steps, n, m - 1, r);
      assert Enabled(states[m - 1], steps[m - 1]) && states[m] == Next(states[m - 1], steps[m - 1]);
      OnlyOwnSteps(states[m - 1], steps[m - 1], r);
    }
  }

  /** The session a run returns with is held with its next step, unless its entry is closing. */
  lemma {:induction false} OutputHeld(states: seq<Pool>, steps: seq<Step>, n: nat, m: nat, r: nat, sid: Sid)
    requires IsTrace(states, steps) && n < m < |steps| && steps[n] == RunReturns(r, Succeeded(Some(sid)))
    requires Actor(steps[m]) == Some(r) && forall i | n < i < m :: Actor(steps[i]) != Some(r)
    ensures steps[m] == Reserve(r) && IsRun(states[m + 1], r) && HoldsOne(states[m], r)
    ensures sid in states[m + 1].runs[r].held || HeldEntry(states[m], r).Closing()
  {
    assert Enabled(states[n], steps[n]) && states[n + 1] == Next(states[n], steps[n]);
    assert Enabled(states[m], steps[m]) && states[m + 1] == Next(states[m], steps[m]);
    Undisturbed(states, steps, n + 1, m, r);
    ReportedHeld(states[m], steps[m], sid);
  }

  lemma RunStepLives(s: Pool, step: Step, e: nat)
    requires Enabled(s, step) && Actor(step).Some? && IsEntry(s, e) && s.es[e].creation.Ready?
    ensures IsEntry(Next(s, step), e) && Next(s, step).es[e].creation.Ready?
    ensures Next(s, step).es[e].alive == s.es[e].alive
  {
  }

  lemma OtherStepLives(s: Pool, step: Step, e: nat)
    requires Enabled(s, step) && Actor(step).None? && IsEntry(s, e) && s.es[e].creation.Ready?
    ensures IsEntry(Next(s, step), e) && Next(s, step).es[e].creation.Ready?
    ensures Next(s, step).es[e].alive == (s.es[e].alive && step != Die(e))
  {
  }

  /** A runtime is taken for alive exactly while the provider has not said otherwise. */
  lemma {:induction false} AliveUntilDeath(states: seq<Pool>, steps: seq<Step>, n: nat, m: nat, e: nat, alive: bool)
    requires IsTrace(states, steps) && n < m <= |steps| && steps[n] == CreateSettles(e, true, alive)
    ensures IsEntry(states[m], e) && states[m].es[e].creation.Ready?
    ensures states[m].es[e].alive <==> alive && forall i | n < i < m :: steps[i] != Die(e)
    decreases m - n
  {
    assert Enabled(states[m - 1], steps[m - 1]) && states[m] == Next(states[m - 1], steps[m - 1]);
    if n + 1 < m {
      AliveUntilDeath(states, steps, n, m - 1, e, alive);
      if Actor(steps[m - 1]).Some? {
        RunStepLives(states[m - 1], steps[m - 1], e);
      } else {
        OtherStepLives(states[m - 1], steps[m - 1], e);
      }
    }
  }

  lemma ClosedStays(s: Pool, step: Step, e: nat)
    requires Enabled(s, step) && IsEntry(s, e) && s.es[e].closer.Closed?
    ensures IsEntry(Next(s, step), e) && Next(s, step).es[e].closer == s.es[e].closer
  {
  }

  /** How a runtime's close ended stays known: well, or with a failure that is not passed over
      because the pool is shutting down. */
  lemma {:induction false} CloseRemembered(states: seq<Pool>, steps: seq<Step>, n: nat, m: nat, e: nat, ok: bool)
    requires IsTrace(states, steps) && n < m <= |steps| && steps[n] == RuntimeClosed(e, ok)
    ensures IsEntry(states[n], e) && states[n].es[e].closer.ClosingRuntime? && IsEntry(states[m], e)
    ensures states[m].es[e].closer == Closed(ok || states[n].es[e].closer.reason.ServerShutdown?)
    decreases m - n
  {
    assert Enabled(states[m - 1], steps[m - 1]) && states[m] == Next(states[m - 1], steps[m - 1]);
    if n + 1 < m {
      CloseRemembered(states, steps, n, m - 1, e, ok);
      ClosedStays(states[m - 1], steps[m - 1], e);
    }
  }

  /** So a run that waited for a dead runtime's close acquires again exactly when that went well. */
  lemma {:induction false} RetriesUnlessFailed(states: seq<Pool>, steps: seq<Step>, n: nat, m: nat, r: nat, e: nat, ok: bool)
    requires IsTrace(states, steps) && n < m < |steps| && steps[n] == RuntimeClosed(e, ok) && steps[m] == CloseSettled(r)
    requires IsRun(states[m], r) && states[m].runs[r].pc == AwaitClose(e, Retry)
    ensures IsEntry(states[n], e) && states[n].es[e].closer.ClosingRuntime? && IsRun(states[m + 1], r)
    ensures states[m + 1].runs[r].pc ==
            if ok || states[n].es[e].closer.reason.ServerShutdown? then AtLoop else Pc.Done
  {
    assert Enabled(states[m], steps[m]) && states[m + 1] == Next(states[m], steps[m]);
    CloseRemembered(states, steps, n, m, e, ok);
  }
}
