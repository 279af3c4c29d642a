/** What a caller learns of a turn from wait, in terms of how the turn really ended, and what each
    step of the daemon changes of which agent. */
module AgentOutcome {
  import opened Options
  import opened AgentStore
  import opened AgentManager
  import opened AgentDaemon

  /** A finished turn is reported as it was finished: the answer, the failure, or a stop with a
      failure only when any part of one was given. */
  lemma FinishedSays(t: Tables, id: AgentId, turnId: nat, completion: Completion, timedOut: bool)
    requires Finished(t, id, turnId, completion).Stored?
    ensures turnId < |Finished(t, id, turnId, completion).value.turns|
    ensures WaitResultFromTurn(Finished(t, id, turnId, completion).value.turns[turnId], timedOut) ==
            WaitResult(id, match completion
                           case Completed(response, _) => Answered(response)
                           case Failed(error, code, retryable) => Broken(Failure(code, error, retryable))
                           case Stopped(None, None, None) => Halted(None)
                           case Stopped(error, code, retryable) =>
                             Halted(Some(Failure(if code.Some? then code.value else "AGENT_FAILED",
                                                 if error.Some? then error.value else "Subagent failed without an error message.",
                                                 retryable == Some(true)))))
  {
    match completion {
      case Stopped(None, None, None) =>
      case _ =>
    }
  }

  // ----------------------------------------------------------------- a turn's end

  /** A request that begins a turn for its agent. */
  predicate Begins(d: Daemon, step: Step, id: AgentId) {
    && step.RequestBegins? && Enabled(d, step)
    && d.requests[step.request].target.id == id && BeginOutcome(d.manager, id).Started?
  }

  predicate Ends(step: Step, id: AgentId) {
    step.Restart? || (step.RunEnds? && step.id == id)
  }

  /** What the end of its run, or of its daemon, says of a turn. */
  function SaidOf(step: Step): WaitOutcome
    requires step.Restart? || step.RunEnds?
  {
    match step
    case Restart(message) => Broken(Failure("DAEMON_UNAVAILABLE", message, true))
    case RunEnds(_, RunSucceeded(response, _)) => Answered(response)
    case RunEnds(_, RunFailed(error, code, retryable)) => Broken(Failure(code, error, retryable))
  }

  /** A turn begun is the agent's newest, running, and the next in the table. */
  lemma {:induction false} TurnBegins(d: Daemon, step: Step, id: AgentId)
    requires DaemonInv(d) && Begins(d, step, id)
    ensures var t := Next(d, step).manager.tables;
            && |t.turns| == |d.manager.tables.turns| + 1
            && IsRunningTurn(t, id, |d.manager.tables.turns|)
            && Latest(t.turns, id) == Some(|d.manager.tables.turns|)
            && id in t.agents && t.agents[id].status.AgentRunning?
  {
    BegunKeeps(d.manager.tables, id);
  }

  lemma {:induction false} RunningStays(d: Daemon, step: Step, id: AgentId, turnId: nat)
    requires DaemonInv(d) && Enabled(d, step) && !Ends(step, id)
    requires IsRunningTurn(d.manager.tables, id, turnId)
    ensures IsRunningTurn(Next(d, step).manager.tables, id, turnId)
  {
    if step.RunEnds? {
      assert IsRunningTurn(d.manager.tables, step.id, d.manager.active[step.id]);
    }
  }

  lemma {:induction false} RunEndRecorded(m: Manager, id: AgentId, outcome: RunOutcome, timedOut: bool)
    requires Inv(m) && id in m.active
    ensures var t := AfterRun(m, id, m.active[id], outcome).tables;
            && m.active[id] < |t.turns|
            && WaitResultFromTurn(t.turns[m.active[id]], timedOut) == WaitResult(id, SaidOf(RunEnds(id, outcome)))
  {
    assert IsRunningTurn(m.tables, id, m.active[id]);
    RunRecords(m, id, outcome);
    FinishedKeeps(m.tables, id, m.active[id], CompletionOf(m.tables.agents[id], outcome));
  }

  /** The step that ends a turn settles it as that step says. */
  lemma {:induction false} EndRecorded(d: Daemon, step: Step, id: AgentId, turnId: nat, timedOut: bool)
    requires DaemonInv(d) && Enabled(d, step) && Ends(step, id)
    requires IsRunningTurn(d.manager.tables, id, turnId)
    ensures var t := Next(d, step).manager.tables;
            turnId < |t.turns| && WaitResultFromTurn(t.turns[turnId], timedOut) == WaitResult(id, SaidOf(step))
  {
    if step.RunEnds? {
      assert d.manager.active[id] == turnId;
      RunEndRecorded(d.manager, id, step.outcome, timedOut);
    }
  }

  lemma {:induction false} TurnRuns(states: seq<Daemon>, steps: seq<Step>, n: nat, m: nat, id: AgentId)
    requires IsTrace(states, steps) && n < m <= |steps| && Begins(states[n], steps[n], id)
    requires forall i | n < i < m :: !Ends(steps[i], id)
    ensures IsRunningTurn(states[m].manager.tables, id, |states[n].manager.tables.turns|)
    decreases m - n
  {
    Reachable(states, steps, n);
    if n + 1 < m {
      TurnRuns(states, steps, n, m - 1, id);
      Reachable(states, steps, m - 1);
      RunningStays(states[m - 1], steps[m - 1], id, |states[n].manager.tables.turns|);
    } else {
      TurnBegins(states[n], steps[n], id);
    }
  }

  /** Until its run ends or its daemon is replaced, a turn is reported as running, and a wait for
      it as timed out exactly when it was. */
  lemma {:induction false} WaitSaysRunning(states: seq<Daemon>, steps: seq<Step>, n: nat, m: nat, id: AgentId,
                                           capture: Capture, timedOut: bool)
    requires IsTrace(states, steps) && n < m <= |steps| && Begins(states[n], steps[n], id)
    requires forall i | n < i < m :: !Ends(steps[i], id)
    requires capture.turnId == Some(|states[n].manager.tables.turns|)
    ensures ResultOf(states[m].manager.tables, capture, timedOut) == WaitResult(id, StillRunning(timedOut))
  {
    TurnRuns(states, steps, n, m, id);
  }

  lemma {:induction false} EndSays(states: seq<Daemon>, steps: seq<Step>, n: nat, k: nat, id: AgentId, timedOut: bool)
    requires IsTrace(states, steps) && n < k < |steps| && Begins(states[n], steps[n], id)
    requires Ends(steps[k], id) && forall i | n < i < k :: !Ends(steps[i], id)
    ensures var turnId, t := |states[n].manager.tables.turns|, states[k + 1].manager.tables;
            turnId < |t.turns| && WaitResultFromTurn(t.turns[turnId], timedOut) == WaitResult(id, SaidOf(steps[k]))
  {
    TurnRuns(states, steps, n, k, id);
    Reachable(states, steps, k);
    EndRecorded(states[k], steps[k], id, |states[n].manager.tables.turns|, timedOut);
  }

  /** From the end of its run on, and forever, a turn is reported as that run ended: with its
      answer, or with its failure. A daemon that died meanwhile fails it as retryable. */
  lemma {:induction false} WaitSaysHowItEnded(states: seq<Daemon>, steps: seq<Step>, n: nat, k: nat, m: nat, id: AgentId,
                                              capture: Capture, timedOut: bool)
    requires IsTrace(states, steps) && n < k < m <= |steps| && Begins(states[n], steps[n], id)
    requires Ends(steps[k], id) && forall i | n < i < k :: !Ends(steps[i], id)
    requires capture.turnId == Some(|states[n].manager.tables.turns|)
    ensures ResultOf(states[m].manager.tables, capture, timedOut) == WaitResult(id, SaidOf(steps[k]))
  {
    EndSays(states, steps, n, k, id, timedOut);
    History(states, steps, k + 1, m);
    WaitIsFinal(states[k + 1].manager.tables, states[m].manager.tables, capture, timedOut, timedOut);
  }

  // ------------------------------------------------- what a step changes of whom

  /** A step of an agent's own. */
  predicate Touches(d: Daemon, step: Step, id: AgentId) {
    match step
    case RequestCreates(request) => IsLoading(d, request) && d.requests[request].target.id == id
    case RequestBegins(request) => IsLoading(d, request) && d.requests[request].target.id == id
    case SessionKnown(other, _) => other == id
    case RunEnds(other, _) => other == id
    case Restart(_) => true
    case _ => false
  }

  /** A step changes the row of no other agent, and the turns of no other agent. */
  lemma StepSpares(d: Daemon, step: Step, id: AgentId)
    requires DaemonInv(d) && Enabled(d, step) && !Touches(d, step, id) && id in d.manager.tables.agents
    ensures var t, t' := d.manager.tables, Next(d, step).manager.tables;
            && id in t'.agents && t'.agents[id] == t.agents[id] && |t.turns| <= |t'.turns|
            && (forall i | 0 <= i < |t.turns| && t.turns[i].agentId == id :: t'.turns[i] == t.turns[i])
            && (forall i | |t.turns| <= i < |t'.turns| :: t'.turns[i].agentId != id)
  {
    if step.RunEnds? {
      assert IsRunningTurn(d.manager.tables, step.id, d.manager.active[step.id]);
    }
  }

  /** The session a step reports for an agent, if any. */
  function Reported(step: Step, id: AgentId): Option<string> {
    match step
    case SessionKnown(other, session) => if other == id then Some(session) else None
    case RunEnds(other, RunSucceeded(_, session)) => if other == id then session else None
    case _ => None
  }

  lemma RunSession(m: Manager, id: AgentId, outcome: RunOutcome)
    requires Inv(m) && id in m.active
    ensures id in m.tables.agents && id in AfterRun(m, id, m.active[id], outcome).tables.agents
    ensures AfterRun(m, id, m.active[id], outcome).tables.agents[id].providerSessionId ==
            match Reported(RunEnds(id, outcome), id)
            case None => m.tables.agents[id].providerSessionId
            case Some(session) => Some(session)
  {
    RunRecords(m, id, outcome);
  }

  lemma RestartSession(t: Tables, id: AgentId, message: string)
    requires id in t.agents
    ensures id in Reconciled(t, message).agents
    ensures Reconciled(t, message).agents[id].providerSessionId == t.agents[id].providerSessionId
  {
  }

  /** The session an agent continues in is the one last reported for it, and no other step of any
      agent's changes it. */
  lemma StepSession(d: Daemon, step: Step, id: AgentId)
    requires DaemonInv(d) && Enabled(d, step) && id in d.manager.tables.agents
    ensures id in Next(d, step).manager.tables.agents
    ensures Next(d, step).manager.tables.agents[id].providerSessionId ==
            match Reported(step, id)
            case None => d.manager.tables.agents[id].providerSessionId
            case Some(session) => Some(session)
  {
    if !Touches(d, step, id) {
      StepSpares(d, step, id);
    } else if step.RunEnds? {
      RunSession(d.manager, id, step.outcome);
    } else if step.Restart? {
      RestartSession(d.manager.tables, id, step.message);
    }
  }

  // -------------------------------------------------------------- before any turn

  predicate Creates(d: Daemon, step: Step, id: AgentId) {
    step.RequestCreates? && Enabled(d, step) && d.requests[step.request].target.id == id
  }

  const NEW := Agent(Starting, None, None, None, None, None)

  lemma {:induction false} CreatedRow(d: Daemon, step: Step, id: AgentId)
    requires Creates(d, step, id)
    ensures id in Next(d, step).manager.tables.agents
    ensures Next(d, step).manager.tables.agents[id] == NEW
  {
  }

  lemma {:induction false} TurnsStay(a: Tables, b: Tables, id: AgentId)
    requires Preserves(a, b)
    ensures Latest(a.turns, id).Some? ==> Latest(b.turns, id).Some?
  {
    LatestMeaning(a.turns, id);
    LatestMeaning(b.turns, id);
    if Latest(a.turns, id).Some? {
      assert b.turns[Latest(a.turns, id).value].agentId == id;
    }
  }

  lemma {:induction false} ActiveHasTurn(m: Manager, id: AgentId)
    requires Inv(m)
    ensures id in m.active ==> Latest(m.tables.turns, id).Some?
  {
    if id in m.active {
      assert IsRunningTurn(m.tables, id, m.active[id]);
      RunningMeaning(m.tables, id);
    }
  }

  /** What a restart makes of an agent that was starting. */
  function Lost(row: Agent, step: Step): Agent
    requires step.Restart?
  {
    row.(status := AgentFailed, error := Some(step.message), errorCode := Some("DAEMON_UNAVAILABLE"), errorRetryable := Some(true))
  }

  /** An agent no turn was begun for is changed by a restart alone. */
  lemma {:induction false} RowStays(d: Daemon, step: Step, id: AgentId)
    requires DaemonInv(d) && Enabled(d, step) && id in d.manager.tables.agents
    requires Latest(Next(d, step).manager.tables.turns, id).None?
    ensures var row := d.manager.tables.agents[id];
            && id in Next(d, step).manager.tables.agents
            && Next(d, step).manager.tables.agents[id] ==
               if step.Restart? then
                 if row.status.Starting? || row.status.AgentRunning? then Lost(row, step) else row
               else row
  {
    StepManages(d, step);
    TurnsStay(d.manager.tables, Next(d, step).manager.tables, id);
    ActiveHasTurn(d.manager, id);
    BeginsHasTurn(d, step, id);
    if !Touches(d, step, id) {
      StepSpares(d, step, id);
    }
  }

  lemma {:induction false} BeginsHasTurn(d: Daemon, step: Step, id: AgentId)
    requires DaemonInv(d)
    ensures Begins(d, step, id) ==> Latest(Next(d, step).manager.tables.turns, id).Some?
  {
    if Begins(d, step, id) {
      TurnBegins(d, step, id);
    }
  }

  lemma {:induction false} RowStaysInTrace(states: seq<Daemon>, steps: seq<Step>, n: nat, id: AgentId)
    requires IsTrace(states, steps) && n < |steps| && id in states[n].manager.tables.agents
    requires Latest(states[n + 1].manager.tables.turns, id).None?
    ensures id in states[n + 1].manager.tables.agents
    ensures var row, row' := states[n].manager.tables.agents[id], states[n + 1].manager.tables.agents[id];
            && (!steps[n].Restart? || row.status.AgentFailed? ==> row' == row)
            && (steps[n].Restart? && row.status.Starting? ==> row' == Lost(row, steps[n]))
  {
    Reachable(states, steps, n);
    RowStays(states[n], steps[n], id);
  }

  lemma {:induction false} NoTurnEarlier(states: seq<Daemon>, steps: seq<Step>, n: nat, id: AgentId)
    requires IsTrace(states, steps) && n < |steps| && Latest(states[n + 1].manager.tables.turns, id).None?
    ensures Latest(states[n].manager.tables.turns, id).None?
  {
    OneStepPreserves(states, steps, n);
    TurnsStay(states[n].manager.tables, states[n + 1].manager.tables, id);
  }

  lemma {:induction false} StillStarting(states: seq<Daemon>, steps: seq<Step>, n: nat, m: nat, id: AgentId)
    requires IsTrace(states, steps) && n < m <= |steps| && Creates(states[n], steps[n], id)
    requires Latest(states[m].manager.tables.turns, id).None? && forall i | n < i < m :: !steps[i].Restart?
    ensures id in states[m].manager.tables.agents && states[m].manager.tables.agents[id] == NEW
    decreases m - n
  {
    if n + 1 < m {
      NoTurnEarlier(states, steps, m - 1, id);
      StillStarting(states, steps, n, m - 1, id);
      RowStaysInTrace(states, steps, m - 1, id);
    } else {
      CreatedRow(states[n], steps[n], id);
    }
  }

  lemma {:induction false} StaysLost(states: seq<Daemon>, steps: seq<Step>, n: nat, k: nat, m: nat, id: AgentId)
    requires IsTrace(states, steps) && n < k < m <= |steps| && Creates(states[n], steps[n], id)
    requires Latest(states[m].manager.tables.turns, id).None?
    requires steps[k].Restart? && forall i | n < i < k :: !steps[i].Restart?
    ensures id in states[m].manager.tables.agents && states[m].manager.tables.agents[id] == Lost(NEW, steps[k])
    decreases m - k
  {
    NoTurnEarlier(states, steps, m - 1, id);
    if k + 1 < m {
      StaysLost(states, steps, n, k, m - 1, id);
    } else {
      StillStarting(states, steps, n, k, id);
    }
    RowStaysInTrace(states, steps, m - 1, id);
  }

  /** An agent whose start has not come to its turn is waited for as running. */
  lemma {:induction false} WaitSaysStarting(states: seq<Daemon>, steps: seq<Step>, n: nat, m: nat, id: AgentId, timedOut: bool)
    requires IsTrace(states, steps) && n < m <= |steps| && Creates(states[n], steps[n], id)
    requires Latest(states[m].manager.tables.turns, id).None? && forall i | n < i < m :: !steps[i].Restart?
    ensures var t := states[m].manager.tables;
            && id in t.agents && t.agents[id].status.Starting?
            && ResultOf(t, CaptureOf(t, id), timedOut) == WaitResult(id, StillRunning(timedOut))
  {
    StillStarting(states, steps, n, m, id);
  }

  /** If its daemon died before that, it has failed, and may be tried again. */
  lemma {:induction false} WaitSaysUnavailable(states: seq<Daemon>, steps: seq<Step>, n: nat, k: nat, m: nat, id: AgentId,
                                               timedOut: bool)
    requires IsTrace(states, steps) && n < k < m <= |steps| && Creates(states[n], steps[n], id)
    requires Latest(states[m].manager.tables.turns, id).None?
    requires steps[k].Restart? && forall i | n < i < k :: !steps[i].Restart?
    ensures var t := states[m].manager.tables;
            && id in t.agents && t.agents[id].status.AgentFailed?
            && ResultOf(t, CaptureOf(t, id), timedOut) == WaitResult(id, SaidOf(steps[k]))
  {
    StaysLost(states, steps, n, k, m, id);
  }

  // ------------------------------------------------------------------- stopping

  /** A stop is refused, and then changes nothing, exactly when it is one for idleness and a start
      or continue request is in flight or an agent is running. Any other stop is carried out,
      whatever is going on, and touches no agent. */
  lemma {:induction false} StopMeaning(states: seq<Daemon>, steps: seq<Step>, n: nat)
    requires IsTrace(states, steps) && n < |steps| && steps[n].StopDaemon?
    ensures var d, d' := states[n], states[n + 1];
            if steps[n].ifIdle && (d.requests != map[] || exists id :: id in d.manager.tables.agents && d.manager.tables.agents[id].status.AgentRunning?)
            then d' == d && d.gate.accepting
            else !d'.gate.accepting && d'.gate.stopping && d'.manager == d.manager && d'.requests == d.requests
  {
    var d := states[n];
    Reachable(states, steps, n);
    assert |d.requests| == 0 ==> d.requests == map[];
    if exists id :: id in d.manager.tables.agents && d.manager.tables.agents[id].status.AgentRunning? {
      var id :| id in d.manager.tables.agents && d.manager.tables.agents[id].status.AgentRunning?;
      ActiveMeaning(d.manager, id);
    } else if d.manager.active != map[] {
      var id :| id in d.manager.active;
      assert IsRunningTurn(d.manager.tables, id, d.manager.active[id]);
      RunningMeaning(d.manager.tables, id);
    }
  }
}
