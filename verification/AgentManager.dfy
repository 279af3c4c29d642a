/** One daemon's turns: the durable tables, and the turns this process is running. Every
    method here is a stretch of code without an await, so other work sees it happen at once. */
module AgentManager {
  import opened Options
  import opened AgentStore

  datatype Manager = Manager(tables: Tables, active: map<AgentId, nat>)

  datatype BeginResult = Started(turnId: nat) | Conflict | Refused(error: StoreError)

  /** How the provider's part of a turn ended. */
  datatype RunOutcome =
    | RunSucceeded(response: Option<string>, session: Option<string>)
    | RunFailed(error: string, errorCode: string, errorRetryable: bool)

  // ------------------------------------------------------- what operations do

  function BeginOutcome(m: Manager, id: AgentId): BeginResult {
    if id in m.active then Conflict
    else
      match Begun(m.tables, id)
      case Rejected(e) => Refused(e)
      case Stored(_) => Started(|m.tables.turns|)
  }

  function AfterBegin(m: Manager, id: AgentId): Manager {
    if BeginOutcome(m, id).Started? then Manager(Begun(m.tables, id).value, m.active[id := |m.tables.turns|]) else m
  }

  /** A start creates its agent first and begins its turn in a later stretch. */
  function AfterCreate(m: Manager, id: AgentId): Manager {
    m.(tables := Created(m.tables, id))
  }

  /** A session reported while the turn runs: stored unless it is the one already known. */
  function AfterSession(m: Manager, id: AgentId, session: string): Manager {
    if id !in m.tables.agents || m.tables.agents[id].providerSessionId == Some(session) then m
    else m.(tables := WithSession(m.tables, id, session).value)
  }

  function CompletionOf(agent: Agent, outcome: RunOutcome): Completion {
    match outcome
    case RunSucceeded(response, session) => Completed(response, if session.Some? then session else agent.providerSessionId)
    case RunFailed(error, code, retryable) => Failed(error, code, retryable)
  }

  /** The end of a turn: its row settled, and the turn no longer active. */
  function AfterRun(m: Manager, id: AgentId, turnId: nat, outcome: RunOutcome): Manager {
    Manager(
      if id !in m.tables.agents then m.tables
      else
        match Finished(m.tables, id, turnId, CompletionOf(m.tables.agents[id], outcome))
        case Rejected(_) => m.tables
        case Stored(t) => t,
      m.active - {id})
  }

  function AfterRestart(m: Manager, message: string): Manager {
    Manager(Reconciled(m.tables, message), map[])
  }

  // ---------------------------------------------------------------- invariant

  predicate IsRunningTurn(t: Tables, id: AgentId, i: nat) {
    i < |t.turns| && t.turns[i].agentId == id && t.turns[i].status.TurnRunning?
  }

  /** The active turns are exactly the running ones. */
  ghost predicate ActiveAreRunning(m: Manager) {
    && (forall id | id in m.active :: IsRunningTurn(m.tables, id, m.active[id]))
    && (forall i | 0 <= i < |m.tables.turns| && m.tables.turns[i].status.TurnRunning? ::
          m.tables.turns[i].agentId in m.active && m.active[m.tables.turns[i].agentId] == i)
  }

  ghost predicate Inv(m: Manager) {
    Consistent(m.tables) && ActiveAreRunning(m)
  }

  /** An agent is running exactly when it has an active turn: its newest, and its only
      running one. */
  lemma {:induction false} ActiveMeaning(m: Manager, id: AgentId)
    requires Inv(m) && id in m.tables.agents
    ensures m.tables.agents[id].status.AgentRunning? <==> id in m.active
    ensures id in m.active ==> Latest(m.tables.turns, id) == Some(m.active[id])
    ensures forall i: nat | i < |m.tables.turns| && m.tables.turns[i].agentId == id ::
              m.tables.turns[i].status.TurnRunning? <==> id in m.active && m.active[id] == i
  {
    RunningMeaning(m.tables, id);
    if id in m.active {
      assert IsRunningTurn(m.tables, id, m.active[id]);
    }
  }

  /** A turn begins exactly for a known agent with none running. */
  lemma BeginStarts(m: Manager, id: AgentId)
    requires Inv(m)
    ensures BeginOutcome(m, id).Started? <==> id in m.tables.agents && !m.tables.agents[id].status.AgentRunning?
    ensures BeginOutcome(m, id).Conflict? <==> id in m.tables.agents && m.tables.agents[id].status.AgentRunning?
  {
    if id in m.tables.agents {
      RunningMeaning(m.tables, id);
    }
    if id in m.active {
      assert IsRunningTurn(m.tables, id, m.active[id]);
    }
  }

  lemma BeginKeeps(m: Manager, id: AgentId)
    requires Inv(m)
    ensures Inv(AfterBegin(m, id)) && Preserves(m.tables, AfterBegin(m, id).tables)
  {
    BegunKeeps(m.tables, id);
  }

  /** A created agent has no turn yet, and its first one can begin. */
  lemma {:induction false} CreateKeeps(m: Manager, id: AgentId)
    requires Inv(m) && id !in m.tables.agents
    ensures Inv(AfterCreate(m, id)) && Preserves(m.tables, AfterCreate(m, id).tables)
    ensures Latest(AfterCreate(m, id).tables.turns, id) == None && BeginOutcome(AfterCreate(m, id), id).Started?
  {
    CreatedKeeps(m.tables, id);
    LatestMeaning(m.tables.turns, id);
    BeginStarts(AfterCreate(m, id), id);
  }

  lemma SessionKnownKeeps(m: Manager, id: AgentId, session: string)
    requires Inv(m)
    ensures Inv(AfterSession(m, id, session)) && Preserves(m.tables, AfterSession(m, id, session).tables)
    ensures id in m.tables.agents ==> AfterSession(m, id, session).tables.agents[id].providerSessionId == Some(session)
  {
    if id in m.tables.agents {
      SessionKeeps(m.tables, id, session);
    }
  }

  lemma SettledActive(m: Manager, id: AgentId, turn: Turn, agents: map<AgentId, Agent>)
    requires ActiveAreRunning(m) && id in m.active && IsRunningTurn(m.tables, id, m.active[id])
    requires turn.agentId == id && !turn.status.TurnRunning?
    ensures ActiveAreRunning(Manager(Tables(agents, m.tables.turns[m.active[id] := turn]), m.active - {id}))
  {
    var t' := Tables(agents, m.tables.turns[m.active[id] := turn]);
    forall other | other in m.active && other != id ensures IsRunningTurn(t', other, m.active[other]) {
      assert IsRunningTurn(m.tables, other, m.active[other]);
    }
    forall i | 0 <= i < |t'.turns| && t'.turns[i].status.TurnRunning?
      ensures t'.turns[i].agentId in m.active - {id} && m.active[t'.turns[i].agentId] == i
    {
      assert t'.turns[i] == m.tables.turns[i];
    }
  }

  lemma RunKeeps(m: Manager, id: AgentId, outcome: RunOutcome)
    requires Inv(m) && id in m.active
    ensures var m' := AfterRun(m, id, m.active[id], outcome);
            && Inv(m') && Preserves(m.tables, m'.tables)
            && m.active[id] < |m'.tables.turns| && !m'.tables.turns[m.active[id]].status.TurnRunning?
            && id !in m'.active
  {
    var turnId := m.active[id];
    assert IsRunningTurn(m.tables, id, turnId);
    var completion := CompletionOf(m.tables.agents[id], outcome);
    FinishedKeeps(m.tables, id, turnId, completion);
    var t' := Finished(m.tables, id, turnId, completion).value;
    SettledMirrors(m.tables.agents[id], m.tables.turns[turnId], completion);
    SettledActive(m, id, SettledTurn(m.tables.turns[turnId], completion), t'.agents);
  }

  /** The end of a turn is recorded: the answer or the failure in both tables, and the session
      reported with the answer, or else the one already known. */
  lemma RunRecords(m: Manager, id: AgentId, outcome: RunOutcome)
    requires Inv(m) && id in m.active
    ensures var turnId := m.active[id];
            var t' := AfterRun(m, id, turnId, outcome).tables;
            && turnId < |t'.turns| && id in m.tables.agents && id in t'.agents
            && var turn, agent := t'.turns[turnId], t'.agents[id];
               match outcome
               case RunSucceeded(response, session) =>
                 && turn.status.TurnCompleted? && turn.response == response
                 && agent.status.Idle? && agent.latestResponse == response
                 && agent.providerSessionId == (if session.Some? then session else m.tables.agents[id].providerSessionId)
               case RunFailed(error, code, retryable) =>
                 && turn.status.TurnFailed? && turn.error == Some(error) && turn.errorCode == Some(code)
                 && turn.errorRetryable == Some(retryable)
                 && agent.status.AgentFailed? && agent.error == Some(error) && agent.errorCode == Some(code)
                 && agent.errorRetryable == Some(retryable)
                 && agent.providerSessionId == m.tables.agents[id].providerSessionId
  {
    assert IsRunningTurn(m.tables, id, m.active[id]);
    FinishedKeeps(m.tables, id, m.active[id], CompletionOf(m.tables.agents[id], outcome));
  }

  lemma RestartKeeps(m: Manager, message: string)
    requires Inv(m)
    ensures Inv(AfterRestart(m, message)) && Preserves(m.tables, AfterRestart(m, message).tables)
  {
    ReconciledKeeps(m.tables, message);
  }

  // --------------------------------------------------------------- the manager

  datatype Capture = Capture(id: AgentId, agent: Agent, turnId: Option<nat>)

  datatype CaptureResult = Captured(captures: seq<Capture>) | UnknownId(id: AgentId) | NotActive(turnId: nat)

  function CaptureOf(t: Tables, id: AgentId): Capture
    requires id in t.agents
  {
    Capture(id, t.agents[id], Latest(t.turns, id))
  }

  class LocalAgentManager {
    const store: LocalAgentStore
    var activeTurns: map<AgentId, nat>

    function State(): Manager
      reads this, store
    {
      Manager(store.Contents(), activeTurns)
    }

    constructor (store: LocalAgentStore)
      ensures this.store == store && State() == Manager(store.Contents(), map[])
    {
      this.store := store;
      activeTurns := map[];
    }

    method Begin(id: AgentId) returns (r: BeginResult)
      modifies this, store
      ensures r == BeginOutcome(old(State()), id) && State() == AfterBegin(old(State()), id)
    {
      if id in activeTurns {
        return Conflict;
      }
      var begun := store.BeginTurn(id);
      match begun {
        case Rejected(error) =>
          return Refused(error);
        case Stored(turnId) =>
          activeTurns := activeTurns[id := turnId];
          return Started(turnId);
      }
    }

    /** The stretch of a start that creates its agent; other work may come before the next one
        begins its turn. */
    method Create(id: AgentId)
      modifies store
      ensures State() == AfterCreate(old(State()), id)
    {
      store.Create(id);
    }

    method OnSessionId(id: AgentId, session: string)
      modifies store
      ensures State() == AfterSession(old(State()), id, session)
    {
      if id !in store.agents || store.agents[id].providerSessionId == Some(session) {
        return;
      }
      var _ := store.Update(id, store.agents[id].(providerSessionId := Some(session)));
    }

    /** The last stretch of a turn, once the provider's run has ended. */
    method EndRun(id: AgentId, turnId: nat, outcome: RunOutcome)
      modifies this, store
      ensures State() == AfterRun(old(State()), id, turnId, outcome)
    {
      if id in store.agents {
        var current := store.agents[id];
        match outcome {
          case RunSucceeded(response, session) =>
            var _ := store.FinishTurn(id, turnId,
              Completed(response, if session.Some? then session else current.providerSessionId));
          case RunFailed(error, code, retryable) =>
            var _ := store.FinishTurn(id, turnId, Failed(error, code, retryable));
        }
      }
      activeTurns := activeTurns - {id};
    }

    method Reconcile(message: string) returns (changed: nat)
      modifies store
      ensures State() == Manager(Reconciled(old(State()).tables, message), old(activeTurns))
    {
      changed := store.ReconcileActiveRuns(message);
    }

    /** The first part of wait: the newest turn of every agent asked for. While active turns
        are exactly the running ones, it fails only for an agent nobody knows. */
    method CaptureTurns(ids: seq<AgentId>) returns (r: CaptureResult)
      ensures r.Captured? ==>
                && |r.captures| == |ids|
                && forall k | 0 <= k < |ids| :: ids[k] in store.agents && r.captures[k] == CaptureOf(store.Contents(), ids[k])
      ensures Inv(State()) ==>
                !r.NotActive? && (r.Captured? <==> forall k | 0 <= k < |ids| :: ids[k] in store.agents)
    {
      var captures: seq<Capture> := [];
      for k := 0 to |ids|
        invariant |captures| == k
        invariant forall j | 0 <= j < k :: ids[j] in store.agents && captures[j] == CaptureOf(store.Contents(), ids[j])
      {
        if ids[k] !in store.agents {
          return UnknownId(ids[k]);
        }
        var turnId := store.GetLatestTurn(ids[k]);
        captures := captures + [Capture(ids[k], store.agents[ids[k]], turnId)];
      }
      for k := 0 to |ids| {
        var capture := captures[k];
        LatestMeaning(store.turns, ids[k]);
        if capture.turnId.Some? && store.turns[capture.turnId.value].status.TurnRunning? {
          if capture.id !in activeTurns || activeTurns[capture.id] != capture.turnId.value {
            return NotActive(capture.turnId.value);
          }
        }
      }
      return Captured(captures);
    }

    /** The last part of wait: what has become of the captured turns. */
    method CollectResults(captures: seq<Capture>, timedOut: bool) returns (results: seq<WaitResult>)
      ensures |results| == |captures|
      ensures forall k | 0 <= k < |captures| :: results[k] == ResultOf(store.Contents(), captures[k], timedOut)
    {
      results := [];
      for k := 0 to |captures|
        invariant |results| == k
        invariant forall j | 0 <= j < k :: results[j] == ResultOf(store.Contents(), captures[j], timedOut)
      {
        var turnId := captures[k].turnId;
        if turnId.Some? && turnId.value < |store.turns| {
          results := results + [WaitResultFromTurn(store.turns[turnId.value], timedOut)];
        } else {
          results := results + [WaitResultFromAgent(captures[k].id, captures[k].agent, timedOut)];
        }
      }
    }
  }

  function ResultOf(t: Tables, capture: Capture, timedOut: bool): WaitResult {
    if capture.turnId.Some? && capture.turnId.value < |t.turns|
    then WaitResultFromTurn(t.turns[capture.turnId.value], timedOut)
    else WaitResultFromAgent(capture.id, capture.agent, timedOut)
  }

  /** A result that is not "still running" is final: asking again, however much later, gives
      the same answer, whether or not that later wait timed out. */
  lemma WaitIsFinal(before: Tables, after: Tables, capture: Capture, timedOut: bool, later: bool)
    requires Preserves(before, after) && capture.turnId.Some? && capture.turnId.value < |before.turns|
    requires !ResultOf(before, capture, timedOut).outcome.StillRunning?
    ensures ResultOf(after, capture, later) == ResultOf(before, capture, timedOut)
  {
    assert !before.turns[capture.turnId.value].status.TurnRunning?;
  }
}
