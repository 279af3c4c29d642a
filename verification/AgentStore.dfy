/** The durable agents and their turns: two tables updated together, each operation one
    transaction. A turn's id is its place in the table of turns, which only grows. */
module AgentStore {
  import opened Options

  type AgentId = string

  datatype AgentStatus = Starting | AgentRunning | Idle | AgentFailed | AgentStopped
  datatype TurnStatus = TurnRunning | TurnCompleted | TurnFailed | TurnStopped

  datatype Agent = Agent(
    status: AgentStatus,
    providerSessionId: Option<string>,
    latestResponse: Option<string>,
    error: Option<string>,
    errorCode: Option<string>,
    errorRetryable: Option<bool>)

  datatype Turn = Turn(
    agentId: AgentId,
    status: TurnStatus,
    response: Option<string>,
    error: Option<string>,
    errorCode: Option<string>,
    errorRetryable: Option<bool>)

  datatype Completion =
    | Completed(response: Option<string>, providerSessionId: Option<string>)
    | Failed(error: string, errorCode: string, errorRetryable: bool)
    | Stopped(stopError: Option<string>, stopCode: Option<string>, stopRetryable: Option<bool>)

  datatype StoreError = UnknownAgent | AlreadyRunning | UnknownTurn | AlreadySettled

  datatype StoreResult<+T> = Stored(value: T) | Rejected(error: StoreError)

  datatype Tables = Tables(agents: map<AgentId, Agent>, turns: seq<Turn>)

  const RESTARTED := "DAEMON_UNAVAILABLE"

  // ---------------------------------------------------------- what operations do

  /** The newest turn of an agent, if it has any. */
  function Latest(turns: seq<Turn>, id: AgentId): Option<nat> {
    if turns == [] then None
    else if turns[|turns| - 1].agentId == id then Some(|turns| - 1)
    else Latest(turns[..|turns| - 1], id)
  }

  function Created(t: Tables, id: AgentId): Tables {
    t.(agents := t.agents[id := Agent(Starting, None, None, None, None, None)])
  }

  function Begun(t: Tables, id: AgentId): StoreResult<Tables> {
    if id !in t.agents then Rejected(UnknownAgent)
    else if t.agents[id].status.AgentRunning? then Rejected(AlreadyRunning)
    else
      var agent := Agent(AgentRunning, t.agents[id].providerSessionId, None, None, None, None);
      Stored(Tables(t.agents[id := agent], t.turns + [Turn(id, TurnRunning, None, None, None, None)]))
  }

  function SettledTurn(turn: Turn, completion: Completion): Turn {
    match completion
    case Completed(response, _) => turn.(status := TurnCompleted, response := response, error := None, errorCode := None, errorRetryable := None)
    case Failed(error, code, retryable) =>
      turn.(status := TurnFailed, response := None, error := Some(error), errorCode := Some(code), errorRetryable := Some(retryable))
    case Stopped(error, code, retryable) =>
      turn.(status := TurnStopped, response := None, error := error, errorCode := code, errorRetryable := retryable)
  }

  function SettledAgent(agent: Agent, completion: Completion): Agent {
    match completion
    case Completed(response, session) =>
      Agent(Idle, if session.Some? then session else agent.providerSessionId, response, None, None, None)
    case Failed(error, code, retryable) =>
      Agent(AgentFailed, agent.providerSessionId, None, Some(error), Some(code), Some(retryable))
    case Stopped(error, code, retryable) =>
      Agent(AgentStopped, agent.providerSessionId, None, error, code, retryable)
  }

  function Finished(t: Tables, id: AgentId, turnId: nat, completion: Completion): StoreResult<Tables> {
    if turnId >= |t.turns| || t.turns[turnId].agentId != id then Rejected(UnknownTurn)
    else if !t.turns[turnId].status.TurnRunning? then Rejected(AlreadySettled)
    else if id !in t.agents then Rejected(UnknownAgent)
    else
      Stored(Tables(t.agents[id := SettledAgent(t.agents[id], completion)],
                    t.turns[turnId := SettledTurn(t.turns[turnId], completion)]))
  }

  function WithSession(t: Tables, id: AgentId, session: string): StoreResult<Tables> {
    if id !in t.agents then Rejected(UnknownAgent)
    else Stored(t.(agents := t.agents[id := t.agents[id].(providerSessionId := Some(session))]))
  }

  function ReconciledTurn(turn: Turn, message: string): Turn {
    if turn.status.TurnRunning?
    then turn.(status := TurnFailed, error := Some(message), errorCode := Some(RESTARTED), errorRetryable := Some(true))
    else turn
  }

  function ReconciledAgent(agent: Agent, message: string): Agent {
    if agent.status.Starting? || agent.status.AgentRunning?
    then agent.(status := AgentFailed, error := Some(message), errorCode := Some(RESTARTED), errorRetryable := Some(true))
    else agent
  }

  function Reconciled(t: Tables, message: string): (r: Tables)
    ensures |r.turns| == |t.turns| && forall i | 0 <= i < |t.turns| :: r.turns[i] == ReconciledTurn(t.turns[i], message)
  {
    Tables(map id | id in t.agents :: ReconciledAgent(t.agents[id], message),
           seq(|t.turns|, i requires 0 <= i < |t.turns| => ReconciledTurn(t.turns[i], message)))
  }

  // ----------------------------------------------------------------- the store

  /** The store keeps its rows in place; every method is one transaction over both tables. */
  class LocalAgentStore {
    var agents: map<AgentId, Agent>
    var turns: seq<Turn>

    function Contents(): Tables
      reads this
    {
      Tables(agents, turns)
    }

    constructor ()
      ensures Contents() == Tables(map[], [])
    {
      agents, turns := map[], [];
    }

    method Create(id: AgentId)
      modifies this
      ensures Contents() == Created(old(Contents()), id)
    {
      agents := agents[id := Agent(Starting, None, None, None, None, None)];
    }

    /** Rewrites an agent's row. */
    method Update(id: AgentId, agent: Agent) returns (known: bool)
      modifies this`agents
      ensures known == (id in old(agents))
      ensures agents == if known then old(agents)[id := agent] else old(agents)
    {
      known := id in agents;
      if known {
        agents := agents[id := agent];
      }
    }

    method BeginTurn(id: AgentId) returns (r: StoreResult<nat>)
      modifies this
      ensures match Begun(old(Contents()), id)
              case Rejected(e) => r == Rejected(e) && Contents() == old(Contents())
              case Stored(t) => r == Stored(|old(turns)|) && Contents() == t
    {
      if id !in agents {
        return Rejected(UnknownAgent);
      }
      var current := agents[id];
      if current.status.AgentRunning? {
        return Rejected(AlreadyRunning);
      }
      var _ := Update(id, current.(status := AgentRunning, latestResponse := None,
                                   error := None, errorCode := None, errorRetryable := None));
      var turnId := |turns|;
      turns := turns + [Turn(id, TurnRunning, None, None, None, None)];
      return Stored(turnId);
    }

    method FinishTurn(id: AgentId, turnId: nat, completion: Completion) returns (r: StoreResult<Agent>)
      modifies this
      ensures match Finished(old(Contents()), id, turnId, completion)
              case Rejected(e) => r == Rejected(e) && Contents() == old(Contents())
              case Stored(t) => Contents() == t && id in agents && r == Stored(agents[id])
    {
      if turnId >= |turns| || turns[turnId].agentId != id {
        return Rejected(UnknownTurn);
      }
      if !turns[turnId].status.TurnRunning? {
        return Rejected(AlreadySettled);
      }
      if id !in agents {
        return Rejected(UnknownAgent);
      }
      var current := agents[id];
      turns := turns[turnId := SettledTurn(turns[turnId], completion)];
      var updated;
      match completion {
        case Completed(response, session) =>
          updated := current.(providerSessionId := if session.Some? then session else current.providerSessionId,
                              status := Idle, latestResponse := response,
                              error := None, errorCode := None, errorRetryable := None);
        case Failed(error, code, retryable) =>
          updated := current.(status := AgentFailed, latestResponse := None,
                              error := Some(error), errorCode := Some(code), errorRetryable := Some(retryable));
        case Stopped(error, code, retryable) =>
          updated := current.(status := AgentStopped, latestResponse := None,
                              error := error, errorCode := code, errorRetryable := retryable);
      }
      var _ := Update(id, updated);
      return Stored(updated);
    }

    /** The newest turn: a search from the end of the table. */
    method GetLatestTurn(id: AgentId) returns (r: Option<nat>)
      ensures r == Latest(turns, id)
    {
      var i := |turns|;
      assert turns[..i] == turns;
      while i > 0
        invariant 0 <= i <= |turns| && Latest(turns, id) == Latest(turns[..i], id)
      {
        i := i - 1;
        assert turns[..i + 1][..i] == turns[..i];
        if turns[i].agentId == id {
          return Some(i);
        }
      }
      return None;
    }

    /** Fails everything a stopped daemon left running; returns how many agents it changed. */
    method ReconcileActiveRuns(message: string) returns (changed: nat)
      modifies this
      ensures Contents() == Reconciled(old(Contents()), message)
      ensures changed == |set id | id in old(agents) && (old(agents)[id].status.Starting? || old(agents)[id].status.AgentRunning?)|
    {
      changed := |set id | id in agents && (agents[id].status.Starting? || agents[id].status.AgentRunning?)|;
      var settled: seq<Turn> := [];
      for i := 0 to |turns|
        invariant |settled| == i && forall j | 0 <= j < i :: settled[j] == ReconciledTurn(turns[j], message)
      {
        var turn := turns[i];
        if turn.status.TurnRunning? {
          turn := turn.(status := TurnFailed, error := Some(message), errorCode := Some(RESTARTED), errorRetryable := Some(true));
        }
        settled := settled + [turn];
      }
      turns := settled;
      agents := map id | id in agents :: ReconciledAgent(agents[id], message);
    }
  }

  // ----------------------------------------------------------------- invariant

  /** An agent's row says what its newest turn says. */
  predicate Mirrors(agent: Agent, turn: Turn) {
    && agent.error == turn.error && agent.errorCode == turn.errorCode && agent.errorRetryable == turn.errorRetryable
    && match turn.status
       case TurnRunning =>
         && agent.status.AgentRunning? && agent.latestResponse == turn.response == None
         && turn.error.None? && turn.errorCode.None? && turn.errorRetryable.None?
       case TurnCompleted =>
         && agent.status.Idle? && agent.latestResponse == turn.response
         && turn.error.None? && turn.errorCode.None? && turn.errorRetryable.None?
       case TurnFailed =>
         agent.status.AgentFailed? && turn.error.Some? && turn.errorCode.Some? && turn.errorRetryable.Some?
       case TurnStopped => agent.status.AgentStopped?
  }

  /** An agent mirrors its newest turn; without any it is starting, or failed before one began. */
  predicate Follows(t: Tables, id: AgentId)
    requires id in t.agents
  {
    match Latest(t.turns, id)
    case None => t.agents[id].status.Starting? || t.agents[id].status.AgentFailed?
    case Some(i) => i < |t.turns| && Mirrors(t.agents[id], t.turns[i])
  }

  /** The two tables agree: agents mirror their newest turns, and only newest turns run. */
  ghost predicate Consistent(t: Tables) {
    && (forall i | 0 <= i < |t.turns| :: t.turns[i].agentId in t.agents)
    && (forall i | 0 <= i < |t.turns| && t.turns[i].status.TurnRunning? :: Latest(t.turns, t.turns[i].agentId) == Some(i))
    && (forall id | id in t.agents :: Follows(t, id))
  }

  /** What no operation changes: turns already settled, and a session already known. */
  ghost predicate Preserves(before: Tables, after: Tables) {
    && |before.turns| <= |after.turns|
    && (forall i | 0 <= i < |before.turns| ::
          && after.turns[i].agentId == before.turns[i].agentId
          && (!before.turns[i].status.TurnRunning? ==> after.turns[i] == before.turns[i]))
    && (forall id | id in before.agents ::
          id in after.agents
          && (before.agents[id].providerSessionId.Some? ==> after.agents[id].providerSessionId.Some?))
  }

  lemma {:induction false} LatestMeaning(turns: seq<Turn>, id: AgentId)
    ensures match Latest(turns, id)
            case None => forall i | 0 <= i < |turns| :: turns[i].agentId != id
            case Some(n) => n < |turns| && turns[n].agentId == id && forall i | n < i < |turns| :: turns[i].agentId != id
    decreases |turns|
  {
    if turns != [] && turns[|turns| - 1].agentId != id {
      LatestMeaning(turns[..|turns| - 1], id);
    }
  }

  lemma {:induction false} SameAgentsSameLatest(a: seq<Turn>, b: seq<Turn>, id: AgentId)
    requires |a| == |b| && forall i | 0 <= i < |a| :: a[i].agentId == b[i].agentId
    ensures Latest(a, id) == Latest(b, id)
    decreases |a|
  {
    if a != [] {
      SameAgentsSameLatest(a[..|a| - 1], b[..|b| - 1], id);
    }
  }

  /** An agent is running exactly when one of its turns is; then that turn is its only
      running one, and its newest. */
  lemma {:induction false} RunningMeaning(t: Tables, id: AgentId)
    requires Consistent(t) && id in t.agents
    ensures t.agents[id].status.AgentRunning? <==>
            exists i :: 0 <= i < |t.turns| && t.turns[i].agentId == id && t.turns[i].status.TurnRunning?
    ensures forall i | 0 <= i < |t.turns| && t.turns[i].agentId == id && t.turns[i].status.TurnRunning? ::
              Latest(t.turns, id) == Some(i)
  {
    LatestMeaning(t.turns, id);
  }

  lemma CreatedKeeps(t: Tables, id: AgentId)
    requires Consistent(t) && id !in t.agents
    ensures Consistent(Created(t, id)) && Preserves(t, Created(t, id))
  {
    var t' := Created(t, id);
    LatestMeaning(t.turns, id);
    forall other | other in t'.agents ensures Follows(t', other) {
      assert other != id ==> Follows(t, other);
    }
  }

  lemma {:induction false} LatestWith(turns: seq<Turn>, turn: Turn, id: AgentId)
    ensures Latest(turns + [turn], id) == if turn.agentId == id then Some(|turns|) else Latest(turns, id)
  {
    assert (turns + [turn])[..|turns|] == turns;
  }

  lemma {:induction false} BegunConsistent(t: Tables, id: AgentId)
    requires Consistent(t) && Begun(t, id).Stored?
    ensures Consistent(Begun(t, id).value)
  {
    var t', turn := Begun(t, id).value, Turn(id, TurnRunning, None, None, None, None);
    forall other | other in t'.agents ensures Follows(t', other) {
      LatestWith(t.turns, turn, other);
      assert Follows(t, other);
    }
    forall i | 0 <= i < |t'.turns| && t'.turns[i].status.TurnRunning?
      ensures Latest(t'.turns, t'.turns[i].agentId) == Some(i)
    {
      LatestWith(t.turns, turn, t'.turns[i].agentId);
      if i < |t.turns| {
        assert t.turns[i] == t'.turns[i];
        RunningMeaning(t, t.turns[i].agentId);
      }
    }
  }

  lemma {:induction false} BegunKeeps(t: Tables, id: AgentId)
    requires Consistent(t)
    ensures Begun(t, id).Stored? <==> id in t.agents && !t.agents[id].status.AgentRunning?
    ensures Begun(t, id).Stored? ==>
              var t' := Begun(t, id).value;
              Consistent(t') && Preserves(t, t') && Latest(t'.turns, id) == Some(|t.turns|)
  {
    if Begun(t, id).Stored? {
      BegunConsistent(t, id);
      LatestWith(t.turns, Turn(id, TurnRunning, None, None, None, None), id);
    }
  }

  lemma SettledMirrors(agent: Agent, turn: Turn, completion: Completion)
    ensures Mirrors(SettledAgent(agent, completion), SettledTurn(turn, completion))
    ensures SettledTurn(turn, completion).agentId == turn.agentId && !SettledTurn(turn, completion).status.TurnRunning?
    ensures agent.providerSessionId.Some? ==> SettledAgent(agent, completion).providerSessionId.Some?
    ensures !SettledAgent(agent, completion).status.AgentRunning?
  {
  }

  /** A running turn of an agent is replaced by a settled one, and the agent follows. */
  lemma SettlingKeeps(t: Tables, turnId: nat, agent: Agent, turn: Turn)
    requires Consistent(t) && turnId < |t.turns| && t.turns[turnId].status.TurnRunning?
    requires turn.agentId == t.turns[turnId].agentId && !turn.status.TurnRunning? && Mirrors(agent, turn)
    ensures Consistent(Tables(t.agents[turn.agentId := agent], t.turns[turnId := turn]))
  {
    var id := turn.agentId;
    var t' := Tables(t.agents[id := agent], t.turns[turnId := turn]);
    forall other ensures Latest(t'.turns, other) == Latest(t.turns, other) {
      SameAgentsSameLatest(t'.turns, t.turns, other);
    }
    forall other | other in t'.agents
      ensures Follows(t', other)
    {
      LatestMeaning(t.turns, other);
      assert other in t.agents && Follows(t, other);
    }
  }

  lemma FinishedKeeps(t: Tables, id: AgentId, turnId: nat, completion: Completion)
    requires Consistent(t)
    ensures Finished(t, id, turnId, completion).Stored? <==>
            turnId < |t.turns| && t.turns[turnId].agentId == id && t.turns[turnId].status.TurnRunning?
    ensures Finished(t, id, turnId, completion).Stored? ==>
              var t' := Finished(t, id, turnId, completion).value;
              Consistent(t') && Preserves(t, t') && !t'.agents[id].status.AgentRunning?
  {
    if Finished(t, id, turnId, completion).Stored? {
      SettledMirrors(t.agents[id], t.turns[turnId], completion);
      SettlingKeeps(t, turnId, SettledAgent(t.agents[id], completion), SettledTurn(t.turns[turnId], completion));
    }
  }

  lemma SessionKeeps(t: Tables, id: AgentId, session: string)
    requires Consistent(t) && id in t.agents
    ensures var t' := WithSession(t, id, session).value;
            Consistent(t') && Preserves(t, t') && t'.agents[id].providerSessionId == Some(session)
  {
  }

  /** After a restart nothing is running, and both tables say why in the same words. */
  lemma ReconciledKeeps(t: Tables, message: string)
    requires Consistent(t)
    ensures var t' := Reconciled(t, message);
            && Consistent(t') && Preserves(t, t')
            && (forall i | 0 <= i < |t'.turns| :: !t'.turns[i].status.TurnRunning?)
            && (forall id | id in t'.agents :: !t'.agents[id].status.Starting? && !t'.agents[id].status.AgentRunning?)
  {
    var t' := Reconciled(t, message);
    forall id ensures Latest(t'.turns, id) == Latest(t.turns, id) {
      SameAgentsSameLatest(t'.turns, t.turns, id);
    }
    forall id | id in t'.agents ensures Follows(t', id) {
      assert Follows(t, id);
    }
  }

  // ------------------------------------------------------------- what wait says

  datatype Failure = Failure(code: string, message: string, retryable: bool)

  datatype WaitOutcome =
    | StillRunning(timedOut: bool)
    | Answered(response: Option<string>)
    | Broken(failure: Failure)
    | Halted(reason: Option<Failure>)

  datatype WaitResult = WaitResult(id: AgentId, outcome: WaitOutcome)

  function OrElse<T>(o: Option<T>, default: T): T {
    if o.Some? then o.value else default
  }

  function TurnFailure(turn: Turn): Failure {
    Failure(OrElse(turn.errorCode, "AGENT_FAILED"),
            OrElse(turn.error, "Subagent failed without an error message."),
            OrElse(turn.errorRetryable, false))
  }

  predicate HasTurnFailure(turn: Turn) {
    turn.error.Some? || turn.errorCode.Some? || turn.errorRetryable.Some?
  }

  function WaitResultFromTurn(turn: Turn, timedOut: bool): WaitResult {
    WaitResult(turn.agentId,
      match turn.status
      case TurnRunning => StillRunning(timedOut)
      case TurnCompleted => Answered(turn.response)
      case TurnFailed => Broken(TurnFailure(turn))
      case TurnStopped => Halted(if HasTurnFailure(turn) then Some(TurnFailure(turn)) else None))
  }

  predicate Truthy(s: Option<string>) {
    s.Some? && s.value != ""
  }

  function WaitResultFromAgent(id: AgentId, agent: Agent, timedOut: bool): WaitResult {
    WaitResult(id,
      match agent.status
      case Starting => StillRunning(timedOut)
      case AgentRunning => StillRunning(timedOut)
      case Idle => Answered(agent.latestResponse)
      case AgentFailed =>
        Broken(Failure(OrElse(agent.errorCode, "AGENT_FAILED"),
                       OrElse(agent.error, "Subagent failed without an error message."),
                       OrElse(agent.errorRetryable, false)))
      case AgentStopped =>
        Halted(if Truthy(agent.error) || Truthy(agent.errorCode) || agent.errorRetryable.Some?
               then Some(Failure(OrElse(agent.errorCode, "AGENT_STOPPED"),
                                 OrElse(agent.error, "Subagent stopped."),
                                 OrElse(agent.errorRetryable, false)))
               else None))
  }

  /** The two views of an agent's newest turn are the same, unless it was stopped with a
      failure only partly described: then they use different default words, and the agent's
      view does not see empty ones. */
  lemma {:induction false} ViewsAgree(t: Tables, id: AgentId, timedOut: bool)
    requires Consistent(t) && id in t.agents && Latest(t.turns, id).Some?
    ensures var turn := t.turns[Latest(t.turns, id).value];
            WaitResultFromTurn(turn, timedOut) == WaitResultFromAgent(id, t.agents[id], timedOut) <==>
            || !turn.status.TurnStopped?
            || !HasTurnFailure(turn)
            || (turn.errorCode.Some? && turn.error.Some?
                && (turn.errorCode.value != "" || turn.error.value != "" || turn.errorRetryable.Some?))
  {
    LatestMeaning(t.turns, id);
    var turn := t.turns[Latest(t.turns, id).value];
    assert Mirrors(t.agents[id], turn);
    assert "AGENT_FAILED"[6] != "AGENT_STOPPED"[6];
    assert "Subagent failed without an error message."[9] != "Subagent stopped."[9];
  }
}
