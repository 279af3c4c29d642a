/** The daemon around the manager: requests that may begin a turn, stopping when idle, and
    starting again after a crash, as one transition system over every interleaving. */
module AgentDaemon {
  import opened Options
  import opened AgentStore
  import opened AgentManager

  /** What decides whether requests are served. */
  datatype Gate = Gate(accepting: bool, stopping: bool, activeTurnRequests: int)

  const OPENED := Gate(true, false, 0)

  function Admitted(g: Gate): Gate {
    g.(activeTurnRequests := g.activeTurnRequests + 1)
  }

  function Unwound(g: Gate): Gate {
    g.(activeTurnRequests := g.activeTurnRequests - 1)
  }

  predicate MayStop(g: Gate, ifIdle: bool, activeTurns: nat) {
    g.accepting && (ifIdle ==> g.activeTurnRequests <= 0 && activeTurns == 0)
  }

  function AfterStop(g: Gate, ifIdle: bool, activeTurns: nat): Gate {
    if MayStop(g, ifIdle, activeTurns) then g.(accepting := false, stopping := true) else g
  }

  class LocalAgentDaemon {
    const manager: LocalAgentManager
    var accepting: bool
    var stopping: bool
    var activeTurnRequests: int

    function State(): Gate
      reads this
    {
      Gate(accepting, stopping, activeTurnRequests)
    }

    constructor (manager: LocalAgentManager)
      ensures this.manager == manager && State() == OPENED
    {
      this.manager := manager;
      accepting, stopping, activeTurnRequests := true, false, 0;
    }

    /** Before the operation of a start or continue request. */
    method AdmitTurnRequest() returns (served: bool)
      modifies this
      ensures served == old(accepting)
      ensures State() == if served then Admitted(old(State())) else old(State())
    {
      if !accepting {
        return false;
      }
      activeTurnRequests := activeTurnRequests + 1;
      return true;
    }

    /** After it, however it ended. */
    method UnwindTurnRequest()
      modifies this
      ensures State() == Unwound(old(State()))
    {
      activeTurnRequests := activeTurnRequests - 1;
    }

    method Stop(ifIdle: bool) returns (stopped: bool)
      modifies this
      ensures stopped == MayStop(old(State()), ifIdle, |manager.activeTurns|)
      ensures State() == AfterStop(old(State()), ifIdle, |manager.activeTurns|)
    {
      if !accepting {
        return false;
      }
      if ifIdle {
        accepting := false;
        if activeTurnRequests > 0 || |manager.activeTurns| > 0 {
          accepting := true;
          return false;
        }
      }
      stopping := true;
      accepting := false;
      return true;
    }
  }

  // ------------------------------------------------------- every interleaving

  datatype Target = NewAgent(id: AgentId) | KnownAgent(id: AgentId)

  /** A start or continue request: loading profiles or, for a start, waiting after its agent was
      created; or done and about to be unwound. */
  datatype Stage = Loading(target: Target) | Returned

  datatype Daemon = Daemon(manager: Manager, gate: Gate, requests: map<nat, Stage>)

  datatype Step =
    | Arrive(request: nat, target: Target)
    | RequestFails(request: nat)
    | RequestCreates(request: nat)
    | RequestBegins(request: nat)
    | Unwind(request: nat)
    | StopDaemon(ifIdle: bool)
    | CloseDaemon
    | SessionKnown(id: AgentId, session: string)
    | RunEnds(id: AgentId, outcome: RunOutcome)
    | Restart(message: string)

  const FIRST := Daemon(Manager(Tables(map[], []), map[]), OPENED, map[])

  predicate IsLoading(d: Daemon, request: nat) {
    request in d.requests && d.requests[request].Loading?
  }

  predicate Enabled(d: Daemon, step: Step) {
    match step
    case Arrive(request, _) => d.gate.accepting && request !in d.requests
    case RequestFails(request) => IsLoading(d, request)
    case RequestCreates(request) =>
      && IsLoading(d, request) && d.requests[request].target.NewAgent?
      && d.requests[request].target.id !in d.manager.tables.agents
    case RequestBegins(request) => IsLoading(d, request) && d.requests[request].target.KnownAgent?
    case Unwind(request) => request in d.requests && d.requests[request].Returned?
    case StopDaemon(_) => d.gate.accepting
    case CloseDaemon => true
    case SessionKnown(id, _) => id in d.manager.active
    case RunEnds(id, _) => id in d.manager.active
    case Restart(_) => true
  }

  function Next(d: Daemon, step: Step): Daemon
    requires Enabled(d, step)
  {
    match step
    case Arrive(request, target) => d.(gate := Admitted(d.gate), requests := d.requests[request := Loading(target)])
    case RequestFails(request) => d.(requests := d.requests[request := Returned])
    case RequestCreates(request) =>
      var id := d.requests[request].target.id;
      d.(requests := d.requests[request := Loading(KnownAgent(id))], manager := AfterCreate(d.manager, id))
    case RequestBegins(request) =>
      d.(requests := d.requests[request := Returned], manager := AfterBegin(d.manager, d.requests[request].target.id))
    case Unwind(request) => d.(gate := Unwound(d.gate), requests := d.requests - {request})
    case StopDaemon(ifIdle) => d.(gate := AfterStop(d.gate, ifIdle, |d.manager.active|))
    case CloseDaemon => d.(gate := d.gate.(accepting := false, stopping := true))
    case SessionKnown(id, session) => d.(manager := AfterSession(d.manager, id, session))
    case RunEnds(id, outcome) => d.(manager := AfterRun(d.manager, id, d.manager.active[id], outcome))
    case Restart(message) => Daemon(AfterRestart(d.manager, message), OPENED, map[])
  }

  ghost predicate IsTrace(states: seq<Daemon>, steps: seq<Step>) {
    && |states| == |steps| + 1 && states[0] == FIRST
    && forall i {:trigger steps[i]} | 0 <= i < |steps| :: Enabled(states[i], steps[i]) && states[i + 1] == Next(states[i], steps[i])
  }

  // ----------------------------------------------------------------- lifecycle

  ghost predicate DaemonInv(d: Daemon) {
    Inv(d.manager) && d.gate.activeTurnRequests == |d.requests|
  }

  lemma CountRequest(requests: map<nat, Stage>, request: nat, stage: Stage)
    ensures |requests[request := stage]| == |requests| + if request in requests then 0 else 1
    ensures request in requests ==> |requests - {request}| == |requests| - 1
  {
    assert requests[request := stage].Keys == requests.Keys + {request};
    assert (requests - {request}).Keys == requests.Keys - {request};
  }

  lemma StepCounts(d: Daemon, step: Step)
    requires d.gate.activeTurnRequests == |d.requests| && Enabled(d, step)
    ensures Next(d, step).gate.activeTurnRequests == |Next(d, step).requests|
  {
    match step {
      case Arrive(request, target) => CountRequest(d.requests, request, Loading(target));
      case RequestFails(request) => CountRequest(d.requests, request, Returned);
      case RequestCreates(request) =>
        CountRequest(d.requests, request, Loading(KnownAgent(d.requests[request].target.id)));
      case RequestBegins(request) => CountRequest(d.requests, request, Returned);
      case Unwind(request) => CountRequest(d.requests, request, Returned);
      case _ =>
    }
  }

  lemma StepManages(d: Daemon, step: Step)
    requires Inv(d.manager) && Enabled(d, step)
    ensures Inv(Next(d, step).manager) && Preserves(d.manager.tables, Next(d, step).manager.tables)
  {
    match step {
      case RequestCreates(request) => CreateKeeps(d.manager, d.requests[request].target.id);
      case RequestBegins(request) => BeginKeeps(d.manager, d.requests[request].target.id);
      case SessionKnown(id, session) => SessionKnownKeeps(d.manager, id, session);
      case RunEnds(id, outcome) => RunKeeps(d.manager, id, outcome);
      case Restart(message) => RestartKeeps(d.manager, message);
      case _ =>
        assert Next(d, step).manager == d.manager;
    }
  }

  lemma StepKeeps(d: Daemon, step: Step)
    requires DaemonInv(d) && Enabled(d, step)
    ensures DaemonInv(Next(d, step)) && Preserves(d.manager.tables, Next(d, step).manager.tables)
  {
    StepCounts(d, step);
    StepManages(d, step);
  }

  lemma {:induction false} Reachable(states: seq<Daemon>, steps: seq<Step>, n: nat)
    requires IsTrace(states, steps) && n <= |steps|
    ensures DaemonInv(states[n])
  {
    if n == 0 {
      assert Latest([], "") == None;
    } else {
      Reachable(states, steps, n - 1);
      StepKeeps(states[n - 1], steps[n - 1]);
    }
  }

  lemma PreservesTransitive(a: Tables, b: Tables, c: Tables)
    requires Preserves(a, b) && Preserves(b, c)
    ensures Preserves(a, c)
  {
  }

  lemma OneStepPreserves(states: seq<Daemon>, steps: seq<Step>, n: nat)
    requires IsTrace(states, steps) && n < |steps|
    ensures Preserves(states[n].manager.tables, states[n + 1].manager.tables)
  {
    Reachable(states, steps, n);
    StepKeeps(states[n], steps[n]);
  }

  /** Over any stretch of any trace, restarts included, settled turns never change and a
      session once known stays known. */
  lemma {:induction false} History(states: seq<Daemon>, steps: seq<Step>, n: nat, m: nat)
    requires IsTrace(states, steps) && n <= m <= |steps|
    ensures Preserves(states[n].manager.tables, states[m].manager.tables)
    decreases m - n
  {
    if n < m {
      History(states, steps, n, m - 1);
      OneStepPreserves(states, steps, m - 1);
      PreservesTransitive(states[n].manager.tables, states[m - 1].manager.tables, states[m].manager.tables);
    }
  }

  /** At every point between steps: an agent is running exactly when it has an active turn,
      which is its newest and its only running one. */
  lemma {:induction false} TurnLifecycle(states: seq<Daemon>, steps: seq<Step>, n: nat, id: AgentId)
    requires IsTrace(states, steps) && n <= |steps| && id in states[n].manager.tables.agents
    ensures var m := states[n].manager;
            && (m.tables.agents[id].status.AgentRunning? <==> id in m.active)
            && (id in m.active ==> Latest(m.tables.turns, id) == Some(m.active[id]))
            && (forall i: nat | i < |m.tables.turns| && m.tables.turns[i].agentId == id ::
                  m.tables.turns[i].status.TurnRunning? <==> id in m.active && m.active[id] == i)
  {
    Reachable(states, steps, n);
    ActiveMeaning(states[n].manager, id);
  }

  /** In every reachable state the two views of a newest turn agree, crashes included. */
  lemma {:induction false} WaitViewsAgree(states: seq<Daemon>, steps: seq<Step>, n: nat, id: AgentId, timedOut: bool)
    requires IsTrace(states, steps) && n <= |steps|
    requires id in states[n].manager.tables.agents && Latest(states[n].manager.tables.turns, id).Some?
    ensures var t := states[n].manager.tables;
            var newest := Latest(t.turns, id).value;
            newest < |t.turns| &&
            WaitResultFromTurn(t.turns[newest], timedOut) == WaitResultFromAgent(id, t.agents[id], timedOut)
  {
    Reachable(states, steps, n);
    NeverStopped(states, steps, n);
    LatestMeaning(states[n].manager.tables.turns, id);
    ViewsAgree(states[n].manager.tables, id, timedOut);
  }

  ghost predicate NoneStopped(t: Tables) {
    forall i | 0 <= i < |t.turns| :: !t.turns[i].status.TurnStopped?
  }

  lemma StepStopsNone(d: Daemon, step: Step)
    requires NoneStopped(d.manager.tables) && Enabled(d, step)
    ensures NoneStopped(Next(d, step).manager.tables)
  {
    var t, t' := d.manager.tables, Next(d, step).manager.tables;
    forall i | 0 <= i < |t'.turns| ensures !t'.turns[i].status.TurnStopped? {
      assert i < |t.turns| ==> !t.turns[i].status.TurnStopped?;
    }
  }

  /** The manager never finishes a turn as stopped. */
  lemma {:induction false} NeverStopped(states: seq<Daemon>, steps: seq<Step>, n: nat)
    requires IsTrace(states, steps) && n <= |steps|
    ensures NoneStopped(states[n].manager.tables)
  {
    if n > 0 {
      NeverStopped(states, steps, n - 1);
      StepStopsNone(states[n - 1], steps[n - 1]);
    }
  }

  // ----------------------------------------------------------- idle replacement

  /** Stopped for being idle: nothing is served, in flight or running. */
  predicate Retired(d: Daemon) {
    !d.gate.accepting && d.gate.stopping && d.requests == map[] && d.manager.active == map[]
  }

  lemma RetiredStays(d: Daemon, step: Step)
    requires Retired(d) && Enabled(d, step) && !step.Restart?
    ensures Retired(Next(d, step)) && Next(d, step).manager == d.manager
  {
  }

  lemma StopRetires(d: Daemon)
    requires DaemonInv(d) && MayStop(d.gate, true, |d.manager.active|)
    ensures Retired(Next(d, StopDaemon(true)))
  {
    assert d.requests.Keys == {} && d.manager.active.Keys == {};
  }

  /** Once a stop for idleness succeeds, and as long as that daemon lives, no turn is running,
      no start or continue request is in flight, and none ever begins one: the tables stay
      exactly as they were. */
  lemma {:induction false} IdleReplacementIsSafe(states: seq<Daemon>, steps: seq<Step>, n: nat, m: nat)
    requires IsTrace(states, steps) && n < m <= |steps|
    requires steps[n] == StopDaemon(true) && MayStop(states[n].gate, true, |states[n].manager.active|)
    requires forall i | n < i < m :: !steps[i].Restart?
    ensures Retired(states[m]) && states[m].manager == states[n].manager
    ensures forall i | 0 <= i < |states[m].manager.tables.turns| :: !states[m].manager.tables.turns[i].status.TurnRunning?
    decreases m - n
  {
    Reachable(states, steps, n);
    if n + 1 < m {
      IdleReplacementIsSafe(states, steps, n, m - 1);
      RetiredStays(states[m - 1], steps[m - 1]);
    } else {
      StopRetires(states[n]);
    }
    forall i | 0 <= i < |states[m].manager.tables.turns|
      ensures !states[m].manager.tables.turns[i].status.TurnRunning?
    {
      assert states[m].manager.tables.turns[i].agentId !in states[m].manager.active;
    }
  }
}
