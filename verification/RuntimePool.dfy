/** The pool of provider runtimes as a transition system: one program counter for every run
    and for every close in progress, one step for every stretch of code between two awaits,
    and the provider free to settle, fail or die at any point. */
module RuntimePool {
  import opened Options

  type Key = nat
  type Sid = nat

  datatype Creation = Pending | Failed | Ready

  datatype Reason = IdleTimeout | ServerShutdown | RuntimeCrashed | RuntimeNotAlive | ShutdownDuringCreation

  /** How far the close of an entry has come; Open while there is none. */
  datatype Closer =
    | Open
    | AwaitCreate(reason: Reason)
    | AwaitRuns(reason: Reason)
    | AwaitReleases(reason: Reason, waiting: set<Sid>)
    | ClosingRuntime(reason: Reason)
    | Closed(ok: bool)

  /** A pooled runtime: sessions counts the runs that hold each session, inFlight names the
      sessions the provider has been asked to release, closes counts the calls that close it. */
  datatype Entry = Entry(
    key: Key,
    creation: Creation,
    alive: bool,
    activeRuns: int,
    closer: Closer,
    sessions: map<Sid, int>,
    inFlight: set<Sid>,
    closes: nat)
  {
    predicate Closing() {
      !closer.Open?
    }
  }

  /** What a run does once the close it waits for has settled. */
  datatype AfterClose = Retry | RetryAnyway | GiveUp | FinishRun

  datatype Pc =
    | AtLoop
    | AwaitExisting(entry: nat)
    | AwaitOwn(entry: nat)
    | AwaitClose(entry: nat, next: AfterClose)
    | ReserveInput
    | Running
    | ReserveOutput(sid: Option<Sid>)
    | Finishing
    | Done

  /** A call of run: its attempt at acquiring (the first or the second), the entry whose
      activeRuns counts it, and the sessions it has reserved. */
  datatype Run = Run(key: Key, input: Option<Sid>, attempt: nat, holding: Option<nat>, held: set<Sid>, pc: Pc)

  datatype Pool = Pool(entries: map<Key, nat>, closing: bool, es: seq<Entry>, runs: seq<Run>)

  datatype Outcome = Succeeded(sid: Option<Sid>) | FailedRun

  datatype Step =
    // the pool's own code
    | StartRun(key: Key, input: Option<Sid>)
    | Acquire(r: nat)
    | GotExisting(r: nat)
    | GotOwn(r: nat)
    | CloseSettled(r: nat)
    | Reserve(r: nat)
    | Finish(r: nat)
    | EvictRelease(e: nat, sid: Sid)
    | EvictClose(e: nat)
    | ClosePool
    | CloserCreated(e: nat)
    | CloserRunsGone(e: nat)
    | CloserReleased(e: nat)
    // the provider
    | CreateSettles(e: nat, ok: bool, alive: bool)
    | Die(e: nat)
    | SessionKnown(r: nat, sid: Sid)
    | RunReturns(r: nat, outcome: Outcome)
    | ReleaseSettles(e: nat, sid: Sid, ok: bool)
    | RuntimeClosed(e: nat, ok: bool)

  const EMPTY := Pool(map[], false, [], [])

  // --------------------------------------------------------------- parts of steps

  function SetRun(s: Pool, r: nat, run: Run): Pool
    requires r < |s.runs|
  {
    s.(runs := s.runs[r := run])
  }

  function SetEntry(s: Pool, e: nat, entry: Entry): Pool
    requires e < |s.es|
  {
    s.(es := s.es[e := entry])
  }

  function MoveTo(s: Pool, r: nat, pc: Pc): Pool
    requires r < |s.runs|
  {
    SetRun(s, r, s.runs[r].(pc := pc))
  }

  /** Starts the close of an entry, unless one has started already. */
  function CloseEntry(entry: Entry, reason: Reason): Entry {
    if entry.Closing() then entry else entry.(closer := AwaitCreate(reason))
  }

  function Without(s: Pool, e: nat): map<Key, nat>
    requires e < |s.es|
  {
    var key := s.es[e].key;
    if key in s.entries && s.entries[key] == e then s.entries - {key} else s.entries
  }

  function RemoveAndClose(s: Pool, e: nat, reason: Reason): Pool
    requires e < |s.es|
  {
    SetEntry(s, e, CloseEntry(s.es[e], reason)).(entries := Without(s, e))
  }

  /** A successful acquire, and the run counted at once. */
  function Hold(s: Pool, r: nat, e: nat): Pool
    requires r < |s.runs| && e < |s.es|
  {
    SetRun(SetEntry(s, e, s.es[e].(activeRuns := s.es[e].activeRuns + 1)), r,
           s.runs[r].(holding := Some(e), pc := ReserveInput))
  }

  function SessionRuns(sessions: map<Sid, int>, sid: Sid): int {
    if sid in sessions then sessions[sid] else 0
  }

  /** One more run on a session, created if need be. */
  function Reserved(s: Pool, r: nat, e: nat, sid: Sid): Pool
    requires r < |s.runs| && e < |s.es|
  {
    var entry := s.es[e];
    SetRun(SetEntry(s, e, entry.(sessions := entry.sessions[sid := SessionRuns(entry.sessions, sid) + 1])), r,
           s.runs[r].(held := s.runs[r].held + {sid}))
  }

  /** Every held session still known loses a run, but never falls below none. */
  function Unreserved(sessions: map<Sid, int>, held: set<Sid>): map<Sid, int> {
    map sid | sid in sessions ::
      if sid !in held then sessions[sid] else if sessions[sid] - 1 < 0 then 0 else sessions[sid] - 1
  }

  /** Asks the provider to release every session, except that a close for idleness asks nothing. */
  function BeginReleases(entry: Entry, reason: Reason): Entry {
    if reason.IdleTimeout? then entry.(closer := AwaitReleases(reason, {}))
    else entry.(inFlight := entry.inFlight + entry.sessions.Keys, closer := AwaitReleases(reason, entry.sessions.Keys))
  }

  predicate WaitsForRuns(reason: Reason) {
    !reason.ServerShutdown? && !reason.RuntimeCrashed? && !reason.RuntimeNotAlive?
  }

  // ------------------------------------------------------------------ enabling

  predicate IsRun(s: Pool, r: nat) {
    r < |s.runs|
  }

  predicate IsEntry(s: Pool, e: nat) {
    e < |s.es|
  }

  /** The entry a run holds. */
  predicate HoldsOne(s: Pool, r: nat) {
    IsRun(s, r) && s.runs[r].holding.Some? && IsEntry(s, s.runs[r].holding.value)
  }

  function HeldEntry(s: Pool, r: nat): Entry
    requires HoldsOne(s, r)
  {
    s.es[s.runs[r].holding.value]
  }

  /** The session a run is about to reserve, if any. */
  function Wanted(run: Run): Option<Sid> {
    match run.pc
    case ReserveInput => run.input
    case ReserveOutput(sid) => sid
    case _ => None
  }

  predicate Enabled(s: Pool, step: Step) {
    match step
    case StartRun(_, _) => !s.closing
    case Acquire(r) => IsRun(s, r) && s.runs[r].pc.AtLoop?
    case GotExisting(r) =>
      IsRun(s, r) && s.runs[r].pc.AwaitExisting? && IsEntry(s, s.runs[r].pc.entry) && !s.es[s.runs[r].pc.entry].creation.Pending?
    case GotOwn(r) =>
      IsRun(s, r) && s.runs[r].pc.AwaitOwn? && IsEntry(s, s.runs[r].pc.entry) && !s.es[s.runs[r].pc.entry].creation.Pending?
    case CloseSettled(r) =>
      IsRun(s, r) && s.runs[r].pc.AwaitClose? && IsEntry(s, s.runs[r].pc.entry) && s.es[s.runs[r].pc.entry].closer.Closed?
    case Reserve(r) =>
      && HoldsOne(s, r) && (s.runs[r].pc.ReserveInput? || s.runs[r].pc.ReserveOutput?)
      && (Wanted(s.runs[r]).Some? && Wanted(s.runs[r]).value !in s.runs[r].held ==>
            Wanted(s.runs[r]).value !in HeldEntry(s, r).inFlight)
    case Finish(r) => HoldsOne(s, r) && s.runs[r].pc.Finishing?
    case EvictRelease(e, sid) =>
      && IsEntry(s, e) && s.es[e].creation.Ready? && !s.es[e].Closing()
      && sid in s.es[e].sessions && s.es[e].sessions[sid] <= 0
    case EvictClose(e) => IsEntry(s, e) && s.es[e].creation.Ready? && s.es[e].activeRuns == 0
    case ClosePool => !s.closing
    case CloserCreated(e) => IsEntry(s, e) && s.es[e].closer.AwaitCreate? && !s.es[e].creation.Pending?
    case CloserRunsGone(e) => IsEntry(s, e) && s.es[e].closer.AwaitRuns? && s.es[e].activeRuns == 0
    case CloserReleased(e) =>
      IsEntry(s, e) && s.es[e].closer.AwaitReleases? && s.es[e].closer.waiting !! s.es[e].inFlight
    case CreateSettles(e, _, _) => IsEntry(s, e) && s.es[e].creation.Pending?
    case Die(e) => IsEntry(s, e) && s.es[e].creation.Ready?
    case SessionKnown(r, sid) =>
      && HoldsOne(s, r) && s.runs[r].pc.Running?
      && (sid !in s.runs[r].held ==> sid !in HeldEntry(s, r).inFlight)
    case RunReturns(r, _) => HoldsOne(s, r) && s.runs[r].pc.Running?
    case ReleaseSettles(e, sid, _) => IsEntry(s, e) && sid in s.es[e].inFlight
    case RuntimeClosed(e, _) => IsEntry(s, e) && s.es[e].closer.ClosingRuntime?
  }

  // --------------------------------------------------------------------- steps

  /** The head of the acquire loop. */
  function AcquireStep(s: Pool, r: nat): Pool
    requires IsRun(s, r)
  {
    var run := s.runs[r];
    if run.key in s.entries && IsEntry(s, s.entries[run.key]) && !s.es[s.entries[run.key]].Closing() then
      var e := s.entries[run.key];
      if !s.es[e].creation.Ready? || s.es[e].alive then MoveTo(s, r, AwaitExisting(e))
      else MoveTo(RemoveAndClose(s, e, RuntimeNotAlive), r, AwaitClose(e, Retry))
    else if s.closing then MoveTo(s, r, Done)
    else
      var e := |s.es|;
      MoveTo(s.(es := s.es + [Entry(run.key, Pending, false, 0, Open, map[], {}, 0)],
                entries := s.entries[run.key := e]), r, AwaitOwn(e))
  }

  predicate Current(s: Pool, e: nat)
    requires IsEntry(s, e)
  {
    !s.closing && !s.es[e].Closing() && s.es[e].key in s.entries && s.entries[s.es[e].key] == e
  }

  function GotExistingStep(s: Pool, r: nat): Pool
    requires Enabled(s, GotExisting(r))
  {
    var e := s.runs[r].pc.entry;
    if s.es[e].creation.Failed? then MoveTo(s, r, Done)
    else if Current(s, e) && s.es[e].alive then Hold(s, r, e)
    else MoveTo(RemoveAndClose(s, e, RuntimeNotAlive), r, AwaitClose(e, Retry))
  }

  function GotOwnStep(s: Pool, r: nat): Pool
    requires Enabled(s, GotOwn(r))
  {
    var e := s.runs[r].pc.entry;
    if s.es[e].creation.Failed? then MoveTo(s, r, Done)
    else if !Current(s, e) then
      MoveTo(SetEntry(s, e, CloseEntry(s.es[e], ShutdownDuringCreation)), r, AwaitClose(e, GiveUp))
    else if s.es[e].alive then Hold(s, r, e)
    else
      // The runtime exited during startup: once more, then give up.
      MoveTo(RemoveAndClose(s, e, RuntimeNotAlive), r, AwaitClose(e, if s.runs[r].attempt == 0 then RetryAnyway else GiveUp))
  }

  function CloseSettledStep(s: Pool, r: nat): Pool
    requires Enabled(s, CloseSettled(r))
  {
    var run := s.runs[r];
    var next := if s.es[run.pc.entry].closer.ok || !run.pc.next.Retry? then run.pc.next else GiveUp;
    match next
    case Retry => MoveTo(s, r, AtLoop)
    case RetryAnyway => SetRun(s, r, run.(attempt := 1, pc := AtLoop))
    case GiveUp => MoveTo(s, r, Done)
    case FinishRun => MoveTo(s, r, Finishing)
  }

  function ReserveStep(s: Pool, r: nat): Pool
    requires Enabled(s, Reserve(r))
  {
    var run, e := s.runs[r], s.runs[r].holding.value;
    var sid := Wanted(run);
    if sid.None? || sid.value in run.held then MoveTo(s, r, if run.pc.ReserveInput? then Running else Finishing)
    else if s.es[e].Closing() then MoveTo(s, r, Finishing)
    else MoveTo(Reserved(s, r, e, sid.value), r, if run.pc.ReserveInput? then Running else Finishing)
  }

  function FinishStep(s: Pool, r: nat): Pool
    requires Enabled(s, Finish(r))
  {
    var run, e := s.runs[r], s.runs[r].holding.value;
    var entry := s.es[e];
    SetRun(SetEntry(s, e, entry.(sessions := Unreserved(entry.sessions, run.held), activeRuns := entry.activeRuns - 1)), r,
           run.(holding := None, held := {}, pc := Done))
  }

  function ClosePoolStep(s: Pool): Pool {
    Pool(map[], true,
         seq(|s.es|, i requires 0 <= i < |s.es| =>
           if i in s.entries.Values then CloseEntry(s.es[i], ServerShutdown) else s.es[i]),
         s.runs)
  }

  function CloserCreatedStep(s: Pool, e: nat): Pool
    requires Enabled(s, CloserCreated(e))
  {
    var entry := s.es[e];
    var reason := entry.closer.reason;
    SetEntry(s, e,
      if entry.creation.Failed? then entry.(closer := Closed(true))
      else if WaitsForRuns(reason) then entry.(closer := AwaitRuns(reason))
      else if reason.ServerShutdown? then entry.(closer := AwaitReleases(reason, entry.inFlight * entry.sessions.Keys))
      else BeginReleases(entry, reason))
  }

  /** The releases waited for are over: the runtime is asked to close. */
  function CloserReleasedStep(s: Pool, e: nat): Pool
    requires Enabled(s, CloserReleased(e))
  {
    var entry := s.es[e];
    var reason := entry.closer.reason;
    SetEntry(s, e, entry.(closer := ClosingRuntime(reason), closes := entry.closes + 1,
                          sessions := if reason.ServerShutdown? then entry.sessions else map[]))
  }

  function CreateSettlesStep(s: Pool, e: nat, ok: bool, alive: bool): Pool
    requires Enabled(s, CreateSettles(e, ok, alive))
  {
    if ok then SetEntry(s, e, s.es[e].(creation := Ready, alive := alive))
    else SetEntry(s, e, s.es[e].(creation := Failed)).(entries := Without(s, e))
  }

  function SessionKnownStep(s: Pool, r: nat, sid: Sid): Pool
    requires Enabled(s, SessionKnown(r, sid))
  {
    if sid in s.runs[r].held || HeldEntry(s, r).Closing() then s
    else Reserved(s, r, s.runs[r].holding.value, sid)
  }

  function RunReturnsStep(s: Pool, r: nat, outcome: Outcome): Pool
    requires Enabled(s, RunReturns(r, outcome))
  {
    var e := s.runs[r].holding.value;
    match outcome
    case Succeeded(sid) => MoveTo(s, r, ReserveOutput(sid))
    case FailedRun =>
      if s.es[e].alive then MoveTo(s, r, Finishing)
      else MoveTo(RemoveAndClose(s, e, RuntimeCrashed), r, AwaitClose(e, FinishRun))
  }

  function ReleaseSettlesStep(s: Pool, e: nat, sid: Sid, ok: bool): Pool
    requires Enabled(s, ReleaseSettles(e, sid, ok))
  {
    var entry := s.es[e];
    SetEntry(s, e, entry.(inFlight := entry.inFlight - {sid},
                          sessions := if ok && sid in entry.sessions && entry.sessions[sid] == 0
                                      then entry.sessions - {sid} else entry.sessions))
  }

  function RuntimeClosedStep(s: Pool, e: nat, ok: bool): Pool
    requires Enabled(s, RuntimeClosed(e, ok))
  {
    var entry := s.es[e];
    SetEntry(s, e, entry.(closer := Closed(ok || entry.closer.reason.ServerShutdown?), sessions := map[]))
  }

  function Next(s: Pool, step: Step): Pool
    requires Enabled(s, step)
  {
    match step
    case StartRun(key, input) => s.(runs := s.runs + [Run(key, input, 0, None, {}, AtLoop)])
    case Acquire(r) => AcquireStep(s, r)
    case GotExisting(r) => GotExistingStep(s, r)
    case GotOwn(r) => GotOwnStep(s, r)
    case CloseSettled(r) => CloseSettledStep(s, r)
    case Reserve(r) => ReserveStep(s, r)
    case Finish(r) => FinishStep(s, r)
    case EvictRelease(e, sid) => SetEntry(s, e, s.es[e].(inFlight := s.es[e].inFlight + {sid}))
    case EvictClose(e) => RemoveAndClose(s, e, IdleTimeout)
    case ClosePool => ClosePoolStep(s)
    case CloserCreated(e) => CloserCreatedStep(s, e)
    case CloserRunsGone(e) => SetEntry(s, e, BeginReleases(s.es[e], s.es[e].closer.reason))
    case CloserReleased(e) => CloserReleasedStep(s, e)
    case CreateSettles(e, ok, alive) => CreateSettlesStep(s, e, ok, alive)
    case Die(e) => SetEntry(s, e, s.es[e].(alive := false))
    case SessionKnown(r, sid) => SessionKnownStep(s, r, sid)
    case RunReturns(r, outcome) => RunReturnsStep(s, r, outcome)
    case ReleaseSettles(e, sid, ok) => ReleaseSettlesStep(s, e, sid, ok)
    case RuntimeClosed(e, ok) => RuntimeClosedStep(s, e, ok)
  }

  /** The states a run of steps goes through, from the empty pool. */
  ghost predicate IsTrace(states: seq<Pool>, steps: seq<Step>) {
    && |states| == |steps| + 1 && states[0] == EMPTY
    && forall i {:trigger steps[i]} | 0 <= i < |steps| :: Enabled(states[i], steps[i]) && states[i + 1] == Next(states[i], steps[i])
  }
}
