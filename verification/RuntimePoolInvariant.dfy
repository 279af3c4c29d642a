/** What every step of the runtime pool keeps. */
module RuntimePoolInvariant {
  import opened Options
  import opened RuntimePool

  // ------------------------------------------------------------------ counting

  /** Whether a run holds an entry, and in it a session if one is named. */
  predicate Holds(run: Run, e: nat, sid: Option<Sid>) {
    run.holding == Some(e) && (sid.Some? ==> sid.value in run.held)
  }

  function One(run: Run, e: nat, sid: Option<Sid>): nat {
    if Holds(run, e, sid) then 1 else 0
  }

  /** How many runs hold an entry, and in it a session if one is named. */
  function Tally(runs: seq<Run>, e: nat, sid: Option<Sid>): nat {
    if runs == [] then 0 else One(runs[0], e, sid) + Tally(runs[1..], e, sid)
  }

  lemma {:induction false} TallyUpdate(runs: seq<Run>, r: nat, run: Run, e: nat, sid: Option<Sid>)
    requires r < |runs|
    ensures Tally(runs[r := run], e, sid) == Tally(runs, e, sid) - One(runs[r], e, sid) + One(run, e, sid)
  {
    if r > 0 {
      TallyUpdate(runs[1..], r - 1, run, e, sid);
      assert runs[r := run][1..] == runs[1..][r - 1 := run];
    } else {
      assert runs[r := run][1..] == runs[1..];
    }
  }

  lemma {:induction false} TallyAppend(runs: seq<Run>, run: Run, e: nat, sid: Option<Sid>)
    ensures Tally(runs + [run], e, sid) == Tally(runs, e, sid) + One(run, e, sid)
  {
    if runs == [] {
      assert [run][1..] == [] && runs + [run] == [run];
    } else {
      TallyAppend(runs[1..], run, e, sid);
      assert (runs + [run])[1..] == runs[1..] + [run];
    }
  }

  lemma {:induction false} TallyMember(runs: seq<Run>, r: nat, e: nat, sid: Option<Sid>)
    requires r < |runs| && Holds(runs[r], e, sid)
    ensures Tally(runs, e, sid) >= 1
  {
    if r > 0 {
      TallyMember(runs[1..], r - 1, e, sid);
    }
  }

  lemma {:induction false} TallyNone(runs: seq<Run>, e: nat, sid: Option<Sid>)
    requires Tally(runs, e, None) == 0
    ensures Tally(runs, e, sid) == 0
  {
    if runs != [] {
      TallyNone(runs[1..], e, sid);
    }
  }

  /** Runs hold the same in two states. */
  ghost predicate SameTallies(a: seq<Run>, b: seq<Run>) {
    forall e, sid :: Tally(a, e, sid) == Tally(b, e, sid)
  }

  // ----------------------------------------------------------------- invariant

  /** A reason to close is what it says. */
  predicate ReasonOk(entry: Entry, reason: Reason) {
    match reason
    case IdleTimeout => entry.creation.Ready? && entry.activeRuns == 0
    case ServerShutdown => true
    case RuntimeCrashed => entry.creation.Ready? && !entry.alive
    case RuntimeNotAlive => entry.creation.Ready? && !entry.alive
    case ShutdownDuringCreation => false
  }

  predicate CloserOk(entry: Entry) {
    match entry.closer
    case Open => entry.closes == 0
    case AwaitCreate(reason) => entry.closes == 0 && ReasonOk(entry, reason)
    case AwaitRuns(reason) => entry.closes == 0 && entry.creation.Ready? && ReasonOk(entry, reason) && reason.IdleTimeout?
    case AwaitReleases(reason, _) => entry.closes == 0 && entry.creation.Ready? && ReasonOk(entry, reason)
    case ClosingRuntime(reason) => entry.closes == 1 && entry.creation.Ready? && ReasonOk(entry, reason)
    case Closed(_) => !entry.creation.Pending? && entry.closes == if entry.creation.Ready? then 1 else 0
  }

  /** Whether the close has forgotten the entry's sessions. */
  predicate Cleared(entry: Entry) {
    entry.closer.Closed? || (entry.closer.ClosingRuntime? && !entry.closer.reason.ServerShutdown?)
  }

  ghost predicate SessionsOk(runs: seq<Run>, e: nat, entry: Entry) {
    if Cleared(entry) then entry.sessions == map[]
    else forall sid :: SessionRuns(entry.sessions, sid) == Tally(runs, e, Some(sid))
  }

  /** No run holds a session that a living provider is releasing. */
  ghost predicate ReleasesOk(runs: seq<Run>, e: nat, entry: Entry) {
    entry.alive ==> forall sid | sid in entry.inFlight :: Tally(runs, e, Some(sid)) == 0
  }

  ghost predicate EntryOk(runs: seq<Run>, e: nat, entry: Entry) {
    && CloserOk(entry)
    && entry.activeRuns == Tally(runs, e, None)
    && SessionsOk(runs, e, entry)
    && ReleasesOk(runs, e, entry)
    && (!entry.creation.Ready? ==> entry.activeRuns == 0 && entry.sessions == map[] && entry.inFlight == {} && !entry.alive)
  }

  /** An entry that is neither closing nor failed is the one the pool has for its key. */
  predicate Listed(s: Pool, e: nat)
    requires IsEntry(s, e)
  {
    !s.es[e].Closing() && !s.es[e].creation.Failed? ==> s.es[e].key in s.entries && s.entries[s.es[e].key] == e
  }

  ghost predicate MapOk(s: Pool) {
    && (s.closing ==> s.entries == map[])
    && (forall k | k in s.entries ::
          IsEntry(s, s.entries[k]) && s.es[s.entries[k]].key == k
          && !s.es[s.entries[k]].Closing() && !s.es[s.entries[k]].creation.Failed?)
    && (forall e | 0 <= e < |s.es| :: Listed(s, e))
  }

  predicate RunOk(s: Pool, run: Run) {
    && (run.holding.None? ==> run.held == {})
    && (run.holding.Some? ==> IsEntry(s, run.holding.value) && s.es[run.holding.value].creation.Ready?)
    && match run.pc
       case AtLoop => run.holding.None?
       case Done => run.holding.None?
       case AwaitExisting(e) => run.holding.None? && IsEntry(s, e) && s.es[e].key == run.key
       case AwaitOwn(e) => run.holding.None? && IsEntry(s, e) && s.es[e].key == run.key
       case AwaitClose(e, next) =>
         && IsEntry(s, e) && s.es[e].Closing()
         && (if next.FinishRun? then run.holding == Some(e) else run.holding.None?)
       case _ => run.holding.Some?
  }

  ghost predicate Inv(s: Pool) {
    && MapOk(s)
    && (forall e | 0 <= e < |s.es| :: EntryOk(s.runs, e, s.es[e]))
    && (forall r | 0 <= r < |s.runs| :: RunOk(s, s.runs[r]))
  }

  // ------------------------------------------------------------- changing a run

  lemma SameAfterMove(runs: seq<Run>, r: nat, run: Run)
    requires r < |runs| && run.holding == runs[r].holding && run.held == runs[r].held
    ensures SameTallies(runs[r := run], runs)
  {
    forall e, sid ensures Tally(runs[r := run], e, sid) == Tally(runs, e, sid) {
      TallyUpdate(runs, r, run, e, sid);
    }
  }

  lemma EntrySame(a: seq<Run>, b: seq<Run>, e: nat, entry: Entry)
    requires EntryOk(a, e, entry) && SameTallies(b, a)
    ensures EntryOk(b, e, entry)
  {
    assert Tally(b, e, None) == Tally(a, e, None);
    forall sid ensures Tally(b, e, Some(sid)) == Tally(a, e, Some(sid)) {
    }
  }

  /** A run moves on, holding what it held. */
  lemma MoveKeeps(s: Pool, r: nat, run: Run)
    requires Inv(s) && IsRun(s, r) && RunOk(s, run)
    requires run.holding == s.runs[r].holding && run.held == s.runs[r].held
    ensures Inv(SetRun(s, r, run))
  {
    var s' := SetRun(s, r, run);
    SameAfterMove(s.runs, r, run);
    forall e | 0 <= e < |s'.es| ensures EntryOk(s'.runs, e, s'.es[e]) {
      EntrySame(s.runs, s'.runs, e, s.es[e]);
    }
    forall e | 0 <= e < |s'.es| ensures Listed(s', e) {
      assert Listed(s, e);
    }
    forall i | 0 <= i < |s'.runs| ensures RunOk(s', s'.runs[i]) {
      assert RunOk(s, s'.runs[i]);
    }
  }

  // ---------------------------------------------------------- changing an entry

  /** An entry that changes but stays where it is: what is known of it does not shrink. */
  predicate Moves(before: Entry, after: Entry) {
    && after.key == before.key
    && (before.Closing() == after.Closing())
    && (before.creation.Ready? ==> after.creation.Ready?)
    && (before.creation.Failed? == after.creation.Failed?)
  }

  lemma EntryKeeps(s: Pool, e: nat, entry: Entry)
    requires Inv(s) && IsEntry(s, e) && Moves(s.es[e], entry) && EntryOk(s.runs, e, entry)
    ensures Inv(SetEntry(s, e, entry))
  {
    var s' := SetEntry(s, e, entry);
    forall i | 0 <= i < |s'.es| ensures EntryOk(s'.runs, i, s'.es[i]) && Listed(s', i) {
      assert EntryOk(s.runs, i, s.es[i]) && Listed(s, i);
    }
    forall r | 0 <= r < |s'.runs| ensures RunOk(s', s'.runs[r]) {
      assert RunOk(s, s.runs[r]);
    }
  }

  /** Taking an entry off the map and starting its close, for a reason that holds. */
  lemma CloseKeeps(s: Pool, e: nat, reason: Reason)
    requires Inv(s) && IsEntry(s, e) && (s.es[e].Closing() || ReasonOk(s.es[e], reason))
    ensures Inv(RemoveAndClose(s, e, reason)) && RemoveAndClose(s, e, reason).es[e].Closing()
  {
    var s' := RemoveAndClose(s, e, reason);
    assert EntryOk(s.runs, e, s.es[e]);
    assert EntryOk(s.runs, e, s'.es[e]);
    forall i | 0 <= i < |s'.es| ensures EntryOk(s'.runs, i, s'.es[i]) && Listed(s', i) {
      assert EntryOk(s.runs, i, s.es[i]) && Listed(s, i);
    }
    forall r | 0 <= r < |s'.runs| ensures RunOk(s', s'.runs[r]) {
      assert RunOk(s, s.runs[r]);
    }
  }

  // ----------------------------------------------- a run that holds more or less

  /** A run that may only have held, and may only come to hold, one entry. */
  predicate OnlyHolds(run: Run, e: nat) {
    run.holding == None || run.holding == Some(e)
  }

  lemma OthersSame(runs: seq<Run>, r: nat, run: Run, e: nat, i: nat, entry: Entry)
    requires r < |runs| && OnlyHolds(runs[r], e) && OnlyHolds(run, e) && i != e
    requires EntryOk(runs, i, entry)
    ensures EntryOk(runs[r := run], i, entry)
  {
    TallyUpdate(runs, r, run, i, None);
    forall sid ensures Tally(runs[r := run], i, Some(sid)) == Tally(runs, i, Some(sid)) {
      TallyUpdate(runs, r, run, i, Some(sid));
    }
  }

  /** A run and its entry change together. */
  lemma RunAndEntryKeep(s: Pool, r: nat, run: Run, e: nat, entry: Entry)
    requires Inv(s) && IsRun(s, r) && IsEntry(s, e) && OnlyHolds(s.runs[r], e) && OnlyHolds(run, e)
    requires Moves(s.es[e], entry) && EntryOk(s.runs[r := run], e, entry)
    requires RunOk(SetEntry(s, e, entry), run)
    ensures Inv(SetRun(SetEntry(s, e, entry), r, run))
  {
    var s' := SetRun(SetEntry(s, e, entry), r, run);
    forall i | 0 <= i < |s'.es| ensures EntryOk(s'.runs, i, s'.es[i]) && Listed(s', i) {
      assert EntryOk(s.runs, i, s.es[i]) && Listed(s, i);
      if i != e {
        OthersSame(s.runs, r, run, e, i, s.es[i]);
      }
    }
    forall i | 0 <= i < |s'.runs| ensures RunOk(s', s'.runs[i]) {
      assert i != r ==> RunOk(s, s.runs[i]);
    }
  }

  lemma HoldKeeps(s: Pool, r: nat, e: nat)
    requires Inv(s) && IsRun(s, r) && IsEntry(s, e) && s.runs[r].holding.None?
    requires s.es[e].creation.Ready? && !s.es[e].Closing()
    ensures Inv(Hold(s, r, e))
  {
    var entry := s.es[e].(activeRuns := s.es[e].activeRuns + 1);
    var run := s.runs[r].(holding := Some(e), pc := ReserveInput);
    assert RunOk(s, s.runs[r]) && EntryOk(s.runs, e, s.es[e]);
    TallyUpdate(s.runs, r, run, e, None);
    forall sid ensures Tally(s.runs[r := run], e, Some(sid)) == Tally(s.runs, e, Some(sid)) {
      TallyUpdate(s.runs, r, run, e, Some(sid));
    }
    RunAndEntryKeep(s, r, run, e, entry);
  }

  lemma ReservedKeeps(s: Pool, r: nat, sid: Sid)
    requires Inv(s) && HoldsOne(s, r) && !HeldEntry(s, r).Closing()
    requires sid !in s.runs[r].held && sid !in HeldEntry(s, r).inFlight
    ensures Inv(Reserved(s, r, s.runs[r].holding.value, sid))
  {
    var e := s.runs[r].holding.value;
    var before := s.es[e];
    var entry := before.(sessions := before.sessions[sid := SessionRuns(before.sessions, sid) + 1]);
    var run := s.runs[r].(held := s.runs[r].held + {sid});
    assert RunOk(s, s.runs[r]) && EntryOk(s.runs, e, before);
    TallyUpdate(s.runs, r, run, e, None);
    forall t ensures Tally(s.runs[r := run], e, Some(t)) == Tally(s.runs, e, Some(t)) + if t == sid then 1 else 0 {
      TallyUpdate(s.runs, r, run, e, Some(t));
    }
    RunAndEntryKeep(s, r, run, e, entry);
  }

  lemma FinishKeeps(s: Pool, r: nat)
    requires Inv(s) && Enabled(s, Finish(r))
    ensures Inv(FinishStep(s, r))
  {
    var e := s.runs[r].holding.value;
    var before := s.es[e];
    var entry := before.(sessions := Unreserved(before.sessions, s.runs[r].held), activeRuns := before.activeRuns - 1);
    var run := s.runs[r].(holding := None, held := {}, pc := Done);
    assert RunOk(s, s.runs[r]) && EntryOk(s.runs, e, before);
    TallyMember(s.runs, r, e, None);
    TallyUpdate(s.runs, r, run, e, None);
    forall t ensures Tally(s.runs[r := run], e, Some(t)) == Tally(s.runs, e, Some(t)) - if t in s.runs[r].held then 1 else 0 {
      TallyUpdate(s.runs, r, run, e, Some(t));
    }
    if !Cleared(before) {
      NoClamp(s, r);
    }
    RunAndEntryKeep(s, r, run, e, entry);
  }

  /** Ending a run, the lower bound on a session's count never acts. */
  lemma NoClamp(s: Pool, r: nat)
    requires Inv(s) && HoldsOne(s, r) && !Cleared(HeldEntry(s, r))
    ensures forall sid | sid in s.runs[r].held ::
              sid in HeldEntry(s, r).sessions && HeldEntry(s, r).sessions[sid] >= 1
  {
    var e := s.runs[r].holding.value;
    assert EntryOk(s.runs, e, s.es[e]);
    forall sid | sid in s.runs[r].held ensures sid in s.es[e].sessions && s.es[e].sessions[sid] >= 1 {
      TallyMember(s.runs, r, e, Some(sid));
      assert SessionRuns(s.es[e].sessions, sid) == Tally(s.runs, e, Some(sid));
    }
  }

  // ---------------------------------------------------------------- every step

  /** A run starts waiting for a close that has started. */
  lemma WaitKeeps(s: Pool, r: nat, e: nat, reason: Reason, next: AfterClose)
    requires Inv(s) && IsRun(s, r) && IsEntry(s, e) && (s.es[e].Closing() || ReasonOk(s.es[e], reason))
    requires if next.FinishRun? then s.runs[r].holding == Some(e) else s.runs[r].holding.None?
    ensures Inv(MoveTo(RemoveAndClose(s, e, reason), r, AwaitClose(e, next)))
  {
    CloseKeeps(s, e, reason);
    var s' := RemoveAndClose(s, e, reason);
    assert RunOk(s', s'.runs[r]);
    MoveKeeps(s', r, s'.runs[r].(pc := AwaitClose(e, next)));
  }

  lemma NewEntryKeeps(s: Pool, r: nat)
    requires Inv(s) && IsRun(s, r) && s.runs[r].pc.AtLoop? && !s.closing && s.runs[r].key !in s.entries
    ensures Inv(AcquireStep(s, r))
  {
    var key, e := s.runs[r].key, |s.es|;
    var entry := Entry(key, Pending, false, 0, Open, map[], {}, 0);
    var s' := s.(es := s.es + [entry], entries := s.entries[key := e]);
    NobodyHolds(s, s.runs, e);
    forall i | 0 <= i < |s'.es| ensures EntryOk(s'.runs, i, s'.es[i]) && Listed(s', i) {
      assert i < e ==> EntryOk(s.runs, i, s.es[i]) && Listed(s, i);
      if i == e {
        forall sid ensures Tally(s.runs, e, Some(sid)) == 0 {
          TallyNone(s.runs, e, Some(sid));
        }
      }
    }
    forall i | 0 <= i < |s'.runs| ensures RunOk(s', s'.runs[i]) {
      assert RunOk(s, s.runs[i]);
    }
    assert RunOk(s, s.runs[r]);
    MoveKeeps(s', r, s'.runs[r].(pc := AwaitOwn(e)));
  }

  lemma {:induction false} NobodyHolds(s: Pool, runs: seq<Run>, e: nat)
    requires e >= |s.es| && forall i | 0 <= i < |runs| :: RunOk(s, runs[i])
    ensures Tally(runs, e, None) == 0
  {
    if runs != [] {
      assert RunOk(s, runs[0]);
      NobodyHolds(s, runs[1..], e);
    }
  }

  lemma AcquireKeeps(s: Pool, r: nat)
    requires Inv(s) && Enabled(s, Acquire(r))
    ensures Inv(AcquireStep(s, r))
  {
    var run := s.runs[r];
    assert RunOk(s, run);
    if run.key in s.entries {
      var e := s.entries[run.key];
      if !s.es[e].creation.Ready? || s.es[e].alive {
        MoveKeeps(s, r, run.(pc := AwaitExisting(e)));
      } else {
        WaitKeeps(s, r, e, RuntimeNotAlive, Retry);
      }
    } else if s.closing {
      MoveKeeps(s, r, run.(pc := Done));
    } else {
      NewEntryKeeps(s, r);
    }
  }

  /** An entry that is ready but no longer current is closing already. */
  lemma NotCurrentIsClosing(s: Pool, e: nat)
    requires Inv(s) && IsEntry(s, e) && s.es[e].creation.Ready? && !Current(s, e)
    ensures s.es[e].Closing()
  {
    assert Listed(s, e);
  }

  lemma GotExistingKeeps(s: Pool, r: nat)
    requires Inv(s) && Enabled(s, GotExisting(r))
    ensures Inv(GotExistingStep(s, r))
  {
    var e := s.runs[r].pc.entry;
    assert RunOk(s, s.runs[r]);
    if s.es[e].creation.Failed? {
      MoveKeeps(s, r, s.runs[r].(pc := Done));
    } else if Current(s, e) && s.es[e].alive {
      HoldKeeps(s, r, e);
    } else {
      if !Current(s, e) {
        NotCurrentIsClosing(s, e);
      }
      WaitKeeps(s, r, e, RuntimeNotAlive, Retry);
    }
  }

  lemma GotOwnKeeps(s: Pool, r: nat)
    requires Inv(s) && Enabled(s, GotOwn(r))
    ensures Inv(GotOwnStep(s, r))
  {
    var e := s.runs[r].pc.entry;
    assert RunOk(s, s.runs[r]);
    if s.es[e].creation.Failed? {
      MoveKeeps(s, r, s.runs[r].(pc := Done));
    } else if !Current(s, e) {
      NotCurrentIsClosing(s, e);
      assert SetEntry(s, e, CloseEntry(s.es[e], ShutdownDuringCreation)) == s;
      MoveKeeps(s, r, s.runs[r].(pc := AwaitClose(e, GiveUp)));
    } else if s.es[e].alive {
      HoldKeeps(s, r, e);
    } else {
      WaitKeeps(s, r, e, RuntimeNotAlive, if s.runs[r].attempt == 0 then RetryAnyway else GiveUp);
    }
  }

  lemma ReserveKeeps(s: Pool, r: nat)
    requires Inv(s) && Enabled(s, Reserve(r))
    ensures Inv(ReserveStep(s, r))
  {
    var run := s.runs[r];
    var sid, pc := Wanted(run), if run.pc.ReserveInput? then Running else Finishing;
    assert RunOk(s, run);
    if sid.None? || sid.value in run.held {
      MoveKeeps(s, r, run.(pc := pc));
    } else if HeldEntry(s, r).Closing() {
      MoveKeeps(s, r, run.(pc := Finishing));
    } else {
      ReservedKeeps(s, r, sid.value);
      var s' := Reserved(s, r, run.holding.value, sid.value);
      assert RunOk(s', s'.runs[r]);
      MoveKeeps(s', r, s'.runs[r].(pc := pc));
    }
  }

  lemma RunReturnsKeeps(s: Pool, r: nat, outcome: Outcome)
    requires Inv(s) && Enabled(s, RunReturns(r, outcome))
    ensures Inv(RunReturnsStep(s, r, outcome))
  {
    var run := s.runs[r];
    assert RunOk(s, run);
    match outcome {
      case Succeeded(sid) => MoveKeeps(s, r, run.(pc := ReserveOutput(sid)));
      case FailedRun =>
        if s.es[run.holding.value].alive {
          MoveKeeps(s, r, run.(pc := Finishing));
        } else {
          WaitKeeps(s, r, run.holding.value, RuntimeCrashed, FinishRun);
        }
    }
  }

  lemma CloseSettledKeeps(s: Pool, r: nat)
    requires Inv(s) && Enabled(s, CloseSettled(r))
    ensures Inv(CloseSettledStep(s, r))
  {
    assert RunOk(s, s.runs[r]);
    MoveKeeps(s, r, CloseSettledStep(s, r).runs[r]);
  }

  lemma CloserStepsKeep(s: Pool, step: Step)
    requires Inv(s) && Enabled(s, step)
    requires step.CloserCreated? || step.CloserRunsGone? || step.CloserReleased? || step.RuntimeClosed?
    ensures Inv(Next(s, step))
  {
    var e := step.e;
    var entry := Next(s, step).es[e];
    assert EntryOk(s.runs, e, s.es[e]);
    assert EntryOk(s.runs, e, entry);
    EntryKeeps(s, e, entry);
  }

  lemma EntryStepsKeep(s: Pool, step: Step)
    requires Inv(s) && Enabled(s, step)
    requires step.EvictRelease? || step.Die? || step.ReleaseSettles? || (step.CreateSettles? && step.ok)
    ensures Inv(Next(s, step))
  {
    var e := step.e;
    var entry := Next(s, step).es[e];
    assert EntryOk(s.runs, e, s.es[e]);
    forall sid ensures s.es[e].activeRuns == 0 ==> Tally(s.runs, e, Some(sid)) == 0 {
      if s.es[e].activeRuns == 0 {
        TallyNone(s.runs, e, Some(sid));
      }
    }
    assert EntryOk(s.runs, e, entry);
    EntryKeeps(s, e, entry);
  }

  lemma CreateFailsKeeps(s: Pool, e: nat, alive: bool)
    requires Inv(s) && Enabled(s, CreateSettles(e, false, alive))
    ensures Inv(CreateSettlesStep(s, e, false, alive))
  {
    var s' := CreateSettlesStep(s, e, false, alive);
    assert EntryOk(s.runs, e, s.es[e]);
    assert EntryOk(s.runs, e, s'.es[e]);
    forall i | 0 <= i < |s'.es| ensures EntryOk(s'.runs, i, s'.es[i]) && Listed(s', i) {
      assert EntryOk(s.runs, i, s.es[i]) && Listed(s, i);
    }
    forall r | 0 <= r < |s'.runs| ensures RunOk(s', s'.runs[r]) {
      assert RunOk(s, s.runs[r]);
    }
  }

  lemma ClosePoolKeeps(s: Pool)
    requires Inv(s)
    ensures Inv(ClosePoolStep(s))
  {
    var s' := ClosePoolStep(s);
    forall i | 0 <= i < |s'.es| ensures EntryOk(s'.runs, i, s'.es[i]) && Listed(s', i) {
      assert EntryOk(s.runs, i, s.es[i]) && Listed(s, i);
    }
    forall r | 0 <= r < |s'.runs| ensures RunOk(s', s'.runs[r]) {
      assert RunOk(s, s.runs[r]);
    }
  }

  lemma StartKeeps(s: Pool, key: Key, input: Option<Sid>)
    requires Inv(s)
    ensures Inv(s.(runs := s.runs + [Run(key, input, 0, None, {}, AtLoop)]))
  {
    var run := Run(key, input, 0, None, {}, AtLoop);
    var s' := s.(runs := s.runs + [run]);
    forall e, sid ensures Tally(s'.runs, e, sid) == Tally(s.runs, e, sid) {
      TallyAppend(s.runs, run, e, sid);
    }
    forall i | 0 <= i < |s'.es| ensures EntryOk(s'.runs, i, s'.es[i]) && Listed(s', i) {
      assert Listed(s, i);
      EntrySame(s.runs, s'.runs, i, s.es[i]);
    }
    forall r | 0 <= r < |s'.runs| ensures RunOk(s', s'.runs[r]) {
      assert r < |s.runs| ==> RunOk(s, s.runs[r]);
    }
  }

  lemma StepKeeps(s: Pool, step: Step)
    requires Inv(s) && Enabled(s, step)
    ensures Inv(Next(s, step))
  {
    match step {
      case StartRun(key, input) => StartKeeps(s, key, input);
      case Acquire(r) => AcquireKeeps(s, r);
      case GotExisting(r) => GotExistingKeeps(s, r);
      case GotOwn(r) => GotOwnKeeps(s, r);
      case Finish(r) => FinishKeeps(s, r);
      case EvictClose(e) => CloseKeeps(s, e, IdleTimeout);
      case ClosePool => ClosePoolKeeps(s);
      case CreateSettles(e, ok, alive) =>
        if ok {
          EntryStepsKeep(s, step);
        } else {
          CreateFailsKeeps(s, e, alive);
        }
      case CloseSettled(r) => CloseSettledKeeps(s, r);
      case Reserve(r) => ReserveKeeps(s, r);
      case SessionKnown(r, sid) =>
        if !(sid in s.runs[r].held || HeldEntry(s, r).Closing()) {
          ReservedKeeps(s, r, sid);
        }
      case RunReturns(r, outcome) => RunReturnsKeeps(s, r, outcome);
      case EvictRelease(_, _) => EntryStepsKeep(s, step);
      case Die(_) => EntryStepsKeep(s, step);
      case ReleaseSettles(_, _, _) => EntryStepsKeep(s, step);
      case _ => CloserStepsKeep(s, step);
    }
  }

  /** Every state of every trace satisfies the invariant. */
  lemma {:induction false} Reachable(states: seq<Pool>, steps: seq<Step>, n: nat)
    requires IsTrace(states, steps) && n <= |steps|
    ensures Inv(states[n])
  {
    if n > 0 {
      Reachable(states, steps, n - 1);
      StepKeeps(states[n - 1], steps[n - 1]);
    }
  }
}
