/** How much the development controller can do: bounded workers, polls and repairs for every
    task, an end to its work, and no passed review without passing checks. */
module HostControllerBounds {
  import opened Options
  import opened HostController

  // ----------------------------------------------------------------- accounts

  /** What has been spent on a task since it came into the queue. */
  datatype Used = Used(workers: nat, repairWorkers: nat, repaired: nat, polls: nat)

  const NOTHING := Used(0, 0, 0, 0)

  datatype Farm = Farm(tasks: seq<Task>, used: seq<Used>)

  datatype Step = TakeTurn(answers: Answers) | Arrive(task: Task)

  /** Spends a deed on the task it was done to. */
  function Charge(used: seq<Used>, deed: Deed): (r: seq<Used>)
    ensures |r| == |used|
  {
    if deed.i >= |used| then used
    else
      var u := used[deed.i];
      used[deed.i :=
        match deed
        case Polled(_) => u.(polls := u.polls + 1)
        case Worked(_, n) => u.(workers := u.workers + n)
        case Repaired(_, n, pushed) =>
          u.(repairWorkers := u.repairWorkers + n, repaired := u.repaired + if pushed then 1 else 0)]
  }

  function ChargeAll(used: seq<Used>, deeds: seq<Deed>): (r: seq<Used>)
    ensures |r| == |used|
    decreases |deeds|
  {
    if deeds == [] then used
    else Charge(ChargeAll(used, deeds[..|deeds| - 1]), deeds[|deeds| - 1])
  }

  function Next(f: Farm, step: Step): Farm {
    match step
    case Arrive(task) => Farm(f.tasks + [task], f.used + [NOTHING])
    case TakeTurn(a) => var turn := Iterate(f.tasks, a); Farm(turn.tasks, ChargeAll(f.used, turn.deeds))
  }

  ghost predicate IsTrace(states: seq<Farm>, steps: seq<Step>) {
    && |states| == |steps| + 1 && states[0] == Farm([], [])
    && forall i {:trigger steps[i]} | 0 <= i < |steps| :: states[i + 1] == Next(states[i], steps[i])
  }

  // ----------------------------------------------------------------- invariant

  /** The polls of the current window: since the last successful repair. */
  function Window(t: Task, u: Used): int {
    u.polls - u.repaired * (MaxPolls(t) + 1)
  }

  predicate Within(t: Task, u: Used) {
    && u.workers <= WorkerLimit(t) && (t.status.Queued? ==> u.workers == 0)
    && u.repaired <= u.repairWorkers <= RepairAttempts(t)
    && (u.repairWorkers > 0 ==> RepairAttempts(t) <= RepairLimit(t))
    && Window(t, u) <= MaxPolls(t) + 1
    && (Pollable(t) ==> Window(t, u) <= PollAttempts(t) && (Window(t, u) >= 1 ==> PollAttempts(t) <= MaxPolls(t)))
    && (t.status.CiRepairQueued? || t.status.BlockedCiFailed? ==> Window(t, u) <= MaxPolls(t))
    && (t.status.Queued? ==> u.polls == 0)
  }

  predicate AllWithin(f: Farm) {
    |f.tasks| == |f.used| && forall i | 0 <= i < |f.tasks| :: Within(f.tasks[i], f.used[i])
  }

  lemma PollKeeps(t: Task, u: Used, a: PollAnswers)
    requires Within(t, u) && Pollable(t)
    ensures Within(Poll(t, a).0, u.(polls := u.polls + 1))
  {
    var t' := Poll(t, a).0;
    assert MaxPolls(t') == MaxPolls(t);
    assert Window(t', u.(polls := u.polls + 1)) == Window(t, u) + 1;
  }

  lemma WindowAfterRepair(t: Task, t': Task, u: Used, u': Used)
    requires MaxPolls(t') == MaxPolls(t) && u'.polls == u.polls && u'.repaired == u.repaired + 1
    ensures Window(t', u') == Window(t, u) - (MaxPolls(t) + 1)
  {
    assert (u.repaired + 1) * (MaxPolls(t) + 1) == u.repaired * (MaxPolls(t) + 1) + (MaxPolls(t) + 1);
  }

  lemma RepairKeeps(t: Task, u: Used, a: RepairAnswers)
    requires Within(t, u) && Repairable(t)
    ensures var (t', n, pushed) := RepairTask(t, a);
            Within(t', u.(repairWorkers := u.repairWorkers + n, repaired := u.repaired + if pushed then 1 else 0))
  {
    var (t', n, pushed) := RepairTask(t, a);
    assert MaxPolls(t') == MaxPolls(t);
    if pushed {
      WindowAfterRepair(t, t', u, u.(repairWorkers := u.repairWorkers + n, repaired := u.repaired + 1));
    }
  }

  lemma {:induction false} AttemptsBounds(t: Task, a: WorkAnswers, attempt: nat)
    requires 1 <= attempt <= WorkerLimit(t)
    ensures var (status, last) := Attempts(t, a, attempt);
            && attempt <= last <= WorkerLimit(t)
            && !status.Queued? && !status.CiRepairQueued? && !status.CiPolling? && !status.BlockedCiFailed?
            && !status.ReviewCiPassed?
    decreases WorkerLimit(t) - attempt
  {
    if a.worker(attempt).Exited? && attempt < WorkerLimit(t) {
      AttemptsBounds(t, a, attempt + 1);
    }
  }

  lemma WorkKeeps(t: Task, u: Used, a: WorkAnswers)
    requires Within(t, u) && t.status.Queued?
    ensures var (t', n) := Work(t, a); Within(t', u.(workers := u.workers + n))
  {
    AttemptsBounds(t, a, 1);
    var (t', n) := Work(t, a);
    var u' := u.(workers := u.workers + n);
    assert MaxPolls(t') == MaxPolls(t) && Window(t', u') == Window(t, u) <= 0;
  }

  lemma {:induction false} ChargeOne(used: seq<Used>, deeds: seq<Deed>, deed: Deed)
    ensures ChargeAll(used, deeds + [deed]) == Charge(ChargeAll(used, deeds), deed)
  {
    assert (deeds + [deed])[..|deeds + [deed]| - 1] == deeds;
  }

  lemma {:induction false} WorkTurnKeeps(tasks: seq<Task>, used: seq<Used>, a: Answers, deeds: seq<Deed>)
    requires AllWithin(Farm(tasks, ChargeAll(used, deeds)))
    ensures var turn := WorkTurn(tasks, a, deeds); AllWithin(Farm(turn.tasks, ChargeAll(used, turn.deeds)))
  {
    match First(tasks, ToWork) {
      case None =>
      case Some(i) =>
        WorkKeeps(tasks[i], ChargeAll(used, deeds)[i], a.work);
        ChargeOne(used, deeds, Worked(i, Work(tasks[i], a.work).1));
    }
  }

  lemma {:induction false} PollTurnKeeps(tasks: seq<Task>, used: seq<Used>, a: Answers, deeds: seq<Deed>)
    requires AllWithin(Farm(tasks, ChargeAll(used, deeds)))
    ensures var turn := PollTurn(tasks, a, deeds); AllWithin(Farm(turn.tasks, ChargeAll(used, turn.deeds)))
  {
    match First(tasks, ToPoll) {
      case None => WorkTurnKeeps(tasks, used, a, deeds);
      case Some(i) =>
        PollKeeps(tasks[i], ChargeAll(used, deeds)[i], a.poll);
        ChargeOne(used, deeds, Polled(i));
        WorkTurnKeeps(tasks[i := Poll(tasks[i], a.poll).0], used, a, deeds + [Polled(i)]);
    }
  }

  lemma RepairTurnKeeps(f: Farm, a: RepairAnswers, i: nat)
    requires AllWithin(f) && i < |f.tasks| && Repairable(f.tasks[i])
    ensures var (t, workers, pushed) := RepairTask(f.tasks[i], a);
            AllWithin(Farm(f.tasks[i := t], ChargeAll(f.used, [Repaired(i, workers, pushed)])))
  {
    RepairKeeps(f.tasks[i], f.used[i], a);
    var (t, workers, pushed) := RepairTask(f.tasks[i], a);
    var deed := Repaired(i, workers, pushed);
    ChargeOne(f.used, [], deed);
    assert [] + [deed] == [deed];
  }

  lemma TurnKeeps(f: Farm, a: Answers)
    requires AllWithin(f)
    ensures AllWithin(Next(f, TakeTurn(a)))
  {
    match First(f.tasks, ToRepair) {
      case None => PollTurnKeeps(f.tasks, f.used, a, []);
      case Some(i) =>
        RepairTurnKeeps(f, a.repair, i);
        var (t, workers, pushed) := RepairTask(f.tasks[i], a.repair);
        if pushed {
          PollTurnKeeps(f.tasks[i := t], f.used, a, [Repaired(i, workers, pushed)]);
        }
    }
  }

  lemma StepKeeps(f: Farm, step: Step)
    requires AllWithin(f)
    ensures AllWithin(Next(f, step))
  {
    match step {
      case Arrive(task) =>
        assert Window(task, NOTHING) == 0;
      case TakeTurn(a) =>
        TurnKeeps(f, a);
    }
  }

  lemma {:induction false} Reachable(states: seq<Farm>, steps: seq<Step>, n: nat)
    requires IsTrace(states, steps) && n <= |steps|
    ensures AllWithin(states[n])
  {
    if n > 0 {
      Reachable(states, steps, n - 1);
      StepKeeps(states[n - 1], steps[n - 1]);
    }
  }

  // ------------------------------------------------------------------ theorems

  /** Whatever arrives and whatever is answered: a task uses at most three workers and three
      repair workers, and at most one window of polls more than it is repaired. */
  lemma WorkIsBounded(states: seq<Farm>, steps: seq<Step>, n: nat, i: nat)
    requires IsTrace(states, steps) && n <= |steps| && i < |states[n].tasks|
    ensures i < |states[n].used|
    ensures var t, u := states[n].tasks[i], states[n].used[i];
            && u.workers <= WorkerLimit(t) <= 3
            && u.repaired <= u.repairWorkers <= 3 && (u.repairWorkers > 0 ==> u.repairWorkers <= RepairLimit(t))
            && u.polls <= (u.repaired + 1) * (MaxPolls(t) + 1)
  {
    Reachable(states, steps, n);
    var t, u := states[n].tasks[i], states[n].used[i];
    assert Within(t, u);
    WindowAfterRepair(t, t, u, u.(repaired := u.repaired + 1));
  }

  /** A check one of whose words says that it failed, whatever the others say. */
  predicate Failing(check: Check) {
    WordsOf(check) * CI_FAILING != {}
  }

  /** A check none of whose words says that it failed or is pending, and one that it passed. */
  predicate Passing(check: Check) {
    WordsOf(check) !! CI_FAILING && WordsOf(check) !! CI_PENDING && WordsOf(check) * CI_PASSING != {}
  }

  lemma CheckMeaning(check: Check)
    ensures CheckStatusValue(check) == CheckFailed <==> Failing(check)
    ensures CheckStatusValue(check) == CheckPassed <==> Passing(check)
  {
    if check.Check? {
      SaysMeaning(check, CI_FAILING);
      SaysMeaning(check, CI_PENDING);
      SaysMeaning(check, CI_PASSING);
    }
  }

  lemma SaysMeaning(check: Check, words: set<string>)
    requires check.Check?
    ensures Says(check, words) <==> WordsOf(check) * words != {}
    ensures Says(check, words) <==> !(WordsOf(check) !! words)
  {
    if w :| w in WordsOf(check) * words {
      assert w in words;
    }
    assert check.conclusion.Some? && check.conclusion.value in words ==> check.conclusion.value in WordsOf(check) * words;
    assert check.state.Some? && check.state.value in words ==> check.state.value in WordsOf(check) * words;
    assert check.bucket.Some? && check.bucket.value in words ==> check.bucket.value in WordsOf(check) * words;
  }

  predicate AllPassed(checks: seq<Check>) {
    checks != [] && forall i | 0 <= i < |checks| :: Passing(checks[i])
  }

  predicate SaysPassed(a: PollAnswers) {
    a.gh.GhAnswered? && a.gh.code in {0, 8} && a.gh.reply.Checks? && AllPassed(a.gh.reply.checks)
  }

  /** No check failed or pending: every one passed. */
  lemma AllPassedIff(checks: seq<Check>)
    ensures AllPassed(checks) <==> checks != [] && !AnyIs(checks, CheckFailed) && !AnyIs(checks, CheckPending)
    ensures AnyIs(checks, CheckFailed) <==> exists i | 0 <= i < |checks| :: Failing(checks[i])
  {
    forall i | 0 <= i < |checks|
      ensures Passing(checks[i]) <==> CheckStatusValue(checks[i]) == CheckPassed
      ensures Failing(checks[i]) <==> CheckStatusValue(checks[i]) == CheckFailed
    {
      CheckMeaning(checks[i]);
    }
  }

  lemma PollPassed(t: Task, a: PollAnswers)
    requires !t.status.ReviewCiPassed? && Poll(t, a).0.status.ReviewCiPassed?
    ensures SaysPassed(a) && !Poll(t, a).1.Pending?
  {
    AllPassedIff(a.gh.reply.checks);
  }

  lemma WorkNeverPasses(tasks: seq<Task>, a: Answers, deeds: seq<Deed>, i: nat)
    requires i < |tasks| && !tasks[i].status.ReviewCiPassed?
    ensures i < |WorkTurn(tasks, a, deeds).tasks| && !WorkTurn(tasks, a, deeds).tasks[i].status.ReviewCiPassed?
  {
    match First(tasks, ToWork) {
      case None =>
      case Some(j) => AttemptsBounds(tasks[j], a.work, 1);
    }
  }

  lemma PollTurnPassed(tasks: seq<Task>, a: Answers, deeds: seq<Deed>, i: nat)
    requires i < |tasks| && !tasks[i].status.ReviewCiPassed?
    ensures var turn := PollTurn(tasks, a, deeds);
            i < |turn.tasks| && (turn.tasks[i].status.ReviewCiPassed? ==> turn.deeds == deeds + [Polled(i)] && SaysPassed(a.poll))
  {
    match First(tasks, ToPoll) {
      case None => WorkNeverPasses(tasks, a, deeds, i);
      case Some(p) =>
        var t := Poll(tasks[p], a.poll).0;
        if t.status.ReviewCiPassed? {
          PollPassed(tasks[p], a.poll);
        } else {
          WorkNeverPasses(tasks[p := t], a, deeds + [Polled(p)], i);
        }
    }
  }

  /** A turn that brings a task to a passed review ended with a poll of that task, and GitHub
      answered with checks, at least one, every one of them passing. */
  lemma PassedMeansPassed(tasks: seq<Task>, a: Answers, i: nat)
    requires i < |tasks| && !tasks[i].status.ReviewCiPassed?
    requires i < |Iterate(tasks, a).tasks| && Iterate(tasks, a).tasks[i].status.ReviewCiPassed?
    ensures var deeds := Iterate(tasks, a).deeds; deeds != [] && deeds[|deeds| - 1] == Polled(i) && SaysPassed(a.poll)
  {
    match First(tasks, ToRepair) {
      case None => PollTurnPassed(tasks, a, [], i);
      case Some(r) =>
        var (t, workers, pushed) := RepairTask(tasks[r], a.repair);
        PollTurnPassed(tasks[r := t], a, [Repaired(r, workers, pushed)], i);
    }
  }

  // --------------------------------------------------------------- termination

  function RepairsLeft(t: Task): nat {
    if RepairAttempts(t) < RepairLimit(t) then RepairLimit(t) - RepairAttempts(t) else 0
  }

  /** How much can still be done to a task: its repairs first, and then where it stands. */
  function Rank(t: Task): nat {
    var rounds := RepairsLeft(t) * (MaxPolls(t) + 3);
    if t.status.Queued? then rounds + MaxPolls(t) + 3
    else if Pollable(t) then
      rounds + 2 + (if PollAttempts(t) < MaxPolls(t) then MaxPolls(t) - PollAttempts(t) else 0)
    else if Repairable(t) then rounds + 1
    else 0
  }

  function TotalRank(tasks: seq<Task>): nat {
    if tasks == [] then 0 else Rank(tasks[0]) + TotalRank(tasks[1..])
  }

  lemma {:induction false} RankUpdate(tasks: seq<Task>, i: nat, t: Task)
    requires i < |tasks|
    ensures TotalRank(tasks[i := t]) == TotalRank(tasks) - Rank(tasks[i]) + Rank(t)
  {
    if i == 0 {
      assert tasks[i := t][1..] == tasks[1..];
    } else {
      RankUpdate(tasks[1..], i - 1, t);
      assert tasks[i := t][1..] == tasks[1..][i - 1 := t];
    }
  }

  lemma PollLowers(t: Task, a: PollAnswers)
    requires Pollable(t)
    ensures Rank(Poll(t, a).0) < Rank(t)
  {
    var t' := Poll(t, a).0;
    assert MaxPolls(t') == MaxPolls(t) && RepairsLeft(t') == RepairsLeft(t);
  }

  lemma RepairLowers(t: Task, a: RepairAnswers)
    requires Repairable(t)
    ensures Rank(RepairTask(t, a).0) < Rank(t)
  {
    var t' := RepairTask(t, a).0;
    assert MaxPolls(t') == MaxPolls(t);
    if t'.status.PublishedPr? {
      assert RepairsLeft(t') + 1 == RepairsLeft(t);
      assert (RepairsLeft(t') + 1) * (MaxPolls(t) + 3) == RepairsLeft(t') * (MaxPolls(t) + 3) + (MaxPolls(t) + 3);
    }
  }

  lemma WorkLowers(t: Task, a: WorkAnswers)
    requires t.status.Queued?
    ensures Rank(Work(t, a).0) < Rank(t)
  {
    AttemptsBounds(t, a, 1);
    var t' := Work(t, a).0;
    assert MaxPolls(t') == MaxPolls(t) && RepairsLeft(t') == RepairsLeft(t);
  }

  lemma {:induction false} WorkTurnLowers(tasks: seq<Task>, a: Answers, deeds: seq<Deed>)
    ensures TotalRank(WorkTurn(tasks, a, deeds).tasks) <= TotalRank(tasks)
    ensures First(tasks, ToWork).Some? ==> TotalRank(WorkTurn(tasks, a, deeds).tasks) < TotalRank(tasks)
  {
    match First(tasks, ToWork) {
      case None =>
      case Some(i) =>
        WorkLowers(tasks[i], a.work);
        RankUpdate(tasks, i, Work(tasks[i], a.work).0);
    }
  }

  lemma {:induction false} PollTurnLowers(tasks: seq<Task>, a: Answers, deeds: seq<Deed>)
    ensures TotalRank(PollTurn(tasks, a, deeds).tasks) <= TotalRank(tasks)
    ensures First(tasks, ToPoll).Some? || First(tasks, ToWork).Some? ==>
              TotalRank(PollTurn(tasks, a, deeds).tasks) < TotalRank(tasks)
  {
    match First(tasks, ToPoll) {
      case None => WorkTurnLowers(tasks, a, deeds);
      case Some(i) =>
        PollLowers(tasks[i], a.poll);
        RankUpdate(tasks, i, Poll(tasks[i], a.poll).0);
        WorkTurnLowers(tasks[i := Poll(tasks[i], a.poll).0], a, deeds + [Polled(i)]);
    }
  }

  predicate Idle(tasks: seq<Task>) {
    First(tasks, ToRepair).None? && First(tasks, ToPoll).None? && First(tasks, ToWork).None?
  }

  lemma {:induction false} TurnRank(tasks: seq<Task>, a: Answers)
    ensures !Idle(tasks) ==> TotalRank(Iterate(tasks, a).tasks) < TotalRank(tasks)
  {
    match First(tasks, ToRepair) {
      case None => PollTurnLowers(tasks, a, []);
      case Some(i) =>
        var (t, workers, pushed) := RepairTask(tasks[i], a.repair);
        RepairLowers(tasks[i], a.repair);
        RankUpdate(tasks, i, t);
        PollTurnLowers(tasks[i := t], a, [Repaired(i, workers, pushed)]);
    }
  }

  lemma TurnIdle(tasks: seq<Task>, a: Answers)
    ensures Iterate(tasks, a).deeds == [] ==> Iterate(tasks, a).tasks == tasks
    ensures Iterate(tasks, a).deeds == [] <==> Idle(tasks)
  {
  }

  /** Every turn that does anything leaves less to do. */
  lemma {:induction false} TurnLowers(tasks: seq<Task>, a: Answers)
    ensures Iterate(tasks, a).deeds != [] ==> TotalRank(Iterate(tasks, a).tasks) < TotalRank(tasks)
    ensures Iterate(tasks, a).deeds == [] ==> Iterate(tasks, a).tasks == tasks
    ensures Iterate(tasks, a).deeds == [] <==> forall i, kind | 0 <= i < |tasks| :: !Is(tasks[i], kind)
  {
    TurnRank(tasks, a);
    TurnIdle(tasks, a);
  }

  /** Left with the tasks it has, the controller comes to an end of them, whatever the answers:
      no task is left to repair, to poll or to work on. */
  method RunUntilIdle(controller: Controller, answers: nat -> Answers) returns (turns: nat)
    modifies controller
    ensures turns <= TotalRank(old(controller.tasks))
    ensures forall i, kind | 0 <= i < |controller.tasks| :: !Is(controller.tasks[i], kind)
  {
    turns := 0;
    while true
      invariant turns + TotalRank(controller.tasks) <= TotalRank(old(controller.tasks))
      decreases TotalRank(controller.tasks)
    {
      TurnLowers(controller.tasks, answers(turns));
      var deeds := controller.Step(answers(turns));
      if deeds == [] {
        return;
      }
      turns := turns + 1;
    }
  }
}
