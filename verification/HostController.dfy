/** The development controller's queue: each task goes from its worker to a draft pull request,
    bounded CI polls and bounded repairs. What processes, git and GitHub answer is given. */
module HostController {
  import opened Options

  const DEFAULT_CI_TIMEOUT_SECONDS := 1800
  const MAX_CI_TIMEOUT_SECONDS := 7200
  const DEFAULT_CI_MAX_POLLS := 60
  const MAX_CI_MAX_POLLS := 240
  const DEFAULT_CI_REPAIR_MAX_ATTEMPTS := 1
  const MAX_CI_REPAIR_MAX_ATTEMPTS := 3

  const CI_PASSING := {"pass", "passing", "success", "successful", "skipped", "neutral"}
  const CI_FAILING := {"fail", "failed", "failing", "failure", "error", "cancelled", "canceled", "timed_out", "action_required"}
  const CI_PENDING := {"pending", "queued", "in_progress", "waiting", "requested", "expected"}

  datatype Status =
    | Queued | PublishedPr | CiPolling | CiRepairQueued | Running
    | Review | ReviewCiPassed
    | BlockedInvalidTask | BlockedMissingCheckout | BlockedDirtyCheckout | BlockedExistingBranch
    | BlockedExistingWorktree | BlockedWorktreeCreation | BlockedVerification | BlockedWorkerFailure
    | BlockedTimeout | BlockedWorkerUnavailable | BlockedPrPublication | BlockedInterruptedReview
    | BlockedMissingPr | BlockedMissingWorktree | BlockedCiTimeout | BlockedCiPollError | BlockedCiNoChecks
    | BlockedCiFailed | BlockedCiRepairPr | BlockedCiRepairBranch | BlockedCiRepairWorkerFailure
    | BlockedCiRepairVerification | BlockedCiRepairPush
    | Other

  /** A task's fields as the queue file may hold them: a number is there or it is not one. */
  datatype Task = Task(
    status: Status,
    publishPr: bool,
    maxAttempts: MaxAttempts,
    attempts: nat,
    pollAttempts: Option<int>,
    maxPolls: Option<int>,
    timeoutSeconds: Option<int>,
    pollStartedAt: Option<int>,
    repairAttempts: Option<int>,
    repairMaxAttempts: Option<int>)

  datatype MaxAttempts = Absent | NotANumber | Number(n: int)

  function BoundedInt(value: Option<int>, default: int, minimum: int, maximum: int): (r: int)
    ensures minimum <= maximum && minimum <= default <= maximum ==> minimum <= r <= maximum
  {
    if value.None? then default
    else if value.value > maximum then (if maximum < minimum then minimum else maximum)
    else if value.value < minimum then minimum
    else value.value
  }

  function PollAttempts(t: Task): (r: nat)
    ensures r <= 240
  {
    BoundedInt(t.pollAttempts, 0, 0, MAX_CI_MAX_POLLS)
  }

  function MaxPolls(t: Task): (r: nat)
    ensures 1 <= r <= 240
  {
    BoundedInt(t.maxPolls, DEFAULT_CI_MAX_POLLS, 1, MAX_CI_MAX_POLLS)
  }

  function RepairAttempts(t: Task): (r: nat)
    ensures r <= 3
  {
    BoundedInt(t.repairAttempts, 0, 0, MAX_CI_REPAIR_MAX_ATTEMPTS)
  }

  function RepairLimit(t: Task): (r: nat)
    ensures r <= 3
  {
    BoundedInt(t.repairMaxAttempts, DEFAULT_CI_REPAIR_MAX_ATTEMPTS, 0, MAX_CI_REPAIR_MAX_ATTEMPTS)
  }

  function WorkerLimit(t: Task): (r: nat)
    ensures 1 <= r <= 3
  {
    match t.maxAttempts
    case Absent => 2
    case NotANumber => 1
    case Number(n) => if 1 <= n <= 3 then n else 1
  }

  // ------------------------------------------------------------------ CI checks

  /** A check as GitHub reports it: its words, stripped and in lower case, none when empty. */
  datatype Check = Check(conclusion: Option<string>, state: Option<string>, bucket: Option<string>) | NotAnObject

  datatype CheckStatus = CheckFailed | CheckPending | CheckPassed

  predicate Says(check: Check, words: set<string>)
    requires check.Check?
  {
    || (check.conclusion.Some? && check.conclusion.value in words)
    || (check.state.Some? && check.state.value in words)
    || (check.bucket.Some? && check.bucket.value in words)
  }

  function CheckStatusValue(check: Check): CheckStatus {
    if check.NotAnObject? then CheckPending
    else if Says(check, CI_FAILING) then CheckFailed
    else if Says(check, CI_PENDING) || (check.conclusion.None? && check.state.None? && check.bucket.None?) then CheckPending
    else if Says(check, CI_PASSING) then CheckPassed
    else CheckPending
  }

  /** The words of a check. */
  function WordsOf(check: Check): set<string> {
    match check
    case NotAnObject => {}
    case Check(conclusion, state, bucket) => Word(conclusion) + Word(state) + Word(bucket)
  }

  function Word(word: Option<string>): set<string> {
    match word case None => {} case Some(w) => {w}
  }

  predicate AnyIs(checks: seq<Check>, status: CheckStatus) {
    exists i | 0 <= i < |checks| :: CheckStatusValue(checks[i]) == status
  }

  // ---------------------------------------------------------------- one poll

  datatype GhReply = NotJson | NotAList | Checks(checks: seq<Check>)

  datatype GhAnswer = GhUnavailable | GhAnswered(code: int, reply: GhReply)

  datatype PollAnswers = PollAnswers(validId: bool, prUsable: bool, worktreeThere: bool, now: int, gh: GhAnswer)

  datatype CiOutcome = Blocked | Pending | Passed | Repair

  function PollStarted(t: Task, now: int): int {
    if t.status.PublishedPr? || t.pollStartedAt.None? then now else t.pollStartedAt.value
  }

  function TimeoutSeconds(t: Task): int {
    BoundedInt(t.timeoutSeconds, DEFAULT_CI_TIMEOUT_SECONDS, 60, MAX_CI_TIMEOUT_SECONDS)
  }

  /** poll_pr_ci. */
  function Poll(t: Task, a: PollAnswers): (Task, CiOutcome) {
    if !a.validId then (t.(status := BlockedInvalidTask), Blocked)
    else if !a.prUsable then (t.(status := BlockedMissingPr), Blocked)
    else if !a.worktreeThere then (t.(status := BlockedMissingWorktree), Blocked)
    else
      var started := PollStarted(t, a.now);
      var polled := t.(status := CiPolling, pollAttempts := Some(PollAttempts(t) + 1), pollStartedAt := Some(started));
      if PollAttempts(t) + 1 > MaxPolls(t) || a.now - started > TimeoutSeconds(t) then
        (polled.(status := BlockedCiTimeout), Blocked)
      else
        match a.gh
        case GhUnavailable => (polled.(status := BlockedCiPollError), Blocked)
        case GhAnswered(code, reply) =>
          if (code != 0 && code != 8) || reply.NotJson? then (polled.(status := BlockedCiPollError), Blocked)
          else if reply.NotAList? || reply.checks == [] then (polled.(status := BlockedCiNoChecks), Blocked)
          else if AnyIs(reply.checks, CheckFailed) then
            if RepairAttempts(t) < RepairLimit(t) then (polled.(status := CiRepairQueued), Repair)
            else (polled.(status := BlockedCiFailed), Blocked)
          else if AnyIs(reply.checks, CheckPending) then (polled, Pending)
          else (polled.(status := ReviewCiPassed), Passed)
  }

  // ---------------------------------------------------------------- one repair

  datatype RepairAnswers = RepairAnswers(
    worktreeThere: bool, prIsOpenDraft: bool, branchMatches: bool, clean: bool,
    workerExit: int, verified: bool, pushed: bool, now: int)

  /** repair_ci_failure, how many workers it ran, and whether the repair was pushed. */
  function RepairTask(t: Task, a: RepairAnswers): (Task, nat, bool) {
    if !a.worktreeThere then (t.(status := BlockedMissingWorktree), 0, false)
    else if RepairAttempts(t) >= RepairLimit(t) then (t.(status := BlockedCiFailed), 0, false)
    else if !a.prIsOpenDraft then (t.(status := BlockedCiRepairPr), 0, false)
    else if !a.branchMatches then (t.(status := BlockedCiRepairBranch), 0, false)
    else if !a.clean then (t.(status := BlockedDirtyCheckout), 0, false)
    else
      var tried := t.(repairAttempts := Some(RepairAttempts(t) + 1));
      if a.workerExit != 0 then (tried.(status := BlockedCiRepairWorkerFailure), 1, false)
      else if !a.verified then (tried.(status := BlockedCiRepairVerification), 1, false)
      else if !a.pushed then (tried.(status := BlockedCiRepairPush), 1, false)
      else (tried.(status := PublishedPr, pollAttempts := Some(0), pollStartedAt := Some(a.now)), 1, true)
  }

  // ------------------------------------------------------------- the first work

  datatype Preflight =
    | Fine | BadTask | NoCheckout | DirtyCheckout | BranchExists | WorktreeExists | WorktreeNotCreated

  /** What an attempt comes to: a program that cannot be started ends it wherever that happens. */
  datatype WorkerAnswer = Exited(code: int, verified: bool) | TimedOut | Unavailable

  /** What making the pull request comes to. Reading its CI state comes last and has a time limit
      of its own, so a pull request may be there although the task ends in a time-out. */
  datatype Publication = Published | NotPublished | PublicationTimedOut | PublicationUnavailable

  /** The answers to each attempt, by its number from 1, and to the making of the pull request. */
  datatype WorkAnswers = WorkAnswers(preflight: Preflight, worker: nat -> WorkerAnswer, publication: Publication)

  function PublicationStatus(p: Publication): Status {
    match p
    case Published => PublishedPr
    case NotPublished => BlockedPrPublication
    case PublicationTimedOut => BlockedTimeout
    case PublicationUnavailable => BlockedWorkerUnavailable
  }

  /** Why a worker is not started at all. */
  function PreflightStatus(p: Preflight): Status {
    match p
    case Fine => Running
    case BadTask => BlockedInvalidTask
    case NoCheckout => BlockedMissingCheckout
    case DirtyCheckout => BlockedDirtyCheckout
    case BranchExists => BlockedExistingBranch
    case WorktreeExists => BlockedExistingWorktree
    case WorktreeNotCreated => BlockedWorktreeCreation
  }

  /** The attempts from one on: the status reached and the number of the last attempt. */
  function Attempts(t: Task, a: WorkAnswers, attempt: nat): (Status, nat)
    requires 1 <= attempt <= WorkerLimit(t)
    decreases WorkerLimit(t) - attempt
  {
    match a.worker(attempt)
    case TimedOut => (BlockedTimeout, attempt)
    case Unavailable => (BlockedWorkerUnavailable, attempt)
    case Exited(code, verified) =>
      if code == 0 && verified then
        (if t.publishPr then PublicationStatus(a.publication) else Review, attempt)
      else if attempt < WorkerLimit(t) then Attempts(t, a, attempt + 1)
      else (if code == 0 then BlockedVerification else BlockedWorkerFailure, attempt)
  }

  /** The work of a queued task, and how many workers it ran. */
  function Work(t: Task, a: WorkAnswers): (Task, nat) {
    if !a.preflight.Fine? then (t.(status := PreflightStatus(a.preflight)), 0)
    else
      var (status, last) := Attempts(t, a, 1);
      (t.(status := status, attempts := last), last)
  }

  // -------------------------------------------------------------- one iteration

  datatype Answers = Answers(poll: PollAnswers, repair: RepairAnswers, work: WorkAnswers)

  predicate Repairable(t: Task) {
    t.status.CiRepairQueued? || (t.status.BlockedCiFailed? && RepairAttempts(t) < RepairLimit(t))
  }

  predicate Pollable(t: Task) {
    t.status.PublishedPr? || t.status.CiPolling?
  }

  datatype Kind = ToRepair | ToPoll | ToWork

  predicate Is(t: Task, kind: Kind) {
    match kind
    case ToRepair => Repairable(t)
    case ToPoll => Pollable(t)
    case ToWork => t.status.Queued?
  }

  /** The first task of a kind. */
  function First(tasks: seq<Task>, kind: Kind): (r: Option<nat>)
    ensures r.Some? ==> r.value < |tasks| && Is(tasks[r.value], kind)
    ensures r.None? ==> forall i | 0 <= i < |tasks| :: !Is(tasks[i], kind)
  {
    if tasks == [] then None
    else if Is(tasks[0], kind) then Some(0)
    else
      match First(tasks[1..], kind)
      case None => None
      case Some(i) => Some(i + 1)
  }

  /** What is done to which task, in order. */
  datatype Deed = Repaired(i: nat, workers: nat, pushed: bool) | Polled(i: nat) | Worked(i: nat, workers: nat)

  datatype Turn = Turn(tasks: seq<Task>, deeds: seq<Deed>)

  function WorkTurn(tasks: seq<Task>, a: Answers, deeds: seq<Deed>): Turn {
    match First(tasks, ToWork)
    case None => Turn(tasks, deeds)
    case Some(i) =>
      var (t, workers) := Work(tasks[i], a.work);
      Turn(tasks[i := t], deeds + [Worked(i, workers)])
  }

  /** A poll and what follows it: while checks are pending, new work is not held up. */
  function PollTurn(tasks: seq<Task>, a: Answers, deeds: seq<Deed>): Turn {
    match First(tasks, ToPoll)
    case None => WorkTurn(tasks, a, deeds)
    case Some(i) =>
      var (t, outcome) := Poll(tasks[i], a.poll);
      if outcome.Pending? then WorkTurn(tasks[i := t], a, deeds + [Polled(i)])
      else Turn(tasks[i := t], deeds + [Polled(i)])
  }

  /** One iteration of the loop: a repair comes first, and only one that fails ends the iteration. */
  function Iterate(tasks: seq<Task>, a: Answers): Turn {
    match First(tasks, ToRepair)
    case None => PollTurn(tasks, a, [])
    case Some(i) =>
      var (t, workers, pushed) := RepairTask(tasks[i], a.repair);
      var deeds := [Repaired(i, workers, pushed)];
      if pushed then PollTurn(tasks[i := t], a, deeds) else Turn(tasks[i := t], deeds)
  }

  /** A task found running at startup belonged to a controller that died. */
  function Recovered(t: Task): Task {
    if t.status.Running? then t.(status := BlockedInterruptedReview) else t
  }

  // ------------------------------------------------------------- the controller

  class Controller {
    var tasks: seq<Task>

    constructor (queue: seq<Task>)
      ensures |tasks| == |queue| && forall i | 0 <= i < |queue| :: tasks[i] == Recovered(queue[i])
    {
      tasks := seq(|queue|, i requires 0 <= i < |queue| => Recovered(queue[i]));
    }

    method PollPrCi(i: nat, a: PollAnswers) returns (outcome: CiOutcome)
      requires i < |tasks|
      modifies this
      ensures tasks == old(tasks)[i := Poll(old(tasks)[i], a).0] && outcome == Poll(old(tasks)[i], a).1
    {
      var task := tasks[i];
      if !a.validId {
        tasks := tasks[i := task.(status := BlockedInvalidTask)];
        return Blocked;
      }
      if !a.prUsable {
        tasks := tasks[i := task.(status := BlockedMissingPr)];
        return Blocked;
      }
      if !a.worktreeThere {
        tasks := tasks[i := task.(status := BlockedMissingWorktree)];
        return Blocked;
      }
      if task.status.PublishedPr? || task.pollStartedAt.None? {
        task := task.(pollStartedAt := Some(a.now));
      }
      task := task.(status := CiPolling, pollAttempts := Some(PollAttempts(task) + 1));
      var elapsed := a.now - task.pollStartedAt.value;
      if task.pollAttempts.value > MaxPolls(task) || elapsed > TimeoutSeconds(task) {
        task := task.(status := BlockedCiTimeout);
        outcome := Blocked;
      } else if a.gh.GhUnavailable? || (a.gh.code != 0 && a.gh.code != 8) || a.gh.reply.NotJson? {
        task := task.(status := BlockedCiPollError);
        outcome := Blocked;
      } else if a.gh.reply.NotAList? || a.gh.reply.checks == [] {
        task := task.(status := BlockedCiNoChecks);
        outcome := Blocked;
      } else {
        var failed, pending := CountChecks(a.gh.reply.checks);
        if failed > 0 {
          if RepairAttempts(task) < RepairLimit(task) {
            task := task.(status := CiRepairQueued);
            outcome := Repair;
          } else {
            task := task.(status := BlockedCiFailed);
            outcome := Blocked;
          }
        } else if pending > 0 {
          outcome := Pending;
        } else {
          task := task.(status := ReviewCiPassed);
          outcome := Passed;
        }
      }
      tasks := tasks[i := task];
    }

    method RepairCiFailure(i: nat, a: RepairAnswers) returns (workers: nat, repaired: bool)
      requires i < |tasks|
      modifies this
      ensures tasks == old(tasks)[i := RepairTask(old(tasks)[i], a).0]
      ensures workers == RepairTask(old(tasks)[i], a).1 && repaired == RepairTask(old(tasks)[i], a).2
    {
      var task := tasks[i];
      workers, repaired := 0, false;
      if !a.worktreeThere {
        task := task.(status := BlockedMissingWorktree);
      } else if RepairAttempts(task) >= RepairLimit(task) {
        task := task.(status := BlockedCiFailed);
      } else if !a.prIsOpenDraft {
        task := task.(status := BlockedCiRepairPr);
      } else if !a.branchMatches {
        task := task.(status := BlockedCiRepairBranch);
      } else if !a.clean {
        task := task.(status := BlockedDirtyCheckout);
      } else {
        task := task.(repairAttempts := Some(RepairAttempts(task) + 1));
        workers := 1;
        if a.workerExit != 0 {
          task := task.(status := BlockedCiRepairWorkerFailure);
        } else if !a.verified {
          task := task.(status := BlockedCiRepairVerification);
        } else if !a.pushed {
          task := task.(status := BlockedCiRepairPush);
        } else {
          task := task.(status := PublishedPr, pollAttempts := Some(0), pollStartedAt := Some(a.now));
          repaired := true;
        }
      }
      tasks := tasks[i := task];
    }

    method WorkOn(i: nat, a: WorkAnswers) returns (workers: nat)
      requires i < |tasks|
      modifies this
      ensures tasks == old(tasks)[i := Work(old(tasks)[i], a).0] && workers == Work(old(tasks)[i], a).1
    {
      var task := tasks[i];
      if !a.preflight.Fine? {
        tasks := tasks[i := task.(status := PreflightStatus(a.preflight))];
        return 0;
      }
      var attempt := 1;
      var done := false;
      var status := task.status;
      while !done
        invariant 1 <= attempt <= WorkerLimit(task)
        invariant if done then (status, attempt) == Attempts(task, a, 1) else Attempts(task, a, attempt) == Attempts(task, a, 1)
        decreases if done then 0 else 1 + WorkerLimit(task) - attempt
      {
        var answer := a.worker(attempt);
        if answer.TimedOut? {
          status, done := BlockedTimeout, true;
        } else if answer.Unavailable? {
          status, done := BlockedWorkerUnavailable, true;
        } else if answer.code == 0 && answer.verified {
          if task.publishPr {
            status := PublicationStatus(a.publication);
          } else {
            status := Review;
          }
          done := true;
        } else if attempt < WorkerLimit(task) {
          attempt := attempt + 1;
        } else {
          status, done := if answer.code == 0 then BlockedVerification else BlockedWorkerFailure, true;
        }
      }
      tasks := tasks[i := task.(status := status, attempts := attempt)];
      return attempt;
    }

    /** One turn of the loop; returns what was done. */
    method Step(a: Answers) returns (deeds: seq<Deed>)
      modifies this
      ensures Turn(tasks, deeds) == Iterate(old(tasks), a)
    {
      deeds := [];
      var repair := First(tasks, ToRepair);
      if repair.Some? {
        var workers, repaired := RepairCiFailure(repair.value, a.repair);
        deeds := [Repaired(repair.value, workers, repaired)];
        if !repaired {
          return;
        }
      }
      var ci := First(tasks, ToPoll);
      if ci.Some? {
        var outcome := PollPrCi(ci.value, a.poll);
        deeds := deeds + [Polled(ci.value)];
        if !outcome.Pending? {
          return;
        }
      }
      var pending := First(tasks, ToWork);
      if pending.Some? {
        var workers := WorkOn(pending.value, a.work);
        deeds := deeds + [Worked(pending.value, workers)];
      }
    }
  }

  method CountChecks(checks: seq<Check>) returns (failed: nat, pending: nat)
    ensures failed > 0 <==> AnyIs(checks, CheckFailed)
    ensures pending > 0 <==> AnyIs(checks, CheckPending)
  {
    failed, pending := 0, 0;
    for i := 0 to |checks|
      invariant failed > 0 <==> exists j | 0 <= j < i :: CheckStatusValue(checks[j]) == CheckFailed
      invariant pending > 0 <==> exists j | 0 <= j < i :: CheckStatusValue(checks[j]) == CheckPending
    {
      match CheckStatusValue(checks[i]) {
        case CheckFailed => failed := failed + 1;
        case CheckPending => pending := pending + 1;
        case CheckPassed =>
      }
    }
  }
}
