/** What one poll, one repair, one worker's task and one turn of the development controller come
    to, in terms of what git, the worker and GitHub answered. */
module HostControllerOutcome {
  import opened Options
  import opened HostController
  import opened HostControllerBounds

  /** A setting within its bounds is taken as it is, one beyond them moved to the nearer bound, and
      the default stands for one that is missing. */
  lemma BoundedMeaning(value: Option<int>, default: int, minimum: int, maximum: int)
    requires minimum <= maximum
    ensures var r := BoundedInt(value, default, minimum, maximum);
            match value
            case None => r == default
            case Some(v) =>
              minimum <= r <= maximum && (minimum <= v <= maximum ==> r == v)
              && (v < minimum ==> r == minimum) && (v > maximum ==> r == maximum)
  {
  }

  /** The limits a task is worked under. */
  lemma LimitsMeaning(t: Task)
    ensures MaxPolls(t) == (match t.maxPolls case None => 60 case Some(n) => if n < 1 then 1 else if n > 240 then 240 else n)
    ensures TimeoutSeconds(t) ==
            (match t.timeoutSeconds case None => 1800 case Some(n) => if n < 60 then 60 else if n > 7200 then 7200 else n)
    ensures RepairLimit(t) ==
            (match t.repairMaxAttempts case None => 1 case Some(n) => if n < 0 then 0 else if n > 3 then 3 else n)
    ensures WorkerLimit(t) in {1, 2, 3} && (t.maxAttempts.Absent? ==> WorkerLimit(t) == 2)
    ensures t.maxAttempts.Number? && t.maxAttempts.n in {1, 2, 3} ==> WorkerLimit(t) == t.maxAttempts.n
    ensures t.maxAttempts.NotANumber? || (t.maxAttempts.Number? && t.maxAttempts.n !in {1, 2, 3}) ==> WorkerLimit(t) == 1
  {
  }

  /** A controller that starts takes no task for running: one left so is up for review as
      interrupted, and everything else is as it was. */
  lemma RecoveredMeaning(t: Task)
    ensures !Recovered(t).status.Running?
    ensures Recovered(t) == t.(status := Recovered(t).status)
    ensures Recovered(t).status == t.status || (t.status.Running? && Recovered(t).status.BlockedInterruptedReview?)
  {
  }

  // ------------------------------------------------------------------- one poll

  /** A poll that still asks GitHub: the task can be looked at, a poll is left, and its time since
      publication, or since its first poll, is not up. */
  predicate AsksGitHub(t: Task, a: PollAnswers) {
    && a.validId && a.prUsable && a.worktreeThere
    && PollAttempts(t) < MaxPolls(t)
    && (!t.status.PublishedPr? && t.pollStartedAt.Some? ==> a.now - t.pollStartedAt.value <= TimeoutSeconds(t))
  }

  /** A list of checks, at least one, read from GitHub. */
  predicate ReadsChecks(gh: GhAnswer) {
    gh.GhAnswered? && gh.code in {0, 8} && gh.reply.Checks? && gh.reply.checks != []
  }

  /** What a poll comes to, by the words GitHub reported: one failing word of one check, and the
      task is repaired or blocked; all checks passing, and it is up for review; anything else,
      and it is polled again. Without checks, or without an answer, it is blocked. */
  lemma PollMeaning(t: Task, a: PollAnswers)
    requires AsksGitHub(t, a)
    ensures var (t', outcome) := Poll(t, a);
            if ReadsChecks(a.gh) then
              if exists i | 0 <= i < |a.gh.reply.checks| :: Failing(a.gh.reply.checks[i]) then
                if RepairAttempts(t) < RepairLimit(t) then outcome.Repair? && t'.status.CiRepairQueued?
                else outcome.Blocked? && t'.status.BlockedCiFailed?
              else if AllPassed(a.gh.reply.checks) then outcome.Passed? && t'.status.ReviewCiPassed?
              else outcome.Pending? && t'.status.CiPolling?
            else
              && outcome.Blocked?
              && (t'.status.BlockedCiNoChecks? <==>
                    a.gh.GhAnswered? && a.gh.code in {0, 8} && !a.gh.reply.NotJson?)
              && (t'.status.BlockedCiNoChecks? || t'.status.BlockedCiPollError?)
  {
    if ReadsChecks(a.gh) {
      AllPassedIff(a.gh.reply.checks);
    }
  }

  /** A poll that may not ask GitHub blocks the task, and says why. */
  lemma PollBlocked(t: Task, a: PollAnswers)
    requires !AsksGitHub(t, a)
    ensures Poll(t, a).1.Blocked?
    ensures var status := Poll(t, a).0.status;
            if !a.validId then status.BlockedInvalidTask?
            else if !a.prUsable then status.BlockedMissingPr?
            else if !a.worktreeThere then status.BlockedMissingWorktree?
            else status.BlockedCiTimeout?
  {
  }

  /** Every poll that gets so far is counted, and the first one after publication starts the
      clock; nothing else of the task changes but its status. */
  lemma PollCounts(t: Task, a: PollAnswers)
    requires a.validId && a.prUsable && a.worktreeThere
    ensures var t' := Poll(t, a).0;
            && t'.pollAttempts == Some(PollAttempts(t) + 1)
            && t'.pollStartedAt == (if t.status.PublishedPr? || t.pollStartedAt.None? then Some(a.now) else t.pollStartedAt)
            && t' == t.(status := t'.status, pollAttempts := t'.pollAttempts, pollStartedAt := t'.pollStartedAt)
  {
  }

  /** The words GitHub's own tool gives a check that failed, passed or still runs. */
  lemma GitHubWords()
    ensures Failing(Check(None, Some("failure"), Some("fail")))
    ensures Passing(Check(None, Some("success"), Some("pass")))
    ensures !Failing(Check(None, Some("in_progress"), Some("pending")))
    ensures !Passing(Check(None, Some("in_progress"), Some("pending")))
  {
    assert "fail" in WordsOf(Check(None, Some("failure"), Some("fail"))) * CI_FAILING;
    assert "pass" in WordsOf(Check(None, Some("success"), Some("pass"))) * CI_PASSING;
    var running := WordsOf(Check(None, Some("in_progress"), Some("pending")));
    assert "pending" in running && "pending" in CI_PENDING;
    forall w | w in running ensures w !in CI_FAILING {
    }
  }

  // ----------------------------------------------------------------- one repair

  /** What has to be so before a repair worker is started. */
  predicate RepairAllowed(t: Task, a: RepairAnswers) {
    a.worktreeThere && RepairAttempts(t) < RepairLimit(t) && a.prIsOpenDraft && a.branchMatches && a.clean
  }

  /** A repair runs a worker exactly when it is allowed, counts it exactly then, and is pushed
      exactly when that worker succeeds, its result is verified and the push works; the task is
      then published anew, with no polls used. */
  lemma RepairMeaning(t: Task, a: RepairAnswers)
    ensures var (t', workers, pushed) := RepairTask(t, a);
            && workers == (if RepairAllowed(t, a) then 1 else 0)
            && (pushed <==> RepairAllowed(t, a) && a.workerExit == 0 && a.verified && a.pushed)
            && t'.repairAttempts == (if RepairAllowed(t, a) then Some(RepairAttempts(t) + 1) else t.repairAttempts)
            && (pushed ==> t'.status.PublishedPr? && t'.pollAttempts == Some(0) && t'.pollStartedAt == Some(a.now))
            && (!pushed ==> t'.pollAttempts == t.pollAttempts && t'.pollStartedAt == t.pollStartedAt)
            && (!pushed ==>
                  t'.status == if !a.worktreeThere then BlockedMissingWorktree
                               else if RepairAttempts(t) >= RepairLimit(t) then BlockedCiFailed
                               else if !a.prIsOpenDraft then BlockedCiRepairPr
                               else if !a.branchMatches then BlockedCiRepairBranch
                               else if !a.clean then BlockedDirtyCheckout
                               else if a.workerExit != 0 then BlockedCiRepairWorkerFailure
                               else if !a.verified then BlockedCiRepairVerification
                               else BlockedCiRepairPush)
  {
  }

  // ------------------------------------------------------------ a worker's task

  /** An attempt that leaves room for another: the worker ended, but its result does not do. */
  predicate TriedInVain(answer: WorkerAnswer) {
    answer.Exited? && !(answer.code == 0 && answer.verified)
  }

  /** Attempts are made until one is not in vain or none is left. */
  lemma {:induction false} AttemptsMeaning(t: Task, a: WorkAnswers, attempt: nat)
    requires 1 <= attempt <= WorkerLimit(t)
    ensures var (status, last) := Attempts(t, a, attempt);
            && attempt <= last <= WorkerLimit(t)
            && (forall k | attempt <= k < last :: TriedInVain(a.worker(k)))
            && (TriedInVain(a.worker(last)) ==> last == WorkerLimit(t))
            && status == match a.worker(last)
                         case TimedOut => BlockedTimeout
                         case Unavailable => BlockedWorkerUnavailable
                         case Exited(code, verified) =>
                           if code != 0 then BlockedWorkerFailure
                           else if !verified then BlockedVerification
                           else if !t.publishPr then Review
                           else PublicationStatus(a.publication)
    decreases WorkerLimit(t) - attempt
  {
    if TriedInVain(a.worker(attempt)) && attempt < WorkerLimit(t) {
      AttemptsMeaning(t, a, attempt + 1);
    }
  }

  /** A queued task reaches review, or a published pull request, exactly when nothing stood in its
      way, an attempt within the limit succeeded and was verified, every one before it was in
      vain, and, if it was to be published, that worked. */
  lemma WorkMeaning(t: Task, a: WorkAnswers)
    ensures var (t', workers) := Work(t, a);
            && (!a.preflight.Fine? ==> workers == 0 && t' == t.(status := PreflightStatus(a.preflight)))
            && (a.preflight.Fine? ==> 1 <= workers <= WorkerLimit(t) && t' == t.(status := t'.status, attempts := workers))
            && (t'.status.Review? || t'.status.PublishedPr? <==>
                  && a.preflight.Fine? && a.worker(workers) == Exited(0, true)
                  && (t.publishPr ==> a.publication.Published?))
            && (t'.status.PublishedPr? ==> t.publishPr)
            && (forall k | 1 <= k < workers :: TriedInVain(a.worker(k)))
  {
    if a.preflight.Fine? {
      AttemptsMeaning(t, a, 1);
    }
  }

  // --------------------------------------------------------------------- a turn

  /** The first task of a kind. */
  ghost predicate IsFirst(tasks: seq<Task>, kind: Kind, i: nat) {
    i < |tasks| && Is(tasks[i], kind) && forall j | 0 <= j < i :: !Is(tasks[j], kind)
  }

  lemma {:induction false} FirstMeaning(tasks: seq<Task>, kind: Kind)
    ensures match First(tasks, kind)
            case None => forall i | 0 <= i < |tasks| :: !Is(tasks[i], kind)
            case Some(i) => IsFirst(tasks, kind, i)
  {
    if tasks != [] && !Is(tasks[0], kind) {
      FirstMeaning(tasks[1..], kind);
      match First(tasks[1..], kind) {
        case None =>
        case Some(n) =>
          forall j | 0 <= j < n + 1 ensures !Is(tasks[j], kind) {
            assert j > 0 ==> tasks[j] == tasks[1..][j - 1];
          }
      }
    }
  }

  ghost predicate NoneIs(tasks: seq<Task>, kind: Kind) {
    forall i | 0 <= i < |tasks| :: !Is(tasks[i], kind)
  }

  /** New work is begun with the first queued task, and not at all without one. */
  lemma WorkTurnOrder(tasks: seq<Task>, a: Answers, deeds: seq<Deed>, i: nat)
    ensures var turn := WorkTurn(tasks, a, deeds);
            && (NoneIs(tasks, ToWork) ==> turn == Turn(tasks, deeds))
            && (IsFirst(tasks, ToWork, i) ==>
                  && turn.tasks == tasks[i := Work(tasks[i], a.work).0]
                  && turn.deeds == deeds + [Worked(i, Work(tasks[i], a.work).1)])
  {
    FirstMeaning(tasks, ToWork);
  }

  /** The first published task is polled. Only with its checks pending, or with nothing to poll,
      does new work follow. */
  lemma PollTurnOrder(tasks: seq<Task>, a: Answers, deeds: seq<Deed>, i: nat)
    ensures var turn := PollTurn(tasks, a, deeds);
            && (NoneIs(tasks, ToPoll) ==> turn == WorkTurn(tasks, a, deeds))
            && (IsFirst(tasks, ToPoll, i) ==>
                  var polled := tasks[i := Poll(tasks[i], a.poll).0];
                  turn == if Poll(tasks[i], a.poll).1.Pending? then WorkTurn(polled, a, deeds + [Polled(i)])
                          else Turn(polled, deeds + [Polled(i)]))
  {
    FirstMeaning(tasks, ToPoll);
  }

  /** The order of a turn: the first task to repair comes before any other, and only a repair that
      is pushed lets the turn go on. */
  lemma TurnOrder(tasks: seq<Task>, a: Answers, i: nat)
    ensures var turn := Iterate(tasks, a);
            && (NoneIs(tasks, ToRepair) ==> turn == PollTurn(tasks, a, []))
            && (IsFirst(tasks, ToRepair, i) ==>
                  var (t, workers, pushed) := RepairTask(tasks[i], a.repair);
                  turn == if pushed then PollTurn(tasks[i := t], a, [Repaired(i, workers, true)])
                          else Turn(tasks[i := t], [Repaired(i, workers, false)]))
  {
    FirstMeaning(tasks, ToRepair);
  }

  /** A task nothing more is done to. */
  predicate Settled(t: Task) {
    !Is(t, ToRepair) && !Is(t, ToPoll) && !Is(t, ToWork)
  }

  /** What is done to a task next, after each thing that can be done to it. Pending checks are
      polled again, failed ones repaired if a repair is left, and a task published or pushed anew
      is polled; after anything else the task is settled. */
  lemma NextDeed(t: Task, a: Answers)
    ensures var (polled, outcome) := Poll(t, a.poll);
            match outcome
            case Pending => Is(polled, ToPoll)
            case Repair => Is(polled, ToRepair)
            case Passed => Settled(polled)
            case Blocked => Settled(polled)
    ensures var (repaired, _, pushed) := RepairTask(t, a.repair); if pushed then Is(repaired, ToPoll) else Settled(repaired)
    ensures var (worked, _) := Work(t, a.work); if worked.status.PublishedPr? then Is(worked, ToPoll) else Settled(worked)
  {
    if a.work.preflight.Fine? {
      AttemptsMeaning(t, a.work, 1);
    }
  }

  predicate DoneTo(deeds: seq<Deed>, i: nat) {
    exists k | 0 <= k < |deeds| :: deeds[k].i == i
  }

  lemma WorkTurnSpares(tasks: seq<Task>, a: Answers, deeds: seq<Deed>, i: nat)
    ensures var turn := WorkTurn(tasks, a, deeds);
            && |turn.tasks| == |tasks| && deeds <= turn.deeds
            && (i < |tasks| && !DoneTo(turn.deeds, i) ==> turn.tasks[i] == tasks[i])
  {
    match First(tasks, ToWork) {
      case None =>
      case Some(j) =>
        var turn := WorkTurn(tasks, a, deeds);
        assert turn.deeds[|deeds|].i == j;
    }
  }

  lemma PollTurnSpares(tasks: seq<Task>, a: Answers, deeds: seq<Deed>, i: nat)
    ensures var turn := PollTurn(tasks, a, deeds);
            && |turn.tasks| == |tasks| && deeds <= turn.deeds
            && (i < |tasks| && !DoneTo(turn.deeds, i) ==> turn.tasks[i] == tasks[i])
  {
    match First(tasks, ToPoll) {
      case None => WorkTurnSpares(tasks, a, deeds, i);
      case Some(j) =>
        WorkTurnSpares(tasks[j := Poll(tasks[j], a.poll).0], a, deeds + [Polled(j)], i);
        assert (deeds + [Polled(j)])[|deeds|].i == j;
        assert deeds + [Polled(j)] <= PollTurn(tasks, a, deeds).deeds;
        assert PollTurn(tasks, a, deeds).deeds[|deeds|] == Polled(j);
    }
  }

  /** A turn changes only the tasks it does something to. */
  lemma TurnSpares(tasks: seq<Task>, a: Answers, i: nat)
    requires i < |tasks| && !DoneTo(Iterate(tasks, a).deeds, i)
    ensures |Iterate(tasks, a).tasks| == |tasks| && Iterate(tasks, a).tasks[i] == tasks[i]
  {
    match First(tasks, ToRepair) {
      case None => PollTurnSpares(tasks, a, [], i);
      case Some(j) =>
        var (t, workers, pushed) := RepairTask(tasks[j], a.repair);
        var deed := Repaired(j, workers, pushed);
        if pushed {
          PollTurnSpares(tasks[j := t], a, [deed], i);
          assert Iterate(tasks, a).deeds[0] == deed;
        } else {
          assert Iterate(tasks, a).deeds[0].i == j;
        }
    }
  }
}
