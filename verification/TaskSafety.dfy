/** What holds in every state of every run of the task protocol. */
module TaskSafety {
  import opened Options
  import opened TaskOutcome
  import opened WorkQueue
  import opened TaskProtocol
  import opened TaskInvariant
  import opened TaskSteps
  import Retry

  // ---------------------------------------------------------------- what a run can show

  /** `s` is reached from the empty system by some interleaving. */
  ghost predicate Reachable(c: Config, s: State)
  {
    exists steps :: Executable(c, Init(c), steps) && Run(c, Init(c), steps) == s
  }

  /** The same, by an interleaving that keeps the timing assumption. */
  ghost predicate TimelyReachable(c: Config, s: State)
  {
    exists steps :: Executable(c, Init(c), steps) && TimelyRun(c, Init(c), steps) && Run(c, Init(c), steps) == s
  }

  lemma ReachableSound(c: Config, s: State)
    requires Reachable(c, s)
    ensures Sound(c, s)
  {
    var steps :| Executable(c, Init(c), steps) && Run(c, Init(c), steps) == s;
    InitInv(c);
    RunKeepsSound(c, Init(c), steps);
  }

  lemma TimelyReachableInv(c: Config, s: State)
    requires TimelyReachable(c, s)
    ensures Inv(c, s) && Reachable(c, s)
  {
    var steps :| Executable(c, Init(c), steps) && TimelyRun(c, Init(c), steps) && Run(c, Init(c), steps) == s;
    InitInv(c);
    RunKeepsInv(c, Init(c), steps);
  }

  /** No lost task: a task that is not settled is in the ready list, in the scheduled set, or in
      the hands of its creator or of a worker that has not finished with it. */
  lemma NoTaskIsLost(c: Config, s: State, t: TaskId)
    requires TimelyReachable(c, s) && t in s.tasks && !Terminal(s.tasks[t].status)
    ensures InHand(s, t)
  {
    TimelyReachableInv(c, s);
  }

  /** At most one worker is past the lock of a task, and the lock key exists exactly while one is. */
  lemma OneProcessorPerTask(c: Config, s: State, t: TaskId)
    requires Reachable(c, s)
    ensures forall v, w :: 0 <= v < w < |s.workers| && HasLock(s.workers[v]) && HasLock(s.workers[w]) ==>
              s.workers[v].task != s.workers[w].task
    ensures t in s.queue.locks <==> exists w :: 0 <= w < |s.workers| && HasLock(s.workers[w]) && s.workers[w].task == t
  {
    ReachableSound(c, s);
    if t in s.owner {
      assert HasLock(s.workers[s.owner[t]]);
    }
  }

  /** The stages between opening an attempt row and closing it. */
  predicate AttemptOpen(pc: Pc)
  {
    pc.Starting? || pc.Generating? || pc.Registering? || pc.Postponing? || pc.Closing?
  }

  /** The stages in which the task row may read running. */
  predicate InFlight(pc: Pc)
  {
    pc.Generating? || pc.Registering? || pc.Postponing? || pc.Requeueing? || pc.Closing? || pc.Settling?
  }

  /** All attempts led to a retry, or all but the last did and the last has none. */
  ghost predicate RetriesThenOne(c: Config, attempts: seq<Attempt>)
  {
    || AllPostponed(c, attempts)
    || (attempts != [] && AllPostponed(c, attempts[..|attempts| - 1]) && attempts[|attempts| - 1].retryAfter.None?)
  }

  lemma CoherentAttempts(c: Config, row: TaskRow, attempts: seq<Attempt>, assets: seq<nat>, holder: Option<Pc>)
    requires Coherent(c, row, attempts, assets, holder)
    ensures RetriesThenOne(c, attempts)
    ensures forall i :: 0 <= i < |attempts| ==>
              (attempts[i].status == AttemptRunning <==> i == |attempts| - 1 && holder.Some? && AttemptOpen(holder.value))
    ensures row.status == Running ==> holder.Some? && InFlight(holder.value)
  {
    var n := |attempts|;
    assert attempts != [] ==> forall i :: 0 <= i < n - 1 ==> attempts[i] == attempts[..n - 1][i];
  }

  /** Attempt numbers are exactly 1..k, although MAX + 1 is read in one statement and inserted in
      another; an attempt row is running exactly while a lock holder has it open, so an unlocked
      task has none; and a running task has a lock holder in flight. */
  lemma AttemptsMatchTheHolder(c: Config, s: State, t: TaskId)
    requires Reachable(c, s) && t in s.tasks
    ensures t in s.attempts
    ensures forall i :: 0 <= i < |s.attempts[t]| ==> s.attempts[t][i].no == i + 1
    ensures forall i :: 0 <= i < |s.attempts[t]| ==>
              (s.attempts[t][i].status == AttemptRunning <==>
               i == |s.attempts[t]| - 1 && Holder(s, t).Some? && AttemptOpen(Holder(s, t).value))
    ensures s.tasks[t].status == Running ==> t in s.queue.locks && Holder(s, t).Some? && InFlight(Holder(s, t).value)
  {
    ReachableSound(c, s);
    CoherentAttempts(c, s.tasks[t], s.attempts[t], s.assets[t], Holder(s, t));
  }

  /** How many attempt rows of a task say running. */
  function RunningCount(attempts: seq<Attempt>): nat
  {
    if attempts == [] then 0
    else RunningCount(attempts[..|attempts| - 1]) + if attempts[|attempts| - 1].status == AttemptRunning then 1 else 0
  }

  lemma {:induction false} NoneRunning(attempts: seq<Attempt>)
    requires forall i :: 0 <= i < |attempts| ==> attempts[i].status != AttemptRunning
    ensures RunningCount(attempts) == 0
  {
    if attempts != [] {
      NoneRunning(attempts[..|attempts| - 1]);
    }
  }

  /** A task has one running attempt row if its lock holder has an attempt open, and none
      otherwise. A task row that says running therefore has exactly one running attempt if and
      only if its holder has not closed it yet; between closing the attempt and changing the
      task's status it has none. */
  lemma RunningAttempts(c: Config, s: State, t: TaskId)
    requires Reachable(c, s) && t in s.tasks
    ensures t in s.attempts
    ensures RunningCount(s.attempts[t]) == if Holder(s, t).Some? && AttemptOpen(Holder(s, t).value) then 1 else 0
    ensures s.tasks[t].status == Running ==>
              && Holder(s, t).Some?
              && (RunningCount(s.attempts[t]) == 1 <==> AttemptOpen(Holder(s, t).value))
              && (RunningCount(s.attempts[t]) == 0 <==> Holder(s, t).value.Requeueing? || Holder(s, t).value.Settling?)
  {
    ReachableSound(c, s);
    AttemptsMatchTheHolder(c, s, t);
    var attempts, n := s.attempts[t], |s.attempts[t]|;
    assert Coherent(c, s.tasks[t], attempts, s.assets[t], Holder(s, t));
    if attempts != [] {
      assert forall i :: 0 <= i < n - 1 ==> attempts[..n - 1][i] == attempts[i];
      NoneRunning(attempts[..n - 1]);
    }
  }

  ghost function Postponements(attempts: seq<Attempt>): nat
  {
    if attempts == [] then 0
    else Postponements(attempts[..|attempts| - 1]) + if attempts[|attempts| - 1].retryAfter.Some? then 1 else 0
  }

  /** The waits of all scheduled retries. */
  ghost function Waits(attempts: seq<Attempt>): int
  {
    if attempts == [] then 0
    else
      var a := attempts[|attempts| - 1];
      Waits(attempts[..|attempts| - 1]) + if a.retryAfter.Some? then a.retryAfter.value - a.decidedAt else 0
  }

  lemma {:induction false} PostponedTotals(c: Config, attempts: seq<Attempt>)
    requires Numbered(attempts) && AllPostponed(c, attempts)
    ensures Postponements(attempts) == |attempts| <= c.maxRetries
    ensures Waits(attempts) == Retry.TotalBackoff(c.retryBaseSeconds, |attempts|)
  {
    if attempts != [] {
      var init := attempts[..|attempts| - 1];
      assert forall i :: 0 <= i < |init| ==> init[i] == attempts[i];
      PostponedTotals(c, init);
      assert Postponed(c, attempts[|attempts| - 1]);
    }
  }

  lemma TotalsOfRows(c: Config, attempts: seq<Attempt>)
    requires Numbered(attempts) && RetriesThenOne(c, attempts)
    ensures Postponements(attempts) <= c.maxRetries
    ensures |attempts| <= Postponements(attempts) + 1
    ensures Waits(attempts) == Retry.TotalBackoff(c.retryBaseSeconds, Postponements(attempts))
    ensures forall i :: 0 <= i < |attempts| && attempts[i].retryAfter.Some? ==>
              attempts[i].retryAfter.value == attempts[i].decidedAt + Retry.Backoff(c.retryBaseSeconds, i + 1)
  {
    var n := |attempts|;
    assert n > 0 ==> forall i :: 0 <= i < n - 1 ==> attempts[i] == attempts[..n - 1][i];
    if AllPostponed(c, attempts) {
      PostponedTotals(c, attempts);
    } else {
      PostponedTotals(c, attempts[..|attempts| - 1]);
    }
  }

  /** Retry budget: however many repairs requeue a task, it gets at most `maxRetries` scheduled
      retries and `maxRetries + 1` attempts; the retry after attempt k is set the k-th backoff
      after the decision; and all waits together stay below base * 2^maxRetries. */
  lemma RetryBudget(c: Config, s: State, t: TaskId)
    requires Reachable(c, s) && t in s.tasks
    ensures t in s.attempts
    ensures |s.attempts[t]| <= c.maxRetries + 1
    ensures Postponements(s.attempts[t]) <= c.maxRetries
    ensures forall i :: 0 <= i < |s.attempts[t]| && s.attempts[t][i].retryAfter.Some? ==>
              s.attempts[t][i].retryAfter.value == s.attempts[t][i].decidedAt + Retry.Backoff(c.retryBaseSeconds, i + 1)
    ensures c.maxRetries >= 1 && Retry.BaseDelay(c.retryBaseSeconds) * Retry.Pow2(c.maxRetries - 1) < Retry.TWO_TO_63 ==>
              Waits(s.attempts[t]) <= Retry.BaseDelay(c.retryBaseSeconds) * (Retry.Pow2(c.maxRetries) - 1)
  {
    ReachableSound(c, s);
    CoherentAttempts(c, s.tasks[t], s.attempts[t], s.assets[t], Holder(s, t));
    TotalsOfRows(c, s.attempts[t]);
    TotalBackoffBounded(c, Postponements(s.attempts[t]));
  }

  lemma TotalBackoffBounded(c: Config, k: nat)
    requires k <= c.maxRetries
    ensures c.maxRetries >= 1 && Retry.BaseDelay(c.retryBaseSeconds) * Retry.Pow2(c.maxRetries - 1) < Retry.TWO_TO_63 ==>
              Retry.TotalBackoff(c.retryBaseSeconds, k) <= Retry.BaseDelay(c.retryBaseSeconds) * (Retry.Pow2(c.maxRetries) - 1)
  {
    var b := Retry.BaseDelay(c.retryBaseSeconds);
    if c.maxRetries >= 1 && b * Retry.Pow2(c.maxRetries - 1) < Retry.TWO_TO_63 {
      if k >= 1 {
        Retry.Pow2Grows(k - 1, c.maxRetries - 1);
        Retry.MulMonotone(b, Retry.Pow2(k - 1), Retry.Pow2(c.maxRetries - 1));
      }
      Retry.TotalBackoffIsGeometric(c.retryBaseSeconds, k);
      Retry.Pow2Grows(k, c.maxRetries);
      Retry.MulMonotone(b, Retry.Pow2(k) - 1, Retry.Pow2(c.maxRetries) - 1);
    }
  }

  /** Outcome accounting: completed means at least the requested number of assets is registered,
      partially completed at least one, failed none; all of them come from the last attempt, and
      a task still waiting for its first or next attempt has registered nothing. */
  lemma SettledTasksAreAccounted(c: Config, s: State, t: TaskId)
    requires Reachable(c, s) && t in s.tasks
    ensures t in s.attempts && t in s.assets
    ensures Terminal(s.tasks[t].status) ==>
              && (s.tasks[t].status == Completed ==> |s.assets[t]| >= 1 && |s.assets[t]| >= s.tasks[t].requested)
              && (s.tasks[t].status == PartiallyCompleted ==> |s.assets[t]| >= 1)
              && (s.tasks[t].status == Failed ==> s.assets[t] == [])
              && forall i :: 0 <= i < |s.assets[t]| ==> s.assets[t][i] == |s.attempts[t]|
    ensures !Terminal(s.tasks[t].status) && t !in s.queue.locks ==> s.assets[t] == []
  {
    ReachableSound(c, s);
    assert Coherent(c, s.tasks[t], s.attempts[t], s.assets[t], Holder(s, t));
  }

  /** All attempts but the last failed and led to a retry; the last one failed or completed. */
  ghost predicate EndsWith(attempts: seq<Attempt>, last: AttemptStatus)
  {
    && attempts != [] && attempts[|attempts| - 1].retryAfter.None? && attempts[|attempts| - 1].status == last
    && forall i :: 0 <= i < |attempts| - 1 ==> attempts[i].status == AttemptFailed && attempts[i].retryAfter.Some?
  }

  lemma ClosedEnds(c: Config, attempts: seq<Attempt>, verdict: TaskStatus)
    requires Closed(c, attempts, |attempts|, verdict)
    ensures EndsWith(attempts, if verdict == Failed then AttemptFailed else AttemptCompleted)
  {
    var init := attempts[..|attempts| - 1];
    forall i | 0 <= i < |init|
      ensures attempts[i].status == AttemptFailed && attempts[i].retryAfter.Some?
    {
      assert Postponed(c, init[i]);
    }
  }

  /** The attempts of a settled task: retries, then one that failed if and only if the task did. */
  lemma SettledAttempts(c: Config, s: State, t: TaskId)
    requires Reachable(c, s) && t in s.tasks && Terminal(s.tasks[t].status)
    ensures t in s.attempts
    ensures EndsWith(s.attempts[t], if s.tasks[t].status == Failed then AttemptFailed else AttemptCompleted)
  {
    ReachableSound(c, s);
    SettledAreClosed(c, s.tasks[t], s.attempts[t], s.assets[t], Holder(s, t));
    ClosedEnds(c, s.attempts[t], s.tasks[t].status);
  }

  lemma SettledAreClosed(c: Config, row: TaskRow, attempts: seq<Attempt>, assets: seq<nat>, holder: Option<Pc>)
    requires Coherent(c, row, attempts, assets, holder) && Terminal(row.status)
    ensures Closed(c, attempts, |attempts|, row.status)
  {
  }

  /** A settled task never changes again: neither its row, nor its attempts, nor its assets. */
  lemma SettledForever(c: Config, s: State, step: Step, t: TaskId)
    requires Reachable(c, s) && Enabled(c, s, step)
    requires t in s.tasks && Terminal(s.tasks[t].status)
    ensures SameRows(s, Do(c, s, step), t)
  {
    ReachableSound(c, s);
    if OfHolder(step) {
      SettledUnderHolder(c, s, step, t);
    } else {
      SettledUnderFree(c, s, step, t);
    }
  }

  ghost predicate SameRows(s: State, s': State, t: TaskId)
  {
    && Rows(s, t) && Rows(s', t)
    && s'.tasks[t] == s.tasks[t] && s'.attempts[t] == s.attempts[t] && s'.assets[t] == s.assets[t]
  }

  predicate RowStep(step: Step)
  {
    step.CreateInsert? || step.Repair?
  }

  lemma SettledUnderFree(c: Config, s: State, step: Step, t: TaskId)
    requires Known(s) && Enabled(c, s, step) && !OfHolder(step)
    requires t in s.tasks && Terminal(s.tasks[t].status)
    ensures SameRows(s, Do(c, s, step), t)
  {
    if RowStep(step) {
      SettledUnderRowStep(c, s, step, t);
    } else if step.CreatePush? || step.Tick? || step.Promote? {
      QueueStepKeepsRows(c, s, step);
    } else {
      WorkerStepKeepsRows(c, s, step);
    }
  }

  lemma SettledUnderRowStep(c: Config, s: State, step: Step, t: TaskId)
    requires Known(s) && Enabled(c, s, step) && RowStep(step)
    requires t in s.tasks && Terminal(s.tasks[t].status)
    ensures SameRows(s, Do(c, s, step), t)
  {
  }

  lemma QueueStepKeepsRows(c: Config, s: State, step: Step)
    requires Enabled(c, s, step) && (step.CreatePush? || step.Tick? || step.Promote?)
    ensures var s' := Do(c, s, step); s'.tasks == s.tasks && s'.attempts == s.attempts && s'.assets == s.assets
  {
  }

  lemma WorkerStepKeepsRows(c: Config, s: State, step: Step)
    requires Enabled(c, s, step) && !OfHolder(step) && !RowStep(step) && !step.CreatePush? && !step.Tick? && !step.Promote?
    ensures var s' := Do(c, s, step); s'.tasks == s.tasks && s'.attempts == s.attempts && s'.assets == s.assets
  {
  }

  lemma SettledUnderHolder(c: Config, s: State, step: Step, t: TaskId)
    requires Sound(c, s) && Enabled(c, s, step) && OfHolder(step)
    requires t in s.tasks && Terminal(s.tasks[t].status)
    ensures SameRows(s, Do(c, s, step), t)
  {
    StageHasLock(c, s, step);
    HolderCoherent(c, s, step.w);
    if s.workers[step.w].task == t {
      SettledUnderOwnStep(c, s, step);
    } else {
      HolderChangeOf(c, s, step);
    }
  }

  /** The holder of a settled task only looks at it. */
  lemma SettledUnderOwnStep(c: Config, s: State, step: Step)
    requires Enabled(c, s, step) && OfHolder(step) && CoherentAt(c, s, step.w)
    requires Terminal(s.tasks[s.workers[step.w].task].status)
    ensures SameRows(s, Do(c, s, step), s.workers[step.w].task)
  {
    OnlyReadsSettled(c, s, step.w);
    assert step.ReadTask?;
  }

  lemma OnlyReadsSettled(c: Config, s: State, w: nat)
    requires CoherentAt(c, s, w) && Terminal(s.tasks[s.workers[w].task].status)
    ensures s.workers[w].Reading? || s.workers[w].Unlocking?
  {
  }
}
