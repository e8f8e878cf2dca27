/** Retries and repairs of the task protocol: when a retry is decided, when it falls due, which
    verdict a worker reaches, and how a repair brings back a task that was lost. */
module TaskRetry {
  import opened Options
  import opened TaskOutcome
  import opened WorkQueue
  import opened TaskProtocol
  import opened TaskInvariant
  import opened TaskSteps
  import opened TaskSafety
  import opened TaskDrive
  import opened TaskProgress
  import Retry

  // ---------------------------------------------------------------- when a retry is decided

  /** An answer without files and with an error that may be retried is postponed exactly while the
      task has no more attempts than the budget allows retries; otherwise the attempt fails. Any
      other answer is registered, and so is one that brings files along with its error. */
  lemma RetryDecision(c: Config, s: State, w: nat, files: nat, failed: bool, retryable: bool)
    requires Reachable(c, s) && Enabled(c, s, Generate(w, files, failed, retryable))
    ensures s.workers[w].task in s.attempts && At(Do(c, s, Generate(w, files, failed, retryable)), w)
    ensures var t := s.workers[w].task;
            var no := |s.attempts[t]|;
            Do(c, s, Generate(w, files, failed, retryable)).workers[w] ==
            if files > 0 || !failed then Registering(t, no, files, 0, false, failed)
            else if retryable && no <= c.maxRetries then
              Postponing(t, no, s.now, s.now + Retry.Backoff(c.retryBaseSeconds, no))
            else Closing(t, no, 0, Failed)
  {
    ReachableSound(c, s);
    HolderCoherent(c, s, w);
  }

  lemma WorkerKeepsRequests(c: Config, s: State, step: Step, t: TaskId)
    requires Enabled(c, s, step) && OfHolder(step) && t in s.tasks
    ensures t in Do(c, s, step).tasks && Do(c, s, step).tasks[t].requested == s.tasks[t].requested
  {
  }

  /** A new task is queued for the number of images it was created for, and that number is never
      changed. */
  lemma RequestNeverChanges(c: Config, s: State, step: Step, t: TaskId)
    requires Enabled(c, s, step) && (t in s.tasks || (step.CreateInsert? && step.t == t))
    ensures t in Do(c, s, step).tasks
    ensures Do(c, s, step).tasks[t].requested == if t in s.tasks then s.tasks[t].requested else step.requested
    ensures t !in s.tasks ==> Do(c, s, step).tasks[t].status == Queued
  {
    if OfHolder(step) {
      WorkerKeepsRequests(c, s, step, t);
    }
  }

  // ---------------------------------------------------------------- which verdict is reached

  function Registrations(w: nat, files: seq<FileResult>): seq<Step>
  {
    seq(|files|, i requires 0 <= i < |files| => RegisterFile(w, files[i].Registered?))
  }

  lemma RegistrationsNext(w: nat, files: seq<FileResult>)
    requires files != []
    ensures Registrations(w, files)[0] == RegisterFile(w, files[0].Registered?)
    ensures Registrations(w, files)[1..] == Registrations(w, files[1..])
  {
  }

  predicate SomeLost(files: seq<FileResult>)
  {
    exists i :: 0 <= i < |files| && files[i].Lost?
  }

  lemma {:induction false} FrontCounts(files: seq<FileResult>)
    requires files != []
    ensures Count(files) == Count(files[1..]) + if files[0].Registered? then 1 else 0
    ensures SomeLost(files) <==> files[0].Lost? || SomeLost(files[1..])
    decreases |files|
  {
    var init := files[..|files| - 1];
    if |files| > 1 {
      FrontCounts(init);
      assert files[1..][..|files| - 2] == init[1..];
    } else {
      assert init == [] && files[1..] == [];
    }
    if i :| 0 <= i < |files| && files[i].Lost? {
      assert i > 0 ==> files[1..][i - 1].Lost?;
    }
    if i :| 0 <= i < |files[1..]| && files[1..][i].Lost? {
      assert files[i + 1].Lost?;
    }
  }

  lemma RegisterOne(c: Config, s: State, w: nat, ok: bool)
    requires AtRows(s, w) && s.workers[w].Registering? && s.workers[w].left > 0
    ensures var s', pc := Do(c, s, RegisterFile(w, ok)), s.workers[w];
            && AtRows(s', w) && s'.tasks == s.tasks
            && s'.workers[w] == Registering(pc.task, pc.no, pc.left - 1, if ok then pc.ready + 1 else pc.ready,
                                            pc.lost || !ok, pc.providerFailed)
  {
  }

  /** The worker has registered all files of its answer. */
  ghost predicate AllRegistered(s: State, s': State, w: nat, files: seq<FileResult>)
    requires At(s, w) && s.workers[w].Registering?
  {
    var pc := s.workers[w];
    && AtRows(s', w) && s'.tasks == s.tasks
    && s'.workers[w] == Registering(pc.task, pc.no, 0, pc.ready + Count(files), pc.lost || SomeLost(files), pc.providerFailed)
  }

  lemma {:induction false} RegisterRest(c: Config, s: State, m: State, s': State, w: nat, files: seq<FileResult>)
    requires files != [] && AtRows(s, w) && s.workers[w].Registering? && s.workers[w].left == |files|
    requires m == Do(c, s, RegisterFile(w, files[0].Registered?)) && AtRows(m, w) && m.workers[w].Registering?
    requires AllRegistered(m, s', w, files[1..])
    ensures AllRegistered(s, s', w, files)
  {
    RegisterOne(c, s, w, files[0].Registered?);
    FrontCounts(files);
  }

  /** Registering the remaining files one after the other. */
  lemma {:induction false} FilesAreRegistered(c: Config, s: State, w: nat, files: seq<FileResult>)
    requires AtRows(s, w) && s.workers[w].Registering? && s.workers[w].left == |files|
    ensures Executable(c, s, Registrations(w, files))
    ensures AllRegistered(s, Run(c, s, Registrations(w, files)), w, files)
    decreases |files|
  {
    if files != [] {
      var step := RegisterFile(w, files[0].Registered?);
      var m := Do(c, s, step);
      RegistrationsNext(w, files);
      RegisterOne(c, s, w, files[0].Registered?);
      FilesAreRegistered(c, m, w, files[1..]);
      RegisterRest(c, s, m, Run(c, m, Registrations(w, files[1..])), w, files);
    }
  }

  /** The verdict of the protocol is the status that the registration loop concludes with for the
      same files. */
  lemma VerdictIsConclusion(c: Config, s: State, w: nat, files: seq<FileResult>, providerError: Option<string>, errorCode: string)
    requires AtRows(s, w) && s.tasks[s.workers[w].task].requested >= 0
    requires var pc := s.workers[w];
             pc.Registering? && pc == Registering(pc.task, pc.no, |files|, 0, false, providerError.Some?)
    ensures var steps, requested := Registrations(w, files) + [Decide(w)], s.tasks[s.workers[w].task].requested;
            Executable(c, s, steps) && At(Run(c, s, steps), w)
            && Run(c, s, steps).workers[w].Closing?
            && Run(c, s, steps).workers[w].verdict
               == Conclude(Count(files), requested, LastError(files), providerError, errorCode).status
  {
    var steps := Registrations(w, files);
    FilesAreRegistered(c, s, w, files);
    var m := Run(c, s, steps);
    DecidesConclusion(c, m, w, files, providerError, errorCode);
    RunOne(c, m, Decide(w));
    RunThen(c, s, steps, [Decide(w)]);
  }

  lemma DecidesConclusion(c: Config, m: State, w: nat, files: seq<FileResult>, providerError: Option<string>, errorCode: string)
    requires AtRows(m, w) && m.tasks[m.workers[w].task].requested >= 0
    requires var pc := m.workers[w];
             pc.Registering? && pc == Registering(pc.task, pc.no, 0, Count(files), SomeLost(files), providerError.Some?)
    ensures Enabled(c, m, Decide(w)) && At(Do(c, m, Decide(w)), w)
    ensures var pc, requested := Do(c, m, Decide(w)).workers[w], m.tasks[m.workers[w].task].requested;
            pc.Closing? && pc.verdict == Conclude(Count(files), requested, LastError(files), providerError, errorCode).status
  {
    LostIsLastError(files);
  }

  lemma LostIsLastError(files: seq<FileResult>)
    ensures SomeLost(files) <==> LastError(files).Some?
  {
    CountIsFullIffNothingLost(files);
  }

  // ---------------------------------------------------------------- when a retry falls due

  /** The last attempt of the task was postponed until `due`. */
  predicate LastDue(s: State, t: TaskId, due: int)
  {
    t in s.attempts && s.attempts[t] != [] && s.attempts[t][|s.attempts[t]| - 1].retryAfter == Some(due)
  }

  /** A worker that is about to requeue a task knows when it is due, and the delay that it has
      measured does not end before that. */
  ghost predicate KnowsDue(s: State, pc: Pc)
  {
    match pc
    case Requeueing(t, _, due) => LastDue(s, t, due)
    case Measuring(t, _, due) => LastDue(s, t, due)
    case Scheduling(t, _, delay) => exists due :: LastDue(s, t, due) && s.now + delay >= due
    case _ => true
  }

  ghost predicate AllKnowDue(s: State)
  {
    forall w :: 0 <= w < |s.workers| ==> KnowsDue(s, s.workers[w])
  }

  lemma StillKnowsDue(s: State, s': State, pc: Pc)
    requires KnowsDue(s, pc) && s'.now >= s.now
    requires HasLock(pc) ==> pc.task in s.attempts && pc.task in s'.attempts && s'.attempts[pc.task] == s.attempts[pc.task]
    ensures KnowsDue(s', pc)
  {
    if pc.Scheduling? {
      var due :| LastDue(s, pc.task, due) && s.now + pc.delay >= due;
      assert LastDue(s', pc.task, due);
    }
  }

  lemma CloseKnowsDue(c: Config, s: State, w: nat, s': State)
    requires Enabled(c, s, CloseForRetry(w)) && s' == Do(c, s, CloseForRetry(w)) && CoherentAt(c, s, w)
    ensures At(s', w) && KnowsDue(s', s'.workers[w])
  {
    var pc := s.workers[w];
    FinishesLast(s, pc.task, pc.no, AttemptFailed, pc.decidedAt, Some(pc.due));
  }

  lemma RequeueKnowsDue(c: Config, s: State, step: Step, s': State)
    requires (step.MarkQueued? || step.MeasureDelay?) && Enabled(c, s, step) && s' == Do(c, s, step)
    requires KnowsDue(s, s.workers[step.w])
    ensures At(s', step.w) && KnowsDue(s', s'.workers[step.w])
  {
    var pc := s.workers[step.w];
    assert LastDue(s', pc.task, pc.due);
  }

  predicate BeforeScheduling(pc: Pc)
  {
    pc.Requeueing? || pc.Measuring? || pc.Scheduling?
  }

  lemma OthersLeadElsewhere(c: Config, s: State, step: Step, s': State)
    requires Enabled(c, s, step) && OfHolder(step) && s' == Do(c, s, step) && At(s', step.w)
    requires !step.CloseForRetry? && !step.MarkQueued? && !step.MeasureDelay?
    ensures !BeforeScheduling(s'.workers[step.w])
  {
  }

  lemma OwnStepKnowsDue(c: Config, s: State, step: Step, s': State)
    requires Enabled(c, s, step) && OfHolder(step) && s' == Do(c, s, step) && At(s', step.w)
    requires CoherentAt(c, s, step.w) && KnowsDue(s, s.workers[step.w])
    ensures KnowsDue(s', s'.workers[step.w])
  {
    if step.CloseForRetry? {
      CloseKnowsDue(c, s, step.w, s');
    } else if step.MarkQueued? || step.MeasureDelay? {
      RequeueKnowsDue(c, s, step, s');
    } else {
      OthersLeadElsewhere(c, s, step, s');
    }
  }

  lemma HolderStepKnowsDue(c: Config, s: State, step: Step, s': State)
    requires Sound(c, s) && Enabled(c, s, step) && OfHolder(step) && s' == Do(c, s, step) && AllKnowDue(s)
    ensures AllKnowDue(s')
  {
    HolderStepChanges(c, s, step);
    OwnStepKnowsDue(c, s, step, s');
    forall x | 0 <= x < |s'.workers|
      ensures KnowsDue(s', s'.workers[x])
    {
      if x != step.w {
        OtherKnowsDue(s, s', step.w, x);
      }
    }
  }

  lemma OtherKnowsDue(s: State, s': State, w: nat, x: nat)
    requires Exclusive(s) && Known(s) && HolderChange(s, s', w) && x < |s.workers| && x != w && KnowsDue(s, s.workers[x])
    ensures KnowsDue(s', s'.workers[x])
  {
    if HasLock(s.workers[x]) {
      assert s.owner[s.workers[x].task] == x && s.owner[s.workers[w].task] == w;
    }
    StillKnowsDue(s, s', s.workers[x]);
  }

  /** Steps that leave the attempts of all known tasks alone. */
  lemma FreeStepKnowsDue(c: Config, s: State, step: Step, s': State)
    requires Known(s) && Enabled(c, s, step) && !OfHolder(step) && s' == Do(c, s, step) && AllKnowDue(s)
    ensures AllKnowDue(s')
  {
    forall x | 0 <= x < |s'.workers|
      ensures KnowsDue(s', s'.workers[x])
    {
      FreeStepOf(c, s, step, s', x);
    }
  }

  lemma FreeStepOf(c: Config, s: State, step: Step, s': State, x: nat)
    requires Known(s) && Enabled(c, s, step) && !OfHolder(step) && s' == Do(c, s, step)
    requires x < |s'.workers| && x < |s.workers| ==> KnowsDue(s, s.workers[x])
    requires x < |s'.workers|
    ensures KnowsDue(s', s'.workers[x])
  {
    FreeStepKeepsAttempts(c, s, step, s');
    if s'.workers[x] == s.workers[x] {
      StillKnowsDue(s, s', s.workers[x]);
    }
  }

  lemma FreeStepKeepsAttempts(c: Config, s: State, step: Step, s': State)
    requires Known(s) && Enabled(c, s, step) && !OfHolder(step) && s' == Do(c, s, step)
    ensures s'.now >= s.now && |s'.workers| == |s.workers|
    ensures forall t :: t in s.tasks ==> t in s.attempts && t in s'.attempts && s'.attempts[t] == s.attempts[t]
    ensures forall x :: 0 <= x < |s.workers| && s'.workers[x] != s.workers[x] ==> !BeforeScheduling(s'.workers[x])
  {
    if RowStep(step) {
      RowStepKeepsAttempts(c, s, step, s');
    } else if step.CreatePush? || step.Tick? || step.Promote? {
      QueueStepKeepsRows(c, s, step);
    } else {
      WorkerStepKeepsRows(c, s, step);
    }
  }

  lemma RowStepKeepsAttempts(c: Config, s: State, step: Step, s': State)
    requires Known(s) && Enabled(c, s, step) && RowStep(step) && s' == Do(c, s, step)
    ensures s'.now == s.now && s'.workers == s.workers
    ensures forall t :: t in s.tasks ==> t in s.attempts && t in s'.attempts && s'.attempts[t] == s.attempts[t]
  {
  }

  lemma {:induction false} RunKnowsDue(c: Config, s: State, steps: seq<Step>)
    requires Sound(c, s) && AllKnowDue(s) && Executable(c, s, steps)
    ensures AllKnowDue(Run(c, s, steps))
    decreases |steps|
  {
    if steps != [] {
      var s' := Do(c, s, steps[0]);
      StepKeepsSound(c, s, steps[0]);
      if OfHolder(steps[0]) {
        HolderStepKnowsDue(c, s, steps[0], s');
      } else {
        FreeStepKnowsDue(c, s, steps[0], s');
      }
      RunKnowsDue(c, s', steps[1..]);
    }
  }

  /** A retry never comes back early: in every run, when a worker puts a task into the scheduled set,
      its score is neither before the due time on the last attempt's row nor within a second of
      the clock; promotion takes no entry before its score. */
  lemma RetryIsNotEarly(c: Config, s: State, w: nat) returns (due: int)
    requires Reachable(c, s) && Enabled(c, s, Schedule(w))
    ensures LastDue(s, s.workers[w].task, due)
    ensures var t, s' := s.workers[w].task, Do(c, s, Schedule(w));
            t in s'.queue.scheduled && s'.queue.scheduled[t] >= due / 1_000_000
            && s'.queue.scheduled[t] >= (s.now + 1_000_000_000) / 1_000_000
  {
    ReachableSound(c, s);
    var steps :| Executable(c, Init(c), steps) && Run(c, Init(c), steps) == s;
    InitInv(c);
    RunKnowsDue(c, Init(c), steps);
    HolderCoherent(c, s, w);
    var pc := s.workers[w];
    due :| LastDue(s, pc.task, due) && s.now + pc.delay >= due;
  }

  /** Without a clock tick in between it comes back exactly then. */
  lemma RetryIsOnTime(c: Config, s: State, w: nat)
    requires Enabled(c, s, MeasureDelay(w))
    ensures var pc, steps := s.workers[w], [MeasureDelay(w), Schedule(w)];
            && Executable(c, s, steps)
            && Run(c, s, steps).queue
               == s.queue.(scheduled := s.queue.scheduled[pc.task :=
                    (if pc.due < s.now + 1_000_000_000 then s.now + 1_000_000_000 else pc.due) / 1_000_000])
  {
    var pc, first, second := s.workers[w], MeasureDelay(w), Schedule(w);
    var m := Do(c, s, first);
    assert [first, second][1..] == [second] && [second][1..] == [];
    assert Enabled(c, m, second);
    assert Run(c, s, [first, second]) == Run(c, m, [second]) == Do(c, m, second);
  }

  // ---------------------------------------------------------------- repairs

  /** Exactly the tasks that are not settled can be repaired: the task is queued again, whatever
      became of it, and nothing else changes. */
  lemma RepairRequeues(c: Config, s: State, t: TaskId)
    requires t in s.tasks
    ensures Enabled(c, s, Repair(t)) <==> s.tasks[t].status in {Queued, Running, EnqueueFailed}
    ensures Enabled(c, s, Repair(t)) ==>
              Do(c, s, Repair(t)) == s.(tasks := s.tasks[t := TaskRow(s.tasks[t].requested, Queued)],
                                        queue := s.queue.(ready := s.queue.ready + [t]))
  {
  }

  lemma SettleRepaired(c: Config, s: State, t: TaskId) returns (s': State)
    requires Sound(c, s) && |s.workers| > 0 && t in s.tasks && !Terminal(s.tasks[t].status) && t !in s.owner
    ensures Leads(c, s, s') && Settled(s', t)
  {
    if y :| 0 <= y < |s.workers| && s.workers[y] == Holding(t) {
      s' := SettleHeld(c, s, y, t);
    } else {
      var m := Do(c, s, Repair(t));
      StepKeepsSound(c, s, Repair(t));
      LeadsStep(c, s, Repair(t));
      assert m.queue.ready[|s.queue.ready|] == t;
      assert Unattended(m, t);
      s' := SettleReady(c, m, t);
      LeadsThen(c, s, m, s');
    }
  }

  /** Recovery: in every reachable state, however late its locks were deleted and whether or not the
      task has been lost, a repair lets the task be settled, without waiting for the clock. */
  lemma RepairRecovers(c: Config, s: State, t: TaskId) returns (steps: seq<Step>)
    requires Reachable(c, s) && c.workers > 0 && t in s.tasks
    ensures Executable(c, s, steps) && NoTicks(steps) && Settled(Run(c, s, steps), t)
  {
    ReachableSound(c, s);
    var s' := s;
    LeadsNowhere(c, s);
    if t in s.owner {
      s' := Drive(c, s, s.owner[t]);
    }
    if !Terminal(s'.tasks[t].status) {
      var m := s';
      s' := SettleRepaired(c, m, t);
      LeadsThen(c, s, m, s');
    }
    steps :| Executable(c, s, steps) && NoTicks(steps) && Run(c, s, steps) == s';
  }
}
