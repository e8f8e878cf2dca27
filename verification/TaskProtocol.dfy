/** The task execution protocol: workers, creators and repairs that share the task rows, the
    attempt rows and the queue (cmd/worker/main.go, internal/app/service.go, retry.go and
    repair.go). A step is one store statement, one Redis command or one local decision, so
    the runs of `Do` are the interleavings of the real processes.

    Assumed throughout, as the code gives no guarantee otherwise: no process stops half way,
    no store or Redis call fails, a lock does not expire while held, tasks are not deleted
    while being processed, and the read and the write of a repair are one step. Only `Timely`
    runs keep the further assumption that a lock is deleted before its retry falls due. */
module TaskProtocol {
  import opened Options
  import opened TaskOutcome
  import opened WorkQueue
  import Retry

  datatype Config = Config(maxRetries: nat, retryBaseSeconds: int, workers: nat)

  datatype TaskRow = TaskRow(requested: int, status: TaskStatus)

  datatype AttemptStatus = AttemptRunning | AttemptCompleted | AttemptFailed

  /** `decidedAt` is the clock when the retry was decided; the row keeps only `retryAfter`. */
  datatype Attempt = Attempt(no: nat, status: AttemptStatus, decidedAt: int, retryAfter: Option<int>)

  /** Where a worker is. Every stage from `Reading` on holds the lock of its task. */
  datatype Pc =
    | Polling                                                   // about to promote scheduled tasks
    | Waiting                                                   // about to pop the ready list
    | Holding(task: TaskId)                                     // popped; about to take the lock
    | Reading(task: TaskId)                                     // about to read the task row
    | Numbering(task: TaskId)                                   // about to read MAX(attempt_no)
    | Inserting(task: TaskId, no: nat)                          // about to insert the attempt row
    | Starting(task: TaskId, no: nat)                           // about to set status running
    | Generating(task: TaskId, no: nat)                         // calling the provider
    | Registering(task: TaskId, no: nat, left: nat, ready: nat, lost: bool, providerFailed: bool)
    | Postponing(task: TaskId, no: nat, decidedAt: int, due: int)  // about to close the attempt with a retry
    | Requeueing(task: TaskId, no: nat, due: int)               // about to set status queued
    | Measuring(task: TaskId, no: nat, due: int)                // about to measure the delay
    | Scheduling(task: TaskId, no: nat, delay: int)             // about to add to the scheduled set
    | Closing(task: TaskId, no: nat, ready: nat, verdict: TaskStatus)   // about to close the attempt
    | Settling(task: TaskId, no: nat, ready: nat, verdict: TaskStatus)  // about to set the final status
    | Unlocking(task: TaskId, score: Option<int>)               // about to delete the lock key

  /** `owner` names the worker that set each lock key (Redis stores a constant); `assets` lists,
      per task, the attempt number behind each registered asset; `creating` holds the tasks
      inserted by a creator that has not pushed them yet. */
  datatype State = State(
    now: int,
    queue: Queue,
    owner: map<TaskId, nat>,
    tasks: map<TaskId, TaskRow>,
    attempts: map<TaskId, seq<Attempt>>,
    assets: map<TaskId, seq<nat>>,
    creating: set<TaskId>,
    workers: seq<Pc>)

  datatype Step =
    | CreateInsert(t: TaskId, requested: int)
    | CreatePush(t: TaskId)
    | Repair(t: TaskId)
    | Tick(d: nat)
    | Promote(w: nat, limit: int, ids: seq<TaskId>)
    | PopNothing(w: nat)
    | Pop(w: nat)
    | Lock(w: nat)
    | ReadTask(w: nat)
    | ReadMaxAttempt(w: nat)
    | InsertAttempt(w: nat)
    | MarkRunning(w: nat)
    | RejectProvider(w: nat)
    | Generate(w: nat, files: nat, failed: bool, retryable: bool)
    | RegisterFile(w: nat, ok: bool)
    | Decide(w: nat)
    | CloseForRetry(w: nat)
    | MarkQueued(w: nat)
    | MeasureDelay(w: nat)
    | Schedule(w: nat)
    | CloseAttempt(w: nat)
    | MarkFinal(w: nat)
    | Unlock(w: nat)

  function Init(c: Config): State
  {
    State(0, Queue([], map[], {}), map[], map[], map[], map[], {}, seq(c.workers, _ => Polling))
  }

  predicate CanRepair(status: TaskStatus)
  {
    status == EnqueueFailed || status == Queued || status == Running
  }

  predicate At(s: State, w: nat)
  {
    w < |s.workers|
  }

  predicate HasLock(pc: Pc)
  {
    !pc.Polling? && !pc.Waiting? && !pc.Holding?
  }

  /** At this time no retry is due whose worker still holds the lock. */
  ghost predicate TimelyUnlock(s: State, now: int)
  {
    forall w :: 0 <= w < |s.workers| && s.workers[w].Unlocking? && s.workers[w].score.Some? ==>
      Millis(now) < s.workers[w].score.value
  }

  function MaxNo(attempts: seq<Attempt>): nat
  {
    if attempts == [] then 0
    else
      var m := MaxNo(attempts[..|attempts| - 1]);
      if attempts[|attempts| - 1].no > m then attempts[|attempts| - 1].no else m
  }

  /** The task a step of worker `w` works on is known; rows it touches exist. */
  predicate Rows(s: State, t: TaskId)
  {
    t in s.tasks && t in s.attempts && t in s.assets
  }

  predicate AtRows(s: State, w: nat)
  {
    At(s, w) && !s.workers[w].Polling? && !s.workers[w].Waiting? && Rows(s, s.workers[w].task)
  }

  ghost predicate Enabled(c: Config, s: State, step: Step)
  {
    match step
    case CreateInsert(t, requested) => t !in s.tasks
    case CreatePush(t) => t in s.creating
    case Repair(t) => t in s.tasks && CanRepair(s.tasks[t].status)
    case Tick(d) => true
    case Promote(w, limit, ids) => At(s, w) && s.workers[w].Polling? && IsDueRange(s.queue.scheduled, Millis(s.now), limit, ids)
    case PopNothing(w) => At(s, w) && s.workers[w].Waiting? && s.queue.ready == []
    case Pop(w) => At(s, w) && s.workers[w].Waiting? && s.queue.ready != []
    case Lock(w) => At(s, w) && s.workers[w].Holding?
    case ReadTask(w) => AtRows(s, w) && s.workers[w].Reading?
    case ReadMaxAttempt(w) => AtRows(s, w) && s.workers[w].Numbering?
    case InsertAttempt(w) => AtRows(s, w) && s.workers[w].Inserting?
    case MarkRunning(w) => AtRows(s, w) && s.workers[w].Starting?
    case RejectProvider(w) => At(s, w) && s.workers[w].Generating?
    case Generate(w, _, _, _) => At(s, w) && s.workers[w].Generating?
    case RegisterFile(w, _) => AtRows(s, w) && s.workers[w].Registering? && s.workers[w].left > 0
    case Decide(w) => AtRows(s, w) && s.workers[w].Registering? && s.workers[w].left == 0
    case CloseForRetry(w) => AtRows(s, w) && s.workers[w].Postponing?
    case MarkQueued(w) => AtRows(s, w) && s.workers[w].Requeueing?
    case MeasureDelay(w) => At(s, w) && s.workers[w].Measuring?
    case Schedule(w) => At(s, w) && s.workers[w].Scheduling?
    case CloseAttempt(w) => AtRows(s, w) && s.workers[w].Closing?
    case MarkFinal(w) => AtRows(s, w) && s.workers[w].Settling?
    case Unlock(w) => At(s, w) && s.workers[w].Unlocking?
  }

  function Move(s: State, w: nat, pc: Pc): State
    requires At(s, w)
  {
    s.(workers := s.workers[w := pc])
  }

  /** UPDATE generation_task SET status. */
  function SetStatus(s: State, t: TaskId, status: TaskStatus): State
    requires t in s.tasks
  {
    s.(tasks := s.tasks[t := s.tasks[t].(status := status)])
  }

  function CloseRow(a: Attempt, no: nat, status: AttemptStatus, decidedAt: int, retryAfter: Option<int>): Attempt
  {
    if a.no == no then Attempt(no, status, decidedAt, retryAfter) else a
  }

  /** FinishAttempt updates the row of the attempt the worker opened. */
  function FinishAttempt(s: State, t: TaskId, no: nat, status: AttemptStatus, decidedAt: int, retryAfter: Option<int>): State
    requires t in s.attempts
  {
    var rows := s.attempts[t];
    s.(attempts := s.attempts[t := seq(|rows|, i requires 0 <= i < |rows| => CloseRow(rows[i], no, status, decidedAt, retryAfter))])
  }

  function AttemptStatusFor(verdict: TaskStatus): AttemptStatus
  {
    if verdict == Failed then AttemptFailed else AttemptCompleted
  }

  /** What a worker does next once the provider has answered. */
  function AfterGenerate(c: Config, now: int, t: TaskId, no: nat, files: nat, failed: bool, retryable: bool): Pc
  {
    if failed && files == 0 then
      if retryable && Retry.WithinBudget(no, c.maxRetries) then
        Postponing(t, no, now, now + Retry.Backoff(c.retryBaseSeconds, no))
      else Closing(t, no, 0, Failed)
    else Registering(t, no, files, 0, false, failed)
  }

  function Do(c: Config, s: State, step: Step): State
    requires Enabled(c, s, step)
  {
    match step
    case CreateInsert(t, requested) =>
      s.(tasks := s.tasks[t := TaskRow(requested, Queued)], attempts := s.attempts[t := []], assets := s.assets[t := []],
         creating := s.creating + {t})
    case CreatePush(t) =>
      s.(queue := Pushed(s.queue, t), creating := s.creating - {t})
    case Repair(t) =>
      SetStatus(s, t, Queued).(queue := Pushed(s.queue, t))
    case Tick(d) =>
      s.(now := s.now + d)
    case Promote(w, limit, ids) =>
      Move(s, w, Waiting).(queue := Promoted(s.queue, ids))
    case PopNothing(w) =>
      Move(s, w, Polling)
    case Pop(w) =>
      Move(s, w, Holding(s.queue.ready[0])).(queue := Popped(s.queue))
    case Lock(w) =>
      var t := s.workers[w].task;
      if t in s.queue.locks then Move(s, w, Polling)
      else Move(s, w, Reading(t)).(queue := Locked(s.queue, t), owner := s.owner[t := w])
    case ReadTask(w) =>
      var t := s.workers[w].task;
      Move(s, w, if Terminal(s.tasks[t].status) then Unlocking(t, None) else Numbering(t))
    case ReadMaxAttempt(w) =>
      var t := s.workers[w].task;
      Move(s, w, Inserting(t, MaxNo(s.attempts[t]) + 1))
    case InsertAttempt(w) =>
      var pc := s.workers[w];
      Move(s, w, Starting(pc.task, pc.no)).(
        attempts := s.attempts[pc.task := s.attempts[pc.task] + [Attempt(pc.no, AttemptRunning, 0, None)]])
    case MarkRunning(w) =>
      var pc := s.workers[w];
      Move(SetStatus(s, pc.task, Running), w, Generating(pc.task, pc.no))
    case RejectProvider(w) =>
      var pc := s.workers[w];
      Move(s, w, Closing(pc.task, pc.no, 0, Failed))
    case Generate(w, files, failed, retryable) =>
      var pc := s.workers[w];
      Move(s, w, AfterGenerate(c, s.now, pc.task, pc.no, files, failed, retryable))
    case RegisterFile(w, ok) =>
      var pc := s.workers[w];
      if ok then
        Move(s, w, pc.(left := pc.left - 1, ready := pc.ready + 1)).(
          assets := s.assets[pc.task := s.assets[pc.task] + [pc.no]])
      else
        Move(s, w, pc.(left := pc.left - 1, lost := true))
    case Decide(w) =>
      var pc := s.workers[w];
      Move(s, w, Closing(pc.task, pc.no, pc.ready,
                         FinalStatus(pc.ready, s.tasks[pc.task].requested, pc.lost, pc.providerFailed)))
    case CloseForRetry(w) =>
      var pc := s.workers[w];
      Move(FinishAttempt(s, pc.task, pc.no, AttemptFailed, pc.decidedAt, Some(pc.due)), w, Requeueing(pc.task, pc.no, pc.due))
    case MarkQueued(w) =>
      var pc := s.workers[w];
      Move(SetStatus(s, pc.task, Queued), w, Measuring(pc.task, pc.no, pc.due))
    case MeasureDelay(w) =>
      var pc := s.workers[w];
      var delay := pc.due - s.now;
      Move(s, w, Scheduling(pc.task, pc.no, if delay < SECOND then SECOND else delay))
    case Schedule(w) =>
      var pc := s.workers[w];
      Move(s, w, Unlocking(pc.task, Some(Millis(s.now + pc.delay)))).(queue := PushedAfter(s.queue, pc.task, s.now, pc.delay))
    case CloseAttempt(w) =>
      var pc := s.workers[w];
      Move(FinishAttempt(s, pc.task, pc.no, AttemptStatusFor(pc.verdict), s.now, None), w,
           Settling(pc.task, pc.no, pc.ready, pc.verdict))
    case MarkFinal(w) =>
      var pc := s.workers[w];
      Move(SetStatus(s, pc.task, pc.verdict), w, Unlocking(pc.task, None))
    case Unlock(w) =>
      var t := s.workers[w].task;
      Move(s, w, Polling).(queue := Unlocked(s.queue, t), owner := s.owner - {t})
  }

  /** `steps` can be taken one after the other from `s`. */
  ghost predicate Executable(c: Config, s: State, steps: seq<Step>)
    decreases |steps|
  {
    steps != [] ==> Enabled(c, s, steps[0]) && Executable(c, Do(c, s, steps[0]), steps[1..])
  }

  ghost function Run(c: Config, s: State, steps: seq<Step>): State
    requires Executable(c, s, steps)
    decreases |steps|
  {
    if steps == [] then s else Run(c, Do(c, s, steps[0]), steps[1..])
  }

  /** The timing assumption: a worker that scheduled a retry deletes its lock before the retry
      falls due. It has about a second, because the delay is never shorter, but the code does
      not enforce it. */
  ghost predicate Timely(s: State, step: Step)
  {
    step.Tick? ==> TimelyUnlock(s, s.now + step.d)
  }

  ghost predicate TimelyRun(c: Config, s: State, steps: seq<Step>)
    requires Executable(c, s, steps)
    decreases |steps|
  {
    steps != [] ==> Timely(s, steps[0]) && TimelyRun(c, Do(c, s, steps[0]), steps[1..])
  }

  predicate NoTicks(steps: seq<Step>)
  {
    forall i :: 0 <= i < |steps| ==> !steps[i].Tick?
  }

  lemma {:induction false} NoTicksIsTimely(c: Config, s: State, steps: seq<Step>)
    requires Executable(c, s, steps) && NoTicks(steps)
    ensures TimelyRun(c, s, steps)
    decreases |steps|
  {
    if steps != [] {
      NoTicksIsTimely(c, Do(c, s, steps[0]), steps[1..]);
    }
  }

  lemma RunOne(c: Config, s: State, step: Step)
    requires Enabled(c, s, step)
    ensures Executable(c, s, [step]) && Run(c, s, [step]) == Do(c, s, step)
  {
    assert [step][1..] == [];
  }

  /** Runs compose. */
  lemma {:induction false} RunThen(c: Config, s: State, a: seq<Step>, b: seq<Step>)
    requires Executable(c, s, a) && Executable(c, Run(c, s, a), b)
    ensures Executable(c, s, a + b) && Run(c, s, a + b) == Run(c, Run(c, s, a), b)
    ensures TimelyRun(c, s, a) && TimelyRun(c, Run(c, s, a), b) ==> TimelyRun(c, s, a + b)
    decreases |a|
  {
    if a == [] {
      assert a + b == b;
    } else {
      assert (a + b)[0] == a[0] && (a + b)[1..] == a[1..] + b;
      RunThen(c, Do(c, s, a[0]), a[1..], b);
    }
  }
}
