/** The inductive invariant of the task protocol, kept by every step of every process. */
module TaskInvariant {
  import opened Options
  import opened TaskOutcome
  import opened WorkQueue
  import opened TaskProtocol
  import Retry

  // ---------------------------------------------------------------- one task

  function Copies(no: nat, n: nat): seq<nat>
  {
    seq(n, _ => no)
  }

  /** Attempt numbers are exactly 1, 2, ... in order of insertion. */
  ghost predicate Numbered(attempts: seq<Attempt>)
  {
    forall i :: 0 <= i < |attempts| ==> attempts[i].no == i + 1
  }

  /** An attempt that ended in a scheduled retry. */
  ghost predicate Postponed(c: Config, a: Attempt)
  {
    && a.status == AttemptFailed
    && a.no <= c.maxRetries
    && a.retryAfter == Some(a.decidedAt + Retry.Backoff(c.retryBaseSeconds, a.no))
  }

  ghost predicate AllPostponed(c: Config, attempts: seq<Attempt>)
  {
    forall i :: 0 <= i < |attempts| ==> Postponed(c, attempts[i])
  }

  /** The last attempt is running, every earlier one led to a retry. */
  ghost predicate Opened(c: Config, row: TaskRow, attempts: seq<Attempt>, no: nat)
  {
    && !Terminal(row.status)
    && no == |attempts| >= 1
    && AllPostponed(c, attempts[..no - 1])
    && attempts[no - 1].status == AttemptRunning
    && attempts[no - 1].retryAfter == None
  }

  /** The last attempt carries the verdict, every earlier one led to a retry. */
  ghost predicate Closed(c: Config, attempts: seq<Attempt>, no: nat, verdict: TaskStatus)
  {
    && no == |attempts| >= 1
    && AllPostponed(c, attempts[..no - 1])
    && attempts[no - 1].status == AttemptStatusFor(verdict)
    && attempts[no - 1].retryAfter == None
  }

  /** What a final status promises about the registered assets. */
  ghost predicate Accounted(verdict: TaskStatus, ready: nat, requested: int)
  {
    && Terminal(verdict)
    && (verdict == Failed <==> ready == 0)
    && (verdict == Completed ==> ready >= requested)
  }

  /** No attempt is open and none has settled the task. */
  ghost predicate Fresh(c: Config, row: TaskRow, attempts: seq<Attempt>, assets: seq<nat>)
  {
    !Terminal(row.status) && row.status != Running && AllPostponed(c, attempts) && assets == []
  }

  ghost predicate Resting(c: Config, row: TaskRow, attempts: seq<Attempt>, assets: seq<nat>)
  {
    if Terminal(row.status) then
      && Closed(c, attempts, |attempts|, row.status)
      && assets == Copies(|attempts|, |assets|)
      && Accounted(row.status, |assets|, row.requested)
    else Fresh(c, row, attempts, assets)
  }

  /** The rows of a task agree with the stage of the worker that holds its lock, if any. */
  ghost predicate Coherent(c: Config, row: TaskRow, attempts: seq<Attempt>, assets: seq<nat>, holder: Option<Pc>)
  {
    && Numbered(attempts)
    && match holder
       case None => Resting(c, row, attempts, assets)
       case Some(Reading(_)) => Resting(c, row, attempts, assets)
       case Some(Numbering(_)) => Fresh(c, row, attempts, assets)
       case Some(Inserting(_, no)) => Fresh(c, row, attempts, assets) && no == |attempts| + 1
       case Some(Starting(_, no)) => Opened(c, row, attempts, no) && row.status != Running && assets == []
       case Some(Generating(_, no)) => Opened(c, row, attempts, no) && assets == []
       case Some(Registering(_, no, _, ready, _, _)) => Opened(c, row, attempts, no) && assets == Copies(no, ready)
       case Some(Postponing(_, no, decidedAt, due)) =>
         && Opened(c, row, attempts, no) && assets == []
         && no <= c.maxRetries && due == decidedAt + Retry.Backoff(c.retryBaseSeconds, no)
       case Some(Requeueing(_, no, due)) =>
         !Terminal(row.status) && AllPostponed(c, attempts) && assets == [] && no == |attempts|
       case Some(Measuring(_, no, due)) => Fresh(c, row, attempts, assets) && no == |attempts|
       case Some(Scheduling(_, no, delay)) => Fresh(c, row, attempts, assets) && no == |attempts| && delay >= SECOND
       case Some(Closing(_, no, ready, verdict)) =>
         Opened(c, row, attempts, no) && assets == Copies(no, ready) && Accounted(verdict, ready, row.requested)
       case Some(Settling(_, no, ready, verdict)) =>
         && !Terminal(row.status) && Closed(c, attempts, no, verdict)
         && assets == Copies(no, ready) && Accounted(verdict, ready, row.requested)
       case Some(Unlocking(_, score)) => Resting(c, row, attempts, assets) && (score.None? <==> Terminal(row.status))
       case Some(_) => false
  }

  // ---------------------------------------------------------------- the whole state

  function Holder(s: State, t: TaskId): Option<Pc>
  {
    if t in s.owner && s.owner[t] < |s.workers| then Some(s.workers[s.owner[t]]) else None
  }

  ghost predicate Known(s: State)
  {
    && s.tasks.Keys == s.attempts.Keys == s.assets.Keys
    && s.creating <= s.tasks.Keys
    && s.queue.scheduled.Keys <= s.tasks.Keys
    && (forall i :: 0 <= i < |s.queue.ready| ==> s.queue.ready[i] in s.tasks)
    && (forall w :: 0 <= w < |s.workers| && !s.workers[w].Polling? && !s.workers[w].Waiting? ==> s.workers[w].task in s.tasks)
  }

  /** A lock key exists exactly for the task of a worker past `Holding`, and for one worker only. */
  ghost predicate Exclusive(s: State)
  {
    && s.owner.Keys == s.queue.locks
    && (forall w :: 0 <= w < |s.workers| && HasLock(s.workers[w]) ==>
          s.workers[w].task in s.owner && s.owner[s.workers[w].task] == w)
    && (forall t :: t in s.owner ==>
          s.owner[t] < |s.workers| && HasLock(s.workers[s.owner[t]]) && s.workers[s.owner[t]].task == t)
  }

  /** Somebody still has to act on the task. */
  ghost predicate InHand(s: State, t: TaskId)
  {
    || t in s.queue.ready
    || t in s.queue.scheduled
    || t in s.creating
    || (Holder(s, t).Some? && !Holder(s, t).value.Unlocking?)
    || (exists w :: 0 <= w < |s.workers| && s.workers[w] == Holding(t))
  }

  /** A retry scheduled by a worker that still holds the lock is not due yet. */
  ghost predicate RetriesPending(s: State)
  {
    forall w :: 0 <= w < |s.workers| && s.workers[w].Unlocking? && s.workers[w].score.Some? ==>
      && s.workers[w].task in s.queue.scheduled
      && s.queue.scheduled[s.workers[w].task] == s.workers[w].score.value
      && Millis(s.now) < s.workers[w].score.value
  }

  ghost predicate TasksCoherent(c: Config, s: State)
    requires Known(s)
  {
    forall t :: t in s.tasks ==> Coherent(c, s.tasks[t], s.attempts[t], s.assets[t], Holder(s, t))
  }

  ghost predicate NoneLost(s: State)
  {
    forall t :: t in s.tasks && !Terminal(s.tasks[t].status) ==> InHand(s, t)
  }

  /** Kept by every step, timely or not. */
  ghost predicate Sound(c: Config, s: State)
  {
    |s.workers| == c.workers && Known(s) && Exclusive(s) && TasksCoherent(c, s)
  }

  /** Kept by every timely step. */
  ghost predicate Inv(c: Config, s: State)
  {
    Sound(c, s) && NoneLost(s) && RetriesPending(s)
  }

  lemma InitInv(c: Config)
    ensures Inv(c, Init(c))
  {
  }

  // ---------------------------------------------------------------- steps of a lock holder

  /** A step of a lock holder touches only the rows of its task, its own stage and at most the
      scheduled entry of its task. */
  ghost predicate HolderChange(s: State, s': State, w: nat)
  {
    && At(s, w) && At(s', w)
    && HasLock(s.workers[w]) && HasLock(s'.workers[w]) && s'.workers[w].task == s.workers[w].task
    && s'.workers == s.workers[w := s'.workers[w]]
    && s'.owner == s.owner && s'.now == s.now && s'.creating == s.creating
    && Rows(s, s.workers[w].task) && Rows(s', s.workers[w].task)
    && (var t := s.workers[w].task;
        && s'.tasks == s.tasks[t := s'.tasks[t]]
        && s'.attempts == s.attempts[t := s'.attempts[t]]
        && s'.assets == s.assets[t := s'.assets[t]])
    && s'.queue.ready == s.queue.ready && s'.queue.locks == s.queue.locks
    && (if s'.workers[w].Unlocking? && s'.workers[w].score.Some? then
          && s'.queue.scheduled == s.queue.scheduled[s.workers[w].task := s'.workers[w].score.value]
          && Millis(s.now) < s'.workers[w].score.value
        else s'.queue.scheduled == s.queue.scheduled)
  }

  lemma HolderChangeExclusive(s: State, s': State, w: nat)
    requires Exclusive(s) && Known(s) && HolderChange(s, s', w)
    ensures Exclusive(s') && Known(s')
    ensures Holder(s', s.workers[w].task) == Some(s'.workers[w])
    ensures forall u :: u != s.workers[w].task ==> Holder(s', u) == Holder(s, u)
  {
    var t := s.workers[w].task;
    forall u | u != t
      ensures Holder(s', u) == Holder(s, u)
    {
      if u in s.owner {
        assert s.owner[u] != w;
      }
    }
  }

  lemma HolderChangePending(s: State, s': State, w: nat)
    requires Exclusive(s) && RetriesPending(s) && HolderChange(s, s', w)
    ensures RetriesPending(s')
  {
    forall x | 0 <= x < |s'.workers| && s'.workers[x].Unlocking? && s'.workers[x].score.Some?
      ensures s'.workers[x].task in s'.queue.scheduled
      ensures s'.queue.scheduled[s'.workers[x].task] == s'.workers[x].score.value
      ensures Millis(s'.now) < s'.workers[x].score.value
    {
      if x != w {
        assert s'.workers[x] == s.workers[x];
        assert s.owner[s.workers[x].task] == x && s.owner[s.workers[w].task] == w;
      }
    }
  }

  lemma HolderChangeInHand(s: State, s': State, w: nat, u: TaskId)
    requires Exclusive(s) && Known(s) && HolderChange(s, s', w)
    requires u != s.workers[w].task && InHand(s, u)
    ensures InHand(s', u)
  {
    HolderChangeExclusive(s, s', w);
    if x :| 0 <= x < |s.workers| && s.workers[x] == Holding(u) {
      assert s'.workers[x] == Holding(u);
    }
  }

  /** No task is lost in such a step if the rows of its one task are coherent afterwards. */
  lemma HolderChangeKeepsHands(c: Config, s: State, s': State, w: nat)
    requires Inv(c, s) && HolderChange(s, s', w)
    requires var t := s.workers[w].task; Coherent(c, s'.tasks[t], s'.attempts[t], s'.assets[t], Some(s'.workers[w]))
    ensures NoneLost(s') && RetriesPending(s')
  {
    HolderChangeExclusive(s, s', w);
    HolderChangePending(s, s', w);
    forall u | u in s'.tasks && !Terminal(s'.tasks[u].status)
      ensures InHand(s', u)
    {
      if u != s.workers[w].task {
        HolderChangeInHand(s, s', w, u);
      }
    }
  }

  lemma HolderChangeCoherent(c: Config, s: State, s': State, w: nat)
    requires Exclusive(s) && Known(s) && TasksCoherent(c, s) && HolderChange(s, s', w)
    requires var t := s.workers[w].task; Coherent(c, s'.tasks[t], s'.attempts[t], s'.assets[t], Some(s'.workers[w]))
    ensures TasksCoherent(c, s')
  {
    HolderChangeExclusive(s, s', w);
    forall u | u in s'.tasks
      ensures Coherent(c, s'.tasks[u], s'.attempts[u], s'.assets[u], Holder(s', u))
    {
      if u != s.workers[w].task {
        assert Coherent(c, s.tasks[u], s.attempts[u], s.assets[u], Holder(s, u));
      }
    }
  }

  ghost predicate OfHolder(step: Step)
  {
    !step.CreateInsert? && !step.CreatePush? && !step.Repair? && !step.Tick? && !step.Promote? && !step.PopNothing?
    && !step.Pop? && !step.Lock? && !step.Unlock?
  }

  lemma HolderCoherent(c: Config, s: State, w: nat)
    requires Sound(c, s) && At(s, w) && HasLock(s.workers[w])
    ensures Rows(s, s.workers[w].task)
    ensures var t := s.workers[w].task; Coherent(c, s.tasks[t], s.attempts[t], s.assets[t], Some(s.workers[w]))
  {
    assert Holder(s, s.workers[w].task) == Some(s.workers[w]);
  }

  lemma {:induction false} MaxNoIsLength(attempts: seq<Attempt>)
    requires Numbered(attempts)
    ensures MaxNo(attempts) == |attempts|
  {
    if attempts != [] {
      MaxNoIsLength(attempts[..|attempts| - 1]);
    }
  }

  lemma FinishesLast(s: State, t: TaskId, no: nat, status: AttemptStatus, decidedAt: int, retryAfter: Option<int>)
    requires t in s.attempts && Numbered(s.attempts[t]) && no == |s.attempts[t]| >= 1
    ensures FinishAttempt(s, t, no, status, decidedAt, retryAfter).attempts[t]
            == s.attempts[t][..no - 1] + [Attempt(no, status, decidedAt, retryAfter)]
  {
  }

  ghost predicate CoherentAt(c: Config, s: State, w: nat)
  {
    At(s, w) && HasLock(s.workers[w]) && Rows(s, s.workers[w].task)
    && var t := s.workers[w].task; Coherent(c, s.tasks[t], s.attempts[t], s.assets[t], Some(s.workers[w]))
  }

  lemma ReadSteps(c: Config, s: State, step: Step)
    requires Enabled(c, s, step) && (step.ReadTask? || step.ReadMaxAttempt?)
    requires CoherentAt(c, s, step.w)
    ensures HolderChange(s, Do(c, s, step), step.w)
    ensures CoherentAt(c, Do(c, s, step), step.w)
  {
    MaxNoIsLength(s.attempts[s.workers[step.w].task]);
  }

  lemma OpenSteps(c: Config, s: State, step: Step)
    requires Enabled(c, s, step) && (step.InsertAttempt? || step.MarkRunning?)
    requires CoherentAt(c, s, step.w)
    ensures HolderChange(s, Do(c, s, step), step.w)
    ensures CoherentAt(c, Do(c, s, step), step.w)
  {
    var t := s.workers[step.w].task;
    assert step.InsertAttempt? ==> (s.attempts[t] + [Attempt(s.workers[step.w].no, AttemptRunning, 0, None)])[..|s.attempts[t]|] == s.attempts[t];
  }

  lemma OpeningSteps(c: Config, s: State, step: Step)
    requires Enabled(c, s, step) && Opening(step)
    requires CoherentAt(c, s, step.w)
    ensures HolderChange(s, Do(c, s, step), step.w)
    ensures CoherentAt(c, Do(c, s, step), step.w)
  {
    if step.ReadTask? || step.ReadMaxAttempt? {
      ReadSteps(c, s, step);
    } else {
      OpenSteps(c, s, step);
    }
  }

  lemma AnswerSteps(c: Config, s: State, step: Step)
    requires Enabled(c, s, step) && (step.RejectProvider? || step.Generate?)
    requires CoherentAt(c, s, step.w)
    ensures HolderChange(s, Do(c, s, step), step.w)
    ensures CoherentAt(c, Do(c, s, step), step.w)
  {
  }

  lemma RegisteringSteps(c: Config, s: State, step: Step)
    requires Enabled(c, s, step) && (step.RegisterFile? || step.Decide?)
    requires CoherentAt(c, s, step.w)
    ensures HolderChange(s, Do(c, s, step), step.w)
    ensures CoherentAt(c, Do(c, s, step), step.w)
  {
  }

  lemma CloseForRetryStep(c: Config, s: State, step: Step)
    requires Enabled(c, s, step) && step.CloseForRetry?
    requires CoherentAt(c, s, step.w)
    ensures HolderChange(s, Do(c, s, step), step.w)
    ensures CoherentAt(c, Do(c, s, step), step.w)
  {
    var pc := s.workers[step.w];
    FinishesLast(s, pc.task, pc.no, AttemptFailed, pc.decidedAt, Some(pc.due));
  }

  lemma RetrySteps(c: Config, s: State, step: Step)
    requires Enabled(c, s, step) && (step.MarkQueued? || step.MeasureDelay? || step.Schedule?)
    requires CoherentAt(c, s, step.w)
    ensures HolderChange(s, Do(c, s, step), step.w)
    ensures CoherentAt(c, Do(c, s, step), step.w)
  {
    if step.Schedule? {
      ScheduleStep(c, s, step.w, Do(c, s, step));
    } else {
      RequeueSteps(c, s, step, Do(c, s, step));
    }
  }

  lemma RequeueSteps(c: Config, s: State, step: Step, s': State)
    requires Enabled(c, s, step) && (step.MarkQueued? || step.MeasureDelay?) && s' == Do(c, s, step)
    requires CoherentAt(c, s, step.w)
    ensures HolderChange(s, s', step.w) && CoherentAt(c, s', step.w)
  {
  }

  lemma ScheduleStep(c: Config, s: State, w: nat, s': State)
    requires Enabled(c, s, Schedule(w)) && s' == Do(c, s, Schedule(w))
    requires CoherentAt(c, s, w)
    ensures HolderChange(s, s', w) && CoherentAt(c, s', w)
  {
  }

  lemma SettlingSteps(c: Config, s: State, step: Step)
    requires Enabled(c, s, step) && (step.CloseAttempt? || step.MarkFinal?)
    requires CoherentAt(c, s, step.w)
    ensures HolderChange(s, Do(c, s, step), step.w)
    ensures CoherentAt(c, Do(c, s, step), step.w)
  {
    var pc := s.workers[step.w];
    if step.CloseAttempt? {
      FinishesLast(s, pc.task, pc.no, AttemptStatusFor(pc.verdict), s.now, None);
    }
  }

  ghost predicate Opening(step: Step)
  {
    step.ReadTask? || step.ReadMaxAttempt? || step.InsertAttempt? || step.MarkRunning?
  }

  lemma HolderChangeOf(c: Config, s: State, step: Step)
    requires Enabled(c, s, step) && OfHolder(step) && CoherentAt(c, s, step.w)
    ensures HolderChange(s, Do(c, s, step), step.w) && CoherentAt(c, Do(c, s, step), step.w)
  {
    if Opening(step) {
      OpeningSteps(c, s, step);
    } else if step.RejectProvider? || step.Generate? {
      AnswerSteps(c, s, step);
    } else if step.RegisterFile? || step.Decide? {
      RegisteringSteps(c, s, step);
    } else if step.CloseForRetry? {
      CloseForRetryStep(c, s, step);
    } else if step.CloseAttempt? || step.MarkFinal? {
      SettlingSteps(c, s, step);
    } else {
      RetrySteps(c, s, step);
    }
  }

  /** What a step of a lock holder changes, in a sound state. */
  lemma HolderStepChanges(c: Config, s: State, step: Step)
    requires Sound(c, s) && Enabled(c, s, step) && OfHolder(step)
    ensures HolderChange(s, Do(c, s, step), step.w)
    ensures CoherentAt(c, s, step.w) && CoherentAt(c, Do(c, s, step), step.w)
  {
    StageHasLock(c, s, step);
    HolderCoherent(c, s, step.w);
    HolderChangeOf(c, s, step);
  }

  lemma HolderKeepsSound(c: Config, s: State, step: Step)
    requires Sound(c, s) && Enabled(c, s, step) && OfHolder(step)
    ensures Sound(c, Do(c, s, step))
  {
    HolderStepChanges(c, s, step);
    HolderChangeExclusive(s, Do(c, s, step), step.w);
    HolderChangeCoherent(c, s, Do(c, s, step), step.w);
  }

  lemma HolderKeepsHands(c: Config, s: State, step: Step)
    requires Inv(c, s) && Enabled(c, s, step) && OfHolder(step)
    ensures NoneLost(Do(c, s, step)) && RetriesPending(Do(c, s, step))
  {
    HolderStepChanges(c, s, step);
    HolderChangeKeepsHands(c, s, Do(c, s, step), step.w);
  }

  lemma StageHasLock(c: Config, s: State, step: Step)
    requires Enabled(c, s, step) && OfHolder(step)
    ensures At(s, step.w) && HasLock(s.workers[step.w])
  {
  }
}
