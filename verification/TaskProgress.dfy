/** Progress of the task protocol: every task can be settled, and no step adds to the work left on
    a task. */
module TaskProgress {
  import opened Options
  import opened TaskOutcome
  import opened WorkQueue
  import opened TaskProtocol
  import opened TaskInvariant
  import opened TaskSteps
  import opened TaskSafety
  import opened TaskDrive

  // ---------------------------------------------------------------- every task can be settled

  ghost predicate Settled(s: State, t: TaskId)
  {
    t in s.tasks && Terminal(s.tasks[t].status)
  }

  /** Nobody but the queue has the task. */
  ghost predicate Unattended(s: State, t: TaskId)
  {
    && t in s.tasks && t !in s.owner
    && forall y :: 0 <= y < |s.workers| && Busy(s.workers[y]) ==> s.workers[y].task != t
  }

  lemma LeadsKeepsInv(c: Config, s: State, s': State)
    requires Inv(c, s) && Leads(c, s, s')
    ensures Inv(c, s')
  {
    var steps :| Executable(c, s, steps) && NoTicks(steps) && Run(c, s, steps) == s';
    NoTicksIsTimely(c, s, steps);
    RunKeepsInv(c, s, steps);
  }

  lemma UnattendedApart(c: Config, s: State, s': State, x: nat, t: TaskId)
    requires Unattended(s, t) && Apart(s, s', x, t) && At(s, x) && !Busy(s'.workers[x])
    ensures Unattended(s', t)
  {
  }

  /** A worker that has just got the task settles it. */
  lemma SettleHeld(c: Config, s: State, y: nat, t: TaskId) returns (s': State)
    requires Sound(c, s) && At(s, y) && s.workers[y] == Holding(t) && t !in s.owner && t in s.tasks
    ensures Leads(c, s, s') && Settled(s', t)
  {
    s' := Drive(c, s, y);
  }

  lemma FirstIndex(ready: seq<TaskId>, t: TaskId) returns (k: nat)
    requires t in ready
    ensures k < |ready| && ready[k] == t && forall i :: 0 <= i < k ==> ready[i] != t
  {
    k := 0;
    while ready[k] != t
      invariant k < |ready| && forall i :: 0 <= i < k ==> ready[i] != t
      invariant exists j :: k <= j < |ready| && ready[j] == t
      decreases |ready| - k
    {
      k := k + 1;
    }
  }

  lemma SettleFromWaiting(c: Config, s: State, x: nat, t: TaskId) returns (s': State)
    requires Sound(c, s) && At(s, x) && s.workers[x].Waiting? && t in s.queue.ready && Unattended(s, t)
    ensures Leads(c, s, s') && Settled(s', t)
  {
    var k := FirstIndex(s.queue.ready, t);
    var m := ReachEntry(c, s, x, t, k);
    s' := SettleHeld(c, m, x, t);
    LeadsThen(c, s, m, s');
  }

  lemma SettleFromPolling(c: Config, s: State, x: nat, t: TaskId) returns (s': State)
    requires Sound(c, s) && At(s, x) && s.workers[x].Polling? && Unattended(s, t)
    requires t in s.queue.ready || (t in s.queue.scheduled && s.queue.scheduled[t] <= Millis(s.now))
    ensures Leads(c, s, s') && Settled(s', t)
  {
    var m, ids := PromoteAll(c, s, x, t);
    UnattendedApart(c, s, m, x, t);
    s' := SettleFromWaiting(c, m, x, t);
    LeadsThen(c, s, m, s');
  }

  lemma DriveAway(c: Config, s: State, x: nat, t: TaskId) returns (s': State)
    requires Sound(c, s) && BusyAt(s, x) && Unattended(s, t)
    ensures Leads(c, s, s') && Sound(c, s') && At(s', x) && s'.workers[x].Polling? && Unattended(s', t)
    ensures Apart(s, s', x, t) && s'.queue.ready == s.queue.ready
    ensures t in s'.queue.scheduled <==> t in s.queue.scheduled
  {
    s' := Drive(c, s, x);
    LocalIsApart(s, s', x, s.workers[x].task, t);
    UnattendedApart(c, s, s', x, t);
  }

  /** A task in the ready list that nobody attends to. */
  lemma SettleReady(c: Config, s: State, t: TaskId) returns (s': State)
    requires Sound(c, s) && |s.workers| > 0 && t in s.queue.ready && Unattended(s, t)
    ensures Leads(c, s, s') && Settled(s', t)
  {
    if s.workers[0].Waiting? {
      s' := SettleFromWaiting(c, s, 0, t);
    } else if s.workers[0].Polling? {
      s' := SettleFromPolling(c, s, 0, t);
    } else {
      var m := DriveAway(c, s, 0, t);
      s' := SettleFromPolling(c, m, 0, t);
      LeadsThen(c, s, m, s');
    }
  }

  /** All workers can be led out of their tasks, one after the other. */
  lemma {:induction false} Calm(c: Config, s: State, t: TaskId, k: nat) returns (s': State)
    requires Sound(c, s) && Unattended(s, t) && t in s.queue.scheduled && k <= |s.workers|
    requires forall y :: 0 <= y < k ==> !Busy(s.workers[y])
    ensures Leads(c, s, s') && Sound(c, s') && Unattended(s', t) && t in s'.queue.scheduled
    ensures |s'.workers| == |s.workers| && forall y :: 0 <= y < |s'.workers| ==> !Busy(s'.workers[y])
    decreases |s.workers| - k
  {
    if k == |s.workers| {
      LeadsNowhere(c, s);
      s' := s;
    } else if Busy(s.workers[k]) {
      var m := DriveAway(c, s, k, t);
      s' := Calm(c, m, t, k + 1);
      LeadsThen(c, s, m, s');
    } else {
      s' := Calm(c, s, t, k + 1);
    }
  }

  /** All workers are calm, and the task waits for its time. */
  ghost predicate Idle(c: Config, s: State, t: TaskId)
  {
    && Sound(c, s) && |s.workers| > 0 && Unattended(s, t) && t in s.queue.scheduled
    && forall y :: 0 <= y < |s.workers| ==> !Busy(s.workers[y])
  }

  lemma FindNothing(c: Config, s: State, t: TaskId, s': State)
    requires Idle(c, s, t) && Enabled(c, s, PopNothing(0)) && s' == Do(c, s, PopNothing(0))
    ensures Leads(c, s, s') && Idle(c, s', t) && s'.workers[0].Polling?
  {
    StepKeepsSound(c, s, PopNothing(0));
    LeadsStep(c, s, PopNothing(0));
  }

  lemma FindOther(c: Config, s: State, t: TaskId) returns (s': State)
    requires Idle(c, s, t) && s.workers[0].Waiting? && s.queue.ready != [] && s.queue.ready[0] != t
    ensures Leads(c, s, s') && Idle(c, s', t) && s'.workers[0].Polling?
  {
    s' := DropFirst(c, s, 0, t);
    UnattendedApart(c, s, s', 0, t);
  }

  /** With all workers calm, the first one can be brought to polling, unless the task has got into
      the ready list meanwhile. */
  lemma FreeFirst(c: Config, s: State, t: TaskId) returns (s': State)
    requires Idle(c, s, t) && t !in s.queue.ready
    ensures Leads(c, s, s') && Idle(c, s', t) && s'.workers[0].Polling?
  {
    if s.workers[0].Polling? {
      LeadsNowhere(c, s);
      s' := s;
    } else if s.queue.ready == [] {
      s' := Do(c, s, PopNothing(0));
      FindNothing(c, s, t, s');
    } else {
      assert s.queue.ready[0] in s.queue.ready;
      s' := FindOther(c, s, t);
    }
  }

  /** `s'` can be reached from `s` by a timely run. */
  ghost predicate TimelyLeads(c: Config, s: State, s': State)
  {
    exists steps :: Executable(c, s, steps) && TimelyRun(c, s, steps) && Run(c, s, steps) == s'
  }

  lemma LeadsTimely(c: Config, s: State, s': State)
    requires Leads(c, s, s')
    ensures TimelyLeads(c, s, s')
  {
    var steps :| Executable(c, s, steps) && NoTicks(steps) && Run(c, s, steps) == s';
    NoTicksIsTimely(c, s, steps);
  }

  lemma TimelyThen(c: Config, s: State, m: State, s': State)
    requires TimelyLeads(c, s, m) && TimelyLeads(c, m, s')
    ensures TimelyLeads(c, s, s')
  {
    var a :| Executable(c, s, a) && TimelyRun(c, s, a) && Run(c, s, a) == m;
    var b :| Executable(c, m, b) && TimelyRun(c, m, b) && Run(c, m, b) == s';
    RunThen(c, s, a, b);
  }

  /** How long to wait until a score is due. */
  function WaitFor(now: int, score: int): (d: nat)
    ensures Millis(now + d) >= score
  {
    if now >= score * MILLISECOND then 0 else score * MILLISECOND - now
  }

  lemma TickLeads(c: Config, s: State, d: nat, m: State)
    requires Timely(s, Tick(d)) && m == Do(c, s, Tick(d))
    ensures TimelyLeads(c, s, m)
  {
    RunOne(c, s, Tick(d));
    assert TimelyRun(c, s, [Tick(d)]);
  }

  /** Once the clock has moved far enough a calm system can settle a scheduled task. */
  lemma SettleWhenDue(c: Config, s: State, t: TaskId) returns (s': State)
    requires Sound(c, s) && |s.workers| > 0 && s.workers[0].Polling? && Unattended(s, t) && t in s.queue.scheduled
    requires forall y :: 0 <= y < |s.workers| ==> !Busy(s.workers[y])
    ensures TimelyLeads(c, s, s') && Settled(s', t)
  {
    var d := WaitFor(s.now, s.queue.scheduled[t]);
    var m := Do(c, s, Tick(d));
    StepKeepsSound(c, s, Tick(d));
    TickLeads(c, s, d, m);
    s' := SettleFromPolling(c, m, 0, t);
    LeadsTimely(c, m, s');
    TimelyThen(c, s, m, s');
  }

  lemma SettleScheduled(c: Config, s: State, t: TaskId) returns (s': State)
    requires Sound(c, s) && |s.workers| > 0 && Unattended(s, t) && t in s.queue.scheduled
    ensures TimelyLeads(c, s, s') && Settled(s', t)
  {
    var m := Calm(c, s, t, 0);
    LeadsTimely(c, s, m);
    if t in m.queue.ready {
      s' := SettleReady(c, m, t);
      LeadsTimely(c, m, s');
    } else {
      var n := FreeFirst(c, m, t);
      LeadsTimely(c, m, n);
      s' := SettleWhenDue(c, n, t);
      TimelyThen(c, m, n, s');
    }
    TimelyThen(c, s, m, s');
  }

  lemma SettleCreated(c: Config, s: State, t: TaskId) returns (s': State)
    requires Sound(c, s) && |s.workers| > 0 && Unattended(s, t) && t in s.creating
    ensures Leads(c, s, s') && Settled(s', t)
  {
    var m := Do(c, s, CreatePush(t));
    StepKeepsSound(c, s, CreatePush(t));
    LeadsStep(c, s, CreatePush(t));
    assert m.queue.ready[|s.queue.ready|] == t;
    s' := SettleReady(c, m, t);
    LeadsThen(c, s, m, s');
  }

  lemma SettleUnlocked(c: Config, s: State, t: TaskId) returns (s': State)
    requires Inv(c, s) && |s.workers| > 0 && t in s.tasks && !Terminal(s.tasks[t].status) && t !in s.owner
    ensures TimelyLeads(c, s, s') && Settled(s', t)
  {
    assert InHand(s, t);
    if y :| 0 <= y < |s.workers| && s.workers[y] == Holding(t) {
      s' := SettleHeld(c, s, y, t);
      LeadsTimely(c, s, s');
    } else {
      assert Unattended(s, t);
      if t in s.queue.ready {
        s' := SettleReady(c, s, t);
        LeadsTimely(c, s, s');
      } else if t in s.creating {
        s' := SettleCreated(c, s, t);
        LeadsTimely(c, s, s');
      } else {
        s' := SettleScheduled(c, s, t);
      }
    }
  }

  /** Progress: with at least one worker, every task of every state that a timely run reaches can
      be brought to a final status by finitely many further timely steps. */
  lemma EveryTaskCanSettle(c: Config, s: State, t: TaskId) returns (steps: seq<Step>)
    requires TimelyReachable(c, s) && c.workers > 0 && t in s.tasks
    ensures Executable(c, s, steps) && TimelyRun(c, s, steps) && Settled(Run(c, s, steps), t)
  {
    TimelyReachableInv(c, s);
    var s' := SettleAny(c, s, t);
    steps :| Executable(c, s, steps) && TimelyRun(c, s, steps) && Run(c, s, steps) == s';
  }

  lemma SettleAny(c: Config, s: State, t: TaskId) returns (s': State)
    requires Inv(c, s) && c.workers > 0 && t in s.tasks
    ensures TimelyLeads(c, s, s') && Settled(s', t)
  {
    if Terminal(s.tasks[t].status) {
      LeadsNowhere(c, s);
      LeadsTimely(c, s, s);
      s' := s;
    } else if t !in s.owner {
      s' := SettleUnlocked(c, s, t);
    } else {
      var m := Drive(c, s, s.owner[t]);
      LeadsKeepsInv(c, s, m);
      LeadsTimely(c, s, m);
      s' := m;
      if !Terminal(m.tasks[t].status) {
        s' := SettleUnlocked(c, m, t);
        TimelyThen(c, s, m, s');
      }
    }
  }

  // ---------------------------------------------------------------- the work on a task ends

  /** Work left on a task: attempts that may still be opened, stages of the current one, files. */
  datatype Effort = Effort(attempts: nat, stage: nat, files: nat)

  predicate Less(a: Effort, b: Effort)
  {
    || a.attempts < b.attempts
    || (a.attempts == b.attempts && (a.stage < b.stage || (a.stage == b.stage && a.files < b.files)))
  }

  /** Stages left until the next attempt is opened or the task is settled. */
  function StagesLeft(holder: Option<Pc>): nat
  {
    match holder
    case Some(Starting(_, _)) => 14
    case Some(Generating(_, _)) => 13
    case Some(Registering(_, _, _, _, _, _)) => 12
    case Some(Closing(_, _, _, _)) => 11
    case Some(Settling(_, _, _, _)) => 10
    case Some(Postponing(_, _, _, _)) => 9
    case Some(Requeueing(_, _, _)) => 8
    case Some(Measuring(_, _, _)) => 7
    case Some(Scheduling(_, _, _)) => 6
    case Some(Unlocking(_, _)) => 5
    case None => 4
    case Some(Reading(_)) => 3
    case Some(Numbering(_)) => 2
    case Some(Inserting(_, _)) => 1
    case Some(_) => 4
  }

  function EffortFor(c: Config, row: TaskRow, attempts: seq<Attempt>, holder: Option<Pc>): Effort
  {
    if Terminal(row.status) then Effort(0, 0, 0)
    else
      var left := c.maxRetries + 1 - |attempts|;
      Effort(if left < 0 then 0 else left, StagesLeft(holder), if holder.Some? then FilesLeft(holder.value) else 0)
  }

  function EffortOf(c: Config, s: State, t: TaskId): Effort
    requires t in s.tasks && t in s.attempts
  {
    EffortFor(c, s.tasks[t], s.attempts[t], Holder(s, t))
  }

  /** A step of the worker that takes, has or gives back the lock of the task. */
  ghost predicate WorksOn(s: State, step: Step, t: TaskId)
  {
    || (OfHolder(step) && At(s, step.w) && HasLock(s.workers[step.w]) && s.workers[step.w].task == t)
    || (step.Lock? && At(s, step.w) && s.workers[step.w] == Holding(t) && t !in s.queue.locks)
    || (step.Unlock? && At(s, step.w) && HasLock(s.workers[step.w]) && s.workers[step.w].task == t)
  }

  lemma OpeningTakesEffort(c: Config, s: State, step: Step, s': State)
    requires Enabled(c, s, step) && Opening(step) && s' == Do(c, s, step)
    requires CoherentAt(c, s, step.w) && CoherentAt(c, s', step.w)
    ensures var t, w := s.workers[step.w].task, step.w;
            !Terminal(s.tasks[t].status) && t in s'.tasks && t in s'.attempts ==>
              Less(EffortFor(c, s'.tasks[t], s'.attempts[t], Some(s'.workers[w])),
                   EffortFor(c, s.tasks[t], s.attempts[t], Some(s.workers[w])))
  {
    var t := s.workers[step.w].task;
    if step.InsertAttempt? {
      assert |s'.attempts[t]| == |s.attempts[t]| + 1;
      FreshWithinBudget(c, s.attempts[t]);
    }
  }

  lemma FreshWithinBudget(c: Config, attempts: seq<Attempt>)
    requires Numbered(attempts) && AllPostponed(c, attempts)
    ensures |attempts| <= c.maxRetries
  {
    if attempts != [] {
      assert Postponed(c, attempts[|attempts| - 1]);
    }
  }

  lemma AnswerTakesEffort(c: Config, s: State, step: Step, s': State)
    requires Enabled(c, s, step) && s' == Do(c, s, step)
    requires step.RejectProvider? || step.Generate? || step.RegisterFile? || step.Decide?
    requires CoherentAt(c, s, step.w)
    ensures var t, w := s.workers[step.w].task, step.w;
            !Terminal(s.tasks[t].status) && t in s'.tasks && t in s'.attempts ==>
              Less(EffortFor(c, s'.tasks[t], s'.attempts[t], Some(s'.workers[w])),
                   EffortFor(c, s.tasks[t], s.attempts[t], Some(s.workers[w])))
  {
  }

  lemma RetryTakesEffort(c: Config, s: State, step: Step, s': State)
    requires Enabled(c, s, step) && s' == Do(c, s, step)
    requires step.CloseForRetry? || step.MarkQueued? || step.MeasureDelay? || step.Schedule?
    requires CoherentAt(c, s, step.w)
    ensures var t, w := s.workers[step.w].task, step.w;
            !Terminal(s.tasks[t].status) && t in s'.tasks && t in s'.attempts ==>
              Less(EffortFor(c, s'.tasks[t], s'.attempts[t], Some(s'.workers[w])),
                   EffortFor(c, s.tasks[t], s.attempts[t], Some(s.workers[w])))
  {
  }

  lemma SettlingTakesEffort(c: Config, s: State, step: Step, s': State)
    requires Enabled(c, s, step) && s' == Do(c, s, step) && (step.CloseAttempt? || step.MarkFinal?)
    requires CoherentAt(c, s, step.w)
    ensures var t, w := s.workers[step.w].task, step.w;
            !Terminal(s.tasks[t].status) && t in s'.tasks && t in s'.attempts ==>
              Less(EffortFor(c, s'.tasks[t], s'.attempts[t], Some(s'.workers[w])),
                   EffortFor(c, s.tasks[t], s.attempts[t], Some(s.workers[w])))
  {
  }

  lemma OtherTakesNoEffort(c: Config, s: State, s': State, w: nat, t: TaskId)
    requires Known(s) && Exclusive(s) && HolderChange(s, s', w) && t in s.tasks && t != s.workers[w].task
    ensures t in s'.tasks && t in s'.attempts && EffortOf(c, s', t) == EffortOf(c, s, t)
  {
    HolderChangeExclusive(s, s', w);
  }

  lemma OwnHolder(s: State, s': State, w: nat)
    requires Known(s) && Exclusive(s) && HolderChange(s, s', w)
    ensures Holder(s, s.workers[w].task) == Some(s.workers[w]) && Holder(s', s.workers[w].task) == Some(s'.workers[w])
  {
    HolderChangeExclusive(s, s', w);
  }

  lemma HolderTakesEffort(c: Config, s: State, step: Step, t: TaskId, s': State)
    requires Sound(c, s) && Enabled(c, s, step) && OfHolder(step) && t in s.tasks && s' == Do(c, s, step)
    ensures t in s'.tasks && t in s'.attempts
    ensures if WorksOn(s, step, t) && !Terminal(s.tasks[t].status) then Less(EffortOf(c, s', t), EffortOf(c, s, t))
            else EffortOf(c, s', t) == EffortOf(c, s, t)
  {
    HolderStepChanges(c, s, step);
    if s.workers[step.w].task == t {
      OwnHolder(s, s', step.w);
      OwnStepTakesEffort(c, s, step, s');
    } else {
      OtherTakesNoEffort(c, s, s', step.w, t);
    }
  }

  lemma OwnStepTakesEffort(c: Config, s: State, step: Step, s': State)
    requires Enabled(c, s, step) && OfHolder(step) && s' == Do(c, s, step)
    requires CoherentAt(c, s, step.w) && CoherentAt(c, s', step.w) && HolderChange(s, s', step.w)
    ensures var t, w := s.workers[step.w].task, step.w;
            var a, b := EffortFor(c, s'.tasks[t], s'.attempts[t], Some(s'.workers[w])),
                        EffortFor(c, s.tasks[t], s.attempts[t], Some(s.workers[w]));
            if Terminal(s.tasks[t].status) then a == b else Less(a, b)
  {
    var t := s.workers[step.w].task;
    if Terminal(s.tasks[t].status) {
      SettledUnderOwnStep(c, s, step);
    } else if Opening(step) {
      OpeningTakesEffort(c, s, step, s');
    } else if step.RejectProvider? || step.Generate? || step.RegisterFile? || step.Decide? {
      AnswerTakesEffort(c, s, step, s');
    } else if step.CloseAttempt? || step.MarkFinal? {
      SettlingTakesEffort(c, s, step, s');
    } else {
      RetryTakesEffort(c, s, step, s');
    }
  }

  /** A worker that finds the task locked. */
  lemma DropTakesNoEffort(c: Config, s: State, w: nat, t: TaskId, s': State)
    requires Sound(c, s) && At(s, w) && s.workers[w].Holding? && s' == Move(s, w, Polling) && t in s.tasks
    ensures EffortOf(c, s', t) == EffortOf(c, s, t)
  {
    FreeMove(s, s', w, Polling);
  }

  /** A worker that takes the lock of task `u`. */
  lemma TakeTakesEffort(c: Config, s: State, w: nat, u: TaskId, t: TaskId, s': State)
    requires Sound(c, s) && At(s, w) && s.workers[w] == Holding(u) && u !in s.queue.locks && t in s.tasks
    requires s' == Move(s, w, Reading(u)).(queue := Locked(s.queue, u), owner := s.owner[u := w])
    ensures if t == u && !Terminal(s.tasks[t].status) then Less(EffortOf(c, s', t), EffortOf(c, s, t))
            else EffortOf(c, s', t) == EffortOf(c, s, t)
  {
    LockMoves(s, w, u, s');
  }

  lemma LockTakesEffort(c: Config, s: State, w: nat, t: TaskId)
    requires Sound(c, s) && Enabled(c, s, Lock(w)) && t in s.tasks
    ensures Known(Do(c, s, Lock(w))) && t in Do(c, s, Lock(w)).tasks
    ensures var a, b := EffortOf(c, Do(c, s, Lock(w)), t), EffortOf(c, s, t);
            if WorksOn(s, Lock(w), t) && !Terminal(s.tasks[t].status) then Less(a, b) else a == b
  {
    var s', u := Do(c, s, Lock(w)), s.workers[w].task;
    if u in s.queue.locks {
      DropTakesNoEffort(c, s, w, t, s');
    } else {
      TakeTakesEffort(c, s, w, u, t, s');
    }
  }

  lemma UnlockTakesEffort(c: Config, s: State, w: nat, t: TaskId)
    requires Sound(c, s) && Enabled(c, s, Unlock(w)) && t in s.tasks
    ensures Known(Do(c, s, Unlock(w))) && t in Do(c, s, Unlock(w)).tasks
    ensures var a, b := EffortOf(c, Do(c, s, Unlock(w)), t), EffortOf(c, s, t);
            if WorksOn(s, Unlock(w), t) && !Terminal(s.tasks[t].status) then Less(a, b) else a == b
  {
    StepKeepsSound(c, s, Unlock(w));
    UnlockMoves(s, w, s.workers[w].task, Do(c, s, Unlock(w)));
  }

  lemma QueueTakesNoEffort(c: Config, s: State, step: Step, t: TaskId)
    requires Sound(c, s) && Enabled(c, s, step) && !OfHolder(step) && !step.Lock? && !step.Unlock? && t in s.tasks
    ensures Known(Do(c, s, step)) && t in Do(c, s, step).tasks
    ensures EffortOf(c, Do(c, s, step), t) == EffortOf(c, s, t)
  {
    var s' := Do(c, s, step);
    StepKeepsSound(c, s, step);
    QueueStepKeepsHolders(c, s, step, s');
    if RowStep(step) {
      RowStepKeepsRows(c, s, step, s', t);
    } else if step.CreatePush? || step.Tick? || step.Promote? {
      QueueStepKeepsRows(c, s, step);
    } else {
      WorkerStepKeepsRows(c, s, step);
    }
  }

  lemma QueueStepKeepsHolders(c: Config, s: State, step: Step, s': State)
    requires Exclusive(s) && Enabled(c, s, step) && !OfHolder(step) && !step.Lock? && !step.Unlock? && s' == Do(c, s, step)
    ensures forall u :: Holder(s', u) == Holder(s, u)
  {
    if step.Promote? || step.PopNothing? || step.Pop? {
      FreeMove(s, s', step.w, s'.workers[step.w]);
    } else {
      SameHolders(s, s');
    }
  }

  lemma RowStepKeepsRows(c: Config, s: State, step: Step, s': State, t: TaskId)
    requires Known(s) && Enabled(c, s, step) && RowStep(step) && s' == Do(c, s, step) && t in s.tasks
    ensures t in s'.tasks && t in s'.attempts && s'.attempts[t] == s.attempts[t]
    ensures Terminal(s'.tasks[t].status) <==> Terminal(s.tasks[t].status)
  {
  }

  lemma EffortDescends(c: Config, s: State, step: Step, t: TaskId)
    requires Sound(c, s) && Enabled(c, s, step) && t in s.tasks
    ensures t in s.attempts && t in Do(c, s, step).tasks && t in Do(c, s, step).attempts
    ensures var a, b := EffortOf(c, Do(c, s, step), t), EffortOf(c, s, t);
            if WorksOn(s, step, t) && !Terminal(s.tasks[t].status) then Less(a, b) else a == b
  {
    if OfHolder(step) {
      HolderTakesEffort(c, s, step, t, Do(c, s, step));
    } else if step.Lock? {
      LockTakesEffort(c, s, step.w, t);
    } else if step.Unlock? {
      UnlockTakesEffort(c, s, step.w, t);
    } else {
      QueueTakesNoEffort(c, s, step, t);
    }
  }

  /** No step of any process, repairs included, adds to the work left on a task, and every step of a
      worker that takes, has or gives back its lock reduces it. */
  lemma WorkDescends(c: Config, s: State, step: Step, t: TaskId)
    requires Reachable(c, s) && Enabled(c, s, step) && t in s.tasks
    ensures t in s.attempts && t in Do(c, s, step).tasks && t in Do(c, s, step).attempts
    ensures var a, b := EffortOf(c, Do(c, s, step), t), EffortOf(c, s, t);
            if WorksOn(s, step, t) && !Terminal(s.tasks[t].status) then Less(a, b) else a == b
  {
    ReachableSound(c, s);
    EffortDescends(c, s, step, t);
  }
}
