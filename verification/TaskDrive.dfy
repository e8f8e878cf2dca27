/** Leading workers of the task protocol somewhere: what a worker can do on its own until it is
    free again, and how it gets to a given entry of the ready list. */
module TaskDrive {
  import opened Options
  import opened TaskOutcome
  import opened WorkQueue
  import opened TaskProtocol
  import opened TaskInvariant
  import opened TaskSteps

  predicate Busy(pc: Pc)
  {
    !pc.Polling? && !pc.Waiting?
  }

  predicate BusyAt(s: State, x: nat)
  {
    At(s, x) && Busy(s.workers[x])
  }

  /** The step a busy worker can take next; the provider, if asked, answers with one image. */
  function NextStep(s: State, x: nat): Step
    requires BusyAt(s, x)
  {
    match s.workers[x]
    case Holding(_) => Lock(x)
    case Reading(_) => ReadTask(x)
    case Numbering(_) => ReadMaxAttempt(x)
    case Inserting(_, _) => InsertAttempt(x)
    case Starting(_, _) => MarkRunning(x)
    case Generating(_, _) => Generate(x, 1, false, false)
    case Registering(_, _, left, _, _, _) => if left > 0 then RegisterFile(x, true) else Decide(x)
    case Postponing(_, _, _, _) => CloseForRetry(x)
    case Requeueing(_, _, _) => MarkQueued(x)
    case Measuring(_, _, _) => MeasureDelay(x)
    case Scheduling(_, _, _) => Schedule(x)
    case Closing(_, _, _, _) => CloseAttempt(x)
    case Settling(_, _, _, _) => MarkFinal(x)
    case Unlocking(_, _) => Unlock(x)
  }

  /** How far a busy worker is from being free, not counting the files it still registers. */
  function Distance(pc: Pc): nat
  {
    match pc
    case Polling => 0
    case Waiting => 0
    case Unlocking(_, _) => 1
    case Scheduling(_, _, _) => 2
    case Measuring(_, _, _) => 3
    case Requeueing(_, _, _) => 4
    case Postponing(_, _, _, _) => 5
    case Settling(_, _, _, _) => 6
    case Closing(_, _, _, _) => 7
    case Registering(_, _, _, _, _, _) => 8
    case Generating(_, _) => 9
    case Starting(_, _) => 10
    case Inserting(_, _) => 11
    case Numbering(_) => 12
    case Reading(_) => 13
    case Holding(_) => 14
  }

  function FilesLeft(pc: Pc): nat
  {
    if pc.Registering? then pc.left else 0
  }

  /** `s'` differs from `s` only in worker `x` and in what belongs to task `u`. */
  ghost predicate Local(s: State, s': State, x: nat, u: TaskId)
  {
    && |s'.workers| == |s.workers| && (forall y :: 0 <= y < |s.workers| && y != x ==> s'.workers[y] == s.workers[y])
    && s'.now == s.now && s'.creating == s.creating && s'.queue.ready == s.queue.ready
    && s'.tasks.Keys == s.tasks.Keys && (forall v :: v in s.tasks && v != u ==> s'.tasks[v] == s.tasks[v])
    && (forall v :: v != u ==> (v in s'.queue.scheduled <==> v in s.queue.scheduled))
    && (forall v :: v != u && v in s.queue.scheduled ==> s'.queue.scheduled[v] == s.queue.scheduled[v])
    && (forall v :: v != u ==> (v in s'.owner <==> v in s.owner))
    && (forall v :: v != u && v in s.owner ==> s'.owner[v] == s.owner[v])
  }

  lemma HolderChangeIsLocal(s: State, s': State, w: nat)
    requires Known(s) && HolderChange(s, s', w)
    ensures Local(s, s', w, s.workers[w].task) && s'.owner == s.owner
  {
  }

  lemma LockIsLocal(c: Config, s: State, x: nat, s': State)
    requires Sound(c, s) && Enabled(c, s, Lock(x)) && s' == Do(c, s, Lock(x))
    ensures Local(s, s', x, s.workers[x].task) && s'.tasks == s.tasks
    ensures if s.workers[x].task in s.queue.locks then s'.workers[x].Polling? && s'.queue == s.queue && s'.owner == s.owner
            else s'.workers[x] == Reading(s.workers[x].task)
  {
  }

  lemma UnlockIsLocal(c: Config, s: State, x: nat, s': State)
    requires Sound(c, s) && Enabled(c, s, Unlock(x)) && s' == Do(c, s, Unlock(x))
    ensures Local(s, s', x, s.workers[x].task) && s'.tasks == s.tasks
    ensures s'.workers[x].Polling? && s.workers[x].task !in s'.owner
  {
  }

  /** A stage from which the task of the worker ends settled, or a task that is settled already. */
  predicate Concluding(s: State, x: nat)
    requires BusyAt(s, x)
  {
    var pc := s.workers[x];
    || (pc.task in s.tasks && Terminal(s.tasks[pc.task].status))
    || (pc.Holding? && pc.task !in s.queue.locks)
    || pc.Reading? || pc.Numbering? || pc.Inserting? || pc.Starting? || pc.Generating? || pc.Registering?
    || pc.Closing? || pc.Settling?
  }

  lemma NextIsEnabled(c: Config, s: State, x: nat)
    requires Sound(c, s) && BusyAt(s, x)
    ensures Enabled(c, s, NextStep(s, x)) && !NextStep(s, x).Tick?
    ensures OfHolder(NextStep(s, x)) <==> HasLock(s.workers[x]) && !s.workers[x].Unlocking?
  {
    assert s.workers[x].task in s.tasks;
  }

  predicate Nearer(after: Pc, before: Pc)
  {
    || Distance(after) < Distance(before)
    || (Distance(after) == Distance(before) && FilesLeft(after) < FilesLeft(before))
  }

  lemma OpeningNextStage(c: Config, s: State, x: nat, s': State)
    requires BusyAt(s, x) && Enabled(c, s, NextStep(s, x)) && s' == Do(c, s, NextStep(s, x))
    requires var pc := s.workers[x]; pc.Reading? || pc.Numbering? || pc.Inserting? || pc.Starting?
    ensures BusyAt(s', x) && Nearer(s'.workers[x], s.workers[x])
  {
  }

  lemma AnswerMoves(c: Config, s: State, x: nat, s': State)
    requires Enabled(c, s, Generate(x, 1, false, false)) && s' == Do(c, s, Generate(x, 1, false, false))
    ensures At(s', x) && s'.workers[x].Registering?
  {
  }

  lemma RegisterMoves(c: Config, s: State, x: nat, s': State)
    requires Enabled(c, s, RegisterFile(x, true)) && s' == Do(c, s, RegisterFile(x, true))
    ensures At(s', x) && s'.workers[x].Registering? && s'.workers[x].left == s.workers[x].left - 1
  {
  }

  lemma DecideMoves(c: Config, s: State, x: nat, s': State)
    requires Enabled(c, s, Decide(x)) && s' == Do(c, s, Decide(x))
    ensures At(s', x) && s'.workers[x].Closing?
  {
  }

  lemma AnsweringNextStage(c: Config, s: State, x: nat, s': State)
    requires BusyAt(s, x) && Enabled(c, s, NextStep(s, x)) && s' == Do(c, s, NextStep(s, x))
    requires var pc := s.workers[x]; pc.Generating? || pc.Registering?
    ensures BusyAt(s', x) && Nearer(s'.workers[x], s.workers[x])
  {
    if s.workers[x].Generating? {
      AnswerMoves(c, s, x, s');
    } else if s.workers[x].left > 0 {
      RegisterMoves(c, s, x, s');
    } else {
      DecideMoves(c, s, x, s');
    }
  }

  lemma RetryStepMoves(c: Config, s: State, step: Step, s': State)
    requires (step.CloseForRetry? || step.MarkQueued?) && Enabled(c, s, step) && s' == Do(c, s, step)
    ensures At(s', step.w) && if step.CloseForRetry? then s'.workers[step.w].Requeueing? else s'.workers[step.w].Measuring?
  {
  }

  lemma ScheduleStepMoves(c: Config, s: State, step: Step, s': State)
    requires (step.MeasureDelay? || step.Schedule?) && Enabled(c, s, step) && s' == Do(c, s, step)
    ensures At(s', step.w) && if step.MeasureDelay? then s'.workers[step.w].Scheduling? else s'.workers[step.w].Unlocking?
  {
  }

  lemma SettlingStepMoves(c: Config, s: State, step: Step, s': State)
    requires (step.CloseAttempt? || step.MarkFinal?) && Enabled(c, s, step) && s' == Do(c, s, step)
    ensures At(s', step.w) && if step.CloseAttempt? then s'.workers[step.w].Settling? else s'.workers[step.w].Unlocking?
  {
  }

  lemma RetryNextStage(c: Config, s: State, x: nat, s': State)
    requires BusyAt(s, x) && Enabled(c, s, NextStep(s, x)) && s' == Do(c, s, NextStep(s, x))
    requires s.workers[x].Postponing? || s.workers[x].Requeueing?
    ensures BusyAt(s', x) && Nearer(s'.workers[x], s.workers[x])
  {
    RetryStepMoves(c, s, if s.workers[x].Postponing? then CloseForRetry(x) else MarkQueued(x), s');
  }

  lemma ScheduleNextStage(c: Config, s: State, x: nat, s': State)
    requires BusyAt(s, x) && Enabled(c, s, NextStep(s, x)) && s' == Do(c, s, NextStep(s, x))
    requires s.workers[x].Measuring? || s.workers[x].Scheduling?
    ensures BusyAt(s', x) && Nearer(s'.workers[x], s.workers[x])
  {
    ScheduleStepMoves(c, s, if s.workers[x].Measuring? then MeasureDelay(x) else Schedule(x), s');
  }

  lemma SettlingNextStage(c: Config, s: State, x: nat, s': State)
    requires BusyAt(s, x) && Enabled(c, s, NextStep(s, x)) && s' == Do(c, s, NextStep(s, x))
    requires s.workers[x].Closing? || s.workers[x].Settling?
    ensures BusyAt(s', x) && Nearer(s'.workers[x], s.workers[x])
  {
    SettlingStepMoves(c, s, if s.workers[x].Closing? then CloseAttempt(x) else MarkFinal(x), s');
  }

  /** The stage after a holder's next step is nearer to the end. */
  lemma HolderNextStage(c: Config, s: State, x: nat, s': State)
    requires BusyAt(s, x) && HasLock(s.workers[x]) && !s.workers[x].Unlocking?
    requires Enabled(c, s, NextStep(s, x)) && s' == Do(c, s, NextStep(s, x))
    ensures BusyAt(s', x) && Nearer(s'.workers[x], s.workers[x])
  {
    match s.workers[x] {
      case Generating(_, _) => AnsweringNextStage(c, s, x, s');
      case Registering(_, _, _, _, _, _) => AnsweringNextStage(c, s, x, s');
      case Postponing(_, _, _, _) => RetryNextStage(c, s, x, s');
      case Requeueing(_, _, _) => RetryNextStage(c, s, x, s');
      case Measuring(_, _, _) => ScheduleNextStage(c, s, x, s');
      case Scheduling(_, _, _) => ScheduleNextStage(c, s, x, s');
      case Closing(_, _, _, _) => SettlingNextStage(c, s, x, s');
      case Settling(_, _, _, _) => SettlingNextStage(c, s, x, s');
      case _ => OpeningNextStage(c, s, x, s');
    }
  }

  lemma HolderConcludes(c: Config, s: State, x: nat, s': State)
    requires BusyAt(s, x) && HasLock(s.workers[x]) && !s.workers[x].Unlocking? && CoherentAt(c, s, x)
    requires Enabled(c, s, NextStep(s, x)) && s' == Do(c, s, NextStep(s, x))
    requires HolderChange(s, s', x) && CoherentAt(c, s', x)
    ensures Concluding(s, x) ==> Concluding(s', x)
  {
  }

  /** What one step of a busy worker does. */
  ghost predicate Stepped(s: State, x: nat, s': State)
    requires BusyAt(s, x)
  {
    && Local(s, s', x, s.workers[x].task)
    && if BusyAt(s', x) then
         && s'.workers[x].task == s.workers[x].task && HasLock(s'.workers[x])
         && Nearer(s'.workers[x], s.workers[x])
         && (Concluding(s, x) ==> Concluding(s', x))
       else
         && At(s', x) && s'.workers[x].Polling? && s'.tasks == s.tasks
         && (s.workers[x].Unlocking? ==> s.workers[x].task !in s'.owner)
         && (!s.workers[x].Unlocking? ==> s.workers[x].Holding? && s.workers[x].task in s.queue.locks)
  }

  lemma HolderStepped(c: Config, s: State, x: nat, s': State)
    requires Sound(c, s) && BusyAt(s, x) && HasLock(s.workers[x]) && !s.workers[x].Unlocking?
    requires Enabled(c, s, NextStep(s, x)) && s' == Do(c, s, NextStep(s, x))
    ensures Stepped(s, x, s')
  {
    HolderNextChanges(c, s, x, s');
    HolderChangeIsLocal(s, s', x);
    HolderNextStage(c, s, x, s');
    HolderConcludes(c, s, x, s');
  }

  lemma HolderNextChanges(c: Config, s: State, x: nat, s': State)
    requires Sound(c, s) && BusyAt(s, x) && HasLock(s.workers[x]) && !s.workers[x].Unlocking?
    requires Enabled(c, s, NextStep(s, x)) && s' == Do(c, s, NextStep(s, x))
    ensures HolderChange(s, s', x) && CoherentAt(c, s, x) && CoherentAt(c, s', x)
  {
    NextIsEnabled(c, s, x);
    NextIsOf(s, x);
    HolderStepChanges(c, s, NextStep(s, x));
  }

  lemma NextIsOf(s: State, x: nat)
    requires BusyAt(s, x)
    ensures NextStep(s, x).w == x
  {
  }

  lemma LockStepped(c: Config, s: State, x: nat, s': State)
    requires Sound(c, s) && Enabled(c, s, Lock(x)) && s' == Do(c, s, Lock(x))
    ensures Stepped(s, x, s')
  {
    LockIsLocal(c, s, x, s');
  }

  lemma UnlockStepped(c: Config, s: State, x: nat, s': State)
    requires Sound(c, s) && Enabled(c, s, Unlock(x)) && s' == Do(c, s, Unlock(x))
    ensures Stepped(s, x, s')
  {
    UnlockIsLocal(c, s, x, s');
  }

  /** One step of a busy worker. */
  lemma NextIsLocal(c: Config, s: State, x: nat, s': State)
    requires Sound(c, s) && BusyAt(s, x) && Enabled(c, s, NextStep(s, x)) && s' == Do(c, s, NextStep(s, x))
    ensures Sound(c, s') && Stepped(s, x, s')
  {
    StepKeepsSound(c, s, NextStep(s, x));
    if s.workers[x].Holding? {
      LockStepped(c, s, x, s');
    } else if s.workers[x].Unlocking? {
      UnlockStepped(c, s, x, s');
    } else {
      HolderStepped(c, s, x, s');
    }
  }

  lemma LocalThen(s: State, m: State, s': State, x: nat, u: TaskId)
    requires Local(s, m, x, u) && Local(m, s', x, u)
    ensures Local(s, s', x, u)
  {
  }

  /** What driving a busy worker to its end leaves. */
  ghost predicate Driven(c: Config, s: State, x: nat, s': State)
    requires BusyAt(s, x)
  {
    && Sound(c, s') && Local(s, s', x, s.workers[x].task) && s'.workers[x].Polling?
    && (HasLock(s.workers[x]) || s.workers[x].task !in s.queue.locks ==> s.workers[x].task !in s'.owner)
    && (Concluding(s, x) ==> s.workers[x].task in s'.tasks && Terminal(s'.tasks[s.workers[x].task].status))
  }

  lemma DrivenFirst(c: Config, s: State, x: nat, m: State, s': State)
    requires Sound(c, s) && BusyAt(s, x) && Enabled(c, s, NextStep(s, x)) && m == Do(c, s, NextStep(s, x))
    requires if BusyAt(m, x) then Driven(c, m, x, s') else s' == m
    ensures Driven(c, s, x, s')
  {
    NextIsLocal(c, s, x, m);
    if BusyAt(m, x) {
      LocalThen(s, m, s', x, s.workers[x].task);
    } else {
      UnlockingIsConcluded(s, x);
    }
  }

  lemma UnlockingIsConcluded(s: State, x: nat)
    requires BusyAt(s, x) && (s.workers[x].Unlocking? || (s.workers[x].Holding? && s.workers[x].task in s.queue.locks))
    ensures Concluding(s, x) ==> s.workers[x].task in s.tasks && Terminal(s.tasks[s.workers[x].task].status)
  {
  }

  /** The state after one step of a busy worker, if it is still busy then. */
  lemma OneStep(c: Config, s: State, x: nat) returns (step: Step, m: State)
    requires Sound(c, s) && BusyAt(s, x)
    ensures Enabled(c, s, step) && !step.Tick? && m == Do(c, s, step) && Sound(c, m)
    ensures step == NextStep(s, x)
    ensures BusyAt(m, x) ==> Nearer(m.workers[x], s.workers[x])
  {
    NextIsEnabled(c, s, x);
    step := NextStep(s, x);
    m := Do(c, s, step);
    NextIsLocal(c, s, x, m);
  }

  /** `s'` can be reached from `s` without the clock moving. */
  ghost predicate Leads(c: Config, s: State, s': State)
  {
    exists steps :: Executable(c, s, steps) && NoTicks(steps) && Run(c, s, steps) == s'
  }

  lemma LeadsNowhere(c: Config, s: State)
    ensures Leads(c, s, s)
  {
    assert Executable(c, s, []) && NoTicks([]);
  }

  lemma LeadsStep(c: Config, s: State, step: Step)
    requires Enabled(c, s, step) && !step.Tick?
    ensures Leads(c, s, Do(c, s, step))
  {
    RunOne(c, s, step);
    assert NoTicks([step]);
  }

  lemma LeadsThen(c: Config, s: State, m: State, s': State)
    requires Leads(c, s, m) && Leads(c, m, s')
    ensures Leads(c, s, s')
  {
    var a :| Executable(c, s, a) && NoTicks(a) && Run(c, s, a) == m;
    var b :| Executable(c, m, b) && NoTicks(b) && Run(c, m, b) == s';
    RunThen(c, s, a, b);
    assert NoTicks(a + b);
  }

  /** A busy worker can be led back to polling by steps of its own that concern its task only. */
  lemma {:induction false} Drive(c: Config, s: State, x: nat) returns (s': State)
    requires Sound(c, s) && BusyAt(s, x)
    ensures Leads(c, s, s') && Driven(c, s, x, s')
    decreases Distance(s.workers[x]), FilesLeft(s.workers[x])
  {
    var step, m := OneStep(c, s, x);
    s' := m;
    if BusyAt(m, x) {
      s' := Drive(c, m, x);
    }
    DrivenFirst(c, s, x, m, s');
    DriveLeads(c, s, step, m, s');
  }

  lemma DriveLeads(c: Config, s: State, step: Step, m: State, s': State)
    requires Enabled(c, s, step) && !step.Tick? && m == Do(c, s, step) && (Leads(c, m, s') || s' == m)
    ensures Leads(c, s, s')
  {
    LeadsStep(c, s, step);
    if s' != m {
      LeadsThen(c, s, m, s');
    }
  }

  // ---------------------------------------------------------------- answers of the range query

  lemma {:induction false} EarliestOf(scheduled: map<TaskId, int>, due: set<TaskId>) returns (first: TaskId)
    requires due != {} && due <= scheduled.Keys
    ensures first in due && forall t :: t in due ==> scheduled[first] <= scheduled[t]
    decreases |due|
  {
    first :| first in due;
    if due - {first} != {} {
      var other := EarliestOf(scheduled, due - {first});
      if scheduled[other] < scheduled[first] {
        first := other;
      }
    }
  }

  lemma {:induction false} InOrder(scheduled: map<TaskId, int>, due: set<TaskId>) returns (ids: seq<TaskId>)
    requires due <= scheduled.Keys
    ensures |ids| == |due| && NoDuplicates(ids) && forall t :: t in ids <==> t in due
    ensures forall i, j :: 0 <= i < j < |ids| ==> scheduled[ids[i]] <= scheduled[ids[j]]
    decreases |due|
  {
    if due == {} {
      ids := [];
    } else {
      var first := EarliestOf(scheduled, due);
      var rest := InOrder(scheduled, due - {first});
      ids := [first] + rest;
      forall j | 0 <= j < |rest|
        ensures rest[j] in due && rest[j] != first
      {
        assert rest[j] in rest;
      }
    }
  }

  /** Whatever is scheduled, some promotion takes everything that is due. */
  lemma AllDue(scheduled: map<TaskId, int>, nowMs: int) returns (limit: int, ids: seq<TaskId>)
    ensures IsDueRange(scheduled, nowMs, limit, ids)
    ensures forall t :: t in ids <==> t in scheduled && scheduled[t] <= nowMs
  {
    var due := set t | t in scheduled && scheduled[t] <= nowMs;
    ids := InOrder(scheduled, due);
    limit := |ids|;
    forall i | 0 <= i < |ids|
      ensures ids[i] in scheduled && scheduled[ids[i]] <= nowMs
    {
      assert ids[i] in ids;
    }
  }

  // ---------------------------------------------------------------- getting at an entry of the ready list

  /** `s'` differs from `s` in nothing that concerns task `t` but possibly its queue entries, nor
      in any worker but `x`. */
  ghost predicate Apart(s: State, s': State, x: nat, t: TaskId)
  {
    && |s'.workers| == |s.workers| && (forall y :: 0 <= y < |s.workers| && y != x ==> s'.workers[y] == s.workers[y])
    && s'.now == s.now && s'.creating == s.creating
    && (t in s'.tasks <==> t in s.tasks) && (t in s.tasks ==> s'.tasks[t] == s.tasks[t])
    && (t in s'.queue.scheduled ==> t in s.queue.scheduled)
    && (t in s'.owner <==> t in s.owner) && (t in s.owner ==> s'.owner[t] == s.owner[t])
  }

  lemma LocalIsApart(s: State, s': State, x: nat, u: TaskId, t: TaskId)
    requires Local(s, s', x, u) && u != t
    ensures Apart(s, s', x, t)
  {
  }

  lemma ApartThen(s: State, m: State, s': State, x: nat, t: TaskId)
    requires Apart(s, m, x, t) && Apart(m, s', x, t)
    ensures Apart(s, s', x, t)
  {
  }

  lemma PopTakesFirst(c: Config, s: State, x: nat, t: TaskId, s': State)
    requires Sound(c, s) && At(s, x) && s.workers[x].Waiting? && s.queue.ready != []
    requires s' == Do(c, s, Pop(x))
    ensures Sound(c, s') && Apart(s, s', x, t) && At(s', x) && s'.workers[x] == Holding(s.queue.ready[0])
    ensures s'.queue == s.queue.(ready := s.queue.ready[1..])
  {
    StepKeepsSound(c, s, Pop(x));
  }

  lemma PromoteAppends(c: Config, s: State, x: nat, limit: int, ids: seq<TaskId>, t: TaskId, s': State)
    requires Sound(c, s) && At(s, x) && s.workers[x].Polling? && IsDueRange(s.queue.scheduled, Millis(s.now), limit, ids)
    requires s' == Do(c, s, Promote(x, limit, ids))
    ensures Sound(c, s') && Apart(s, s', x, t) && At(s', x) && s'.workers[x].Waiting?
    ensures s'.queue.ready == s.queue.ready + ids && s'.queue.locks == s.queue.locks
    ensures t in s'.queue.scheduled <==> t in s.queue.scheduled && t !in ids
  {
    StepKeepsSound(c, s, Promote(x, limit, ids));
  }

  /** A polling worker promotes whatever is due. */
  lemma PromoteAll(c: Config, s: State, x: nat, t: TaskId) returns (s': State, ids: seq<TaskId>)
    requires Sound(c, s) && At(s, x) && s.workers[x].Polling?
    ensures Leads(c, s, s') && NoDuplicates(ids)
    ensures forall u :: u in ids <==> u in s.queue.scheduled && s.queue.scheduled[u] <= Millis(s.now)
    ensures Sound(c, s') && Apart(s, s', x, t) && At(s', x) && s'.workers[x].Waiting?
    ensures s'.queue.ready == s.queue.ready + ids && s'.queue.locks == s.queue.locks
    ensures t in s'.queue.scheduled <==> t in s.queue.scheduled && t !in ids
  {
    var limit, due := AllDue(s.queue.scheduled, Millis(s.now));
    ids := due;
    s' := Do(c, s, Promote(x, limit, ids));
    PromoteAppends(c, s, x, limit, ids, t, s');
    LeadsStep(c, s, Promote(x, limit, ids));
  }

  /** The worker holds the entry, and copies of the task are left only where they were before. */
  ghost predicate Arrived(c: Config, s: State, x: nat, t: TaskId, k: nat, s': State)
    requires k < |s.queue.ready|
  {
    && Sound(c, s') && Apart(s, s', x, t) && At(s', x) && s'.workers[x] == Holding(t)
    && (t in s'.queue.ready ==> t in s.queue.ready[k + 1..] || t in s.queue.scheduled)
  }

  /** Get rid of the first entry. */
  lemma DropFirst(c: Config, s: State, x: nat, t: TaskId) returns (s': State)
    requires Sound(c, s) && At(s, x) && s.workers[x].Waiting? && s.queue.ready != [] && s.queue.ready[0] != t
    ensures Leads(c, s, s') && Sound(c, s') && Apart(s, s', x, t) && At(s', x) && s'.workers[x].Polling?
    ensures s'.queue.ready == s.queue.ready[1..]
    ensures t in s'.queue.scheduled <==> t in s.queue.scheduled
    ensures t in s.queue.scheduled ==> s'.queue.scheduled[t] == s.queue.scheduled[t]
  {
    var m := Do(c, s, Pop(x));
    PopTakesFirst(c, s, x, t, m);
    LeadsStep(c, s, Pop(x));
    s' := Drive(c, m, x);
    LocalIsApart(m, s', x, s.queue.ready[0], t);
    ApartThen(s, m, s', x, t);
    LeadsThen(c, s, m, s');
  }

  /** Get rid of the first entry and come back for the next. */
  lemma PassFirst(c: Config, s: State, x: nat, t: TaskId) returns (s': State)
    requires Sound(c, s) && At(s, x) && s.workers[x].Waiting? && s.queue.ready != [] && s.queue.ready[0] != t
    ensures Leads(c, s, s') && Sound(c, s') && Apart(s, s', x, t) && At(s', x) && s'.workers[x].Waiting?
    ensures s.queue.ready[1..] <= s'.queue.ready
    ensures t in s'.queue.ready[|s.queue.ready| - 1..] ==> t in s.queue.scheduled
  {
    var m := DropFirst(c, s, x, t);
    var ids;
    s', ids := PromoteAll(c, m, x, t);
    ApartThen(s, m, s', x, t);
    LeadsThen(c, s, m, s');
    assert s'.queue.ready[|s.queue.ready| - 1..] == ids;
  }

  /** A waiting worker that is `k` entries away from the first copy of the task. */
  ghost predicate Facing(c: Config, s: State, x: nat, t: TaskId, k: nat)
  {
    Sound(c, s) && At(s, x) && s.workers[x].Waiting? && FirstCopyAt(s.queue.ready, t, k)
  }

  predicate FirstCopyAt(ready: seq<TaskId>, t: TaskId, k: nat)
  {
    k < |ready| && ready[k] == t && forall i :: 0 <= i < k ==> ready[i] != t
  }

  ghost predicate Reached(c: Config, s: State, x: nat, t: TaskId, k: nat, s': State)
  {
    k < |s.queue.ready| && Leads(c, s, s') && Arrived(c, s, x, t, k, s')
  }

  /** The worker has got rid of the first entry, and new copies come from the scheduled set only. */
  ghost predicate Passed(c: Config, s: State, x: nat, t: TaskId, m: State)
  {
    && s.queue.ready != [] && Leads(c, s, m) && Apart(s, m, x, t) && s.queue.ready[1..] <= m.queue.ready
    && (t in m.queue.ready[|s.queue.ready| - 1..] ==> t in s.queue.scheduled)
  }

  lemma ReachFirst(c: Config, s: State, x: nat, t: TaskId) returns (s': State)
    requires Facing(c, s, x, t, 0)
    ensures Reached(c, s, x, t, 0, s')
  {
    s' := Do(c, s, Pop(x));
    PopTakesFirst(c, s, x, t, s');
    LeadsStep(c, s, Pop(x));
  }

  /** One entry closer. */
  lemma Approach(c: Config, s: State, x: nat, t: TaskId, k: nat) returns (m: State)
    requires Facing(c, s, x, t, k) && k > 0
    ensures Facing(c, m, x, t, k - 1) && Passed(c, s, x, t, m)
  {
    m := PassFirst(c, s, x, t);
    NextEntry(s, m, t, k);
  }

  lemma ReachedAfter(c: Config, s: State, m: State, x: nat, t: TaskId, k: nat, s': State)
    requires 0 < k < |s.queue.ready| && Passed(c, s, x, t, m) && Reached(c, m, x, t, k - 1, s')
    ensures Reached(c, s, x, t, k, s')
  {
    LeadsThen(c, s, m, s');
    ArrivedAfter(c, s, m, x, t, k, s');
  }

  lemma {:induction false} ReachLater(c: Config, s: State, x: nat, t: TaskId, k: nat) returns (s': State)
    requires Facing(c, s, x, t, k) && k > 0
    ensures Reached(c, s, x, t, k, s')
    decreases k, 0
  {
    var m := Approach(c, s, x, t, k);
    s' := ReachEntry(c, m, x, t, k - 1);
    ReachedAfter(c, s, m, x, t, k, s');
  }

  /** A waiting worker can work its way to any entry of the ready list. */
  lemma {:induction false} ReachEntry(c: Config, s: State, x: nat, t: TaskId, k: nat) returns (s': State)
    requires Facing(c, s, x, t, k)
    ensures Reached(c, s, x, t, k, s')
    decreases k, 1
  {
    if k == 0 {
      s' := ReachFirst(c, s, x, t);
    } else {
      s' := ReachLater(c, s, x, t, k);
    }
  }

  lemma NextEntry(s: State, m: State, t: TaskId, k: nat)
    requires 0 < k && FirstCopyAt(s.queue.ready, t, k) && s.queue.ready[1..] <= m.queue.ready
    ensures FirstCopyAt(m.queue.ready, t, k - 1)
  {
    assert forall i :: 0 <= i < |s.queue.ready| - 1 ==> m.queue.ready[i] == s.queue.ready[1..][i] == s.queue.ready[i + 1];
  }

  lemma ArrivedAfter(c: Config, s: State, m: State, x: nat, t: TaskId, k: nat, s': State)
    requires 0 < k < |s.queue.ready| && s.queue.ready[1..] <= m.queue.ready && Apart(s, m, x, t)
    requires t in m.queue.ready[|s.queue.ready| - 1..] ==> t in s.queue.scheduled
    requires Arrived(c, m, x, t, k - 1, s')
    ensures Arrived(c, s, x, t, k, s')
  {
    ApartThen(s, m, s', x, t);
    var n := |s.queue.ready|;
    assert m.queue.ready[k..] == s.queue.ready[k + 1..] + m.queue.ready[n - 1..];
  }
}
