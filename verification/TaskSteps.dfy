/** Every step of the task protocol keeps its invariant: the rows, locks and stages agree after any
    step, and nothing is lost in a timely one. */
module TaskSteps {
  import opened Options
  import opened TaskOutcome
  import opened WorkQueue
  import opened TaskProtocol
  import opened TaskInvariant

  // ---------------------------------------------------------------- steps without the lock

  /** `u` has the same rows and the same lock holder in both states. */
  ghost predicate SameTask(s: State, s': State, u: TaskId)
  {
    && Rows(s, u) && Rows(s', u)
    && s'.tasks[u] == s.tasks[u] && s'.attempts[u] == s.attempts[u] && s'.assets[u] == s.assets[u]
    && Holder(s', u) == Holder(s, u)
  }

  lemma SameTasksCoherent(c: Config, s: State, s': State)
    requires Known(s) && Known(s') && TasksCoherent(c, s)
    requires forall u :: u in s'.tasks ==> SameTask(s, s', u)
    ensures TasksCoherent(c, s')
  {
    forall u | u in s'.tasks
      ensures Coherent(c, s'.tasks[u], s'.attempts[u], s'.assets[u], Holder(s', u))
    {
      assert SameTask(s, s', u);
    }
  }

  lemma OneTaskCoherent(c: Config, s: State, s': State, t: TaskId)
    requires Known(s) && Known(s') && TasksCoherent(c, s) && t in s'.tasks
    requires forall u :: u in s'.tasks && u != t ==> SameTask(s, s', u)
    requires Coherent(c, s'.tasks[t], s'.attempts[t], s'.assets[t], Holder(s', t))
    ensures TasksCoherent(c, s')
  {
    forall u | u in s'.tasks && u != t
      ensures Coherent(c, s'.tasks[u], s'.attempts[u], s'.assets[u], Holder(s', u))
    {
      assert SameTask(s, s', u);
    }
  }

  /** Nobody's pending retry is touched when the unlocking workers and the schedule stay. */
  lemma SamePending(s: State, s': State, w: nat)
    requires RetriesPending(s) && At(s, w) && |s'.workers| == |s.workers| && s'.now == s.now
    requires s'.queue.scheduled == s.queue.scheduled && !s'.workers[w].Unlocking?
    requires forall x :: 0 <= x < |s.workers| && x != w ==> s'.workers[x] == s.workers[x]
    ensures RetriesPending(s')
  {
  }

  lemma SameHolders(s: State, s': State)
    requires s'.owner == s.owner && s'.workers == s.workers
    ensures forall u :: Holder(s', u) == Holder(s, u)
  {
  }

  /** A worker without a lock moves between stages without one. */
  lemma FreeMove(s: State, s': State, w: nat, pc: Pc)
    requires Exclusive(s) && At(s, w) && !HasLock(s.workers[w]) && !HasLock(pc)
    requires s'.workers == s.workers[w := pc] && s'.owner == s.owner && s'.queue.locks == s.queue.locks
    ensures Exclusive(s')
    ensures forall u :: Holder(s', u) == Holder(s, u)
  {
    forall u
      ensures Holder(s', u) == Holder(s, u)
    {
      if u in s.owner {
        assert s.owner[u] != w;
      }
    }
    assert forall x :: 0 <= x < |s'.workers| && HasLock(s'.workers[x]) ==> x != w && s'.workers[x] == s.workers[x];
  }

  lemma StillHolding(s: State, s': State, w: nat, u: TaskId)
    requires At(s, w) && |s'.workers| == |s.workers|
    requires forall x :: 0 <= x < |s.workers| && x != w ==> s'.workers[x] == s.workers[x]
    requires exists x :: 0 <= x < |s.workers| && x != w && s.workers[x] == Holding(u)
    ensures InHand(s', u)
  {
    var x :| 0 <= x < |s.workers| && x != w && s.workers[x] == Holding(u);
    assert s'.workers[x] == Holding(u);
  }

  lemma NewTaskCoherent(c: Config, requested: int)
    ensures Coherent(c, TaskRow(requested, Queued), [], [], None)
  {
  }

  lemma CreateInsertKeepsKeys(s: State, t: TaskId, requested: int, s': State)
    requires Known(s) && Exclusive(s) && t !in s.tasks
    requires s' == s.(tasks := s.tasks[t := TaskRow(requested, Queued)], attempts := s.attempts[t := []],
                      assets := s.assets[t := []], creating := s.creating + {t})
    ensures Known(s') && Exclusive(s') && Holder(s', t) == None
    ensures forall u :: u in s.tasks ==> SameTask(s, s', u)
  {
    SameHolders(s, s');
    assert t !in s.owner;
  }

  lemma CreateInsertKeepsRows(c: Config, s: State, t: TaskId, requested: int, s': State)
    requires Known(s) && Exclusive(s) && TasksCoherent(c, s) && t !in s.tasks
    requires s' == s.(tasks := s.tasks[t := TaskRow(requested, Queued)], attempts := s.attempts[t := []],
                      assets := s.assets[t := []], creating := s.creating + {t})
    ensures Known(s') && Exclusive(s') && TasksCoherent(c, s')
  {
    CreateInsertKeepsKeys(s, t, requested, s');
    NewTaskCoherent(c, requested);
    OneTaskCoherent(c, s, s', t);
  }

  lemma InsertKeepsHands(s: State, t: TaskId, requested: int, s': State)
    requires NoneLost(s) && t !in s.tasks
    requires s' == s.(tasks := s.tasks[t := TaskRow(requested, Queued)], attempts := s.attempts[t := []],
                      assets := s.assets[t := []], creating := s.creating + {t})
    ensures NoneLost(s')
  {
    SameHolders(s, s');
    forall u | u in s'.tasks && !Terminal(s'.tasks[u].status)
      ensures InHand(s', u)
    {
      if u != t {
        assert InHand(s, u);
      }
    }
  }

  lemma PushKeepsHands(s: State, s': State, t: TaskId)
    requires s'.queue == Pushed(s.queue, t) && s'.owner == s.owner && s'.workers == s.workers
    requires s.creating <= s'.creating + {t}
    ensures forall u :: InHand(s, u) || u == t ==> InHand(s', u)
  {
    assert s'.queue.ready[|s.queue.ready|] == t;
    assert s.queue.ready <= s'.queue.ready;
    SameHolders(s, s');
  }

  lemma RepairKeepsRows(c: Config, s: State, t: TaskId, s': State)
    requires Known(s) && Exclusive(s) && TasksCoherent(c, s) && t in s.tasks && CanRepair(s.tasks[t].status)
    requires s' == SetStatus(s, t, Queued).(queue := Pushed(s.queue, t))
    ensures Known(s') && Exclusive(s') && TasksCoherent(c, s')
  {
    SameHolders(s, s');
    RequeuedCoherent(c, s.tasks[t], s.attempts[t], s.assets[t], Holder(s, t));
    assert forall u :: u in s'.tasks && u != t ==> SameTask(s, s', u);
    OneTaskCoherent(c, s, s', t);
  }

  lemma RequeuedCoherent(c: Config, row: TaskRow, attempts: seq<Attempt>, assets: seq<nat>, holder: Option<Pc>)
    requires Coherent(c, row, attempts, assets, holder) && CanRepair(row.status)
    ensures Coherent(c, row.(status := Queued), attempts, assets, holder)
  {
  }

  lemma PromoteKeepsHands(s: State, w: nat, ids: seq<TaskId>, s': State, u: TaskId)
    requires At(s, w) && s.workers[w].Polling?
    requires s' == Move(s, w, Waiting).(queue := Promoted(s.queue, ids))
    requires Holder(s', u) == Holder(s, u) && InHand(s, u)
    ensures InHand(s', u)
  {
    if u in ids {
      var k :| 0 <= k < |ids| && ids[k] == u;
      assert s'.queue.ready[|s.queue.ready| + k] == u;
    } else if x :| 0 <= x < |s.workers| && s.workers[x] == Holding(u) {
      StillHolding(s, s', w, u);
    }
  }

  lemma PromoteKeepsPending(s: State, w: nat, limit: int, ids: seq<TaskId>, s': State)
    requires RetriesPending(s) && At(s, w) && s.workers[w].Polling?
    requires IsDueRange(s.queue.scheduled, Millis(s.now), limit, ids)
    requires s' == Move(s, w, Waiting).(queue := Promoted(s.queue, ids))
    ensures RetriesPending(s')
  {
    forall x | 0 <= x < |s'.workers| && s'.workers[x].Unlocking? && s'.workers[x].score.Some?
      ensures s'.workers[x] == s.workers[x] && s'.workers[x].task !in ids
    {
    }
  }

  lemma PopKeepsHands(s: State, w: nat, s': State, u: TaskId)
    requires At(s, w) && s.workers[w].Waiting? && s.queue.ready != []
    requires s' == Move(s, w, Holding(s.queue.ready[0])).(queue := Popped(s.queue))
    requires Holder(s', u) == Holder(s, u) && InHand(s, u)
    ensures InHand(s', u)
  {
    assert s'.workers[w] == Holding(s.queue.ready[0]);
    if u in s.queue.ready && u != s.queue.ready[0] {
      var k :| 0 <= k < |s.queue.ready| && s.queue.ready[k] == u;
      assert s'.queue.ready[k - 1] == u;
    } else if x :| 0 <= x < |s.workers| && s.workers[x] == Holding(u) {
      StillHolding(s, s', w, u);
    }
  }

  lemma PopKeepsRows(c: Config, s: State, w: nat, s': State)
    requires Known(s) && Exclusive(s) && TasksCoherent(c, s)
    requires At(s, w) && s.workers[w].Waiting? && s.queue.ready != []
    requires s' == Move(s, w, Holding(s.queue.ready[0])).(queue := Popped(s.queue))
    ensures Known(s') && Exclusive(s') && TasksCoherent(c, s')
    ensures forall u :: Holder(s', u) == Holder(s, u)
  {
    FreeMove(s, s', w, Holding(s.queue.ready[0]));
    assert forall u :: u in s'.tasks ==> SameTask(s, s', u);
    SameTasksCoherent(c, s, s');
  }

  /** Taking or deleting the lock of `t` changes who holds `t` and nobody else. */
  lemma LockMoves(s: State, w: nat, t: TaskId, s': State)
    requires Exclusive(s) && At(s, w) && s.workers[w] == Holding(t) && t !in s.queue.locks
    requires s' == Move(s, w, Reading(t)).(queue := Locked(s.queue, t), owner := s.owner[t := w])
    ensures Exclusive(s') && Holder(s', t) == Some(Reading(t)) && Holder(s, t) == None
    ensures forall u :: u != t ==> Holder(s', u) == Holder(s, u)
  {
    forall u | u in s.owner
      ensures s.owner[u] != w
    {
    }
    assert forall x :: 0 <= x < |s'.workers| && x != w ==> s'.workers[x] == s.workers[x];
  }

  lemma TakeLockKeepsRows(c: Config, s: State, w: nat, t: TaskId, s': State)
    requires Known(s) && Exclusive(s) && TasksCoherent(c, s)
    requires At(s, w) && s.workers[w] == Holding(t) && t !in s.queue.locks
    requires s' == Move(s, w, Reading(t)).(queue := Locked(s.queue, t), owner := s.owner[t := w])
    ensures Known(s') && Exclusive(s') && TasksCoherent(c, s')
  {
    LockMoves(s, w, t, s');
    assert forall u :: u in s'.tasks && u != t ==> SameTask(s, s', u);
    OneTaskCoherent(c, s, s', t);
  }

  lemma TakeLockKeepsHands(s: State, w: nat, t: TaskId, s': State)
    requires NoneLost(s) && Exclusive(s) && At(s, w) && s.workers[w] == Holding(t) && t !in s.queue.locks
    requires s' == Move(s, w, Reading(t)).(queue := Locked(s.queue, t), owner := s.owner[t := w])
    ensures NoneLost(s')
  {
    LockMoves(s, w, t, s');
    forall u | u in s'.tasks && !Terminal(s'.tasks[u].status)
      ensures InHand(s', u)
    {
      if u != t {
        assert InHand(s, u);
        if x :| 0 <= x < |s.workers| && s.workers[x] == Holding(u) {
          StillHolding(s, s', w, u);
        }
      }
    }
  }

  lemma UnlockMoves(s: State, w: nat, t: TaskId, s': State)
    requires Exclusive(s) && At(s, w) && s.workers[w].Unlocking? && t == s.workers[w].task
    requires s' == Move(s, w, Polling).(queue := Unlocked(s.queue, t), owner := s.owner - {t})
    ensures Exclusive(s') && Holder(s, t) == Some(s.workers[w]) && Holder(s', t) == None
    ensures forall u :: u != t ==> Holder(s', u) == Holder(s, u)
  {
    forall u | u in s.owner && u != t
      ensures s.owner[u] != w
    {
    }
    forall x | 0 <= x < |s'.workers| && HasLock(s'.workers[x])
      ensures s'.workers[x].task in s'.owner && s'.owner[s'.workers[x].task] == x
    {
      assert s'.workers[x] == s.workers[x] && x != w;
    }
  }

  lemma UnlockKeepsRows(c: Config, s: State, w: nat, t: TaskId, s': State)
    requires Known(s) && Exclusive(s) && TasksCoherent(c, s)
    requires At(s, w) && s.workers[w].Unlocking? && t == s.workers[w].task
    requires s' == Move(s, w, Polling).(queue := Unlocked(s.queue, t), owner := s.owner - {t})
    ensures Known(s') && Exclusive(s') && TasksCoherent(c, s')
    ensures !Terminal(s.tasks[t].status) ==> s.workers[w].score.Some?
  {
    UnlockMoves(s, w, t, s');
    assert Coherent(c, s.tasks[t], s.attempts[t], s.assets[t], Holder(s, t));
    assert forall u :: u in s'.tasks && u != t ==> SameTask(s, s', u);
    OneTaskCoherent(c, s, s', t);
  }

  lemma UnlockKeepsHands(s: State, w: nat, t: TaskId, s': State)
    requires NoneLost(s) && RetriesPending(s) && Exclusive(s)
    requires At(s, w) && s.workers[w].Unlocking? && t == s.workers[w].task
    requires t in s.tasks && !Terminal(s.tasks[t].status) ==> s.workers[w].score.Some?
    requires s' == Move(s, w, Polling).(queue := Unlocked(s.queue, t), owner := s.owner - {t})
    ensures NoneLost(s')
  {
    UnlockMoves(s, w, t, s');
    forall u | u in s'.tasks && !Terminal(s'.tasks[u].status)
      ensures InHand(s', u)
    {
      assert InHand(s, u);
      if x :| 0 <= x < |s.workers| && s.workers[x] == Holding(u) && u != t {
        StillHolding(s, s', w, u);
      }
    }
  }

  lemma CreatePushKeepsRows(c: Config, s: State, t: TaskId, s': State)
    requires Known(s) && Exclusive(s) && TasksCoherent(c, s) && t in s.creating
    requires s' == s.(queue := Pushed(s.queue, t), creating := s.creating - {t})
    ensures Known(s') && Exclusive(s') && TasksCoherent(c, s')
  {
    SameHolders(s, s');
    assert forall u :: u in s'.tasks ==> SameTask(s, s', u);
    SameTasksCoherent(c, s, s');
  }

  lemma TickKeepsRows(c: Config, s: State, d: nat, s': State)
    requires Known(s) && Exclusive(s) && TasksCoherent(c, s) && s' == s.(now := s.now + d)
    ensures Known(s') && Exclusive(s') && TasksCoherent(c, s')
    ensures forall u :: InHand(s, u) ==> InHand(s', u)
  {
    SameHolders(s, s');
    assert forall u :: u in s'.tasks ==> SameTask(s, s', u);
    SameTasksCoherent(c, s, s');
  }

  lemma PromoteKeepsRows(c: Config, s: State, w: nat, limit: int, ids: seq<TaskId>, s': State)
    requires Known(s) && Exclusive(s) && TasksCoherent(c, s)
    requires At(s, w) && s.workers[w].Polling? && IsDueRange(s.queue.scheduled, Millis(s.now), limit, ids)
    requires s' == Move(s, w, Waiting).(queue := Promoted(s.queue, ids))
    ensures Known(s') && Exclusive(s') && TasksCoherent(c, s')
    ensures forall u :: Holder(s', u) == Holder(s, u)
  {
    FreeMove(s, s', w, Waiting);
    assert s'.queue.ready == s.queue.ready + ids;
    assert forall u :: u in s'.tasks ==> SameTask(s, s', u);
    SameTasksCoherent(c, s, s');
  }

  /** A worker that found nothing, or found the lock taken, starts over. */
  lemma StartOverKeepsRows(c: Config, s: State, w: nat, s': State)
    requires Known(s) && Exclusive(s) && TasksCoherent(c, s)
    requires At(s, w) && !HasLock(s.workers[w]) && s' == Move(s, w, Polling)
    ensures Known(s') && Exclusive(s') && TasksCoherent(c, s')
    ensures forall u :: Holder(s', u) == Holder(s, u)
  {
    FreeMove(s, s', w, Polling);
    assert forall u :: u in s'.tasks ==> SameTask(s, s', u);
    SameTasksCoherent(c, s, s');
  }

  // ---------------------------------------------------------------- soundness

  lemma QueueStepKeepsSound(c: Config, s: State, step: Step)
    requires Sound(c, s) && Enabled(c, s, step)
    requires step.CreateInsert? || step.CreatePush? || step.Repair? || step.Tick? || step.Promote?
    ensures Sound(c, Do(c, s, step))
  {
    var s' := Do(c, s, step);
    match step {
      case CreateInsert(t, requested) => CreateInsertKeepsRows(c, s, t, requested, s');
      case CreatePush(t) => CreatePushKeepsRows(c, s, t, s');
      case Repair(t) => RepairKeepsRows(c, s, t, s');
      case Tick(d) => TickKeepsRows(c, s, d, s');
      case Promote(w, limit, ids) => PromoteKeepsRows(c, s, w, limit, ids, s');
    }
  }

  lemma LockKeepsSound(c: Config, s: State, w: nat, s': State)
    requires Sound(c, s) && Enabled(c, s, Lock(w)) && s' == Do(c, s, Lock(w))
    ensures Sound(c, s')
  {
    if s.workers[w].task in s.queue.locks {
      StartOverKeepsRows(c, s, w, s');
    } else {
      TakeLockKeepsRows(c, s, w, s.workers[w].task, s');
    }
  }

  lemma LockStepKeepsSound(c: Config, s: State, step: Step)
    requires Sound(c, s) && Enabled(c, s, step)
    requires step.PopNothing? || step.Pop? || step.Lock? || step.Unlock?
    ensures Sound(c, Do(c, s, step))
  {
    var s' := Do(c, s, step);
    match step {
      case PopNothing(w) => StartOverKeepsRows(c, s, w, s');
      case Pop(w) => PopKeepsRows(c, s, w, s');
      case Lock(w) => LockKeepsSound(c, s, w, s');
      case Unlock(w) => UnlockKeepsRows(c, s, w, s.workers[w].task, s');
    }
  }

  predicate LockStep(step: Step)
  {
    step.PopNothing? || step.Pop? || step.Lock? || step.Unlock?
  }

  lemma StepKeepsSound(c: Config, s: State, step: Step)
    requires Sound(c, s) && Enabled(c, s, step)
    ensures Sound(c, Do(c, s, step))
  {
    if OfHolder(step) {
      HolderKeepsSound(c, s, step);
    } else if LockStep(step) {
      LockStepKeepsSound(c, s, step);
    } else {
      QueueStepKeepsSound(c, s, step);
    }
  }

  // ---------------------------------------------------------------- no task is lost

  lemma CreatePushKeepsHands(s: State, t: TaskId, s': State)
    requires NoneLost(s) && RetriesPending(s)
    requires s' == s.(queue := Pushed(s.queue, t), creating := s.creating - {t})
    ensures NoneLost(s') && RetriesPending(s')
  {
    PushKeepsHands(s, s', t);
  }

  lemma RepairKeepsHands(s: State, t: TaskId, s': State)
    requires NoneLost(s) && RetriesPending(s) && t in s.tasks && !Terminal(s.tasks[t].status)
    requires s' == SetStatus(s, t, Queued).(queue := Pushed(s.queue, t))
    ensures NoneLost(s') && RetriesPending(s')
  {
    PushKeepsHands(s, s', t);
  }

  lemma TickKeepsHands(c: Config, s: State, d: nat, s': State)
    requires Inv(c, s) && TimelyUnlock(s, s.now + d) && s' == s.(now := s.now + d)
    ensures NoneLost(s') && RetriesPending(s')
  {
    TickKeepsRows(c, s, d, s');
  }

  lemma PromoteKeepsAllHands(c: Config, s: State, w: nat, limit: int, ids: seq<TaskId>, s': State)
    requires Inv(c, s) && At(s, w) && s.workers[w].Polling? && IsDueRange(s.queue.scheduled, Millis(s.now), limit, ids)
    requires s' == Move(s, w, Waiting).(queue := Promoted(s.queue, ids))
    ensures NoneLost(s') && RetriesPending(s')
  {
    PromoteKeepsRows(c, s, w, limit, ids, s');
    forall u | u in s'.tasks && !Terminal(s'.tasks[u].status)
      ensures InHand(s', u)
    {
      PromoteKeepsHands(s, w, ids, s', u);
    }
    PromoteKeepsPending(s, w, limit, ids, s');
  }

  lemma PopKeepsAllHands(c: Config, s: State, w: nat, s': State)
    requires Inv(c, s) && At(s, w) && s.workers[w].Waiting? && s.queue.ready != []
    requires s' == Move(s, w, Holding(s.queue.ready[0])).(queue := Popped(s.queue))
    ensures NoneLost(s') && RetriesPending(s')
  {
    PopKeepsRows(c, s, w, s');
    forall u | u in s'.tasks && !Terminal(s'.tasks[u].status)
      ensures InHand(s', u)
    {
      PopKeepsHands(s, w, s', u);
    }
    SamePending(s, s', w);
  }

  lemma PopNothingKeepsHands(c: Config, s: State, w: nat, s': State)
    requires Inv(c, s) && At(s, w) && s.workers[w].Waiting? && s' == Move(s, w, Polling)
    ensures NoneLost(s') && RetriesPending(s')
  {
    StartOverKeepsRows(c, s, w, s');
    forall u | u in s'.tasks && !Terminal(s'.tasks[u].status)
      ensures InHand(s', u)
    {
      assert InHand(s, u);
      if x :| 0 <= x < |s.workers| && s.workers[x] == Holding(u) {
        StillHolding(s, s', w, u);
      }
    }
    SamePending(s, s', w);
  }

  /** Finding the lock taken, a worker throws its copy of the task away. The holder of the lock
      either still has work to do on the task, or has scheduled a retry that is not due yet, or
      has already settled the task: the copy was not the last one that mattered. */
  lemma DropLosesNothing(c: Config, s: State, w: nat, u: TaskId)
    requires Inv(c, s) && At(s, w) && s.workers[w].Holding? && s.workers[w].task in s.queue.locks
    requires u in s.tasks && !Terminal(s.tasks[u].status)
    ensures InHand(Move(s, w, Polling), u)
  {
    var s' := Move(s, w, Polling);
    FreeMove(s, s', w, Polling);
    assert InHand(s, u);
    if s.workers[w] == Holding(u) {
      var holder := s.workers[s.owner[u]];
      assert Coherent(c, s.tasks[u], s.attempts[u], s.assets[u], Holder(s, u));
      if holder.Unlocking? {
        assert holder.score.Some? && u in s.queue.scheduled;
      }
    } else if x :| 0 <= x < |s.workers| && s.workers[x] == Holding(u) {
      StillHolding(s, s', w, u);
    }
  }

  lemma LockKeepsHands(c: Config, s: State, w: nat, s': State)
    requires Inv(c, s) && Enabled(c, s, Lock(w)) && s' == Do(c, s, Lock(w))
    ensures NoneLost(s') && RetriesPending(s')
  {
    if s.workers[w].task in s.queue.locks {
      forall u | u in s'.tasks && !Terminal(s'.tasks[u].status)
        ensures InHand(s', u)
      {
        DropLosesNothing(c, s, w, u);
      }
    } else {
      TakeLockKeepsHands(s, w, s.workers[w].task, s');
    }
    SamePending(s, s', w);
  }

  lemma UnlockKeepsAllHands(c: Config, s: State, w: nat, t: TaskId, s': State)
    requires Inv(c, s) && At(s, w) && s.workers[w].Unlocking? && t == s.workers[w].task
    requires s' == Move(s, w, Polling).(queue := Unlocked(s.queue, t), owner := s.owner - {t})
    ensures NoneLost(s') && RetriesPending(s')
  {
    UnlockKeepsRows(c, s, w, t, s');
    UnlockKeepsHands(s, w, t, s');
    SamePending(s, s', w);
  }

  lemma CreationKeepsHands(c: Config, s: State, step: Step, s': State)
    requires Inv(c, s) && Enabled(c, s, step) && s' == Do(c, s, step)
    requires step.CreateInsert? || step.CreatePush? || step.Repair?
    ensures NoneLost(s') && RetriesPending(s')
  {
    match step {
      case CreateInsert(t, requested) => InsertKeepsHands(s, t, requested, s');
      case CreatePush(t) => CreatePushKeepsHands(s, t, s');
      case Repair(t) => RepairKeepsHands(s, t, s');
    }
  }

  lemma QueueStepKeepsHands(c: Config, s: State, step: Step, s': State)
    requires Inv(c, s) && Enabled(c, s, step) && Timely(s, step) && s' == Do(c, s, step)
    requires step.CreateInsert? || step.CreatePush? || step.Repair? || step.Tick? || step.Promote?
    ensures NoneLost(s') && RetriesPending(s')
  {
    if step.Tick? {
      TickKeepsHands(c, s, step.d, s');
    } else if step.Promote? {
      PromoteKeepsAllHands(c, s, step.w, step.limit, step.ids, s');
    } else {
      CreationKeepsHands(c, s, step, s');
    }
  }

  lemma LockStepKeepsHands(c: Config, s: State, step: Step)
    requires Inv(c, s) && Enabled(c, s, step) && LockStep(step)
    ensures NoneLost(Do(c, s, step)) && RetriesPending(Do(c, s, step))
  {
    var s' := Do(c, s, step);
    match step {
      case PopNothing(w) => PopNothingKeepsHands(c, s, w, s');
      case Pop(w) => PopKeepsAllHands(c, s, w, s');
      case Lock(w) => LockKeepsHands(c, s, w, s');
      case Unlock(w) => UnlockKeepsAllHands(c, s, w, s.workers[w].task, s');
    }
  }

  lemma StepKeepsInv(c: Config, s: State, step: Step)
    requires Inv(c, s) && Enabled(c, s, step) && Timely(s, step)
    ensures Inv(c, Do(c, s, step))
  {
    StepKeepsSound(c, s, step);
    if OfHolder(step) {
      HolderKeepsHands(c, s, step);
    } else if LockStep(step) {
      LockStepKeepsHands(c, s, step);
    } else {
      QueueStepKeepsHands(c, s, step, Do(c, s, step));
    }
  }

  lemma {:induction false} RunKeepsSound(c: Config, s: State, steps: seq<Step>)
    requires Sound(c, s) && Executable(c, s, steps)
    ensures Sound(c, Run(c, s, steps))
    decreases |steps|
  {
    if steps != [] {
      StepKeepsSound(c, s, steps[0]);
      RunKeepsSound(c, Do(c, s, steps[0]), steps[1..]);
    }
  }

  lemma {:induction false} RunKeepsInv(c: Config, s: State, steps: seq<Step>)
    requires Inv(c, s) && Executable(c, s, steps) && TimelyRun(c, s, steps)
    ensures Inv(c, Run(c, s, steps))
    decreases |steps|
  {
    if steps != [] {
      StepKeepsInv(c, s, steps[0]);
      RunKeepsInv(c, Do(c, s, steps[0]), steps[1..]);
    }
  }
}
