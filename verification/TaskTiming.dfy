/** What the task protocol does not promise: states and runs that show why its results are stated
    as they are. */
module TaskTiming {
  import opened Options
  import opened TaskOutcome
  import opened WorkQueue
  import opened TaskProtocol
  import opened TaskInvariant
  import opened TaskSteps
  import opened TaskSafety
  import opened TaskDrive
  import opened TaskProgress
  import Retry

  // ---------------------------------------------------------------- a late unlock loses the task

  lemma OneCopy(ready: seq<TaskId>, ids: seq<TaskId>, t: TaskId, k: nat)
    requires t !in ready && NoDuplicates(ids) && k < |ready + ids| && (ready + ids)[k] == t
    ensures t !in (ready + ids)[k + 1..]
  {
    var all := ready + ids;
    assert k >= |ready| && ids[k - |ready|] == t;
    forall i | k < i < |all|
      ensures all[i] != t
    {
      assert all[i] == ids[i - |ready|];
    }
  }

  /** The worker gets hold of the only copy of a task that is locked. */
  lemma FetchOnlyCopy(c: Config, s: State, x: nat, t: TaskId) returns (s': State)
    requires Sound(c, s) && At(s, x) && s.workers[x].Polling? && t !in s.queue.ready
    requires t in s.queue.scheduled && s.queue.scheduled[t] <= Millis(s.now)
    ensures Leads(c, s, s') && Sound(c, s') && Apart(s, s', x, t) && At(s', x) && s'.workers[x] == Holding(t)
    ensures t !in s'.queue.ready && t !in s'.queue.scheduled
  {
    var m, ids := PromoteAll(c, s, x, t);
    var k := FirstIndex(m.queue.ready, t);
    OneCopy(s.queue.ready, ids, t, k);
    s' := ReachEntry(c, m, x, t, k);
    ApartThen(s, m, s', x, t);
    LeadsThen(c, s, m, s');
  }

  lemma DropCopy(c: Config, s: State, x: nat, t: TaskId) returns (s': State)
    requires Sound(c, s) && At(s, x) && s.workers[x] == Holding(t) && t in s.owner
    ensures Leads(c, s, s') && Sound(c, s') && s' == s.(workers := s.workers[x := Polling])
  {
    s' := Do(c, s, Lock(x));
    StepKeepsSound(c, s, Lock(x));
    LeadsStep(c, s, Lock(x));
  }

  lemma UnlockLast(c: Config, s: State, w: nat, t: TaskId) returns (s': State)
    requires Sound(c, s) && At(s, w) && s.workers[w].Unlocking? && s.workers[w].task == t && t in s.tasks
    requires t !in s.queue.ready && t !in s.queue.scheduled && t !in s.creating
    requires forall y :: 0 <= y < |s.workers| ==> s.workers[y] != Holding(t)
    ensures Leads(c, s, s') && t in s'.tasks && s'.tasks[t] == s.tasks[t] && !InHand(s', t)
  {
    s' := Do(c, s, Unlock(w));
    LeadsStep(c, s, Unlock(w));
    assert t !in s'.owner;
  }

  /** It throws the copy away, and then the lock is deleted. */
  lemma DropAndUnlock(c: Config, s: State, w: nat, x: nat, t: TaskId) returns (s': State)
    requires Sound(c, s) && At(s, w) && At(s, x) && s.workers[w].Unlocking? && s.workers[w].task == t
    requires s.workers[x] == Holding(t) && t in s.tasks
    requires t !in s.queue.ready && t !in s.queue.scheduled && t !in s.creating
    requires forall y :: 0 <= y < |s.workers| && y != x ==> s.workers[y] != Holding(t)
    ensures Leads(c, s, s') && t in s'.tasks && s'.tasks[t] == s.tasks[t] && !InHand(s', t)
  {
    var m := DropCopy(c, s, x, t);
    s' := UnlockLast(c, m, w, t);
    LeadsThen(c, s, m, s');
  }

  lemma TickIsLate(c: Config, s: State, w: nat, d: nat, m: State)
    requires Inv(c, s) && At(s, w) && s.workers[w].Unlocking? && s.workers[w].score.Some?
    requires Millis(s.now + d) >= s.workers[w].score.value && m == s.(now := s.now + d)
    ensures !Timely(s, Tick(d)) && Do(c, s, Tick(d)) == m && Sound(c, m)
    ensures s.workers[w].task in m.queue.scheduled && m.queue.scheduled[s.workers[w].task] <= Millis(m.now)
  {
    StepKeepsSound(c, s, Tick(d));
  }

  /** After the late tick the copy is fetched, thrown away, and the lock is deleted. */
  lemma LoseAfterTick(c: Config, late: State, w: nat, x: nat, t: TaskId) returns (s': State)
    requires Sound(c, late) && At(late, w) && At(late, x) && late.workers[w].Unlocking? && late.workers[w].task == t
    requires late.workers[x].Polling? && t !in late.queue.ready && t !in late.creating
    requires t in late.tasks && t in late.queue.scheduled && late.queue.scheduled[t] <= Millis(late.now)
    requires forall y :: 0 <= y < |late.workers| ==> late.workers[y] != Holding(t)
    ensures Leads(c, late, s') && t in s'.tasks && s'.tasks[t] == late.tasks[t] && !InHand(s', t)
  {
    var m := FetchOnlyCopy(c, late, x, t);
    s' := DropAndUnlock(c, m, w, x, t);
    LeadsThen(c, late, m, s');
  }

  lemma LateTickLeads(c: Config, s: State, w: nat, x: nat, t: TaskId) returns (d: nat, s': State)
    requires Inv(c, s) && At(s, w) && At(s, x) && s.workers[w].Unlocking? && s.workers[w].task == t && s.workers[w].score.Some?
    requires s.workers[x].Polling? && t !in s.queue.ready && t !in s.creating
    requires forall y :: 0 <= y < |s.workers| ==> s.workers[y] != Holding(t)
    ensures !Timely(s, Tick(d)) && Leads(c, Do(c, s, Tick(d)), s')
    ensures t in s.tasks && t in s'.tasks && s'.tasks[t] == s.tasks[t] && !InHand(s', t)
  {
    d := WaitFor(s.now, s.workers[w].score.value);
    var late := s.(now := s.now + d);
    TickIsLate(c, s, w, d, late);
    s' := LoseAfterTick(c, late, w, x, t);
  }

  /** The timing assumption is needed wherever a retry has been scheduled: in every state that a
      timely run reaches, if a worker still holds the lock of a queued task whose only other trace
      is the scheduled retry, and another worker is polling, then letting the clock run past the
      due time opens a run after which the task is queued and nobody will ever process it. */
  lemma LateUnlockLosesTask(c: Config, s: State, w: nat, x: nat, t: TaskId) returns (d: nat, steps: seq<Step>)
    requires TimelyReachable(c, s) && At(s, w) && At(s, x)
    requires s.workers[w].Unlocking? && s.workers[w].task == t && s.workers[w].score.Some? && s.workers[x].Polling?
    requires t in s.tasks && s.tasks[t].status == Queued && t !in s.queue.ready && t !in s.creating
    requires forall y :: 0 <= y < |s.workers| ==> s.workers[y] != Holding(t)
    ensures !Timely(s, Tick(d)) && NoTicks(steps) && Executable(c, s, [Tick(d)] + steps)
    ensures var end := Run(c, s, [Tick(d)] + steps);
            t in end.tasks && end.tasks[t].status == Queued && !InHand(end, t)
  {
    TimelyReachableInv(c, s);
    var wait, end := LateTickLeads(c, s, w, x, t);
    d := wait;
    steps :| Executable(c, Do(c, s, Tick(d)), steps) && NoTicks(steps) && Run(c, Do(c, s, Tick(d)), steps) == end;
    RunOne(c, s, Tick(d));
    RunThen(c, s, [Tick(d)], steps);
  }

  // ---------------------------------------------------------------- the first attempt of a single task

  function Stage(c: Config, pc: Pc): seq<Pc>
    requires c.workers > 0
  {
    seq(c.workers, _ => Polling)[0 := pc]
  }

  /** A system with one task for one image, on which only the first worker works. */
  function Solo(c: Config, t: TaskId, pc: Pc, status: TaskStatus, attempts: seq<Attempt>, q: Queue,
                owner: map<TaskId, nat>, creating: set<TaskId>): State
    requires c.workers > 0
  {
    State(0, q, owner, map[t := TaskRow(1, status)], map[t := attempts], map[t := []], creating, Stage(c, pc))
  }

  lemma Advance(c: Config, s: State, m: State, step: Step, s': State)
    requires Leads(c, s, m) && Enabled(c, m, step) && !step.Tick? && Do(c, m, step) == s'
    ensures Leads(c, s, s')
  {
    LeadsStep(c, m, step);
    LeadsThen(c, s, m, s');
  }

  /** One step of the only worker at work. */
  lemma StageMoves(c: Config, pc: Pc, next: Pc)
    requires c.workers > 0
    ensures Stage(c, pc)[0 := next] == Stage(c, next)
  {
  }

  function Free(): Queue
  {
    Queue([], map[], {})
  }

  /** The task while the first worker holds its lock. */
  function Held(c: Config, t: TaskId, pc: Pc, status: TaskStatus, attempts: seq<Attempt>): State
    requires c.workers > 0
  {
    Solo(c, t, pc, status, attempts, Queue([], map[], {t}), map[t := 0], {})
  }

  lemma SoloCreates(c: Config, t: TaskId)
    requires c.workers > 0
    ensures Enabled(c, Init(c), CreateInsert(t, 1))
    ensures Do(c, Init(c), CreateInsert(t, 1)) == Solo(c, t, Polling, Queued, [], Free(), map[], {t})
  {
    assert Stage(c, Polling) == Init(c).workers;
  }

  lemma SoloPushes(c: Config, t: TaskId)
    requires c.workers > 0
    ensures var s := Solo(c, t, Polling, Queued, [], Free(), map[], {t});
            && Enabled(c, s, CreatePush(t))
            && Do(c, s, CreatePush(t)) == Solo(c, t, Polling, Queued, [], Free().(ready := [t]), map[], {})
  {
  }

  lemma SoloPromotes(c: Config, t: TaskId)
    requires c.workers > 0
    ensures var s := Solo(c, t, Polling, Queued, [], Free().(ready := [t]), map[], {});
            && Enabled(c, s, Promote(0, 1, []))
            && Do(c, s, Promote(0, 1, [])) == Solo(c, t, Waiting, Queued, [], Free().(ready := [t]), map[], {})
  {
    StageMoves(c, Polling, Waiting);
    assert Promoted(Free().(ready := [t]), []) == Free().(ready := [t]);
  }

  lemma SoloPops(c: Config, t: TaskId)
    requires c.workers > 0
    ensures var s := Solo(c, t, Waiting, Queued, [], Free().(ready := [t]), map[], {});
            && Enabled(c, s, Pop(0))
            && Do(c, s, Pop(0)) == Solo(c, t, Holding(t), Queued, [], Free(), map[], {})
  {
    StageMoves(c, Waiting, Holding(t));
  }

  lemma SoloLocks(c: Config, t: TaskId)
    requires c.workers > 0
    ensures var s := Solo(c, t, Holding(t), Queued, [], Free(), map[], {});
            Enabled(c, s, Lock(0)) && Do(c, s, Lock(0)) == Held(c, t, Reading(t), Queued, [])
  {
    StageMoves(c, Holding(t), Reading(t));
  }

  lemma SoloReads(c: Config, t: TaskId)
    requires c.workers > 0
    ensures var s := Held(c, t, Reading(t), Queued, []);
            Enabled(c, s, ReadTask(0)) && Do(c, s, ReadTask(0)) == Held(c, t, Numbering(t), Queued, [])
  {
    StageMoves(c, Reading(t), Numbering(t));
  }

  lemma SoloNumbers(c: Config, t: TaskId)
    requires c.workers > 0
    ensures var s := Held(c, t, Numbering(t), Queued, []);
            Enabled(c, s, ReadMaxAttempt(0)) && Do(c, s, ReadMaxAttempt(0)) == Held(c, t, Inserting(t, 1), Queued, [])
  {
    StageMoves(c, Numbering(t), Inserting(t, 1));
  }

  /** The first attempt while it is running, and once it has been closed for a retry. */
  function Running1(): Attempt
  {
    Attempt(1, AttemptRunning, 0, None)
  }

  function Closed1(c: Config): Attempt
  {
    Attempt(1, AttemptFailed, 0, Some(Retry.Backoff(c.retryBaseSeconds, 1)))
  }

  lemma SoloInserts(c: Config, t: TaskId)
    requires c.workers > 0
    ensures var s := Held(c, t, Inserting(t, 1), Queued, []);
            Enabled(c, s, InsertAttempt(0)) && Do(c, s, InsertAttempt(0)) == Held(c, t, Starting(t, 1), Queued, [Running1()])
  {
    StageMoves(c, Inserting(t, 1), Starting(t, 1));
    assert [] + [Running1()] == [Running1()];
  }

  lemma SoloMarks(c: Config, t: TaskId)
    requires c.workers > 0
    ensures var s := Held(c, t, Starting(t, 1), Queued, [Running1()]);
            Enabled(c, s, MarkRunning(0)) && Do(c, s, MarkRunning(0)) == Held(c, t, Generating(t, 1), Running, [Running1()])
  {
    StageMoves(c, Starting(t, 1), Generating(t, 1));
  }

  lemma SoloFails(c: Config, t: TaskId, due: int)
    requires c.workers > 0 && c.maxRetries > 0 && due == Retry.Backoff(c.retryBaseSeconds, 1)
    ensures var s, step := Held(c, t, Generating(t, 1), Running, [Running1()]), Generate(0, 0, true, true);
            Enabled(c, s, step) && Do(c, s, step) == Held(c, t, Postponing(t, 1, 0, due), Running, [Running1()])
  {
    StageMoves(c, Generating(t, 1), Postponing(t, 1, 0, due));
  }

  lemma SoloCloses(c: Config, t: TaskId, due: int)
    requires c.workers > 0 && due == Retry.Backoff(c.retryBaseSeconds, 1)
    ensures var s := Held(c, t, Postponing(t, 1, 0, due), Running, [Running1()]);
            Enabled(c, s, CloseForRetry(0)) && Do(c, s, CloseForRetry(0)) == Held(c, t, Requeueing(t, 1, due), Running, [Closed1(c)])
  {
    var s := Held(c, t, Postponing(t, 1, 0, due), Running, [Running1()]);
    StageMoves(c, Postponing(t, 1, 0, due), Requeueing(t, 1, due));
    assert FinishAttempt(s, t, 1, AttemptFailed, 0, Some(due)).attempts[t] == [Closed1(c)];
  }

  lemma SoloRequeues(c: Config, t: TaskId, due: int)
    requires c.workers > 0
    ensures var s := Held(c, t, Requeueing(t, 1, due), Running, [Closed1(c)]);
            Enabled(c, s, MarkQueued(0)) && Do(c, s, MarkQueued(0)) == Held(c, t, Measuring(t, 1, due), Queued, [Closed1(c)])
  {
    StageMoves(c, Requeueing(t, 1, due), Measuring(t, 1, due));
  }

  function Delay(due: int): int
  {
    if due < SECOND then SECOND else due
  }

  lemma SoloMeasures(c: Config, t: TaskId, due: int)
    requires c.workers > 0
    ensures var s := Held(c, t, Measuring(t, 1, due), Queued, [Closed1(c)]);
            && Enabled(c, s, MeasureDelay(0))
            && Do(c, s, MeasureDelay(0)) == Held(c, t, Scheduling(t, 1, Delay(due)), Queued, [Closed1(c)])
  {
    StageMoves(c, Measuring(t, 1, due), Scheduling(t, 1, Delay(due)));
  }

  lemma SoloSchedules(c: Config, t: TaskId, delay: int) returns (s': State)
    requires c.workers > 0 && delay >= SECOND
    ensures var s := Held(c, t, Scheduling(t, 1, delay), Queued, [Closed1(c)]);
            Enabled(c, s, Schedule(0)) && Do(c, s, Schedule(0)) == s'
    ensures |s'.workers| == c.workers && s'.workers[0].Unlocking? && s'.workers[0].task == t && s'.workers[0].score.Some?
    ensures forall y :: 0 < y < |s'.workers| ==> s'.workers[y].Polling?
    ensures t in s'.tasks && s'.tasks[t].status == Queued && s'.queue.ready == [] && s'.creating == {}
  {
    s' := Do(c, Held(c, t, Scheduling(t, 1, delay), Queued, [Closed1(c)]), Schedule(0));
  }

  lemma SoloIsLocked(c: Config, t: TaskId)
    requires c.workers > 0
    ensures Leads(c, Init(c), Held(c, t, Reading(t), Queued, []))
  {
    LeadsNowhere(c, Init(c));
    SoloCreates(c, t);
    var s1 := Solo(c, t, Polling, Queued, [], Free(), map[], {t});
    Advance(c, Init(c), Init(c), CreateInsert(t, 1), s1);
    SoloPushes(c, t);
    var s2 := Solo(c, t, Polling, Queued, [], Free().(ready := [t]), map[], {});
    Advance(c, Init(c), s1, CreatePush(t), s2);
    SoloPromotes(c, t);
    var s3 := Solo(c, t, Waiting, Queued, [], Free().(ready := [t]), map[], {});
    Advance(c, Init(c), s2, Promote(0, 1, []), s3);
    SoloPops(c, t);
    var s4 := Solo(c, t, Holding(t), Queued, [], Free(), map[], {});
    Advance(c, Init(c), s3, Pop(0), s4);
    SoloLocks(c, t);
    Advance(c, Init(c), s4, Lock(0), Held(c, t, Reading(t), Queued, []));
  }

  lemma SoloIsGenerating(c: Config, t: TaskId)
    requires c.workers > 0
    ensures Leads(c, Init(c), Held(c, t, Generating(t, 1), Running, [Running1()]))
  {
    SoloIsLocked(c, t);
    SoloReads(c, t);
    var s1 := Held(c, t, Numbering(t), Queued, []);
    Advance(c, Init(c), Held(c, t, Reading(t), Queued, []), ReadTask(0), s1);
    SoloNumbers(c, t);
    var s2 := Held(c, t, Inserting(t, 1), Queued, []);
    Advance(c, Init(c), s1, ReadMaxAttempt(0), s2);
    SoloInserts(c, t);
    var s3 := Held(c, t, Starting(t, 1), Queued, [Running1()]);
    Advance(c, Init(c), s2, InsertAttempt(0), s3);
    SoloMarks(c, t);
    Advance(c, Init(c), s3, MarkRunning(0), Held(c, t, Generating(t, 1), Running, [Running1()]));
  }

  /** The provider fails in a way that allows a retry, and the attempt is closed for it. */
  lemma SoloIsClosed(c: Config, t: TaskId, due: int)
    requires c.workers > 0 && c.maxRetries > 0 && due == Retry.Backoff(c.retryBaseSeconds, 1)
    ensures Leads(c, Init(c), Held(c, t, Requeueing(t, 1, due), Running, [Closed1(c)]))
  {
    SoloIsGenerating(c, t);
    SoloFails(c, t, due);
    var s1 := Held(c, t, Postponing(t, 1, 0, due), Running, [Running1()]);
    Advance(c, Init(c), Held(c, t, Generating(t, 1), Running, [Running1()]), Generate(0, 0, true, true), s1);
    SoloCloses(c, t, due);
    Advance(c, Init(c), s1, CloseForRetry(0), Held(c, t, Requeueing(t, 1, due), Running, [Closed1(c)]));
  }

  /** The retry is scheduled; the lock is still there. */
  lemma SoloIsScheduled(c: Config, t: TaskId) returns (s: State)
    requires c.workers > 0 && c.maxRetries > 0
    ensures Leads(c, Init(c), s) && |s.workers| == c.workers && s.workers[0].Unlocking?
    ensures s.workers[0].task == t && s.workers[0].score.Some?
    ensures forall y :: 0 < y < |s.workers| ==> s.workers[y].Polling?
    ensures t in s.tasks && s.tasks[t].status == Queued && s.queue.ready == [] && s.creating == {}
  {
    var due := Retry.Backoff(c.retryBaseSeconds, 1);
    SoloIsClosed(c, t, due);
    SoloRequeues(c, t, due);
    var s1 := Held(c, t, Measuring(t, 1, due), Queued, [Closed1(c)]);
    Advance(c, Init(c), Held(c, t, Requeueing(t, 1, due), Running, [Closed1(c)]), MarkQueued(0), s1);
    SoloMeasures(c, t, due);
    var s2 := Held(c, t, Scheduling(t, 1, Delay(due)), Queued, [Closed1(c)]);
    Advance(c, Init(c), s1, MeasureDelay(0), s2);
    s := SoloSchedules(c, t, Delay(due));
    Advance(c, Init(c), s2, Schedule(0), s);
  }

  lemma LeadsFromStart(c: Config, s: State)
    requires Leads(c, Init(c), s)
    ensures TimelyReachable(c, s) && Reachable(c, s)
  {
    LeadsTimely(c, Init(c), s);
  }

  // ---------------------------------------------------------------- runs from the start

  /** In every configuration with two workers and a retry there is a run from the empty system with
      a single clock step, a late one, after which a task is queued and in nobody's hands. */
  lemma OneLateTickSuffices(c: Config, t: TaskId) returns (before: seq<Step>, d: nat, after: seq<Step>)
    requires c.workers >= 2 && c.maxRetries >= 1
    ensures NoTicks(before) && NoTicks(after) && Executable(c, Init(c), before + ([Tick(d)] + after))
    ensures Executable(c, Init(c), before) && !Timely(Run(c, Init(c), before), Tick(d))
    ensures var end := Run(c, Init(c), before + ([Tick(d)] + after));
            t in end.tasks && end.tasks[t].status == Queued && !InHand(end, t)
  {
    var s := SoloIsScheduled(c, t);
    LeadsFromStart(c, s);
    d, after := LateUnlockLosesTask(c, s, 0, 1, t);
    before :| Executable(c, Init(c), before) && NoTicks(before) && Run(c, Init(c), before) == s;
    RunThen(c, Init(c), before, [Tick(d)] + after);
  }

  /** In every configuration with a worker and a retry a state is reached in which a task row says
      running while none of the task's attempts does. */
  lemma RunningWithoutRunningAttempt(c: Config, t: TaskId) returns (s: State)
    requires c.workers >= 1 && c.maxRetries >= 1
    ensures TimelyReachable(c, s) && t in s.tasks && t in s.attempts
    ensures s.tasks[t].status == Running && |s.attempts[t]| == 1 && RunningCount(s.attempts[t]) == 0
  {
    var due := Retry.Backoff(c.retryBaseSeconds, 1);
    SoloIsClosed(c, t, due);
    s := Held(c, t, Requeueing(t, 1, due), Running, [Closed1(c)]);
    LeadsFromStart(c, s);
    NoneRunning(s.attempts[t]);
  }
}
