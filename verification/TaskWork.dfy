/** The work on a task ends: however often it is repaired and however long the system runs, workers
    take only so many steps on it before it is settled. */
module TaskWork {
  import opened Options
  import opened TaskOutcome
  import opened WorkQueue
  import opened TaskProtocol
  import opened TaskInvariant
  import opened TaskSteps
  import opened TaskDrive
  import opened TaskProgress

  /** Every answer of the provider has at most `most` files. */
  predicate AnswersWithin(steps: seq<Step>, most: nat)
  {
    forall i :: 0 <= i < |steps| && steps[i].Generate? ==> steps[i].files <= most
  }

  predicate FilesWithin(s: State, most: nat)
  {
    forall w :: 0 <= w < |s.workers| ==> FilesLeft(s.workers[w]) <= most
  }

  lemma MoveKeepsFilesWithin(s: State, s': State, w: nat, most: nat)
    requires FilesWithin(s, most) && At(s, w) && At(s', w) && s'.workers == s.workers[w := s'.workers[w]]
    requires FilesLeft(s'.workers[w]) <= most
    ensures FilesWithin(s', most)
  {
  }

  lemma HolderStepFiles(c: Config, s: State, step: Step, most: nat, s': State)
    requires Enabled(c, s, step) && OfHolder(step) && s' == Do(c, s, step)
    requires FilesLeft(s.workers[step.w]) <= most && (step.Generate? ==> step.files <= most)
    ensures At(s', step.w) && s'.workers == s.workers[step.w := s'.workers[step.w]] && FilesLeft(s'.workers[step.w]) <= most
  {
  }

  lemma StepKeepsFilesWithin(c: Config, s: State, step: Step, most: nat)
    requires Enabled(c, s, step) && FilesWithin(s, most) && (step.Generate? ==> step.files <= most)
    ensures FilesWithin(Do(c, s, step), most)
  {
    var s' := Do(c, s, step);
    if OfHolder(step) {
      HolderStepFiles(c, s, step, most, s');
      MoveKeepsFilesWithin(s, s', step.w, most);
    } else if step.Promote? || step.PopNothing? || step.Pop? || step.Lock? || step.Unlock? {
      MoveKeepsFilesWithin(s, s', step.w, most);
    }
  }

  // ---------------------------------------------------------------- effort as a number

  function Weight(e: Effort, most: nat): nat
  {
    (e.attempts * 15 + e.stage) * (most + 1) + e.files
  }

  lemma LessWeighsLess(a: Effort, b: Effort, most: nat)
    requires Less(a, b) && a.stage < 15 && b.stage < 15 && a.files <= most && b.files <= most
    ensures Weight(a, most) < Weight(b, most)
  {
    var i, j := a.attempts * 15 + a.stage, b.attempts * 15 + b.stage;
    if i < j {
      Times(i + 1, j, most + 1);
      assert (i + 1) * (most + 1) == i * (most + 1) + most + 1;
    }
  }

  lemma Times(i: nat, j: nat, m: nat)
    requires i <= j
    ensures i * m <= j * m
  {
  }

  /** The most that workers can have to do on one task. */
  function Bound(c: Config, most: nat): nat
  {
    Weight(Effort(c.maxRetries + 1, 14, most), most)
  }

  lemma EffortIsBounded(c: Config, s: State, t: TaskId, most: nat)
    requires t in s.tasks && t in s.attempts && FilesWithin(s, most)
    ensures var e := EffortOf(c, s, t);
            e.attempts <= c.maxRetries + 1 && e.stage < 15 && e.files <= most && Weight(e, most) <= Bound(c, most)
  {
    var e := EffortOf(c, s, t);
    Times(e.attempts * 15 + e.stage, (c.maxRetries + 1) * 15 + 14, most + 1);
  }

  // ---------------------------------------------------------------- the steps of a run

  /** A step of a worker on a task that is not settled. */
  ghost predicate Works(s: State, step: Step, t: TaskId)
  {
    t in s.tasks && !Terminal(s.tasks[t].status) && WorksOn(s, step, t)
  }

  ghost function WorkSteps(c: Config, s: State, steps: seq<Step>, t: TaskId): nat
    requires Executable(c, s, steps)
    decreases |steps|
  {
    if steps == [] then 0
    else WorkSteps(c, Do(c, s, steps[0]), steps[1..], t) + if Works(s, steps[0], t) then 1 else 0
  }

  /** What is left to do on a task, as a number; before it is created, all of it. */
  ghost function WorkLeft(c: Config, s: State, t: TaskId, most: nat): nat
    requires Sound(c, s)
  {
    if t in s.tasks then Weight(EffortOf(c, s, t), most) else Bound(c, most)
  }

  lemma StepTakesWork(c: Config, s: State, step: Step, t: TaskId, most: nat, s': State)
    requires Sound(c, s) && Enabled(c, s, step) && s' == Do(c, s, step) && Sound(c, s')
    requires FilesWithin(s, most) && FilesWithin(s', most)
    ensures WorkLeft(c, s', t, most) + (if Works(s, step, t) then 1 else 0) <= WorkLeft(c, s, t, most)
  {
    if t in s.tasks {
      EffortDescends(c, s, step, t);
      EffortIsBounded(c, s, t, most);
      EffortIsBounded(c, s', t, most);
      if Works(s, step, t) {
        LessWeighsLess(EffortOf(c, s', t), EffortOf(c, s, t), most);
      }
    } else if t in s'.tasks {
      EffortIsBounded(c, s', t, most);
    }
  }

  lemma {:induction false} WorkIsBoundedFrom(c: Config, s: State, steps: seq<Step>, t: TaskId, most: nat)
    requires Sound(c, s) && FilesWithin(s, most) && Executable(c, s, steps) && AnswersWithin(steps, most)
    ensures WorkSteps(c, s, steps, t) <= WorkLeft(c, s, t, most)
    decreases |steps|
  {
    if steps != [] {
      var s' := Do(c, s, steps[0]);
      StepKeepsSound(c, s, steps[0]);
      StepKeepsFilesWithin(c, s, steps[0], most);
      StepTakesWork(c, s, steps[0], t, most, s');
      assert forall i :: 0 <= i < |steps[1..]| ==> steps[1..][i] == steps[i + 1];
      WorkIsBoundedFrom(c, s', steps[1..], t, most);
    }
  }

  /** Termination: in every run from the empty system, whatever its length, its clock and its
      repairs, workers take at most `Bound` steps on a task before it is settled. */
  lemma WorkIsBounded(c: Config, steps: seq<Step>, t: TaskId, most: nat)
    requires Executable(c, Init(c), steps) && AnswersWithin(steps, most)
    ensures WorkSteps(c, Init(c), steps, t) <= ((c.maxRetries + 1) * 15 + 14) * (most + 1) + most
  {
    InitInv(c);
    WorkIsBoundedFrom(c, Init(c), steps, t, most);
  }
}
