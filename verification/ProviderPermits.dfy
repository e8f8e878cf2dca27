/** The provider concurrency limit: one counting semaphore per limited provider, shared by all
    workers and all split goroutines (internal/app/service.go). The semaphore is a buffered
    channel: sending takes a permit, receiving gives it back. */
module ProviderPermits {

  type Provider = string

  /** A call before it has a permit, while the adapter runs, after the adapter answered (with or
      without an error), and after it gave up waiting because the context ended. */
  datatype Phase = Queueing | InFlight | Answered(failed: bool) | Canceled

  datatype Call = Call(provider: Provider, phase: Phase)

  /** `capacity` has an entry exactly for the limited providers; `taken` counts the tokens in
      each channel. */
  datatype Pool = Pool(capacity: map<Provider, nat>, taken: map<Provider, nat>, calls: seq<Call>)

  datatype Step =
    | Start(provider: Provider)          // a worker or a split goroutine begins a call
    | Acquire(i: nat)                    // the send succeeds, or there is no limiter
    | Answer(i: nat, failed: bool)       // the adapter returns; the deferred receive runs
    | GiveUp(i: nat)                     // the context ended while waiting for the limiter

  /** Only positive limits create a channel. */
  function NewLimiters(limits: map<Provider, int>): map<Provider, nat>
  {
    map p | p in limits && limits[p] > 0 :: limits[p]
  }

  function Init(limits: map<Provider, int>): Pool
  {
    var capacity := NewLimiters(limits);
    Pool(capacity, map p | p in capacity :: 0, [])
  }

  predicate Is(s: Pool, i: nat, phase: Phase)
  {
    i < |s.calls| && s.calls[i].phase == phase
  }

  predicate Limited(s: Pool, p: Provider)
  {
    p in s.capacity && p in s.taken
  }

  predicate Enabled(s: Pool, step: Step)
  {
    match step
    case Start(_) => true
    case Acquire(i) =>
      Is(s, i, Queueing) && (Limited(s, s.calls[i].provider) ==> s.taken[s.calls[i].provider] < s.capacity[s.calls[i].provider])
    case Answer(i, _) => Is(s, i, InFlight) && (Limited(s, s.calls[i].provider) ==> s.taken[s.calls[i].provider] > 0)
    case GiveUp(i) => Is(s, i, Queueing) && Limited(s, s.calls[i].provider)
  }

  function Enter(s: Pool, i: nat, phase: Phase): Pool
    requires i < |s.calls|
  {
    s.(calls := s.calls[i := s.calls[i].(phase := phase)])
  }

  function Add(s: Pool, p: Provider, n: int): Pool
    requires Limited(s, p) ==> s.taken[p] + n >= 0
  {
    if Limited(s, p) then s.(taken := s.taken[p := s.taken[p] + n]) else s
  }

  function Do(s: Pool, step: Step): Pool
    requires Enabled(s, step)
  {
    match step
    case Start(p) => s.(calls := s.calls + [Call(p, Queueing)])
    case Acquire(i) => Enter(Add(s, s.calls[i].provider, 1), i, InFlight)
    case Answer(i, failed) => Enter(Add(s, s.calls[i].provider, -1), i, Answered(failed))
    case GiveUp(i) => Enter(s, i, Canceled)
  }

  predicate Executable(s: Pool, steps: seq<Step>)
    decreases |steps|
  {
    steps != [] ==> Enabled(s, steps[0]) && Executable(Do(s, steps[0]), steps[1..])
  }

  function Run(s: Pool, steps: seq<Step>): Pool
    requires Executable(s, steps)
    decreases |steps|
  {
    if steps == [] then s else Run(Do(s, steps[0]), steps[1..])
  }

  // ---------------------------------------------------------------- the bound

  function CountInFlight(calls: seq<Call>, p: Provider): nat
  {
    if calls == [] then 0
    else CountInFlight(calls[..|calls| - 1], p) + if calls[|calls| - 1] == Call(p, InFlight) then 1 else 0
  }

  /** Every token in a channel belongs to exactly one running adapter call. */
  ghost predicate Inv(s: Pool)
  {
    && s.taken.Keys == s.capacity.Keys
    && (forall p :: p in s.capacity ==> s.capacity[p] >= 1)
    && (forall p :: p in s.capacity ==> s.taken[p] == CountInFlight(s.calls, p) <= s.capacity[p])
  }

  lemma {:induction false} CountAfterEnter(calls: seq<Call>, i: nat, phase: Phase, p: Provider)
    requires i < |calls|
    ensures CountInFlight(calls[i := calls[i].(phase := phase)], p)
            == CountInFlight(calls, p)
               - (if calls[i] == Call(p, InFlight) then 1 else 0)
               + (if calls[i].provider == p && phase == InFlight then 1 else 0)
  {
    var n := |calls| - 1;
    var after := calls[i := calls[i].(phase := phase)];
    if i < n {
      assert after[..n] == calls[..n][i := calls[i].(phase := phase)];
      CountAfterEnter(calls[..n], i, phase, p);
    } else {
      assert after[..n] == calls[..n];
    }
  }

  lemma StartKeepsInv(s: Pool, p: Provider, s': Pool)
    requires Inv(s) && s' == s.(calls := s.calls + [Call(p, Queueing)])
    ensures Inv(s')
  {
    assert s'.calls[..|s.calls|] == s.calls;
  }

  /** What entering a phase does to the calls in flight. */
  function Change(before: Phase, after: Phase): int
  {
    (if after == InFlight then 1 else 0) - (if before == InFlight then 1 else 0)
  }

  /** A call that changes its phase takes or gives back the token that the phase requires. */
  lemma EnterKeepsInv(s: Pool, i: nat, phase: Phase, s': Pool)
    requires Inv(s) && i < |s.calls|
    requires var q, n := s.calls[i].provider, Change(s.calls[i].phase, phase);
             && s'.capacity == s.capacity && s'.calls == s.calls[i := s.calls[i].(phase := phase)]
             && (q in s.taken ==> 0 <= s.taken[q] + n <= s.capacity[q] && s'.taken == s.taken[q := s.taken[q] + n])
             && (q !in s.taken ==> s'.taken == s.taken)
    ensures Inv(s')
  {
    forall p | p in s.capacity
      ensures s'.taken[p] == CountInFlight(s'.calls, p) <= s'.capacity[p]
    {
      CountAfterEnter(s.calls, i, phase, p);
    }
  }

  lemma AcquireKeepsInv(s: Pool, i: nat, s': Pool)
    requires Inv(s) && Enabled(s, Acquire(i)) && s' == Do(s, Acquire(i))
    ensures Inv(s')
  {
    EnterKeepsInv(s, i, InFlight, s');
  }

  lemma AnswerKeepsInv(s: Pool, i: nat, failed: bool, s': Pool)
    requires Inv(s) && Enabled(s, Answer(i, failed)) && s' == Do(s, Answer(i, failed))
    ensures Inv(s')
  {
    EnterKeepsInv(s, i, Answered(failed), s');
  }

  lemma GiveUpKeepsInv(s: Pool, i: nat, s': Pool)
    requires Inv(s) && Enabled(s, GiveUp(i)) && s' == Do(s, GiveUp(i))
    ensures Inv(s')
  {
    var q := s.calls[i].provider;
    assert s'.taken == s.taken[q := s.taken[q] + 0];
    EnterKeepsInv(s, i, Canceled, s');
  }

  lemma StepKeepsInv(s: Pool, step: Step)
    requires Inv(s) && Enabled(s, step)
    ensures Inv(Do(s, step))
  {
    match step
    case Start(p) => StartKeepsInv(s, p, Do(s, step));
    case Acquire(i) => AcquireKeepsInv(s, i, Do(s, step));
    case Answer(i, failed) => AnswerKeepsInv(s, i, failed, Do(s, step));
    case GiveUp(i) => GiveUpKeepsInv(s, i, Do(s, step));
  }

  lemma {:induction false} RunKeepsInv(s: Pool, steps: seq<Step>)
    requires Inv(s) && Executable(s, steps)
    ensures Inv(Run(s, steps)) && Run(s, steps).capacity == s.capacity
    decreases |steps|
  {
    if steps != [] {
      StepKeepsInv(s, steps[0]);
      RunKeepsInv(Do(s, steps[0]), steps[1..]);
    }
  }

  lemma {:induction false} NoneInFlight(calls: seq<Call>, p: Provider)
    ensures CountInFlight(calls, p) == 0 <==> forall i :: 0 <= i < |calls| ==> calls[i] != Call(p, InFlight)
  {
    if calls != [] {
      var init := calls[..|calls| - 1];
      NoneInFlight(init, p);
      assert forall i :: 0 <= i < |init| ==> init[i] == calls[i];
    }
  }

  /** In every interleaving of any number of callers, the adapter calls in flight for a limited
      provider never exceed its limit, every permit in use belongs to one of them, and when no
      call is in flight, on whatever paths the calls ended, all permits are back. */
  lemma ConcurrencyBound(limits: map<Provider, int>, steps: seq<Step>, p: Provider)
    requires Executable(Init(limits), steps)
    requires p in limits && limits[p] > 0
    ensures var s := Run(Init(limits), steps);
            && p in s.taken && s.taken[p] == CountInFlight(s.calls, p) <= limits[p]
            && ((forall i :: 0 <= i < |s.calls| ==> s.calls[i].phase != InFlight) ==> s.taken[p] == 0)
  {
    RunKeepsInv(Init(limits), steps);
    NoneInFlight(Run(Init(limits), steps).calls, p);
  }

  /** The running calls for `p`. */
  function RunningCalls(calls: seq<Call>, p: Provider): set<nat>
  {
    set i: nat | i < |calls| && calls[i] == Call(p, InFlight)
  }

  lemma {:induction false} CountIsNumber(calls: seq<Call>, p: Provider)
    ensures CountInFlight(calls, p) == |RunningCalls(calls, p)|
  {
    if calls == [] {
      assert RunningCalls(calls, p) == {};
    } else {
      var init, n := calls[..|calls| - 1], |calls| - 1;
      CountIsNumber(init, p);
      forall i: nat
        ensures i in RunningCalls(calls, p) <==> i in RunningCalls(init, p) || (i == n && calls[n] == Call(p, InFlight))
      {
        assert i < n ==> init[i] == calls[i];
      }
      if calls[n] == Call(p, InFlight) {
        assert RunningCalls(calls, p) == RunningCalls(init, p) + {n};
      } else {
        assert RunningCalls(calls, p) == RunningCalls(init, p);
      }
    }
  }

  /** The limit is exact: in every reachable state a waiting call can take a permit if and only if
      its provider has no positive limit or has fewer running calls than the limit; only a call that
      may have to wait can give up. */
  lemma PermitIffBelowLimit(limits: map<Provider, int>, steps: seq<Step>, i: nat)
    requires Executable(Init(limits), steps)
    requires var s := Run(Init(limits), steps); i < |s.calls| && s.calls[i].phase == Queueing
    ensures var s := Run(Init(limits), steps);
            var p := s.calls[i].provider;
            && (Enabled(s, Acquire(i)) <==> (p in limits && limits[p] > 0 ==> |RunningCalls(s.calls, p)| < limits[p]))
            && (Enabled(s, GiveUp(i)) <==> p in limits && limits[p] > 0)
  {
    RunKeepsInv(Init(limits), steps);
    CountIsNumber(Run(Init(limits), steps).calls, Run(Init(limits), steps).calls[i].provider);
  }

  // ---------------------------------------------------------------- no deadlock

  predicate Finished(phase: Phase)
  {
    phase.Answered? || phase.Canceled?
  }

  predicate AllFinished(calls: seq<Call>)
  {
    forall i :: 0 <= i < |calls| ==> Finished(calls[i].phase)
  }

  /** Work left: two steps for a waiting call, one for a running one. */
  function Weight(phase: Phase): nat
  {
    match phase
    case Queueing => 2
    case InFlight => 1
    case _ => 0
  }

  function Work(calls: seq<Call>): nat
  {
    if calls == [] then 0 else Work(calls[..|calls| - 1]) + Weight(calls[|calls| - 1].phase)
  }

  lemma {:induction false} WorkAfterEnter(calls: seq<Call>, i: nat, phase: Phase)
    requires i < |calls|
    ensures Work(calls[i := calls[i].(phase := phase)]) == Work(calls) - Weight(calls[i].phase) + Weight(phase)
  {
    var n := |calls| - 1;
    var after := calls[i := calls[i].(phase := phase)];
    if i < n {
      assert after[..n] == calls[..n][i := calls[i].(phase := phase)];
      WorkAfterEnter(calls[..n], i, phase);
    } else {
      assert after[..n] == calls[..n];
    }
  }

  /** No reachable state is stuck: while a call is unfinished, some call can take its permit or
      the adapter of some call can return, and that brings all calls one step nearer the end. */
  lemma Progress(s: Pool) returns (step: Step)
    requires Inv(s) && !AllFinished(s.calls)
    ensures (step.Acquire? || (step.Answer? && !step.failed)) && Enabled(s, step)
    ensures Work(Do(s, step).calls) < Work(s.calls)
  {
    if i :| 0 <= i < |s.calls| && s.calls[i].phase == InFlight {
      step := Answer(i, false);
      NoneInFlight(s.calls, s.calls[i].provider);
      WorkAfterEnter(s.calls, i, Answered(false));
    } else {
      var i :| 0 <= i < |s.calls| && !Finished(s.calls[i].phase);
      step := Acquire(i);
      NoneInFlight(s.calls, s.calls[i].provider);
      WorkAfterEnter(s.calls, i, InFlight);
    }
  }

  /** Calls that were not finished are answered; the others are as they were. */
  predicate Settles(before: seq<Call>, after: seq<Call>)
  {
    && |after| == |before|
    && forall i :: 0 <= i < |before| ==>
         after[i] == if Finished(before[i].phase) then before[i] else Call(before[i].provider, Answered(false))
  }

  /** From any state of any run, all waiting and running calls can be brought to an end without
      a cancellation, in at most `Work` steps. */
  lemma {:induction false} EveryCallCanFinish(s: Pool) returns (steps: seq<Step>)
    requires Inv(s)
    ensures Executable(s, steps) && |steps| <= Work(s.calls)
    ensures forall k :: 0 <= k < |steps| ==> !steps[k].Start? && !steps[k].GiveUp?
    ensures AllFinished(Run(s, steps).calls) && Settles(s.calls, Run(s, steps).calls)
    decreases Work(s.calls)
  {
    if AllFinished(s.calls) {
      steps := [];
    } else {
      var first := Progress(s);
      StepKeepsInv(s, first);
      var rest := EveryCallCanFinish(Do(s, first));
      steps := [first] + rest;
      assert steps[1..] == rest;
    }
  }

  /** No reachable state is deadlocked on permits. */
  lemma NeverStuck(limits: map<Provider, int>, steps: seq<Step>) returns (more: seq<Step>)
    requires Executable(Init(limits), steps)
    ensures Executable(Run(Init(limits), steps), more) && AllFinished(Run(Run(Init(limits), steps), more).calls)
    ensures Settles(Run(Init(limits), steps).calls, Run(Run(Init(limits), steps), more).calls)
    ensures forall k :: 0 <= k < |more| ==> !more[k].Start? && !more[k].GiveUp?
  {
    RunKeepsInv(Init(limits), steps);
    more := EveryCallCanFinish(Run(Init(limits), steps));
  }
}
