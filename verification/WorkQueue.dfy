/** The shared work queue: a ready list, a scheduled set ordered by due time and one lock
    key per task (internal/queue/redis.go). Every operation is one Redis command or script,
    so each is one atomic step of the task protocol.

    Clock values are nanoseconds; scores in the scheduled set are whole milliseconds. */
module WorkQueue {

  type TaskId = string

  const MILLISECOND := 1_000_000
  const SECOND := 1_000_000_000

  datatype Queue = Queue(ready: seq<TaskId>, scheduled: map<TaskId, int>, locks: set<TaskId>)

  /** The clock reading as UnixMilli sees it. */
  function Millis(now: int): int
  {
    now / MILLISECOND
  }

  function Pushed(q: Queue, t: TaskId): Queue
  {
    q.(ready := q.ready + [t])
  }

  /** ZADD keeps one score per member: a second call moves the task. A delay that is not
      positive is a plain push. */
  function PushedAfter(q: Queue, t: TaskId, now: int, delay: int): Queue
  {
    if delay <= 0 then Pushed(q, t)
    else q.(scheduled := q.scheduled[t := Millis(now + delay)])
  }

  function Limit(limit: int): nat
  {
    if limit < 1 then 1 else limit
  }

  ghost predicate NoDuplicates<T>(s: seq<T>)
  {
    forall i, j :: 0 <= i < j < |s| ==> s[i] != s[j]
  }

  /** `ids` is an answer of ZRANGEBYSCORE -inf now LIMIT 0 limit: due members only, lowest
      scores first, and a due member is left behind only when the limit is used up by
      members that are no later. (Redis breaks ties by member name; this leaves ties open.) */
  ghost predicate IsDueRange(scheduled: map<TaskId, int>, nowMs: int, limit: int, ids: seq<TaskId>)
  {
    && (forall i :: 0 <= i < |ids| ==> ids[i] in scheduled && scheduled[ids[i]] <= nowMs)
    && NoDuplicates(ids)
    && |ids| <= Limit(limit)
    && (forall i, j :: 0 <= i < j < |ids| ==> scheduled[ids[i]] <= scheduled[ids[j]])
    && (forall t :: t in scheduled && scheduled[t] <= nowMs && t !in ids ==>
          |ids| == Limit(limit) && forall i :: 0 <= i < |ids| ==> scheduled[ids[i]] <= scheduled[t])
  }

  function Promoted(q: Queue, ids: seq<TaskId>): Queue
  {
    q.(ready := q.ready + ids, scheduled := q.scheduled - (set t | t in ids))
  }

  function Popped(q: Queue): Queue
    requires q.ready != []
  {
    q.(ready := q.ready[1..])
  }

  function Locked(q: Queue, t: TaskId): Queue
  {
    q.(locks := q.locks + {t})
  }

  function Unlocked(q: Queue, t: TaskId): Queue
  {
    q.(locks := q.locks - {t})
  }

  /** The copies of a task the queue holds. */
  function Tokens(q: Queue, t: TaskId): nat
  {
    multiset(q.ready)[t] + if t in q.scheduled then 1 else 0
  }

  /** Promotion neither loses nor invents work: it moves each due copy from one place to the other. */
  lemma PromotionConservesTokens(q: Queue, nowMs: int, limit: int, ids: seq<TaskId>, t: TaskId)
    requires IsDueRange(q.scheduled, nowMs, limit, ids)
    ensures Tokens(Promoted(q, ids), t) == Tokens(q, t)
  {
    assert multiset(q.ready + ids) == multiset(q.ready) + multiset(ids);
    NoDuplicatesCount(ids, t);
  }

  lemma {:induction false} NoDuplicatesCount<T>(s: seq<T>, x: T)
    requires NoDuplicates(s)
    ensures multiset(s)[x] == if x in s then 1 else 0
  {
    if s != [] {
      assert s == [s[0]] + s[1..];
      NoDuplicatesCount(s[1..], x);
    }
  }

  /** Due is what is not later than the clock; as much of it is taken as the limit allows, and at
      least one entry may always be taken. */
  ghost predicate TakesDue(scheduled: map<TaskId, int>, now: int, limit: int, ids: seq<TaskId>)
  {
    var due, most := set t | t in scheduled && scheduled[t] * 1_000_000 <= now, if limit > 1 then limit else 1;
    (forall t :: t in ids ==> t in due) && |ids| == if |due| <= most then |due| else most
  }

  lemma DueRangeTakesDue(scheduled: map<TaskId, int>, now: int, limit: int, ids: seq<TaskId>)
    requires IsDueRange(scheduled, Millis(now), limit, ids)
    ensures TakesDue(scheduled, now, limit, ids)
  {
    var due, taken := set t | t in scheduled && scheduled[t] * 1_000_000 <= now, set t | t in ids;
    DistinctCount(ids);
    assert taken <= due;
    Smaller(taken, due);
    if taken != due {
      var t :| t in due && t !in taken;
      assert scheduled[t] <= Millis(now) && t !in ids;
    }
  }

  lemma {:induction false} Smaller<T>(a: set<T>, b: set<T>)
    requires a <= b
    ensures |a| <= |b| && (a != b ==> |a| < |b|)
  {
    if a != {} {
      var x :| x in a;
      Smaller(a - {x}, b - {x});
    }
  }

  lemma {:induction false} DistinctCount<T>(s: seq<T>)
    requires NoDuplicates(s)
    ensures |set x | x in s| == |s|
  {
    if s == [] {
      assert (set x | x in s) == {};
    } else {
      var init, last := s[..|s| - 1], s[|s| - 1];
      DistinctCount(init);
      assert s == init + [last] && last !in init;
      assert (set x | x in s) == (set x | x in init) + {last};
    }
  }

  /** RedisQueue: the ready list, the scheduled set and the lock keys, changed in place. */
  class RedisQueue {
    var ready: seq<TaskId>
    var scheduled: map<TaskId, int>
    var locks: set<TaskId>

    constructor ()
      ensures Contents() == Queue([], map[], {})
    {
      ready, scheduled, locks := [], map[], {};
    }

    function Contents(): Queue
      reads this
    {
      Queue(ready, scheduled, locks)
    }

    method Enqueue(t: TaskId)
      modifies this`ready
      ensures Contents() == Pushed(old(Contents()), t)
      ensures ready == old(ready) + [t]
    {
      ready := ready + [t];
    }

    method EnqueueAfter(t: TaskId, now: int, delay: int)
      modifies this`ready, this`scheduled
      ensures Contents() == PushedAfter(old(Contents()), t, now, delay)
      ensures if delay <= 0 then ready == old(ready) + [t] && scheduled == old(scheduled)
              else ready == old(ready) && scheduled == old(scheduled)[t := (now + delay) / 1_000_000]
    {
      if delay <= 0 {
        Enqueue(t);
        return;
      }
      var readyAt := now + delay;
      scheduled := scheduled[t := readyAt / MILLISECOND];
    }

    /** The promotion script. `ids` names the tasks it moved; the caller sees only the count. */
    method PromoteScheduled(now: int, limit: int) returns (promoted: nat, ghost ids: seq<TaskId>)
      modifies this`ready, this`scheduled
      ensures IsDueRange(old(scheduled), Millis(now), limit, ids)
      ensures promoted == |ids|
      ensures Contents() == Promoted(old(Contents()), ids)
      ensures ready == old(ready) + ids && scheduled == old(scheduled) - (set t | t in ids)
      ensures TakesDue(old(scheduled), now, limit, ids)
    {
      var due := RangeByScore(now / MILLISECOND, if limit < 1 then 1 else limit);
      ids := due;
      DueRangeTakesDue(scheduled, now, limit, ids);
      promoted := |due|;
      for k := 0 to |due|
        invariant ready == old(ready) + due[..k]
        invariant scheduled == old(scheduled) - (set t | t in due[..k])
        invariant locks == old(locks)
      {
        assert due[..k + 1] == due[..k] + [due[k]];
        scheduled := scheduled - {due[k]};
        ready := ready + [due[k]];
      }
      assert due[..|due|] == due;
    }

    /** ZRANGEBYSCORE scheduled -inf nowMs LIMIT 0 limit. */
    method RangeByScore(nowMs: int, limit: nat) returns (due: seq<TaskId>)
      requires 1 <= limit
      ensures IsDueRange(scheduled, nowMs, limit, due)
    {
      due := [];
      var left := set t | t in scheduled && scheduled[t] <= nowMs;
      ghost var all := left;
      while left != {} && |due| < limit
        invariant left <= all && NoDuplicates(due) && |due| <= limit
        invariant forall t :: t in all <==> t in left || t in due
        invariant forall i :: 0 <= i < |due| ==> due[i] in all && due[i] !in left
        invariant forall i, j :: 0 <= i < j < |due| ==> scheduled[due[i]] <= scheduled[due[j]]
        invariant forall i, t :: 0 <= i < |due| && t in left ==> scheduled[due[i]] <= scheduled[t]
        decreases left
      {
        var least :| least in left;
        var others := left - {least};
        while others != {}
          invariant least in left && others <= left
          invariant forall t :: t in left && t !in others ==> scheduled[least] <= scheduled[t]
          decreases others
        {
          var t :| t in others;
          if scheduled[t] < scheduled[least] {
            least := t;
          }
          others := others - {t};
        }
        due, left := due + [least], left - {least};
      }
    }

    /** BLPOP, or nothing when the list stays empty until the timeout. */
    method Dequeue() returns (t: TaskId, ok: bool)
      modifies this`ready
      ensures ok <==> old(ready) != []
      ensures ok ==> old(ready) == [t] + ready && Contents() == Popped(old(Contents()))
      ensures !ok ==> Contents() == old(Contents())
    {
      if ready == [] {
        return "", false;
      }
      t, ok := ready[0], true;
      ready := ready[1..];
    }

    /** SET NX: only the caller that finds no key gets the lock. */
    method LockTask(t: TaskId) returns (locked: bool)
      modifies this`locks
      ensures locked <==> t !in old(locks)
      ensures Contents() == Locked(old(Contents()), t)
      ensures locks == old(locks) + {t}
    {
      locked := t !in locks;
      if locked {
        locks := locks + {t};
      }
    }

    method UnlockTask(t: TaskId)
      modifies this`locks
      ensures Contents() == Unlocked(old(Contents()), t)
      ensures locks == old(locks) - {t}
    {
      locks := locks - {t};
    }
  }
}
