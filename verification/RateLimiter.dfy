/** The fixed-window rate limiter (internal/httpapi/ratelimit.go). Times are nanoseconds since
    Go's zero time, which is what Truncate aligns windows to; reading the clock and running the
    increment script count as one step. */
module RateLimiter {
  import opened Text

  const MILLISECOND := 1_000_000
  const SECOND := 1_000_000_000

  /** 1 January 1970, in milliseconds since Go's zero time. */
  const UNIX_EPOCH_MS := 62_135_596_800_000

  /** A Redis key with its expiry, in milliseconds. */
  datatype Counter = Counter(count: nat, expiresAt: nat)

  datatype Decision = Decision(allowed: bool, count: nat, retryAfter: nat)

  /** The windows for which the limiter keeps its promise: whole milliseconds. The server
      configures whole seconds. */
  predicate IsWindow(window: int)
  {
    window > 0 && window % MILLISECOND == 0
  }

  /** The number of the aligned window that a time falls into. */
  function WindowOf(now: nat, window: nat): nat
    requires window > 0
  {
    now / window
  }

  function WindowStart(now: nat, window: nat): nat
    requires window > 0
  {
    now - now % window
  }

  /** time.UnixMilli of a window's start. */
  function StartMillis(now: nat, window: nat): int
    requires window > 0
  {
    WindowStart(now, window) / MILLISECOND - UNIX_EPOCH_MS
  }

  /** strconv.FormatInt in base 10. */
  function SignedDecimal(n: int): string
  {
    if n < 0 then "-" + Decimal(-n) else Decimal(n)
  }

  function BucketKey(key: string, now: nat, window: nat): string
    requires window > 0
  {
    key + ":" + SignedDecimal(StartMillis(now, window))
  }

  // ---------------------------------------------------------------- windows and keys

  lemma DivMod(a: nat, b: nat)
    requires b > 0
    ensures a == (a / b) * b + a % b && 0 <= a % b < b
  {
  }

  lemma WindowBounds(now: nat, window: nat)
    requires window > 0
    ensures WindowStart(now, window) == WindowOf(now, window) * window
    ensures WindowStart(now, window) <= now < WindowStart(now, window) + window
  {
    DivMod(now, window);
  }

  lemma StartOfWindow(now: nat, window: nat)
    requires IsWindow(window)
    ensures WindowStart(now, window) == WindowOf(now, window) * window
    ensures WindowStart(now, window) <= now < WindowStart(now, window) + window
    ensures WindowStart(now, window) % MILLISECOND == 0
    ensures WindowStart(now, window) / MILLISECOND == WindowOf(now, window) * (window / MILLISECOND)
  {
    DivMod(now, window);
    WholeMillis(now / window, window, WindowStart(now, window));
  }

  lemma WholeMillis(k: nat, window: nat, start: nat)
    requires window % MILLISECOND == 0 && start == k * window
    ensures start % MILLISECOND == 0 && start / MILLISECOND == k * (window / MILLISECOND)
  {
    var m := window / MILLISECOND;
    assert window == m * MILLISECOND;
    MulAssoc(k, m);
    Multiple(k * m);
  }

  lemma MulAssoc(k: nat, m: nat)
    ensures k * (m * MILLISECOND) == (k * m) * MILLISECOND
  {
  }

  lemma Multiple(n: nat)
    ensures (n * MILLISECOND) % MILLISECOND == 0 && (n * MILLISECOND) / MILLISECOND == n
  {
  }

  lemma SameStartSameWindow(a: nat, b: nat, window: nat)
    requires IsWindow(window)
    ensures StartMillis(a, window) == StartMillis(b, window) <==> WindowOf(a, window) == WindowOf(b, window)
  {
    StartOfWindow(a, window);
    StartOfWindow(b, window);
    var m := window / MILLISECOND;
    MulInjective(WindowOf(a, window), WindowOf(b, window), m);
  }

  lemma MulInjective(a: nat, b: nat, m: nat)
    requires m > 0
    ensures a * m == b * m <==> a == b
  {
    if a < b {
      assert a * m + m <= b * m by {
        assert (a + 1) * m <= b * m;
      }
    } else if b < a {
      assert b * m + m <= a * m by {
        assert (b + 1) * m <= a * m;
      }
    }
  }

  lemma SignedDecimalInjective(a: int, b: int)
    requires SignedDecimal(a) == SignedDecimal(b)
    ensures a == b
  {
    assert SignedDecimal(a)[0] == '-' <==> a < 0;
    assert SignedDecimal(b)[0] == '-' <==> b < 0;
    if a < 0 {
      assert Decimal(-a) == SignedDecimal(a)[1..] == Decimal(-b);
      DecimalInjective(-a, -b);
    } else {
      DecimalInjective(a, b);
    }
  }

  /** A bucket's key determines the limited key and the window. */
  lemma BucketKeyIsInjective(a: string, b: string, s: nat, t: nat, window: nat)
    requires IsWindow(window)
    ensures BucketKey(a, s, window) == BucketKey(b, t, window) <==> a == b && WindowOf(s, window) == WindowOf(t, window)
  {
    SameStartSameWindow(s, t, window);
    if BucketKey(a, s, window) == BucketKey(b, t, window) {
      LastColon(a, b, SignedDecimal(StartMillis(s, window)), SignedDecimal(StartMillis(t, window)));
      SignedDecimalInjective(StartMillis(s, window), StartMillis(t, window));
    }
  }

  lemma NoLaterColon(a: string, b: string, d: string, e: string)
    requires a + ":" + d == b + ":" + e && ':' !in e
    ensures |a| <= |b|
  {
    var x, y := a + ":" + d, b + ":" + e;
    assert x[|a|] == ':';
    assert forall i :: |b| < i < |y| ==> y[i] == e[i - |b| - 1] && y[i] in e;
  }

  lemma LastColon(a: string, b: string, d: string, e: string)
    requires a + ":" + d == b + ":" + e && ':' !in d && ':' !in e
    ensures a == b && d == e
  {
    NoLaterColon(a, b, d, e);
    NoLaterColon(b, a, e, d);
    assert a == (a + ":" + d)[..|a|] && b == (b + ":" + e)[..|b|];
    assert d == (a + ":" + d)[|a| + 1..] && e == (b + ":" + e)[|b| + 1..];
  }

  // ---------------------------------------------------------------- the counters

  /** One counted call. */
  datatype Call = Call(key: string, at: nat)

  predicate Hits(call: Call, key: string, w: nat, window: nat)
    requires window > 0
  {
    call.key == key && WindowOf(call.at, window) == w
  }

  /** How many calls with this key fell into window number `w`. */
  function CountIn(calls: seq<Call>, key: string, w: nat, window: nat): nat
    requires window > 0
  {
    if calls == [] then 0
    else CountIn(calls[..|calls| - 1], key, w, window) + if Hits(calls[|calls| - 1], key, w, window) then 1 else 0
  }

  /** rateLimitIncrementScript: INCR, and PEXPIRE for a fresh counter. */
  function Increment(counters: map<string, Counter>, bucket: string, now: nat, window: nat): Counter
  {
    var millis := now / MILLISECOND;
    if bucket in counters && millis < counters[bucket].expiresAt
    then Counter(counters[bucket].count + 1, counters[bucket].expiresAt)
    else Counter(1, millis + window / MILLISECOND)
  }

  /** The counter of one bucket says how often it was hit, and outlives its window. */
  predicate BucketTracks(counters: map<string, Counter>, calls: seq<Call>, key: string, at: nat, window: nat)
    requires window > 0
  {
    var n, bucket := CountIn(calls, key, WindowOf(at, window), window), BucketKey(key, at, window);
    && (n > 0 <==> bucket in counters)
    && (n > 0 ==> counters[bucket].count == n
                  && counters[bucket].expiresAt * MILLISECOND >= WindowStart(at, window) + window)
  }

  ghost predicate Tracks(counters: map<string, Counter>, calls: seq<Call>, window: nat)
    requires window > 0
  {
    forall key, at :: BucketTracks(counters, calls, key, at, window)
  }

  /** Within its window a counter is never found expired. */
  lemma NotExpired(now: nat, window: nat, expiresAt: nat)
    requires IsWindow(window) && expiresAt * MILLISECOND >= WindowStart(now, window) + window
    ensures now / MILLISECOND < expiresAt
  {
    StartOfWindow(now, window);
  }

  lemma FreshExpiry(now: nat, window: nat)
    requires IsWindow(window)
    ensures (now / MILLISECOND + window / MILLISECOND) * MILLISECOND >= WindowStart(now, window) + window
  {
    StartOfWindow(now, window);
  }

  lemma CountNext(calls: seq<Call>, call: Call, key: string, w: nat, window: nat)
    requires window > 0
    ensures CountIn(calls + [call], key, w, window) == CountIn(calls, key, w, window) + if Hits(call, key, w, window) then 1 else 0
  {
    assert (calls + [call])[..|calls|] == calls;
  }

  lemma SameWindowSameBucket(a: nat, b: nat, window: nat)
    requires IsWindow(window) && WindowOf(a, window) == WindowOf(b, window)
    ensures WindowStart(a, window) == WindowStart(b, window)
  {
    StartOfWindow(a, window);
    StartOfWindow(b, window);
  }

  lemma IncrementTracks(counters: map<string, Counter>, calls: seq<Call>, key: string, now: nat, window: nat)
    requires IsWindow(window) && Tracks(counters, calls, window)
    ensures var bucket := BucketKey(key, now, window);
            var counter := Increment(counters, bucket, now, window);
            && counter.count == CountIn(calls, key, WindowOf(now, window), window) + 1
            && Tracks(counters[bucket := counter], calls + [Call(key, now)], window)
  {
    var bucket := BucketKey(key, now, window);
    var counter := Increment(counters, bucket, now, window);
    var next, call := counters[bucket := counter], Call(key, now);
    assert BucketTracks(counters, calls, key, now, window);
    if bucket in counters {
      NotExpired(now, window, counters[bucket].expiresAt);
    } else {
      FreshExpiry(now, window);
    }
    forall k, at: nat
      ensures BucketTracks(next, calls + [call], k, at, window)
    {
      assert BucketTracks(counters, calls, k, at, window);
      CountNext(calls, call, k, WindowOf(at, window), window);
      BucketKeyIsInjective(k, key, at, now, window);
      if k == key && WindowOf(at, window) == WindowOf(now, window) {
        SameWindowSameBucket(at, now, window);
      }
    }
  }

  /** The counters after a history of counted calls. */
  function CountersAfter(calls: seq<Call>, window: nat): map<string, Counter>
    requires window > 0
  {
    if calls == [] then map[]
    else
      var before, last := CountersAfter(calls[..|calls| - 1], window), calls[|calls| - 1];
      var bucket := BucketKey(last.key, last.at, window);
      before[bucket := Increment(before, bucket, last.at, window)]
  }

  /** The number that a call gets from its counter. */
  function CountAt(calls: seq<Call>, call: Call, window: nat): nat
    requires window > 0
  {
    Increment(CountersAfter(calls, window), BucketKey(call.key, call.at, window), call.at, window).count
  }

  lemma {:induction false} CountersTrack(calls: seq<Call>, window: nat)
    requires IsWindow(window)
    ensures Tracks(CountersAfter(calls, window), calls, window)
  {
    if calls != [] {
      var before, last := calls[..|calls| - 1], calls[|calls| - 1];
      CountersTrack(before, window);
      IncrementTracks(CountersAfter(before, window), before, last.key, last.at, window);
      assert before + [Call(last.key, last.at)] == calls;
    }
  }

  /** In windows of whole milliseconds a call gets its own number within its window. */
  lemma CountIsExact(calls: seq<Call>, call: Call, window: nat)
    requires IsWindow(window)
    ensures CountAt(calls, call, window) == CountIn(calls, call.key, WindowOf(call.at, window), window) + 1
  {
    CountersTrack(calls, window);
    IncrementTracks(CountersAfter(calls, window), calls, call.key, call.at, window);
  }

  class RedisRateLimiter {
    var counters: map<string, Counter>
    const window: int
    ghost var calls: seq<Call>

    ghost predicate Valid()
      reads this
    {
      window > 0 ==> counters == CountersAfter(calls, window)
    }

    constructor (window: int)
      ensures Valid() && this.window == window && calls == []
    {
      this.window := window;
      counters := map[];
      calls := [];
    }

    /** Allow: a limit or a window below one is no limit. In windows of whole milliseconds the first
        `maxRequests` calls of each window pass. */
    method Allow(key: string, maxRequests: int, now: nat) returns (d: Decision)
      requires Valid()
      modifies this
      ensures Valid()
      ensures maxRequests < 1 || window <= 0 ==> d.allowed && calls == old(calls) && counters == old(counters)
      ensures maxRequests >= 1 && window > 0 ==>
                && d.count == CountAt(old(calls), Call(key, now), window) && (d.allowed <==> d.count <= maxRequests)
                && calls == old(calls) + [Call(key, now)]
                && now + d.retryAfter == WindowStart(now, window) + window
      ensures maxRequests >= 1 && IsWindow(window) ==>
                (d.allowed <==> CountIn(old(calls), key, WindowOf(now, window), window) < maxRequests)
    {
      if maxRequests < 1 || window <= 0 {
        return Decision(true, 0, 0);
      }
      WindowBounds(now, window);
      var windowStart := WindowStart(now, window);
      var retryAfter := windowStart + window - now;
      if retryAfter <= 0 {
        retryAfter := SECOND;
      }
      var bucket := BucketKey(key, now, window);
      if IsWindow(window) {
        CountIsExact(calls, Call(key, now), window);
      }
      var counter := Increment(counters, bucket, now, window);
      assert (calls + [Call(key, now)])[..|calls|] == calls;
      counters := counters[bucket := counter];
      calls := calls + [Call(key, now)];
      d := Decision(counter.count <= maxRequests, counter.count, retryAfter);
    }
  }

  // ---------------------------------------------------------------- how many calls pass

  /** Whether call number `i` of a history passes. */
  predicate Admitted(calls: seq<Call>, i: nat, limit: nat, window: nat)
    requires window > 0 && i < |calls|
  {
    CountAt(calls[..i], calls[i], window) <= limit
  }

  /** Whether it should: fewer than `limit` calls with its key came before it in its window. */
  predicate Passed(calls: seq<Call>, i: nat, limit: nat, window: nat)
    requires window > 0 && i < |calls|
  {
    CountIn(calls[..i], calls[i].key, WindowOf(calls[i].at, window), window) < limit
  }

  ghost predicate Exact(window: nat)
    requires window > 0
  {
    forall calls: seq<Call>, i: nat, limit: nat | i < |calls| ::
      Admitted(calls, i, limit, window) <==> Passed(calls, i, limit, window)
  }

  /** In a window with a fraction of a millisecond the counter expires, rounded down, before the
      window ends: a call in its last fraction starts a new count. */
  lemma FractionResetsTheCount(key: string, window: nat, k: nat)
    requires window > 0 && !IsWindow(window)
    ensures var start := k * (MILLISECOND * window);
            var first, second := Call(key, start), Call(key, start + window / MILLISECOND * MILLISECOND);
            && WindowOf(first.at, window) == WindowOf(second.at, window)
            && CountAt([first], second, window) == 1
  {
    var q := window / MILLISECOND;
    var start := k * (MILLISECOND * window);
    var first, second := Call(key, start), Call(key, start + q * MILLISECOND);
    Aligned(k, window, q);
    var bucket := BucketKey(key, start, window);
    assert [first][..0] == [];
    assert CountersAfter([first], window) == map[bucket := Counter(1, start / MILLISECOND + q)];
    assert second.at / MILLISECOND == start / MILLISECOND + q;
  }

  lemma Aligned(k: nat, window: nat, q: nat)
    requires window > 0 && q == window / MILLISECOND && window % MILLISECOND != 0
    ensures var start := k * (MILLISECOND * window);
            && WindowOf(start, window) == WindowOf(start + q * MILLISECOND, window)
            && WindowStart(start, window) == WindowStart(start + q * MILLISECOND, window) == start
            && (start + q * MILLISECOND) / MILLISECOND == start / MILLISECOND + q
  {
    var n := k * MILLISECOND;
    var start := k * (MILLISECOND * window);
    assert start == n * window;
    DivMod(window, MILLISECOND);
    Quotient(start, n, window, 0);
    Quotient(start + q * MILLISECOND, n, window, q * MILLISECOND);
    assert start == (k * window) * MILLISECOND;
    Quotient(start, k * window, MILLISECOND, 0);
    Quotient(start + q * MILLISECOND, k * window + q, MILLISECOND, 0);
  }

  lemma Quotient(a: nat, n: nat, m: nat, rest: nat)
    requires m > 0 && rest < m && a == n * m + rest
    ensures a / m == n && a % m == rest
  {
    DivMod(a, m);
    MulMonotone(a / m + 1, n, m);
    MulMonotone(n + 1, a / m, m);
    assert (a / m + 1) * m == (a / m) * m + m;
    assert (n + 1) * m == n * m + m;
  }

  lemma WholeMillisecondsAreExact(window: nat)
    requires IsWindow(window)
    ensures Exact(window)
  {
    forall calls: seq<Call>, i: nat, limit: nat | i < |calls|
      ensures Admitted(calls, i, limit, window) <==> Passed(calls, i, limit, window)
    {
      CountIsExact(calls[..i], calls[i], window);
    }
  }

  /** Two calls with a limit of one, and the second is admitted. */
  lemma FractionAdmitsTooMany(window: nat) returns (calls: seq<Call>)
    requires window > 0 && !IsWindow(window)
    ensures |calls| == 2 && calls[0].key == calls[1].key == ""
    ensures WindowOf(calls[0].at, window) == WindowOf(calls[1].at, window)
    ensures Admitted(calls, 0, 1, window) && Admitted(calls, 1, 1, window) && !Passed(calls, 1, 1, window)
  {
    FractionResetsTheCount("", window, 0);
    var first, second := Call("", 0), Call("", window / MILLISECOND * MILLISECOND);
    calls := [first, second];
    assert calls[..1] == [first];
    CountNext([], first, "", WindowOf(second.at, window), window);
    assert [] + [first] == [first];
    assert Hits(first, "", WindowOf(second.at, window), window);
  }

  /** The limiter admits exactly the first calls of each window, for every history and limit, if
      and only if its window is a whole number of milliseconds. */
  lemma ExactIffWholeMilliseconds(window: nat)
    requires window > 0
    ensures Exact(window) <==> window % MILLISECOND == 0
  {
    if IsWindow(window) {
      WholeMillisecondsAreExact(window);
    } else {
      var calls := FractionAdmitsTooMany(window);
      assert Admitted(calls, 1, 1, window) && !Passed(calls, 1, 1, window);
    }
  }

  // ---------------------------------------------------------------- how many calls a window admits

  /** The calls with this key in window number `w` that should pass, and those that do. */
  function PassedIn(calls: seq<Call>, key: string, w: nat, limit: nat, window: nat): nat
    requires window > 0
  {
    if calls == [] then 0
    else
      PassedIn(calls[..|calls| - 1], key, w, limit, window)
      + if Hits(calls[|calls| - 1], key, w, window) && Passed(calls, |calls| - 1, limit, window) then 1 else 0
  }

  function AdmittedIn(calls: seq<Call>, key: string, w: nat, limit: nat, window: nat): nat
    requires window > 0
  {
    if calls == [] then 0
    else
      AdmittedIn(calls[..|calls| - 1], key, w, limit, window)
      + if Hits(calls[|calls| - 1], key, w, window) && Admitted(calls, |calls| - 1, limit, window) then 1 else 0
  }

  function Least(a: nat, b: nat): nat
  {
    if a <= b then a else b
  }

  lemma {:induction false} WindowPassesTheLimit(calls: seq<Call>, key: string, w: nat, limit: nat, window: nat)
    requires window > 0
    ensures PassedIn(calls, key, w, limit, window) == Least(CountIn(calls, key, w, window), limit)
  {
    if calls != [] {
      WindowPassesTheLimit(calls[..|calls| - 1], key, w, limit, window);
    }
  }

  lemma {:induction false} AdmittedInIsPassedIn(calls: seq<Call>, key: string, w: nat, limit: nat, window: nat)
    requires IsWindow(window)
    ensures AdmittedIn(calls, key, w, limit, window) == PassedIn(calls, key, w, limit, window)
  {
    if calls != [] {
      var before, last := calls[..|calls| - 1], calls[|calls| - 1];
      AdmittedInIsPassedIn(before, key, w, limit, window);
      CountIsExact(before, last, window);
    }
  }

  /** In every history each window admits its first calls up to the limit and no more. */
  ghost predicate AdmitsTheLimit(window: nat)
    requires window > 0
  {
    forall calls, key, w, limit :: AdmittedIn(calls, key, w, limit, window) == Least(CountIn(calls, key, w, window), limit)
  }

  /** The counters do so if and only if the window is a whole number of milliseconds. */
  lemma WindowAdmitsExactlyTheLimit(window: nat)
    requires window > 0
    ensures AdmitsTheLimit(window) <==> window % MILLISECOND == 0
  {
    if IsWindow(window) {
      forall calls, key, w, limit
        ensures AdmittedIn(calls, key, w, limit, window) == Least(CountIn(calls, key, w, window), limit)
      {
        AdmittedInIsPassedIn(calls, key, w, limit, window);
        WindowPassesTheLimit(calls, key, w, limit, window);
      }
    } else {
      var calls := FractionAdmitsTooMany(window);
      var w := WindowOf(calls[1].at, window);
      assert AdmittedIn(calls, "", w, 1, window) == 2 by {
        AdmittedNext(calls[..1], calls[1], "", w, 1, window);
        AdmittedNext([], calls[0], "", w, 1, window);
        assert calls == calls[..1] + [calls[1]] && calls[..1] == [] + [calls[0]];
      }
      assert AdmittedIn(calls, "", w, 1, window) != Least(CountIn(calls, "", w, window), 1);
    }
  }

  lemma AdmittedNext(calls: seq<Call>, call: Call, key: string, w: nat, limit: nat, window: nat)
    requires window > 0
    ensures AdmittedIn(calls + [call], key, w, limit, window)
            == AdmittedIn(calls, key, w, limit, window)
               + if Hits(call, key, w, window) && CountAt(calls, call, window) <= limit then 1 else 0
  {
    assert (calls + [call])[..|calls|] == calls;
  }

  // ---------------------------------------------------------------- how many calls an interval admits

  /** The calls with this key within `window` from time `from` on that should pass, and those that do. */
  function PassedBetween(calls: seq<Call>, key: string, from: nat, limit: nat, window: nat): nat
    requires window > 0
  {
    if calls == [] then 0
    else
      var last := calls[|calls| - 1];
      PassedBetween(calls[..|calls| - 1], key, from, limit, window)
      + if last.key == key && from <= last.at < from + window && Passed(calls, |calls| - 1, limit, window) then 1 else 0
  }

  function AdmittedBetween(calls: seq<Call>, key: string, from: nat, limit: nat, window: nat): nat
    requires window > 0
  {
    if calls == [] then 0
    else
      var last := calls[|calls| - 1];
      AdmittedBetween(calls[..|calls| - 1], key, from, limit, window)
      + if last.key == key && from <= last.at < from + window && Admitted(calls, |calls| - 1, limit, window) then 1 else 0
  }

  lemma IntervalMeetsTwoWindows(from: nat, at: nat, window: nat)
    requires window > 0 && from <= at < from + window
    ensures WindowOf(at, window) == WindowOf(from, window) || WindowOf(at, window) == WindowOf(from, window) + 1
  {
    DivMod(from, window);
    DivMod(at, window);
    AdjacentWindows(at / window, from / window, at, from, window);
  }

  lemma AdjacentWindows(a: nat, b: nat, at: nat, from: nat, m: nat)
    requires a * m <= at < a * m + m && b * m <= from < b * m + m && from <= at < from + m
    ensures a == b || a == b + 1
  {
    MulMonotone(a + 1, b, m);
    MulMonotone(b + 2, a, m);
    assert (a + 1) * m == a * m + m;
    assert (b + 2) * m == b * m + m + m;
  }

  lemma {:induction false} BetweenIsInTwoWindows(calls: seq<Call>, key: string, from: nat, limit: nat, window: nat)
    requires window > 0
    ensures PassedBetween(calls, key, from, limit, window)
            <= PassedIn(calls, key, WindowOf(from, window), limit, window)
               + PassedIn(calls, key, WindowOf(from, window) + 1, limit, window)
  {
    if calls != [] {
      var last := calls[|calls| - 1];
      BetweenIsInTwoWindows(calls[..|calls| - 1], key, from, limit, window);
      if from <= last.at < from + window {
        IntervalMeetsTwoWindows(from, last.at, window);
      }
    }
  }

  lemma PassesAtMostTwice(calls: seq<Call>, key: string, from: nat, limit: nat, window: nat)
    requires window > 0
    ensures PassedBetween(calls, key, from, limit, window) <= 2 * limit
  {
    BetweenIsInTwoWindows(calls, key, from, limit, window);
    WindowPassesTheLimit(calls, key, WindowOf(from, window), limit, window);
    WindowPassesTheLimit(calls, key, WindowOf(from, window) + 1, limit, window);
  }

  lemma {:induction false} AdmittedBetweenIsPassedBetween(calls: seq<Call>, key: string, from: nat, limit: nat, window: nat)
    requires IsWindow(window)
    ensures AdmittedBetween(calls, key, from, limit, window) == PassedBetween(calls, key, from, limit, window)
  {
    if calls != [] {
      var before, last := calls[..|calls| - 1], calls[|calls| - 1];
      AdmittedBetweenIsPassedBetween(before, key, from, limit, window);
      CountIsExact(before, last, window);
    }
  }

  /** In no history does an interval as long as a window admit more than twice the limit. */
  ghost predicate AdmitsAtMostTwice(window: nat)
    requires window > 0
  {
    forall calls, key, from: nat, limit: nat :: AdmittedBetween(calls, key, from, limit, window) <= 2 * limit
  }

  /** This bound, too, holds if and only if the window is a whole number of milliseconds. */
  lemma AtMostTwiceTheLimit(window: nat)
    requires window > 0
    ensures AdmitsAtMostTwice(window) <==> window % MILLISECOND == 0
  {
    if IsWindow(window) {
      forall calls, key, from: nat, limit: nat
        ensures AdmittedBetween(calls, key, from, limit, window) <= 2 * limit
      {
        AdmittedBetweenIsPassedBetween(calls, key, from, limit, window);
        PassesAtMostTwice(calls, key, from, limit, window);
      }
    } else {
      var calls, from := FractionAdmitsThree(window);
      assert AdmittedBetween(calls, "", from, 1, window) == 3;
    }
  }

  lemma CountersNext(calls: seq<Call>, call: Call, window: nat)
    requires window > 0
    ensures var counters, bucket := CountersAfter(calls, window), BucketKey(call.key, call.at, window);
            CountersAfter(calls + [call], window) == counters[bucket := Increment(counters, bucket, call.at, window)]
  {
    assert (calls + [call])[..|calls|] == calls;
  }

  lemma IncrementFresh(counters: map<string, Counter>, bucket: string, now: nat, window: nat)
    requires bucket in counters ==> counters[bucket].expiresAt <= now / MILLISECOND
    ensures Increment(counters, bucket, now, window) == Expiring(now, window)
  {
  }

  /** A call that finds no counter, or an expired one, is the first of a new count. */
  lemma FreshCount(calls: seq<Call>, call: Call, window: nat, counters: map<string, Counter>, bucket: string)
    requires window > 0 && counters == CountersAfter(calls, window) && bucket == BucketKey(call.key, call.at, window)
    requires bucket in counters ==> counters[bucket].expiresAt <= call.at / MILLISECOND
    ensures CountAt(calls, call, window) == 1
    ensures CountersAfter(calls + [call], window) == counters[bucket := Expiring(call.at, window)]
  {
    IncrementFresh(counters, bucket, call.at, window);
    CountersNext(calls, call, window);
  }

  function Expiring(now: nat, window: nat): Counter
  {
    Counter(1, now / MILLISECOND + window / MILLISECOND)
  }

  lemma OneMore(calls: seq<Call>, call: Call, from: nat, window: nat)
    requires window > 0 && call.key == "" && from <= call.at < from + window && CountAt(calls, call, window) == 1
    ensures AdmittedBetween(calls + [call], "", from, 1, window) == AdmittedBetween(calls, "", from, 1, window) + 1
  {
    assert (calls + [call])[..|calls|] == calls;
  }

  /** Each of the three calls finds no counter of its bucket that has not expired. */
  predicate NeverCounted(a: Call, b: Call, c: Call, window: nat)
    requires window > 0
  {
    var x, y, z := BucketKey(a.key, a.at, window), BucketKey(b.key, b.at, window), BucketKey(c.key, c.at, window);
    var life := window / MILLISECOND;
    && (x == y ==> a.at / MILLISECOND + life <= b.at / MILLISECOND)
    && (x == z ==> a.at / MILLISECOND + life <= c.at / MILLISECOND)
    && (y == z ==> b.at / MILLISECOND + life <= c.at / MILLISECOND)
  }

  lemma ThreeAreAdmitted(a: Call, b: Call, c: Call, from: nat, window: nat) returns (calls: seq<Call>)
    requires window > 0 && a.key == b.key == c.key == "" && NeverCounted(a, b, c, window)
    requires from <= a.at < from + window && from <= b.at < from + window && from <= c.at < from + window
    ensures AdmittedBetween(calls, "", from, 1, window) == 3
  {
    var x, y, z := BucketKey(a.key, a.at, window), BucketKey(b.key, b.at, window), BucketKey(c.key, c.at, window);
    var none: seq<Call> := [];
    var first := map[x := Expiring(a.at, window)];
    FreshCount(none, a, window, map[], x);
    FreshCount(none + [a], b, window, first, y);
    FreshCount(none + [a] + [b], c, window, first[y := Expiring(b.at, window)], z);
    OneMore(none, a, from, window);
    OneMore(none + [a], b, from, window);
    OneMore(none + [a] + [b], c, from, window);
    calls := none + [a] + [b] + [c];
  }

  /** Where three calls at the last fraction of the first window, the start of the second and the
      expiry of its counter fall. */
  lemma ThreeTimes(window: nat, q: nat)
    requires !IsWindow(window) && q == window / MILLISECOND && q > 0
    ensures q * MILLISECOND < window < 2 * (q * MILLISECOND) < 2 * window
    ensures q * MILLISECOND / MILLISECOND == q && 2 * (q * MILLISECOND) / MILLISECOND == 2 * q
    ensures StartMillis(q * MILLISECOND, window) == -UNIX_EPOCH_MS
    ensures StartMillis(window, window) == StartMillis(2 * (q * MILLISECOND), window) == q - UNIX_EPOCH_MS
  {
    var from := q * MILLISECOND;
    DivMod(window, MILLISECOND);
    Quotient(from, q, MILLISECOND, 0);
    Quotient(2 * from, 2 * q, MILLISECOND, 0);
    Quotient(from, 0, window, from);
    Quotient(window, 1, window, 0);
    Quotient(2 * from, 1, window, 2 * from - window);
  }

  /** With a limit of one, three calls are admitted: the counter of the second window starts again
      before an interval that began in the last fraction of the first one is over. */
  lemma FractionAdmitsThree(window: nat) returns (calls: seq<Call>, from: nat)
    requires window > 0 && !IsWindow(window)
    ensures AdmittedBetween(calls, "", from, 1, window) == 3
  {
    var q := window / MILLISECOND;
    from := q * MILLISECOND;
    if q == 0 {
      calls := ThreeAreAdmitted(Call("", 0), Call("", 0), Call("", 0), from, window);
    } else {
      ThreeTimes(window, q);
      DifferentBuckets(from, window, window);
      DifferentBuckets(from, 2 * from, window);
      calls := ThreeAreAdmitted(Call("", from), Call("", window), Call("", 2 * from), from, window);
    }
  }

  lemma DifferentBuckets(s: nat, t: nat, window: nat)
    requires window > 0 && StartMillis(s, window) != StartMillis(t, window)
    ensures BucketKey("", s, window) != BucketKey("", t, window)
  {
    if BucketKey("", s, window) == BucketKey("", t, window) {
      LastColon("", "", SignedDecimal(StartMillis(s, window)), SignedDecimal(StartMillis(t, window)));
      SignedDecimalInjective(StartMillis(s, window), StartMillis(t, window));
    }
  }

  // ---------------------------------------------------------------- when to retry

  /** retryAfterSeconds. */
  function RetryAfterSeconds(delay: int): int
  {
    if delay <= 0 then 1
    else
      var seconds := (delay + SECOND - 1) / SECOND;
      if seconds < 1 then 1 else seconds
  }

  /** Waiting as long as advertised always ends in a later window, and at most a second late. */
  lemma WaitingHelps(now: nat, window: nat)
    requires window > 0
    ensures var delay := WindowStart(now, window) + window - now;
            var later := now + RetryAfterSeconds(delay) * SECOND;
            && WindowOf(later, window) > WindowOf(now, window)
            && WindowStart(now, window) + window <= later < WindowStart(now, window) + window + SECOND
  {
    WindowBounds(now, window);
    var later := now + RetryAfterSeconds(WindowStart(now, window) + window - now) * SECOND;
    LaterWindow(now, later, window);
  }

  lemma LaterWindow(now: nat, later: nat, window: nat)
    requires window > 0 && later >= (now / window) * window + window
    ensures later / window > now / window
  {
    DivMod(later, window);
    MulMonotone(later / window + 1, now / window + 1, window);
  }

  lemma MulMonotone(a: nat, b: nat, m: nat)
    ensures a <= b ==> a * m <= b * m
  {
  }
}
