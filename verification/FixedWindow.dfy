/** The Redis-based rate limiter (engine/redis_cache.py): one expiring counter per key and
    aligned window. Time is one clock shared by callers and Redis. */
module FixedWindow {
  import opened Options
  import opened Numbers
  import opened Sequences

  /** identifier, window length, window start */
  datatype Key = Key(identifier: string, window: int, start: int)

  datatype Counter = Counter(count: nat, expiresAt: real)

  type Store = map<Key, Counter>

  /** int(now // window) * window */
  function WindowStart(now: real, window: int): int
    requires window != 0
  {
    (now / window as real).Floor * window
  }

  function KeyAt(identifier: string, window: int, now: real): Key
    requires window != 0
  {
    Key(identifier, window, WindowStart(now, window))
  }

  /** What Redis holds under the key now: nothing once the expiry has passed. */
  function Read(store: Store, key: Key, now: real): nat {
    if key in store && now < store[key].expiresAt then store[key].count else 0
  }

  /** INCR followed by EXPIRE, which deletes a key whose time to live is not positive. */
  function Bump(store: Store, key: Key, now: real): Store {
    if key.window > 0 then store[key := Counter(Read(store, key, now) + 1, now + key.window as real)]
    else store - {key}
  }

  datatype Verdict = Verdict(allowed: bool, remaining: int, resetAfter: int) | ZeroDivisionError

  class RateLimiter {
    var redis: Store

    constructor ()
      ensures redis == map[]
    {
      redis := map[];
    }

    /** With Redis down everything is allowed and nothing is counted. */
    method IsAllowed(identifier: string, maxRequests: int, windowSeconds: int, now: real, up: bool)
        returns (r: Verdict)
      modifies this
      ensures r.ZeroDivisionError? <==> windowSeconds == 0
      ensures r.Verdict? && up ==> redis == Bump(old(redis), KeyAt(identifier, windowSeconds, now), now)
      ensures r.ZeroDivisionError? || !up ==> redis == old(redis)
      ensures r.Verdict? && !up ==> r == Verdict(true, maxRequests, windowSeconds)
      ensures r.Verdict? && up ==>
                var count := Read(old(redis), KeyAt(identifier, windowSeconds, now), now) + 1;
                (r.allowed <==> count <= maxRequests) && r.remaining == Max0(maxRequests - count)
      // The least number of whole seconds that reaches the end of the window; nothing sensible for a negative one.
      ensures r.Verdict? && up && windowSeconds > 0 ==>
                var start := WindowStart(now, windowSeconds);
                && start as real <= now < (start + windowSeconds) as real
                && 1 <= r.resetAfter <= windowSeconds
                && now + (r.resetAfter - 1) as real < (start + windowSeconds) as real <= now + r.resetAfter as real
      ensures r.Verdict? && up && windowSeconds < 0 ==> windowSeconds <= r.resetAfter <= -1
    {
      if windowSeconds == 0 {
        return ZeroDivisionError;
      }
      if !up {
        return Verdict(true, maxRequests, windowSeconds);
      }
      WindowHoldsNow(now, windowSeconds);
      var start := WindowStart(now, windowSeconds);
      var key := Key(identifier, windowSeconds, start);
      var count := (if key in redis && now < redis[key].expiresAt then redis[key].count else 0) + 1;
      if windowSeconds > 0 {
        redis := redis[key := Counter(count, now + windowSeconds as real)];
      } else {
        redis := redis - {key};
      }
      return Verdict(count <= maxRequests, Max0(maxRequests - count),
                     windowSeconds - Truncate(now - start as real));
    }

    method GetCurrentCount(identifier: string, windowSeconds: int, now: real, up: bool) returns (count: Option<nat>)
      ensures count.None? <==> windowSeconds == 0
      ensures count.Some? ==>
                count.value == if up then Read(redis, KeyAt(identifier, windowSeconds, now), now) else 0
    {
      if windowSeconds == 0 {
        return None;
      }
      return Some(if up then Read(redis, KeyAt(identifier, windowSeconds, now), now) else 0);
    }
  }

  lemma WindowHoldsNow(now: real, window: int)
    requires window != 0
    ensures var start := WindowStart(now, window) as real;
            if window > 0 then start <= now < start + window as real else start + window as real < now <= start
  {
    Quotient(now, window as real);
    FloorTimes(now / window as real, window, now);
  }

  lemma FloorTimes(q: real, window: int, now: real)
    requires window != 0 && q * window as real == now
    ensures var start := (q.Floor * window) as real;
            if window > 0 then start <= now < start + window as real else start + window as real < now <= start
  {
    ProductOfReals(q.Floor, window);
    var f, w, start := q.Floor as real, window as real, (q.Floor * window) as real;
    if window > 0 {
      Bracket(f, q, f + 1.0, w, start, now, (f + 1.0) * w);
    } else {
      Negated(f, w, start);
      Negated(q, w, now);
      Bracket(f, q, f + 1.0, -w, -start, -now, (f + 1.0) * -w);
    }
  }

  lemma Negated(a: real, b: real, product: real)
    requires a * b == product
    ensures -product == a * -b
  {
  }

  lemma Quotient(x: real, w: real)
    requires w != 0.0
    ensures x / w * w == x
  {
  }

  lemma ProductOfReals(a: int, b: int)
    ensures (a * b) as real == a as real * b as real
  {
  }

  // Each product has a name of its own, which keeps the solver's arithmetic linear.
  lemma Bracket(f: real, q: real, g: real, w: real, start: real, now: real, next: real)
    requires f <= q < g && g == f + 1.0 && w > 0.0 && start == f * w && now == q * w && next == g * w
    ensures start <= now < start + w
  {
    if f < q {
      ProductsOrdered(f, q, w, start, now);
    }
    ProductsOrdered(q, g, w, now, next);
    NextProduct(f, g, w, start, next);
  }

  lemma ProductsOrdered(a: real, b: real, w: real, pa: real, pb: real)
    requires a < b && w > 0.0 && pa == a * w && pb == b * w
    ensures pa < pb
  {
  }

  lemma NextProduct(a: real, b: real, w: real, pa: real, pb: real)
    requires b == a + 1.0 && pa == a * w && pb == b * w
    ensures pb == pa + w
  {
  }

  // ---- Runs ---------------------------------------------------------------------

  datatype Call = Call(identifier: string, maxRequests: int, window: int, now: real)

  ghost predicate Timely(calls: seq<Call>) {
    forall i, j :: 0 <= i < j < |calls| ==> calls[i].now <= calls[j].now
  }

  /** The call is counted under the key. */
  predicate CountsFor(c: Call, key: Key) {
    c.window != 0 && KeyAt(c.identifier, c.window, c.now) == key
  }

  ghost function Run(calls: seq<Call>): Store {
    if calls == [] then map[]
    else
      var c := Last(calls);
      if c.window == 0 then Run(Before(calls))
      else Bump(Run(Before(calls)), KeyAt(c.identifier, c.window, c.now), c.now)
  }

  function Before(calls: seq<Call>): (r: seq<Call>)
    requires calls != []
    ensures |r| < |calls|
  {
    calls[..|calls| - 1]
  }

  function Last(calls: seq<Call>): Call
    requires calls != []
  {
    calls[|calls| - 1]
  }

  /** Whether the last of the calls is allowed: the counter, with it, is within its limit. */
  ghost predicate LastAllowed(calls: seq<Call>)
    requires calls != []
  {
    var c := Last(calls);
    c.window != 0 && Read(Run(Before(calls)), KeyAt(c.identifier, c.window, c.now), c.now) + 1 <= c.maxRequests
  }

  /** Calls that fell into the window, allowed or not. */
  function Calls(calls: seq<Call>, key: Key): nat {
    if calls == [] then 0
    else Calls(Before(calls), key) + if CountsFor(Last(calls), key) then 1 else 0
  }

  ghost function Admitted(calls: seq<Call>, key: Key): nat {
    if calls == [] then 0
    else Admitted(Before(calls), key) + if CountsFor(Last(calls), key) && LastAllowed(calls) then 1 else 0
  }

  /** Calls allowed for one identifier and window length between two moments, both included. */
  ghost function AdmittedBetween(calls: seq<Call>, identifier: string, window: int, low: real, high: real): nat {
    if calls == [] then 0
    else
      var c := Last(calls);
      AdmittedBetween(Before(calls), identifier, window, low, high) +
      if c.identifier == identifier && c.window == window && low <= c.now <= high && LastAllowed(calls) then 1 else 0
  }

  /** The counter of a window counts its calls and outlives the window. */
  ghost predicate Counted(calls: seq<Call>, key: Key) {
    if Calls(calls, key) == 0 then key !in Run(calls)
    else
      && key in Run(calls)
      && Run(calls)[key].count == Calls(calls, key)
      && Run(calls)[key].expiresAt >= (key.start + key.window) as real
  }

  lemma {:induction false} RunIsCounted(calls: seq<Call>, key: Key)
    requires Timely(calls) && key.window > 0
    ensures Counted(calls, key)
  {
    if calls != [] {
      RunIsCounted(Before(calls), key);
      if CountsFor(Last(calls), key) {
        WindowHoldsNow(Last(calls).now, key.window);
      }
    }
  }

  /** At any moment not before the last call, the counter read is the number of calls in the current
      window: no refreshed expiry loses a count before its own window is over. */
  lemma CountIsExact(calls: seq<Call>, identifier: string, window: int, now: real)
    requires Timely(calls) && window > 0
    ensures Read(Run(calls), KeyAt(identifier, window, now), now) == Calls(calls, KeyAt(identifier, window, now))
  {
    RunIsCounted(calls, KeyAt(identifier, window, now));
    WindowHoldsNow(now, window);
  }

  /** A call counts under a key if and only if it has its identifier and window length, and comes in its window; the
      k-th window starts at k times their length. */
  lemma CountsInItsWindow(c: Call, key: Key, k: int)
    requires c.window > 0 && key.start == k * c.window
    ensures CountsFor(c, key) <==>
            && c.identifier == key.identifier && c.window == key.window
            && key.start as real <= c.now < (key.start + key.window) as real
  {
    WindowHoldsNow(c.now, c.window);
    if key.window == c.window && key.start as real <= c.now < (key.start + key.window) as real {
      OnlyMultiple((c.now / c.window as real).Floor, k, c.window);
    }
  }

  /** The last call counted under a key. */
  function LastCall(calls: seq<Call>, key: Key): real
    requires Calls(calls, key) > 0
  {
    if CountsFor(Last(calls), key) then Last(calls).now else LastCall(Before(calls), key)
  }

  /** In every run a counter expires one window length after its last call, whatever other calls do. */
  lemma {:induction false} ExpiresAfterLastCall(calls: seq<Call>, key: Key)
    requires key.window > 0
    ensures if Calls(calls, key) == 0 then key !in Run(calls)
            else key in Run(calls) && Run(calls)[key].expiresAt == LastCall(calls, key) + key.window as real
  {
    if calls != [] {
      ExpiresAfterLastCall(Before(calls), key);
    }
  }

  /** Whatever limits the calls bring, each is allowed if and only if its rank in its window is within its own. */
  lemma AllowedByRank(calls: seq<Call>)
    requires Timely(calls) && calls != [] && Last(calls).window > 0
    ensures var c := Last(calls);
            LastAllowed(calls) <==> Calls(calls, KeyAt(c.identifier, c.window, c.now)) <= c.maxRequests
  {
    var c := Last(calls);
    CountIsExact(Before(calls), c.identifier, c.window, c.now);
  }

  ghost predicate LimitsWithin(calls: seq<Call>, identifier: string, window: int, low: int, high: int) {
    forall i :: 0 <= i < |calls| && calls[i].identifier == identifier && calls[i].window == window ==>
      low <= calls[i].maxRequests <= high
  }

  /** With limits between m and n, at least the first m and at most the first n calls of a window are allowed. */
  lemma {:induction false} FirstCallsAdmitted(calls: seq<Call>, key: Key, m: int, n: int)
    requires Timely(calls) && key.window > 0 && LimitsWithin(calls, key.identifier, key.window, m, n)
    ensures MinInt(Calls(calls, key), Max0(m)) <= Admitted(calls, key) <= MinInt(Calls(calls, key), Max0(n))
  {
    if calls != [] {
      FirstCallsAdmitted(Before(calls), key, m, n);
      if CountsFor(Last(calls), key) {
        AllowedByRank(calls);
      }
    }
  }

  ghost predicate LimitsUpTo(calls: seq<Call>, identifier: string, window: int, n: int) {
    forall i :: 0 <= i < |calls| && calls[i].identifier == identifier && calls[i].window == window ==>
      calls[i].maxRequests <= n
  }

  lemma {:induction false} WindowBound(calls: seq<Call>, key: Key, n: int)
    requires Timely(calls) && key.window > 0 && LimitsUpTo(calls, key.identifier, key.window, n)
    ensures Admitted(calls, key) <= MinInt(Calls(calls, key), Max0(n))
  {
    if calls != [] {
      WindowBound(Before(calls), key, n);
      if CountsFor(Last(calls), key) {
        AllowedByRank(calls);
      }
    }
  }

  /** Two moments at most one window length apart lie in the same aligned window or in adjacent ones. */
  lemma AdjacentWindows(a: real, b: real, window: int)
    requires window > 0 && a <= b <= a + window as real
    ensures var start := WindowStart(a, window);
            WindowStart(b, window) == start || WindowStart(b, window) == start + window
  {
    WindowHoldsNow(a, window);
    WindowHoldsNow(b, window);
    var fa, fb := (a / window as real).Floor, (b / window as real).Floor;
    Multiples(fa, fb, window);
  }

  lemma Multiples(m: int, n: int, w: int)
    requires w > 0 && m * w - w < n * w < m * w + 2 * w
    ensures n == m || n == m + 1
  {
    if n < m {
      MultiplesOrdered(n, m - 1, w);
    }
    if n > m + 1 {
      MultiplesOrdered(m + 2, n, w);
    }
  }

  lemma MultiplesOrdered(a: int, b: int, w: int)
    requires a <= b && w > 0
    ensures a * w <= b * w
  {
  }

  lemma {:induction false} BetweenIsInTwoWindows(calls: seq<Call>, identifier: string, window: int, low: real)
    requires Timely(calls) && window > 0
    ensures var start := WindowStart(low, window);
            AdmittedBetween(calls, identifier, window, low, low + window as real) <=
            Admitted(calls, Key(identifier, window, start)) + Admitted(calls, Key(identifier, window, start + window))
  {
    if calls != [] {
      BetweenIsInTwoWindows(Before(calls), identifier, window, low);
      var c := calls[|calls| - 1];
      if c.window == window && low <= c.now <= low + window as real {
        AdjacentWindows(low, c.now, window);
      }
    }
  }

  /** No interval of one window length, wherever it starts, holds more than twice the largest limit. */
  lemma AtMostTwice(calls: seq<Call>, identifier: string, window: int, n: int, low: real)
    requires Timely(calls) && window > 0 && LimitsUpTo(calls, identifier, window, n)
    ensures AdmittedBetween(calls, identifier, window, low, low + window as real) <= 2 * Max0(n)
  {
    BetweenIsInTwoWindows(calls, identifier, window, low);
    var start := WindowStart(low, window);
    WindowBound(calls, Key(identifier, window, start), n);
    WindowBound(calls, Key(identifier, window, start + window), n);
  }

  // ---- Twice the limit --------------------------------------------------------------

  lemma Append(calls: seq<Call>, c: Call)
    ensures Before(calls + [c]) == calls && Last(calls + [c]) == c
  {
  }

  /** k more calls at one moment, which find their window without calls. */
  lemma {:induction false} Burst(calls: seq<Call>, c: Call, k: nat, low: real, high: real)
    requires c.window > 0 && k <= c.maxRequests && low <= c.now <= high
    requires Timely(calls) && forall i :: 0 <= i < |calls| ==> calls[i].now <= c.now
    requires Calls(calls, KeyAt(c.identifier, c.window, c.now)) == 0
    ensures var all := calls + Repeated(c, k);
            && Timely(all)
            && Calls(all, KeyAt(c.identifier, c.window, c.now)) == k
            && AdmittedBetween(all, c.identifier, c.window, low, high) ==
               AdmittedBetween(calls, c.identifier, c.window, low, high) + k
  {
    if k == 0 {
      assert calls + Repeated(c, 0) == calls;
    } else {
      Burst(calls, c, k - 1, low, high);
      RepeatedNext(c, k - 1);
      var before := calls + Repeated(c, k - 1);
      assert calls + Repeated(c, k) == before + [c];
      Append(before, c);
      assert Timely(before + [c]);
      AllowedByRank(before + [c]);
    }
  }

  lemma {:induction false} NoneForOther(c: Call, k: nat, key: Key)
    requires !CountsFor(c, key)
    ensures Calls(Repeated(c, k), key) == 0
  {
    if k > 0 {
      NoneForOther(c, k - 1, key);
      RepeatedNext(c, k - 1);
      Append(Repeated(c, k - 1), c);
    }
  }

  lemma FirstTwoWindows(window: int, gap: real)
    requires window > 0 && 0.0 < gap <= window as real
    ensures WindowStart(window as real - gap, window) == 0 && WindowStart(window as real, window) == window
  {
    WindowHoldsNow(window as real - gap, window);
    WindowHoldsNow(window as real, window);
    OnlyMultiple(((window as real - gap) / window as real).Floor, 0, window);
    OnlyMultiple((window as real / window as real).Floor, 1, window);
  }

  lemma OnlyMultiple(m: int, n: int, w: int)
    requires w > 0 && n * w - w < m * w < n * w + w
    ensures m == n
  {
    if m < n {
      MultiplesOrdered(m, n - 1, w);
    } else if m > n {
      MultiplesOrdered(n + 1, m, w);
    }
  }

  /** n calls in one window and n in another. */
  lemma TwoBursts(a: Call, b: Call, n: nat)
    requires a.identifier == b.identifier && a.window == b.window > 0 && a.maxRequests == b.maxRequests == n
    requires a.now <= b.now && !CountsFor(a, KeyAt(b.identifier, b.window, b.now))
    ensures var calls := Repeated(a, n) + Repeated(b, n);
            Timely(calls) && AdmittedBetween(calls, a.identifier, a.window, a.now, b.now) == 2 * n
  {
    var first := Repeated(a, n);
    Burst([], a, n, a.now, b.now);
    assert [] + first == first;
    NoneForOther(a, n, KeyAt(b.identifier, b.window, b.now));
    Burst(first, b, n, a.now, b.now);
  }

  /** For every limit and window length there is a run that reaches twice the limit, within any gap however short
      up to a window's end. */
  lemma TwiceIsReached(identifier: string, n: nat, window: int, gap: real) returns (calls: seq<Call>)
    requires window > 0 && 0.0 < gap <= window as real
    ensures Timely(calls) && LimitsUpTo(calls, identifier, window, n)
    ensures AdmittedBetween(calls, identifier, window, window as real - gap, window as real) == 2 * n
  {
    var a := Call(identifier, n, window, window as real - gap);
    var b := Call(identifier, n, window, window as real);
    FirstTwoWindows(window, gap);
    TwoBursts(a, b, n);
    calls := Repeated(a, n) + Repeated(b, n);
  }
}
