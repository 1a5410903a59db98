/** The in-process rate limiter of engine/security.py. */
module SecurityRateLimiter {
  import opened SlidingWindow
  import opened Numbers

  /** What is_allowed returns; with a limit of zero or less it indexes an empty list instead. */
  datatype Verdict = Allowed(remaining: int, resetAfter: int) | Denied(resetAfter: int) | IndexError

  class RateLimiter {
    const windowSize: int
    const maxRequests: int
    var requests: map<string, Log>

    constructor (windowSize: int, maxRequests: int)
      ensures this.windowSize == windowSize && this.maxRequests == maxRequests && requests == map[]
    {
      this.windowSize, this.maxRequests, requests := windowSize, maxRequests, map[];
    }

    method IsAllowed(key: string, now: real) returns (r: Verdict)
      modifies this
      ensures var (log, allowed) :=
                Request(LogOf(old(requests), key), windowSize as real, maxRequests, now, now, now);
              && requests == old(requests)[key := log]
              && (r.Allowed? <==> allowed)
              && (r.Allowed? ==> r.remaining == maxRequests - |log| && r.remaining >= 0 && r.resetAfter == windowSize)
              && (r.IndexError? <==> !allowed && log == [])
              && (r.Denied? ==> log != [] && WholeSeconds(r.resetAfter, log[0] + windowSize as real - now))
      // Once started empty, logs stay in order and within the limit, and then only a limit of zero or less raises.
      ensures Orderly(old(requests), maxRequests, now) ==>
                Orderly(requests, maxRequests, now) && (r.IndexError? <==> maxRequests <= 0)
    {
      if Orderly(requests, maxRequests, now) {
        RequestKeepsOrderly(requests, key, windowSize, maxRequests, now);
      }
      PrunedOnce(LogOf(requests, key), windowSize as real, maxRequests, now);
      if key !in requests {
        requests := requests[key := []];
      }
      var cutoff := now - windowSize as real;
      var kept := Prune(requests[key], cutoff);
      requests := requests[key := kept];
      assert requests == old(requests)[key := kept];
      if |kept| >= maxRequests {
        if kept == [] {
          return IndexError;
        }
        TruncateToSeconds(kept[0] + windowSize as real - now);
        return Denied(ResetAfter(kept, windowSize, now));
      }
      requests := requests[key := kept + [now]];
      assert requests == old(requests)[key := kept + [now]];
      return Allowed(maxRequests - |kept + [now]|, windowSize);
    }

    /** Reads without consuming: there is something remaining exactly when a request would be allowed. */
    method GetStatus(key: string, now: real) returns (remaining: int, limit: int, resetAfter: int)
      ensures limit == maxRequests
      ensures remaining == if key in requests
                           then Max0(maxRequests - |Prune(requests[key], now - windowSize as real)|) else maxRequests
      ensures var kept := Prune(LogOf(requests, key), now - windowSize as real);
              if kept == [] then resetAfter == 0 else WholeSeconds(resetAfter, kept[0] + windowSize as real - now)
      ensures remaining > 0 <==>
              Request(LogOf(requests, key), windowSize as real, maxRequests, now, now, now).1
    {
      if key !in requests {
        return maxRequests, maxRequests, 0;
      }
      var kept := Prune(requests[key], now - windowSize as real);
      remaining := Max0(maxRequests - |kept|);
      limit := maxRequests;
      if kept == [] {
        resetAfter := 0;
      } else {
        TruncateToSeconds(kept[0] + windowSize as real - now);
        resetAfter := ResetAfter(kept, windowSize, now);
      }
    }
  }

  /** With one clock reading, pruning twice is pruning once. */
  lemma PrunedOnce(log: Log, window: real, maxRequests: int, now: real)
    ensures var kept := Prune(log, now - window);
            Request(log, window, maxRequests, now, now, now) ==
            if |kept| < maxRequests then (kept + [now], true) else (kept, false)
  {
    PruneTwice(log, now - window, now - window);
  }

  function ResetAfter(log: Log, windowSize: int, now: real): int
    requires log != []
  {
    Max0(Truncate(log[0] + windowSize as real - now))
  }

  /** Every log is in order, not ahead of now, and within the limit. */
  ghost predicate Orderly(requests: map<string, Log>, maxRequests: int, now: real) {
    forall key :: key in requests ==> Past(requests[key], now) && |requests[key]| <= Max0(maxRequests)
  }

  lemma OrderlyLater(requests: map<string, Log>, maxRequests: int, now: real, later: real)
    requires Orderly(requests, maxRequests, now) && now <= later
    ensures Orderly(requests, maxRequests, later)
  {
  }

  /** A request keeps all logs in order and within the limit; it finds nothing to index, and raises, if and only
      if the limit is zero or less. */
  lemma RequestKeepsOrderly(requests: map<string, Log>, key: string, windowSize: int, maxRequests: int, now: real)
    requires Orderly(requests, maxRequests, now)
    ensures var (log', allowed) := Request(LogOf(requests, key), windowSize as real, maxRequests, now, now, now);
            && Orderly(requests[key := log'], maxRequests, now)
            && (!allowed && log' == [] <==> maxRequests <= 0)
  {
    RequestOnOrderly(LogOf(requests, key), windowSize, maxRequests, now);
  }

  lemma RequestOnOrderly(log: Log, windowSize: int, maxRequests: int, now: real)
    requires Past(log, now) && |log| <= Max0(maxRequests)
    ensures var (log', allowed) := Request(log, windowSize as real, maxRequests, now, now, now);
            && Past(log', now) && |log'| <= Max0(maxRequests)
            && (!allowed && log' == [] <==> maxRequests <= 0)
  {
    RequestKeepsPast(log, windowSize as real, maxRequests, now, CallAt("", maxRequests, now));
    PrunedOnce(log, windowSize as real, maxRequests, now);
  }

  /** A request of this limiter reads the clock once. */
  function CallAt(key: string, maxRequests: int, now: real): Call {
    Call(key, maxRequests, now, now, now)
  }

  ghost predicate OneClock(calls: seq<Call>, maxRequests: int) {
    forall i :: 0 <= i < |calls| ==> calls[i] == CallAt(calls[i].key, maxRequests, calls[i].check)
  }

  /** In every run, whoever is denied and waits the reported whole seconds and one more is allowed, whatever
      requests for other keys come in between. */
  lemma WaitingIsEnough(
      windowSize: int, maxRequests: int, start: real, calls: seq<Call>, others: seq<Call>,
      key: string, now: real, later: real)
    requires maxRequests > 0 && OneClock(calls, maxRequests)
    requires Timely(start, calls + [CallAt(key, maxRequests, now)])
    requires forall i :: 0 <= i < |others| ==> others[i].key != key
    requires var log := LogOf(Run(windowSize as real, start, calls).logs, key);
             var (kept, allowed) := Request(log, windowSize as real, maxRequests, now, now, now);
             !allowed && later >= now + (UntilReset(kept, windowSize, now) + 1) as real
    ensures var log := LogOf(
              Run(windowSize as real, start, calls + [CallAt(key, maxRequests, now)] + others).logs, key);
            Request(log, windowSize as real, maxRequests, later, later, later).1
  {
    var c := CallAt(key, maxRequests, now);
    var window := windowSize as real;
    TimelyPrefix(start, calls, c);
    RunWithinLimit(window, start, calls, key, maxRequests);
    OtherKeysKeepLog(window, start, calls + [c], others, key);
    assert (calls + [c])[..|calls|] == calls;
    var log := LogOf(Run(window, start, calls).logs, key);
    WaitingLetsIn(log, windowSize, maxRequests, now, Request(log, window, maxRequests, now, now, now).0, later);
  }

  function UntilReset(log: Log, windowSize: int, now: real): int {
    if log == [] then 0 else ResetAfter(log, windowSize, now)
  }

  lemma WaitingLetsIn(log: Log, windowSize: int, maxRequests: int, now: real, kept: Log, later: real)
    requires Sorted(log) && |log| <= maxRequests && maxRequests > 0
    requires Request(log, windowSize as real, maxRequests, now, now, now) == (kept, false)
    requires later >= now + (UntilReset(kept, windowSize, now) + 1) as real
    ensures Request(kept, windowSize as real, maxRequests, later, later, later).1
  {
    DeniedKeepsLog(log, windowSize as real, maxRequests, now);
    ResetCovers(kept, windowSize, now, later);
    OldestExpires(kept, windowSize as real, maxRequests, later);
  }

  lemma DeniedKeepsLog(log: Log, window: real, maxRequests: int, now: real)
    requires Sorted(log) && |log| <= maxRequests
    requires !Request(log, window, maxRequests, now, now, now).1
    ensures Request(log, window, maxRequests, now, now, now).0 == log
  {
    var cutoff := now - window;
    PrunedOnce(log, window, maxRequests, now);
    var k := PruneIsSuffix(log, cutoff);
    assert |Prune(log, cutoff)| == |log| - k;
    assert log[0..] == log;
  }

  lemma ResetCovers(log: Log, windowSize: int, now: real, later: real)
    requires log != [] && later >= now + (ResetAfter(log, windowSize, now) + 1) as real
    ensures log[0] <= later - windowSize as real
  {
    TruncateCovers(log[0] + windowSize as real - now);
  }

  lemma TruncateCovers(x: real)
    ensures (Max0(Truncate(x)) + 1) as real >= x
  {
  }

  lemma OldestExpires(log: Log, window: real, maxRequests: int, later: real)
    requires Sorted(log) && log != [] && |log| <= maxRequests && log[0] <= later - window
    ensures Request(log, window, maxRequests, later, later, later).1
  {
    var k := PruneIsSuffix(log, later - window);
  }
}

/** The rate limiter of api_server.py: it checks, reports and stamps at separate clock readings. */
module ApiRateLimiter {
  import opened SlidingWindow
  import opened Numbers

  const WINDOW := 60.0

  datatype Info = Info(requests: Log, limit: int, window: real)

  function Earliest(s: Log): (e: real)
    requires s != []
    ensures e in s && forall t :: t in s ==> e <= t
  {
    if |s| == 1 then s[0]
    else
      var n := |s| - 1;
      assert forall t :: t in s <==> t in s[..n] || t == s[n];
      var e := Earliest(s[..n]);
      if s[n] < e then s[n] else e
  }

  ghost predicate IsEarliest(s: Log, e: real) {
    e in s && forall t :: t in s ==> e <= t
  }

  class RateLimitInfo {
    var requests: Log
    var limit: int
    const window: real

    constructor (limit: int)
      ensures requests == [] && this.limit == limit && window == WINDOW
    {
      requests, this.limit, window := [], limit, WINDOW;
    }

    method IsAllowed(now: real) returns (r: bool)
      modifies this`requests
      ensures requests == Prune(old(requests), now - window)
      ensures r <==> |requests| < limit
    {
      requests := Prune(requests, now - window);
      return |requests| < limit;
    }

    method Remaining(now: real) returns (r: int)
      modifies this`requests
      ensures requests == Prune(old(requests), now - window)
      ensures r == Max0(limit - |requests|)
    {
      requests := Prune(requests, now - window);
      return Max0(limit - |requests|);
    }

    method AddRequest(now: real)
      modifies this`requests
      ensures requests == old(requests) + [now]
    {
      requests := requests + [now];
    }

    /** The steps of one request on this record. */
    method Serve(check: real, again: real, stamp: real) returns (allowed: bool, remaining: int)
      modifies this`requests
      ensures (requests, allowed) == Request(old(requests), window, limit, check, again, stamp)
      ensures remaining == Max0(limit - if allowed then |requests| - 1 else |requests|)
    {
      allowed := IsAllowed(check);
      remaining := Remaining(again);
      if allowed {
        AddRequest(stamp);
      }
    }
  }

  class RateLimiter {
    var limits: map<string, RateLimitInfo>

    /** Keys have records of their own. */
    ghost predicate Valid()
      reads this, limits.Values
    {
      && (forall k :: k in limits ==> limits[k].window == WINDOW)
      && forall j, k :: j in limits && k in limits && j != k ==> limits[j] != limits[k]
    }

    ghost function Logs(): map<string, Log>
      reads this, limits.Values
    {
      map k | k in limits :: limits[k].requests
    }

    constructor ()
      ensures Valid() && Logs() == map[]
    {
      limits := map[];
    }

    method CheckRateLimit(key: string, limit: int, check: real, again: real, stamp: real, end: real)
        returns (allowed: bool, remaining: int, resetAfter: int)
      requires Valid()
      modifies this, limits.Values
      ensures Valid() && fresh(limits.Values - old(limits.Values))
      ensures var (log, ok) := Request(LogOf(old(Logs()), key), WINDOW, limit, check, again, stamp);
              && Logs() == old(Logs())[key := log]
              && allowed == ok
              && remaining == Max0(limit - if ok then |log| - 1 else |log|)
              && if log == [] then resetAfter == 0
                 else exists e :: IsEarliest(log, e) && WholeSeconds(resetAfter, WINDOW - (end - e))
    {
      var info := InfoFor(key, limit);
      info.limit := limit;
      allowed, remaining := info.Serve(check, again, stamp);
      assert Logs() == old(Logs())[key := info.requests];
      if info.requests == [] {
        resetAfter := 0;
      } else {
        TruncateToSeconds(WINDOW - (end - Earliest(info.requests)));
        assert IsEarliest(info.requests, Earliest(info.requests));
        resetAfter := Max0(Truncate(info.window - (end - Earliest(info.requests))));
      }
    }

    /** The record of a key, made on its first request. */
    method InfoFor(key: string, limit: int) returns (info: RateLimitInfo)
      requires Valid()
      modifies this
      ensures Valid() && fresh(limits.Values - old(limits.Values))
      ensures key in limits && info == limits[key] && info.requests == LogOf(old(Logs()), key)
      ensures Logs() == old(Logs())[key := LogOf(old(Logs()), key)]
    {
      ghost var before := Logs();
      if key !in limits {
        var made := new RateLimitInfo(limit);
        limits := limits[key := made];
      }
      info := limits[key];
      assert Logs() == before[key := LogOf(before, key)];
    }
  }
}
