/** The pruned sliding log that both in-process rate limiters keep per key
    (engine/security.py, api_server.py), against the full history of admissions. */
module SlidingWindow {
  import opened Sequences

  type Log = seq<real>

  ghost predicate Sorted(s: Log) {
    forall i, j :: 0 <= i < j < |s| ==> s[i] <= s[j]
  }

  /** Those of the first n that are after the cutoff. */
  function Later(s: Log, cutoff: real, n: nat): (r: Log)
    requires n <= |s|
    ensures |r| <= n
  {
    if n == 0 then []
    else if s[n - 1] > cutoff then Later(s, cutoff, n - 1) + [s[n - 1]]
    else Later(s, cutoff, n - 1)
  }

  /** [t for t in s if t > cutoff] */
  function Prune(s: Log, cutoff: real): (r: Log)
    ensures |r| <= |s|
  {
    Later(s, cutoff, |s|)
  }

  /** One request against the log of its key: checked and pruned at `check`, pruned again at
      `again`, stamped at `stamp`. */
  function Request(log: Log, window: real, limit: int, check: real, again: real, stamp: real): (Log, bool) {
    var checked := Prune(log, check - window);
    var allowed := |checked| < limit;
    var kept := Prune(checked, again - window);
    (if allowed then kept + [stamp] else kept, allowed)
  }

  // ---- Pruning -------------------------------------------------------------------

  lemma {:induction false} LaterInLonger(s: Log, t: real, cutoff: real, n: nat)
    requires n <= |s|
    ensures Later(s + [t], cutoff, n) == Later(s, cutoff, n)
  {
    if n > 0 {
      LaterInLonger(s, t, cutoff, n - 1);
    }
  }

  lemma PruneAppend(s: Log, t: real, c: real)
    ensures Prune(s + [t], c) == Prune(s, c) + if t > c then [t] else []
  {
    LaterInLonger(s, t, c, |s|);
  }

  lemma {:induction false} LaterTwice(s: Log, c: real, d: real, n: nat)
    requires c <= d && n <= |s|
    ensures Prune(Later(s, c, n), d) == Later(s, d, n)
  {
    if n > 0 {
      LaterTwice(s, c, d, n - 1);
      PruneAppend(Later(s, c, n - 1), s[n - 1], d);
    }
  }

  lemma PruneTwice(s: Log, c: real, d: real)
    requires c <= d
    ensures Prune(Prune(s, c), d) == Prune(s, d)
  {
    LaterTwice(s, c, d, |s|);
  }

  lemma {:induction false} LaterIsSuffix(s: Log, c: real, n: nat) returns (k: nat)
    requires Sorted(s) && n <= |s|
    ensures k <= n && Later(s, c, n) == s[k..n]
    ensures forall i :: 0 <= i < n ==> (s[i] > c <==> k <= i)
  {
    k := 0;
    if n > 0 {
      k := LaterIsSuffix(s, c, n - 1);
      if s[n - 1] > c {
        assert s[k..n] == s[k..n - 1] + [s[n - 1]];
      } else {
        k := n;
      }
    }
  }

  /** In a sorted log, pruning keeps a suffix. */
  lemma PruneIsSuffix(s: Log, c: real) returns (k: nat)
    requires Sorted(s)
    ensures k <= |s| && Prune(s, c) == s[k..]
    ensures forall i :: 0 <= i < |s| ==> (s[i] > c <==> k <= i)
  {
    k := LaterIsSuffix(s, c, |s|);
  }

  /** Log and history agree on what is after the cutoff, and so on what is after any later one. */
  ghost predicate Agree(log: Log, admitted: Log, cut: real) {
    Prune(log, cut) == Prune(admitted, cut)
  }

  lemma AgreeLater(log: Log, admitted: Log, cut: real, c: real)
    requires Agree(log, admitted, cut) && cut <= c
    ensures Agree(log, admitted, c)
  {
    PruneTwice(log, cut, c);
    PruneTwice(admitted, cut, c);
  }

  lemma AgreeAppend(log: Log, admitted: Log, t: real, cut: real)
    requires Agree(log, admitted, cut)
    ensures Agree(log + [t], admitted + [t], cut)
  {
    PruneAppend(log, t, cut);
    PruneAppend(admitted, t, cut);
  }

  // ---- Runs -----------------------------------------------------------------------

  datatype Call = Call(key: string, limit: int, check: real, again: real, stamp: real)

  /** Logs by key, all stamps ever admitted by key, and the latest clock reading. */
  datatype Limiter = Limiter(logs: map<string, Log>, admitted: map<string, Log>, last: real)

  function Start(now: real): Limiter {
    Limiter(map[], map[], now)
  }

  function LogOf(logs: map<string, Log>, key: string): Log {
    if key in logs then logs[key] else []
  }

  function Step(window: real, l: Limiter, c: Call): Limiter {
    var (log, allowed) := Request(LogOf(l.logs, c.key), window, c.limit, c.check, c.again, c.stamp);
    Limiter(l.logs[c.key := log],
            if allowed then l.admitted[c.key := LogOf(l.admitted, c.key) + [c.stamp]] else l.admitted,
            c.stamp)
  }

  function Run(window: real, start: real, calls: seq<Call>): Limiter {
    if calls == [] then Start(start)
    else Step(window, Run(window, start, calls[..|calls| - 1]), calls[|calls| - 1])
  }

  /** The clock never goes back, within a call or between calls. */
  ghost predicate Timely(start: real, calls: seq<Call>) {
    && (forall i :: 0 <= i < |calls| ==> start <= calls[i].check <= calls[i].again <= calls[i].stamp)
    && forall i, j :: 0 <= i < j < |calls| ==> calls[i].stamp <= calls[j].check
  }

  /** Any n + 1 consecutive admissions span at least the window. */
  ghost predicate Spaced(admitted: Log, n: nat, window: real) {
    forall i, j :: 0 <= i && j == i + n && j < |admitted| ==> admitted[j] - admitted[i] >= window
  }

  /** In order, and nothing later than now. */
  ghost predicate Past(s: Log, now: real) {
    Sorted(s) && forall t :: t in s ==> t <= now
  }

  ghost predicate Tracked(log: Log, admitted: Log, window: real, last: real) {
    Past(log, last) && Past(admitted, last) && Agree(log, admitted, last - window)
  }

  ghost predicate Tracks(window: real, l: Limiter, key: string) {
    Tracked(LogOf(l.logs, key), LogOf(l.admitted, key), window, l.last)
  }

  lemma PastAppend(s: Log, now: real, t: real)
    requires Past(s, now) && now <= t
    ensures Past(s + [t], t) && Past(s, t)
  {
    assert forall i :: 0 <= i < |s| ==> s[i] in s;
  }

  lemma PastPrune(s: Log, now: real, c: real)
    requires Past(s, now)
    ensures Past(Prune(s, c), now)
  {
    var k := PruneIsSuffix(s, c);
    assert forall t :: t in s[k..] ==> t in s;
  }

  /** A request keeps a log in order. */
  lemma RequestKeepsPast(log: Log, window: real, limit: int, last: real, c: Call)
    requires Past(log, last) && last <= c.check <= c.again <= c.stamp
    ensures Past(Request(log, window, limit, c.check, c.again, c.stamp).0, c.stamp)
  {
    var checked := Prune(log, c.check - window);
    var kept := Prune(checked, c.again - window);
    PastPrune(log, last, c.check - window);
    PastPrune(checked, last, c.again - window);
    PastAppend(kept, last, c.stamp);
  }

  lemma CheckedLikeHistory(log: Log, admitted: Log, window: real, cut: real, limit: int, c: Call)
    requires Agree(log, admitted, cut) && cut <= c.check - window
    ensures Request(log, window, limit, c.check, c.again, c.stamp).1 <==> |Prune(admitted, c.check - window)| < limit
  {
    AgreeLater(log, admitted, cut, c.check - window);
  }

  lemma KeptAgrees(log: Log, admitted: Log, cut: real, c: real, d: real, later: real)
    requires Agree(log, admitted, cut) && cut <= c <= d <= later
    ensures Agree(Prune(Prune(log, c), d), admitted, later)
  {
    PruneTwice(log, c, d);
    PruneTwice(log, d, later);
    AgreeLater(log, admitted, cut, later);
  }

  lemma LogAfterRequest(log: Log, admitted: Log, window: real, cut: real, limit: int, c: Call)
    requires Agree(log, admitted, cut) && cut <= c.check - window && c.check <= c.again <= c.stamp
    ensures var (log', allowed) := Request(log, window, limit, c.check, c.again, c.stamp);
            Agree(log', if allowed then admitted + [c.stamp] else admitted, c.stamp - window)
  {
    KeptAgrees(log, admitted, cut, c.check - window, c.again - window, c.stamp - window);
    AgreeAppend(Prune(Prune(log, c.check - window), c.again - window), admitted, c.stamp, c.stamp - window);
  }

  lemma RequestTracked(log: Log, admitted: Log, window: real, last: real, limit: int, c: Call)
    requires Tracked(log, admitted, window, last) && last <= c.check <= c.again <= c.stamp
    ensures var (log', allowed) := Request(log, window, limit, c.check, c.again, c.stamp);
            Tracked(log', if allowed then admitted + [c.stamp] else admitted, window, c.stamp)
  {
    RequestKeepsPast(log, window, limit, last, c);
    PastAppend(admitted, last, c.stamp);
    LogAfterRequest(log, admitted, window, last - window, limit, c);
  }

  lemma StaysTracked(log: Log, admitted: Log, window: real, last: real, now: real)
    requires Tracked(log, admitted, window, last) && last <= now
    ensures Tracked(log, admitted, window, now)
  {
    AgreeLater(log, admitted, last - window, now - window);
  }

  lemma StepTracks(window: real, l: Limiter, c: Call, key: string)
    requires Tracks(window, l, key) && l.last <= c.check <= c.again <= c.stamp
    ensures Tracks(window, Step(window, l, c), key)
  {
    var log, admitted := LogOf(l.logs, key), LogOf(l.admitted, key);
    if key == c.key {
      RequestTracked(log, admitted, window, l.last, c.limit, c);
    } else {
      assert LogOf(Step(window, l, c).logs, key) == log && LogOf(Step(window, l, c).admitted, key) == admitted;
      StaysTracked(log, admitted, window, l.last, c.stamp);
    }
  }

  lemma {:induction false} RunTracks(window: real, start: real, calls: seq<Call>, key: string)
    requires Timely(start, calls)
    ensures Tracks(window, Run(window, start, calls), key)
    ensures Run(window, start, calls).last == if calls == [] then start else calls[|calls| - 1].stamp
  {
    if calls != [] {
      RunTracks(window, start, calls[..|calls| - 1], key);
      StepTracks(window, Run(window, start, calls[..|calls| - 1]), calls[|calls| - 1], key);
    }
  }

  /** In every run logs are in order, and with limits up to n no longer than n. */
  lemma {:induction false} RunWithinLimit(window: real, start: real, calls: seq<Call>, key: string, n: nat)
    requires Timely(start, calls) && forall i :: 0 <= i < |calls| ==> calls[i].limit <= n
    ensures Sorted(LogOf(Run(window, start, calls).logs, key)) && |LogOf(Run(window, start, calls).logs, key)| <= n
  {
    if calls != [] {
      RunWithinLimit(window, start, calls[..|calls| - 1], key, n);
    }
    RunTracks(window, start, calls, key);
  }

  lemma {:induction false} OtherKeysKeepLog(window: real, start: real, calls: seq<Call>, others: seq<Call>, key: string)
    requires forall i :: 0 <= i < |others| ==> others[i].key != key
    ensures LogOf(Run(window, start, calls + others).logs, key) == LogOf(Run(window, start, calls).logs, key)
  {
    if others == [] {
      assert calls + others == calls;
    } else {
      var n := |others| - 1;
      OtherKeysKeepLog(window, start, calls, others[..n], key);
      assert (calls + others)[..|calls + others| - 1] == calls + others[..n];
    }
  }

  lemma TimelyPrefix(start: real, calls: seq<Call>, c: Call)
    requires Timely(start, calls + [c])
    ensures Timely(start, calls) && c.check <= c.again <= c.stamp
    ensures (if calls == [] then start else calls[|calls| - 1].stamp) <= c.check
  {
    forall i | 0 <= i < |calls| ensures calls[i] == (calls + [c])[i] {
    }
    assert (calls + [c])[|calls|] == c;
  }

  lemma RunNext(window: real, start: real, calls: seq<Call>, c: Call)
    ensures Run(window, start, calls + [c]) == Step(window, Run(window, start, calls), c)
  {
    assert (calls + [c])[..|calls|] == calls;
  }

  /** How many stamps are after the cutoff. */
  function CountAfter(s: Log, cutoff: real, n: nat): nat
    requires n <= |s|
  {
    if n == 0 then 0 else CountAfter(s, cutoff, n - 1) + if s[n - 1] > cutoff then 1 else 0
  }

  lemma {:induction false} PruneCounts(s: Log, cutoff: real, n: nat)
    requires n <= |s|
    ensures |Later(s, cutoff, n)| == CountAfter(s, cutoff, n)
  {
    if n > 0 {
      PruneCounts(s, cutoff, n - 1);
    }
  }

  lemma TrackedDecision(window: real, l: Limiter, c: Call)
    requires Tracks(window, l, c.key) && l.last <= c.check
    ensures DecidedByHistory(window, l, Step(window, l, c), c)
  {
    var history := LogOf(l.admitted, c.key);
    CheckedLikeHistory(LogOf(l.logs, c.key), history, window, l.last - window, c.limit, c);
    PruneCounts(history, c.check - window, |history|);
  }

  /** The call is admitted if and only if the full history of its key holds fewer admissions than its limit since the
      window began. */
  ghost predicate DecidedByHistory(window: real, l: Limiter, l': Limiter, c: Call) {
    var history := LogOf(l.admitted, c.key);
    LogOf(l'.admitted, c.key) ==
    if CountAfter(history, c.check - window, |history|) < c.limit then history + [c.stamp] else history
  }

  /** In every run every call is decided by the full history. */
  lemma DecidesLikeFullHistory(window: real, start: real, calls: seq<Call>, c: Call)
    requires Timely(start, calls + [c])
    ensures DecidedByHistory(window, Run(window, start, calls), Run(window, start, calls + [c]), c)
  {
    TimelyPrefix(start, calls, c);
    RunTracks(window, start, calls, c.key);
    TrackedDecision(window, Run(window, start, calls), c);
    RunNext(window, start, calls, c);
  }

  // ---- The bound --------------------------------------------------------------------

  lemma AdmissionIsSpaced(admitted: Log, n: nat, window: real, check: real, stamp: real)
    requires Sorted(admitted) && Spaced(admitted, n, window) && check <= stamp
    requires |Prune(admitted, check - window)| < n
    ensures Spaced(admitted + [stamp], n, window)
  {
    var m := |admitted|;
    if n <= m {
      var k := PruneIsSuffix(admitted, check - window);
      assert admitted[m - n] <= check - window;
    }
  }

  lemma StepIsSpaced(window: real, l: Limiter, c: Call, key: string, n: nat)
    requires Tracks(window, l, key) && Spaced(LogOf(l.admitted, key), n, window)
    requires l.last <= c.check <= c.again <= c.stamp && c.limit <= n
    ensures Spaced(LogOf(Step(window, l, c).admitted, key), n, window)
  {
    var log, admitted := LogOf(l.logs, key), LogOf(l.admitted, key);
    CheckedLikeHistory(log, admitted, window, l.last - window, c.limit, c);
    if key == c.key && Request(log, window, c.limit, c.check, c.again, c.stamp).1 {
      AdmissionIsSpaced(admitted, n, window, c.check, c.stamp);
    }
  }

  /** If no request carries a limit above n, any n + 1 consecutive admissions of a key span the window,
      although they are stamped after they are checked. */
  lemma {:induction false} RunIsSpaced(window: real, start: real, calls: seq<Call>, key: string, n: nat)
    requires Timely(start, calls) && forall i :: 0 <= i < |calls| ==> calls[i].limit <= n
    ensures Spaced(LogOf(Run(window, start, calls).admitted, key), n, window)
  {
    if calls != [] {
      var m := |calls| - 1;
      RunIsSpaced(window, start, calls[..m], key, n);
      RunTracks(window, start, calls[..m], key);
      StepIsSpaced(window, Run(window, start, calls[..m]), calls[m], key, n);
    }
  }

  /** Positions of the admissions with low < t <= high. */
  ghost function Within(s: Log, low: real, high: real): set<int> {
    set i | 0 <= i < |s| && low < s[i] <= high
  }

  lemma {:induction false} IntervalSize(s: set<int>, low: int, n: nat)
    requires forall i :: i in s ==> low <= i < low + n
    ensures |s| <= n
  {
    if n == 0 {
      assert forall i :: i !in s;
      assert s == {};
    } else {
      IntervalSize(s - {low + n - 1}, low, n - 1);
    }
  }

  lemma SpacedWindow(s: Log, n: nat, window: real, low: real)
    requires Sorted(s) && Spaced(s, n, window)
    ensures |Within(s, low, low + window)| <= n
  {
    var w := Within(s, low, low + window);
    var k := PruneIsSuffix(s, low);
    forall i | i in w ensures k <= i < k + n {
      if k + n < |s| {
        assert s[k + n] - s[k] >= window;
      }
    }
    IntervalSize(w, k, n);
  }

  /** No window (low, low + window] ever holds more admissions of a key than the limit. */
  lemma WindowNeverOverfull(window: real, start: real, calls: seq<Call>, key: string, n: nat, low: real)
    requires Timely(start, calls) && forall i :: 0 <= i < |calls| ==> calls[i].limit <= n
    ensures |Within(LogOf(Run(window, start, calls).admitted, key), low, low + window)| <= n
  {
    RunTracks(window, start, calls, key);
    RunIsSpaced(window, start, calls, key, n);
    SpacedWindow(LogOf(Run(window, start, calls).admitted, key), n, window, low);
  }

  // ---- Closed windows -------------------------------------------------------------------

  /** Positions of the admissions with low <= t <= high. */
  ghost function WithinClosed(s: Log, low: real, high: real): set<int> {
    set i | 0 <= i < |s| && low <= s[i] <= high
  }

  /** One run with limits up to n keeps to n in one closed window. */
  ghost predicate KeepsTo(
      n: nat, window: real, start: real, calls: seq<Call>, key: string, low: real, high: real)
  {
    Timely(start, calls) && (forall i :: 0 <= i < |calls| ==> calls[i].limit <= n) ==>
      |WithinClosed(LogOf(Run(window, start, calls).admitted, key), low, high)| <= n
  }

  ghost predicate ClosedWindowsHold(n: nat, window: real, length: real) {
    forall start, calls, key, low, high :: high - low == length ==> KeepsTo(n, window, start, calls, key, low, high)
  }

  lemma ShortClosedWindow(
      n: nat, window: real, start: real, calls: seq<Call>, key: string, low: real, high: real)
    requires high - low < window
    ensures KeepsTo(n, window, start, calls, key, low, high)
  {
    if Timely(start, calls) && forall i :: 0 <= i < |calls| ==> calls[i].limit <= n {
      WindowNeverOverfull(window, start, calls, key, n, high - window);
      var admitted := LogOf(Run(window, start, calls).admitted, key);
      var open := Within(admitted, high - window, high - window + window);
      SubsetSize(WithinClosed(admitted, low, high), open);
    }
  }

  lemma SubsetSize(a: set<int>, b: set<int>)
    requires a <= b
    ensures |a| <= |b|
  {
    assert b == a + (b - a);
  }

  lemma {:induction false} LaterRepeated(s: Log, x: real, c: real, n: nat)
    requires n <= |s| && forall i :: 0 <= i < n ==> s[i] == x
    ensures Later(s, c, n) == if x > c then s[..n] else []
  {
    if n > 0 {
      LaterRepeated(s, x, c, n - 1);
    }
  }

  lemma PruneRepeated(x: real, n: nat, c: real)
    ensures Prune(Repeated(x, n), c) == if x > c then Repeated(x, n) else []
  {
    LaterRepeated(Repeated(x, n), x, c, n);
  }

  lemma RequestOn(log: Log, window: real, limit: int, now: real, kept: Log)
    requires Prune(log, now - window) == kept && Prune(kept, now - window) == kept && |kept| < limit
    ensures Request(log, window, limit, now, now, now) == (kept + [now], true)
  {
  }

  lemma AnotherAtZero(window: real, n: nat, k: nat)
    requires window > 0.0 && k < n
    ensures Request(Repeated(0.0, k), window, n, 0.0, 0.0, 0.0) == (Repeated(0.0, k) + [0.0], true)
  {
    PruneRepeated(0.0, k, 0.0 - window);
    RequestOn(Repeated(0.0, k), window, n, 0.0, Repeated(0.0, k));
  }

  lemma AdmittedNext(window: real, start: real, calls: seq<Call>, c: Call, log: Log, log': Log)
    requires log == LogOf(Run(window, start, calls).logs, c.key)
    requires Request(log, window, c.limit, c.check, c.again, c.stamp) == (log', true)
    ensures var l, l' := Run(window, start, calls), Run(window, start, calls + [c]);
            && LogOf(l'.logs, c.key) == log'
            && LogOf(l'.admitted, c.key) == LogOf(l.admitted, c.key) + [c.stamp]
  {
    assert (calls + [c])[..|calls|] == calls;
  }

  /** The first n calls at time 0 are admitted. */
  lemma {:induction false} RepeatedAreAdmitted(window: real, n: nat, key: string, k: nat)
    requires window > 0.0 && k <= n
    ensures var l := Run(window, 0.0, Repeated(Call(key, n, 0.0, 0.0, 0.0), k));
            LogOf(l.logs, key) == Repeated(0.0, k) && LogOf(l.admitted, key) == Repeated(0.0, k)
  {
    if k > 0 {
      var c := Call(key, n, 0.0, 0.0, 0.0);
      RepeatedAreAdmitted(window, n, key, k - 1);
      AnotherAtZero(window, n, k - 1);
      AdmittedNext(window, 0.0, Repeated(c, k - 1), c, Repeated(0.0, k - 1), Repeated(0.0, k - 1) + [0.0]);
      RepeatedNext(c, k - 1);
      RepeatedNext(0.0, k - 1);
    }
  }

  lemma {:induction false} AllWithin(s: Log, low: real, high: real)
    requires forall i :: 0 <= i < |s| ==> low <= s[i] <= high
    ensures |WithinClosed(s, low, high)| == |s|
  {
    if s != [] {
      var n := |s| - 1;
      AllWithin(s[..n], low, high);
      assert WithinClosed(s, low, high) == WithinClosed(s[..n], low, high) + {n};
    }
  }

  /** Admissions exactly one window apart: with the first n at time 0, one more at the window's end. */
  lemma AdmittedAtTheEnd(window: real, n: nat, key: string) returns (calls: seq<Call>)
    requires window > 0.0 && n >= 1
    ensures Timely(0.0, calls) && forall i :: 0 <= i < |calls| ==> calls[i].limit <= n
    ensures LogOf(Run(window, 0.0, calls).admitted, key) == Repeated(0.0, n) + [window]
  {
    var first, last := Call(key, n, 0.0, 0.0, 0.0), Call(key, n, window, window, window);
    calls := Repeated(first, n) + [last];
    RepeatedAreAdmitted(window, n, key, n);
    PruneRepeated(0.0, n, window - window);
    RequestOn(Repeated(0.0, n), window, n, window, []);
    AdmittedNext(window, 0.0, Repeated(first, n), last, Repeated(0.0, n), [] + [window]);
  }

  /** Closed windows of a given length never hold more admissions of a key than the limit if and only if they
      are shorter than the window. */
  lemma ClosedWindowsHoldIff(n: nat, window: real, length: real)
    requires n >= 1 && window > 0.0
    ensures ClosedWindowsHold(n, window, length) <==> length < window
  {
    if length < window {
      forall start, calls, key, low, high | high - low == length
        ensures KeepsTo(n, window, start, calls, key, low, high)
      {
        ShortClosedWindow(n, window, start, calls, key, low, high);
      }
    } else {
      var calls := AdmittedAtTheEnd(window, n, "");
      var admitted := LogOf(Run(window, 0.0, calls).admitted, "");
      AllWithin(admitted, 0.0, length);
      assert length - 0.0 == length;
      assert !KeepsTo(n, window, 0.0, calls, "", 0.0, length);
    }
  }
}
