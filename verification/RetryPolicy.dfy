/** Retries with capped exponential backoff under a deadline (engine/retry_policy.py). */
module RetryPolicy {
  import opened Options
  import opened Numbers
  import opened Deadline

  datatype Policy = Policy(
    maxAttempts: nat, baseDelay: real, maxDelay: real, backoffFactor: real, jitter: bool)

  /** How one call of the function ends. */
  datatype Outcome = Returned(value: string) | Retryable(error: string) | Fatal(error: string)

  datatype Result = Ok(value: string) | Exhausted(attempts: nat, lastError: string) | Raised(error: string)

  /** The surroundings, by attempt: how a call ends and how long it takes, and how much longer than
      asked for a sleep lasts. */
  datatype World = World(
    start: real, deadline: Option<real>, outcome: nat -> Outcome, lasts: nat -> real, overrun: nat -> real)

  function Power(x: real, n: nat): real {
    if n == 0 then 1.0 else x * Power(x, n - 1)
  }

  function Cap(p: Policy, attempt: nat): real {
    Min(p.baseDelay * Power(p.backoffFactor, attempt), p.maxDelay)
  }

  /** random.uniform(0, cap) or cap; the draw is from [0, 1]. */
  function Delay(p: Policy, attempt: nat, draw: real): real {
    if p.jitter then draw * Cap(p, attempt) else Cap(p, attempt)
  }

  /** A sleep: the moment a failed call ended, and the delay asked for. */
  datatype Sleep = Sleep(at: real, delay: real)

  /** The moment the call after the given sleep ends; a negative delay is no sleep. */
  function NextEnd(w: World, s: Sleep, attempt: nat): real {
    s.at + (if s.delay > 0.0 then s.delay else 0.0) + w.overrun(attempt) + w.lasts(attempt + 1)
  }

  predicate EndsBy(deadline: Option<real>, s: Sleep) {
    deadline.Some? ==> s.at + s.delay <= deadline.value
  }

  /** The loop, with the delay to be computed after each attempt; `end` is when the last call ended. */
  method Attempt(maxAttempts: nat, delay: nat -> real, w: World)
      returns (r: Result, calls: nat, sleeps: seq<Sleep>, end: real)
    requires maxAttempts >= 1
    ensures 1 <= calls <= maxAttempts
    // Every call but the last failed retryably; the last decides the result.
    ensures forall i :: 0 <= i < calls - 1 ==> w.outcome(i).Retryable?
    ensures r == match w.outcome(calls - 1)
                 case Returned(v) => Ok(v)
                 case Fatal(e) => Raised(e)
                 case Retryable(e) => Exhausted(calls, e)
    // One sleep between calls, from the end of a call, for the computed delay, and only if it is to
    // end by the deadline; giving up early means that the next one would not.
    ensures |sleeps| == calls - 1
    ensures forall i :: 0 <= i < |sleeps| ==> sleeps[i].delay == delay(i) && EndsBy(w.deadline, sleeps[i])
    ensures (if sleeps == [] then end else sleeps[0].at) == w.start + w.lasts(0)
    ensures forall i :: 0 <= i < |sleeps| - 1 ==> sleeps[i + 1].at == NextEnd(w, sleeps[i], i)
    ensures sleeps != [] ==> end == NextEnd(w, sleeps[calls - 2], calls - 2)
    ensures r.Exhausted? ==> calls == maxAttempts || !EndsBy(w.deadline, Sleep(end, delay(calls - 1)))
  {
    calls, sleeps := 0, [];
    var now := w.start;
    var lastError := "no attempts made";
    end := now;
    for attempt := 0 to maxAttempts
      invariant calls == |sleeps| == attempt < maxAttempts
      invariant forall i :: 0 <= i < calls ==> w.outcome(i).Retryable?
      invariant forall i :: 0 <= i < |sleeps| ==> sleeps[i].delay == delay(i) && EndsBy(w.deadline, sleeps[i])
      invariant attempt == 0 ==> now == w.start
      invariant attempt > 0 ==> sleeps[0].at == w.start + w.lasts(0)
      invariant attempt > 0 ==> now + w.lasts(attempt) == NextEnd(w, sleeps[attempt - 1], attempt - 1)
      invariant forall i :: 0 <= i < |sleeps| - 1 ==> sleeps[i + 1].at == NextEnd(w, sleeps[i], i)
    {
      calls := attempt + 1;
      now := now + w.lasts(attempt);
      end := now;
      match w.outcome(attempt)
      case Returned(v) => return Ok(v), calls, sleeps, end;
      case Fatal(e) => return Raised(e), calls, sleeps, end;
      case Retryable(e) =>
        lastError := e;
        if attempt == maxAttempts - 1 {
          break;
        }
        var d := delay(attempt);
        var remaining := RemainingTime(w.deadline, now);
        if remaining.Some? && remaining.value < d {
          break;
        }
        sleeps := sleeps + [Sleep(now, d)];
        now := now + (if d > 0.0 then d else 0.0) + w.overrun(attempt);
    }
    r := Exhausted(calls, lastError);
  }

  /** With a policy's own delays: never more calls than allowed, the exact number reported on
      exhaustion, no sleep past the deadline, and no more sleep than the capped backoffs add up to. */
  method Execute(p: Policy, draw: nat -> real, w: World) returns (r: Result, calls: nat, sleeps: seq<Sleep>)
    requires p.maxAttempts >= 1
    ensures 1 <= calls <= p.maxAttempts && |sleeps| == calls - 1
    ensures r.Exhausted? ==> r.attempts == calls
    ensures forall i :: 0 <= i < |sleeps| ==> sleeps[i].delay == Delay(p, i, draw(i))
    ensures forall i :: 0 <= i < |sleeps| ==>
              (w.deadline.Some? ==> sleeps[i].at + sleeps[i].delay <= w.deadline.value)
    ensures Reasonable(p, draw) ==> TotalDelay(sleeps) <= CapBudget(p, calls - 1) <= Times(calls - 1, p.maxDelay)
  {
    var end;
    r, calls, sleeps, end := Attempt(p.maxAttempts, (i: nat) => Delay(p, i, draw(i)), w);
    if Reasonable(p, draw) {
      SleepsWithinBudget(p, draw, sleeps);
    }
  }

  // ---- How long it sleeps in total ---------------------------------------------------

  function TotalDelay(sleeps: seq<Sleep>): real {
    if sleeps == [] then 0.0 else TotalDelay(sleeps[..|sleeps| - 1]) + sleeps[|sleeps| - 1].delay
  }

  function CapBudget(p: Policy, n: nat): real {
    if n == 0 then 0.0 else CapBudget(p, n - 1) + Cap(p, n - 1)
  }

  ghost predicate Reasonable(p: Policy, draw: nat -> real) {
    && p.baseDelay >= 0.0 && p.maxDelay >= 0.0 && p.backoffFactor >= 0.0
    && forall i :: 0.0 <= draw(i) <= 1.0
  }

  lemma {:induction false} PowerIsNatural(x: real, n: nat)
    requires x >= 0.0
    ensures Power(x, n) >= 0.0
  {
    if n > 0 {
      PowerIsNatural(x, n - 1);
    }
  }

  lemma CapIsNatural(p: Policy, attempt: nat)
    requires p.baseDelay >= 0.0 && p.maxDelay >= 0.0 && p.backoffFactor >= 0.0
    ensures 0.0 <= Cap(p, attempt) <= p.maxDelay
  {
    PowerIsNatural(p.backoffFactor, attempt);
    MulNatural(p.baseDelay, Power(p.backoffFactor, attempt));
  }

  lemma DelayWithinCap(p: Policy, draw: nat -> real, attempt: nat)
    requires Reasonable(p, draw)
    ensures 0.0 <= Delay(p, attempt, draw(attempt)) <= Cap(p, attempt) <= p.maxDelay
  {
    var d, c := draw(attempt), Cap(p, attempt);
    CapIsNatural(p, attempt);
    MulNatural(d, c);
    MulMonotone(d, 1.0, c);
  }

  /** Sleeping takes in total at most the sum of the capped backoffs, and at most maxDelay each. */
  lemma {:induction false} SleepsWithinBudget(p: Policy, draw: nat -> real, sleeps: seq<Sleep>)
    requires Reasonable(p, draw)
    requires forall i :: 0 <= i < |sleeps| ==> sleeps[i].delay == Delay(p, i, draw(i))
    ensures 0.0 <= TotalDelay(sleeps) <= CapBudget(p, |sleeps|) <= Times(|sleeps|, p.maxDelay)
  {
    if sleeps != [] {
      var n := |sleeps| - 1;
      SleepsWithinBudget(p, draw, sleeps[..n]);
      DelayWithinCap(p, draw, n);
    }
  }

  /** n * d */
  function Times(n: nat, d: real): real {
    if n == 0 then 0.0 else Times(n - 1, d) + d
  }

  /** With a factor of at least one the backoff never shrinks from one attempt to the next. */
  lemma {:induction false} CapsGrow(p: Policy, attempt: nat)
    requires p.baseDelay >= 0.0 && p.backoffFactor >= 1.0
    ensures Cap(p, attempt) <= Cap(p, attempt + 1)
  {
    var x := Power(p.backoffFactor, attempt);
    PowerIsNatural(p.backoffFactor, attempt);
    assert Power(p.backoffFactor, attempt + 1) == p.backoffFactor * x;
    MulMonotone(1.0, p.backoffFactor, x);
    MulMonotone(x, p.backoffFactor * x, p.baseDelay);
  }

  /** A delay is the cap, or, with jitter, the part of it that is drawn. */
  lemma DelayIsPartOfCap(p: Policy, attempt: nat, draw: real, cap: real)
    requires cap == Cap(p, attempt)
    ensures Delay(p, attempt, draw) == if p.jitter then draw * cap else cap
  {
  }

  lemma CutOffAgain(f: real, uncut: real, most: real, cut: real)
    requires f >= 1.0 && uncut >= 0.0 && most >= 0.0 && cut == Min(uncut, most)
    ensures Min(f * uncut, most) == Min(f * cut, most)
  {
    MulMonotone(1.0, f, uncut);
    MulMonotone(1.0, f, most);
  }

  lemma NextUncut(p: Policy, attempt: nat, uncut: real)
    requires uncut == p.baseDelay * Power(p.backoffFactor, attempt)
    ensures p.baseDelay * Power(p.backoffFactor, attempt + 1) == p.backoffFactor * uncut
  {
    Reorder(p.baseDelay, p.backoffFactor, Power(p.backoffFactor, attempt), uncut);
  }

  lemma Reorder(b: real, f: real, x: real, bx: real)
    requires bx == b * x
    ensures b * (f * x) == f * bx
  {
  }

  /** The caps start from the base delay and grow by the factor, up to the greatest delay: with a factor of at least
      one, each is the factor times the one before, cut off. */
  lemma CapsGrowByFactor(p: Policy, attempt: nat)
    requires p.baseDelay >= 0.0 && p.maxDelay >= 0.0 && p.backoffFactor >= 1.0
    ensures Cap(p, 0) == Min(p.baseDelay, p.maxDelay)
    ensures Cap(p, attempt + 1) == Min(p.backoffFactor * Cap(p, attempt), p.maxDelay)
  {
    GrowsOnce(p, attempt, Cap(p, attempt), Cap(p, attempt + 1));
  }

  lemma GrowsOnce(p: Policy, attempt: nat, cap: real, next: real)
    requires p.baseDelay >= 0.0 && p.maxDelay >= 0.0 && p.backoffFactor >= 1.0
    requires cap == Cap(p, attempt) && next == Cap(p, attempt + 1)
    ensures next == Min(p.backoffFactor * cap, p.maxDelay)
  {
    var uncut := p.baseDelay * Power(p.backoffFactor, attempt);
    PowerIsNatural(p.backoffFactor, attempt);
    MulNatural(p.baseDelay, Power(p.backoffFactor, attempt));
    NextUncut(p, attempt, uncut);
    CapIs(p, attempt, uncut);
    CapIs(p, attempt + 1, p.backoffFactor * uncut);
    CutOffAgain(p.backoffFactor, uncut, p.maxDelay, cap);
  }

  lemma CapIs(p: Policy, attempt: nat, uncut: real)
    requires p.baseDelay * Power(p.backoffFactor, attempt) == uncut
    ensures Cap(p, attempt) == Min(uncut, p.maxDelay)
  {
  }

  /** With a factor of at most one, and a base that needs no cutting off, each cap is the factor times the one
      before. */
  lemma CapsShrinkByFactor(p: Policy, attempt: nat)
    requires 0.0 <= p.baseDelay <= p.maxDelay && 0.0 <= p.backoffFactor <= 1.0
    ensures Cap(p, 0) == p.baseDelay
    ensures Cap(p, attempt + 1) == p.backoffFactor * Cap(p, attempt)
  {
    UncutFits(p, attempt);
    UncutFits(p, attempt + 1);
    NextUncut(p, attempt, p.baseDelay * Power(p.backoffFactor, attempt));
  }

  lemma UncutFits(p: Policy, attempt: nat)
    requires 0.0 <= p.baseDelay <= p.maxDelay && 0.0 <= p.backoffFactor <= 1.0
    ensures Cap(p, attempt) == p.baseDelay * Power(p.backoffFactor, attempt)
  {
    PowerAtMostOne(p.backoffFactor, attempt);
    MulMonotone(Power(p.backoffFactor, attempt), 1.0, p.baseDelay);
  }

  lemma {:induction false} PowerAtMostOne(x: real, n: nat)
    requires 0.0 <= x <= 1.0
    ensures 0.0 <= Power(x, n) <= 1.0
  {
    if n > 0 {
      PowerAtMostOne(x, n - 1);
      ProductAtMostOne(x, Power(x, n - 1), Power(x, n));
    }
  }

  lemma ProductAtMostOne(x: real, y: real, product: real)
    requires 0.0 <= x <= 1.0 && 0.0 <= y <= 1.0 && product == x * y
    ensures 0.0 <= product <= 1.0
  {
    MulNatural(x, y);
    MulNatural(1.0 - x, y);
    MulDifference(x, 1.0, y);
  }
}
