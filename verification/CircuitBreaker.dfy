/** The circuit breaker (engine/circuit_breaker.py). A call is two steps, its
    admission and its completion; any number of other steps may lie between. */
module CircuitBreaker {
  import opened Options

  datatype Config = Config(
    failureThreshold: int, recoveryTimeout: real, halfOpenMaxCalls: int, successThreshold: int)

  datatype CircuitState = CLOSED | OPEN | HALF_OPEN

  datatype Admission = Admitted | RejectedOpen | RejectedQuota

  datatype Breaker = Breaker(
    state: CircuitState, failures: int, successes: int, halfOpenCalls: int, lastFailureTime: Option<real>, trips: nat)

  const INITIAL := Breaker(CLOSED, 0, 0, 0, None, 0)

  predicate ShouldAttemptReset(config: Config, b: Breaker, now: real) {
    b.lastFailureTime.None? || now - b.lastFailureTime.value >= config.recoveryTimeout
  }

  /** The breaker after a possible move from OPEN to HALF_OPEN at admission. */
  function Reset(config: Config, b: Breaker, now: real): Breaker {
    if b.state == OPEN && ShouldAttemptReset(config, b, now)
    then b.(state := HALF_OPEN, halfOpenCalls := 0, successes := 0)
    else b
  }

  function Admit(config: Config, b: Breaker, now: real): (Breaker, Admission) {
    var r := Reset(config, b, now);
    match r.state
    case OPEN => (r, RejectedOpen)
    case CLOSED => (r, Admitted)
    case HALF_OPEN =>
      if r.halfOpenCalls >= config.halfOpenMaxCalls then (r, RejectedQuota)
      else (r.(halfOpenCalls := r.halfOpenCalls + 1), Admitted)
  }

  function OnSuccess(config: Config, b: Breaker): Breaker {
    if b.state == HALF_OPEN then
      var c := b.(successes := b.successes + 1);
      if c.successes >= config.successThreshold then c.(state := CLOSED, failures := 0) else c
    else
      b.(failures := if b.failures - 1 > 0 then b.failures - 1 else 0)
  }

  function OnFailure(config: Config, b: Breaker, now: real): Breaker {
    var c := b.(failures := b.failures + 1, lastFailureTime := Some(now));
    if b.state == HALF_OPEN || (b.state == CLOSED && c.failures >= config.failureThreshold)
    then c.(state := OPEN, trips := c.trips + 1)
    else c
  }

  class Circuit {
    const config: Config
    var state: CircuitState
    var failures: int
    var successes: int
    var halfOpenCalls: int
    var lastFailureTime: Option<real>
    var trips: nat

    ghost function Value(): Breaker
      reads this
    {
      Breaker(state, failures, successes, halfOpenCalls, lastFailureTime, trips)
    }

    constructor (config: Config)
      ensures Value() == INITIAL && this.config == config
    {
      this.config := config;
      state, failures, successes, halfOpenCalls, lastFailureTime, trips := CLOSED, 0, 0, 0, None, 0;
    }

    /** The part of call() that runs under the lock before the protected coroutine. */
    method BeginCall(now: real) returns (r: Admission)
      modifies this
      ensures (Value(), r) == Admit(config, old(Value()), now)
      ensures r.RejectedOpen? <==> state == OPEN
      ensures r.RejectedQuota? ==> state == HALF_OPEN && halfOpenCalls >= config.halfOpenMaxCalls
    {
      if state == OPEN {
        if lastFailureTime.None? || now - lastFailureTime.value >= config.recoveryTimeout {
          state := HALF_OPEN;
          halfOpenCalls := 0;
          successes := 0;
        } else {
          return RejectedOpen;
        }
      }
      if state == HALF_OPEN {
        if halfOpenCalls >= config.halfOpenMaxCalls {
          return RejectedQuota;
        }
        halfOpenCalls := halfOpenCalls + 1;
      }
      return Admitted;
    }

    method RecordSuccess()
      modifies this
      ensures Value() == OnSuccess(config, old(Value()))
      ensures old(state) != HALF_OPEN ==>
                state == old(state) && failures == if old(failures) > 1 then old(failures) - 1 else 0
    {
      if state == HALF_OPEN {
        successes := successes + 1;
        if successes >= config.successThreshold {
          state := CLOSED;
          failures := 0;
        }
      } else {
        failures := if failures - 1 > 0 then failures - 1 else 0;
      }
    }

    method RecordFailure(now: real)
      modifies this
      ensures Value() == OnFailure(config, old(Value()), now)
      ensures failures == old(failures) + 1 && lastFailureTime == Some(now)
    {
      failures := failures + 1;
      lastFailureTime := Some(now);
      if state == HALF_OPEN {
        state := OPEN;
        trips := trips + 1;
      } else if state == CLOSED && failures >= config.failureThreshold {
        state := OPEN;
        trips := trips + 1;
      }
    }
  }

  // ---- The breaker together with its callers -----------------------------

  /** How a call in flight was admitted: while CLOSED, or as a probe of the n-th HALF_OPEN period. */
  datatype Ticket = Normal | Probe(period: nat)

  datatype Event =
    | Call(at: real)
    | Succeed(at: real, ticket: Ticket)
    | Fail(at: real, ticket: Ticket)
    | Cancel(at: real, ticket: Ticket)  // the caller's task is cancelled: the breaker is told nothing

  /** Breaker, calls in flight, number of HALF_OPEN periods so far, probes cancelled in the
      current one, and the outcomes recorded since the breaker last became CLOSED. */
  datatype System = System(
    b: Breaker, inFlight: multiset<Ticket>, period: nat, cancelled: nat, outcomes: seq<bool>)

  const START := System(INITIAL, multiset{}, 0, 0, [])

  /** One event. A completion of a call that is not in flight does nothing. */
  function Step(config: Config, s: System, e: Event): System {
    match e
    case Call(now) =>
      var (b, r) := Admit(config, s.b, now);
      var halfOpened := s.b.state == OPEN && b.state == HALF_OPEN;
      var period := if halfOpened then s.period + 1 else s.period;
      var ticket := if b.state == HALF_OPEN then Probe(period) else Normal;
      s.(b := b, period := period, cancelled := if halfOpened then 0 else s.cancelled,
         inFlight := if r.Admitted? then s.inFlight + multiset{ticket} else s.inFlight)
    case Succeed(_, t) =>
      if t !in s.inFlight then s else Complete(s, t, OnSuccess(config, s.b), true)
    case Fail(now, t) =>
      if t !in s.inFlight then s else Complete(s, t, OnFailure(config, s.b, now), false)
    case Cancel(_, t) =>
      if t !in s.inFlight then s
      else s.(inFlight := s.inFlight - multiset{t},
              cancelled := if t == Probe(s.period) then s.cancelled + 1 else s.cancelled)
  }

  function Complete(s: System, t: Ticket, b: Breaker, ok: bool): System {
    s.(b := b, inFlight := s.inFlight - multiset{t},
       outcomes := if s.b.state == CLOSED then s.outcomes + [ok]
                   else if b.state == CLOSED then [] else s.outcomes)
  }

  function RunFrom(config: Config, s: System, es: seq<Event>): System {
    if es == [] then s else Step(config, RunFrom(config, s, es[..|es| - 1]), es[|es| - 1])
  }

  function Run(config: Config, es: seq<Event>): System {
    RunFrom(config, START, es)
  }

  lemma {:induction false} RunFromConcat(config: Config, s: System, es: seq<Event>, fs: seq<Event>)
    ensures RunFrom(config, s, es + fs) == RunFrom(config, RunFrom(config, s, es), fs)
  {
    if fs == [] {
      assert es + fs == es;
    } else {
      var n := |fs| - 1;
      RunFromConcat(config, s, es, fs[..n]);
      assert (es + fs)[..|es + fs| - 1] == es + fs[..n];
    }
  }

  // ---- No wedging ----------------------------------------------------------

  /** HALF_OPEN rejects every call and no probe of this period is left to end it. */
  predicate Wedged(config: Config, s: System) {
    && s.b.state == HALF_OPEN
    && s.b.halfOpenCalls >= config.halfOpenMaxCalls
    && s.inFlight[Probe(s.period)] == 0
  }

  function Quorum(config: Config): int {
    if config.successThreshold > 1 then config.successThreshold else 1
  }

  /** Probes admitted and neither in flight nor cancelled have each counted as a success. */
  ghost predicate ProbesAccounted(config: Config, s: System) {
    && (forall t :: t in s.inFlight && t.Probe? ==> t.period <= s.period)
    && (s.b.state == HALF_OPEN ==>
          && 0 <= s.b.successes < Quorum(config)
          && s.b.halfOpenCalls - s.inFlight[Probe(s.period)] - s.cancelled <= s.b.successes)
  }

  lemma CallAccountsProbes(config: Config, s: System, now: real)
    requires ProbesAccounted(config, s)
    ensures ProbesAccounted(config, Step(config, s, Call(now)))
  {
    var s' := Step(config, s, Call(now));
    forall t | t in s'.inFlight && t.Probe? ensures t.period <= s'.period {
      assert t in s.inFlight || t == Probe(s'.period);
    }
    if s.b.state == OPEN && s'.b.state == HALF_OPEN {
      assert Probe(s.period + 1) !in s.inFlight;
    }
  }

  lemma EndAccountsProbes(config: Config, s: System, e: Event)
    requires ProbesAccounted(config, s) && !e.Call?
    ensures ProbesAccounted(config, Step(config, s, e))
  {
    var s' := Step(config, s, e);
    forall t | t in s'.inFlight && t.Probe? ensures t.period <= s'.period {
      assert t in s.inFlight;
    }
  }

  lemma StepAccountsProbes(config: Config, s: System, e: Event)
    requires ProbesAccounted(config, s)
    ensures ProbesAccounted(config, Step(config, s, e))
  {
    if e.Call? {
      CallAccountsProbes(config, s, e.at);
    } else {
      EndAccountsProbes(config, s, e);
    }
  }

  lemma {:induction false} RunAccountsProbes(config: Config, es: seq<Event>)
    ensures ProbesAccounted(config, Run(config, es))
  {
    if es != [] {
      RunAccountsProbes(config, es[..|es| - 1]);
      StepAccountsProbes(config, Run(config, es[..|es| - 1]), es[|es| - 1]);
    }
  }

  /** In every interleaving: admitted probes not in flight are bounded by successes and cancellations. */
  lemma ExhaustedQuotaHasProbe(config: Config, es: seq<Event>)
    requires Run(config, es).b.state == HALF_OPEN
    ensures var s := Run(config, es);
            s.b.halfOpenCalls <= s.inFlight[Probe(s.period)] + s.cancelled + s.b.successes
    ensures var s := Run(config, es);
            config.halfOpenMaxCalls - s.cancelled >= Quorum(config) ==> !Wedged(config, s)
  {
    RunAccountsProbes(config, es);
  }

  ghost predicate Orderly(es: seq<Event>) {
    forall i, j :: 0 <= i < j < |es| ==> es[i].at <= es[j].at
  }

  /** In no HALF_OPEN period more than c probes are cancelled. */
  ghost predicate FewCancelled(config: Config, es: seq<Event>, c: nat) {
    forall k :: 0 <= k <= |es| ==> Run(config, es[..k]).cancelled <= c
  }

  ghost predicate NeverWedges(config: Config, c: nat) {
    forall es :: Orderly(es) && FewCancelled(config, es, c) ==> !Wedged(config, Run(config, es))
  }

  /** n times a call and how it ends. */
  function Pairs(n: nat, a: Event, b: Event): seq<Event> {
    if n == 0 then [] else Pairs(n - 1, a, b) + [a, b]
  }

  lemma {:induction false} PairsHoldOnly(n: nat, a: Event, b: Event)
    ensures forall e :: e in Pairs(n, a, b) ==> e == a || e == b
  {
    if n > 0 {
      PairsHoldOnly(n - 1, a, b);
    }
  }

  lemma RunTwo(config: Config, s: System, es: seq<Event>, a: Event, b: Event)
    ensures RunFrom(config, s, es + [a, b]) == Step(config, Step(config, RunFrom(config, s, es), a), b)
  {
    var fs := es + [a, b];
    assert fs[..|fs| - 1] == es + [a];
    assert (es + [a])[..|es|] == es;
  }

  lemma RunPairs(config: Config, s: System, n: nat, a: Event, b: Event)
    requires n > 0
    ensures RunFrom(config, s, Pairs(n, a, b)) ==
            Step(config, Step(config, RunFrom(config, s, Pairs(n - 1, a, b)), a), b)
  {
    RunTwo(config, s, Pairs(n - 1, a, b), a, b);
  }

  function Limit(config: Config): nat {
    if config.failureThreshold > 1 then config.failureThreshold else 1
  }

  function Failing(n: nat): seq<Event> {
    Pairs(n, Call(0.0), Fail(0.0, Normal))
  }

  function Probing(n: nat, t: real): seq<Event> {
    Pairs(n, Call(t), Succeed(t, Probe(1)))
  }

  function Cancelling(n: nat, t: real): seq<Event> {
    Pairs(n, Call(t), Cancel(t, Probe(1)))
  }

  ghost predicate Failed(config: Config, s: System, n: nat) {
    && s.inFlight == multiset{} && s.period == 0 && s.cancelled == 0 && s.b.failures == n
    && s.b.state == (if n == Limit(config) then OPEN else CLOSED)
    && (n > 0 ==> s.b.lastFailureTime == Some(0.0))
  }

  lemma FailsOnce(config: Config, s: System, n: nat)
    requires n < Limit(config) && Failed(config, s, n)
    ensures Failed(config, Step(config, Step(config, s, Call(0.0)), Fail(0.0, Normal)), n + 1)
    ensures Step(config, s, Call(0.0)).cancelled == 0
  {
    assert Step(config, s, Call(0.0)).inFlight == multiset{Normal};
  }

  lemma {:induction false} FailingTrips(config: Config, n: nat)
    requires n <= Limit(config)
    ensures Failed(config, Run(config, Failing(n)), n)
  {
    if n > 0 {
      FailingTrips(config, n - 1);
      RunPairs(config, START, n, Call(0.0), Fail(0.0, Normal));
      FailsOnce(config, Run(config, Failing(n - 1)), n - 1);
    }
  }

  /** In the first HALF_OPEN period, without calls in flight: n probes admitted, m of them successful. */
  ghost predicate Probed(s: System, n: nat, m: nat) {
    && s.b.state == HALF_OPEN && s.period == 1 && s.inFlight == multiset{}
    && s.b.halfOpenCalls == n && s.b.successes == m && s.cancelled == n - m
  }

  /** Before the first probe: about to become HALF_OPEN, or so already. */
  ghost predicate ReadyForProbe(config: Config, s: System, n: nat, m: nat, t: real) {
    || Probed(s, n, m)
    || (n == m == 0 && s.b.state == OPEN && ShouldAttemptReset(config, s.b, t) && s.period == 0
        && s.inFlight == multiset{} && s.cancelled == 0)
  }

  lemma ProbeBegins(config: Config, s: System, n: nat, m: nat, t: real)
    requires ReadyForProbe(config, s, n, m, t) && n < config.halfOpenMaxCalls
    ensures var called := Step(config, s, Call(t));
            called.inFlight == multiset{Probe(1)} && Probed(called.(inFlight := multiset{},
              b := called.b.(halfOpenCalls := n)), n, m) && called.b.halfOpenCalls == n + 1
  {
  }

  lemma ProbeSucceeds(config: Config, s: System, n: nat, m: nat, t: real)
    requires ReadyForProbe(config, s, n, m, t) && n < config.halfOpenMaxCalls && m + 1 < config.successThreshold
    ensures Probed(Step(config, Step(config, s, Call(t)), Succeed(t, Probe(1))), n + 1, m + 1)
  {
    ProbeBegins(config, s, n, m, t);
  }

  lemma ProbeCancelled(config: Config, s: System, n: nat, m: nat, t: real)
    requires ReadyForProbe(config, s, n, m, t) && n < config.halfOpenMaxCalls
    ensures Probed(Step(config, Step(config, s, Call(t)), Cancel(t, Probe(1))), n + 1, m)
  {
    ProbeBegins(config, s, n, m, t);
  }

  lemma {:induction false} CancellingUsesUpQuota(config: Config, s: System, k: nat, t: real)
    requires ReadyForProbe(config, s, 0, 0, t) && k <= config.halfOpenMaxCalls
    ensures ReadyForProbe(config, RunFrom(config, s, Cancelling(k, t)), k, 0, t)
  {
    if k > 0 {
      CancellingUsesUpQuota(config, s, k - 1, t);
      RunPairs(config, s, k, Call(t), Cancel(t, Probe(1)));
      ProbeCancelled(config, RunFrom(config, s, Cancelling(k - 1, t)), k - 1, 0, t);
    }
  }

  lemma {:induction false} ProbingUsesUpQuota(config: Config, s: System, n: nat, k: nat, t: real)
    requires ReadyForProbe(config, s, n, 0, t) && n + k <= config.halfOpenMaxCalls
    requires k == 0 || k < config.successThreshold
    ensures ReadyForProbe(config, RunFrom(config, s, Probing(k, t)), n + k, k, t)
  {
    if k > 0 {
      ProbingUsesUpQuota(config, s, n, k - 1, t);
      var before := RunFrom(config, s, Probing(k - 1, t));
      ProbeSucceeds(config, before, n + (k - 1), k - 1, t);
      RunPairs(config, s, k, Call(t), Succeed(t, Probe(1)));
    } else {
      assert Probing(0, t) == [];
    }
  }

  lemma ConcatIsOrderly(es: seq<Event>, fs: seq<Event>, t0: real, t1: real)
    requires t0 <= t1
    requires forall e :: e in es ==> e.at == t0
    requires forall e :: e in fs ==> e.at == t1
    ensures Orderly(es + fs)
  {
    var all := es + fs;
    forall i | 0 <= i < |all| ensures all[i].at == if i < |es| then t0 else t1 {
      if i < |es| {
        assert all[i] in es;
      } else {
        assert all[i] in fs;
      }
    }
  }

  function Cancels(es: seq<Event>): nat {
    if es == [] then 0 else Cancels(es[..|es| - 1]) + if es[|es| - 1].Cancel? then 1 else 0
  }

  lemma {:induction false} CancelledAtMost(config: Config, es: seq<Event>, k: nat)
    requires k <= |es|
    ensures Run(config, es[..k]).cancelled <= Cancels(es[..k]) <= Cancels(es)
    decreases |es|, k
  {
    if k < |es| {
      CancelledAtMost(config, es[..|es| - 1], k);
      assert es[..|es| - 1][..k] == es[..k];
    } else {
      assert es[..k] == es;
      if k > 0 {
        CancelledAtMost(config, es[..k - 1], k - 1);
        assert es[..k - 1][..k - 1] == es[..k - 1];
      }
    }
  }

  lemma {:induction false} CancelsConcat(es: seq<Event>, fs: seq<Event>)
    ensures Cancels(es + fs) == Cancels(es) + Cancels(fs)
  {
    if fs == [] {
      assert es + fs == es;
    } else {
      CancelsConcat(es, fs[..|fs| - 1]);
      assert (es + fs)[..|es + fs| - 1] == es + fs[..|fs| - 1];
    }
  }

  lemma {:induction false} CancelsPairs(n: nat, a: Event, b: Event)
    requires a.Call?
    ensures Cancels(Pairs(n, a, b)) == if b.Cancel? then n else 0
  {
    if n > 0 {
      CancelsPairs(n - 1, a, b);
      var es := Pairs(n - 1, a, b) + [a, b];
      assert es[..|es| - 1] == Pairs(n - 1, a, b) + [a];
      assert es[..|es| - 1][..|es| - 2] == Pairs(n - 1, a, b);
    }
  }

  lemma QuotaIsUsedUp(config: Config, s: System, k: nat, n: nat, t: real)
    requires ReadyForProbe(config, s, 0, 0, t) && k + n == config.halfOpenMaxCalls > 0
    requires n == 0 || n < config.successThreshold
    ensures Probed(RunFrom(config, s, Cancelling(k, t) + Probing(n, t)), k + n, n)
  {
    CancellingUsesUpQuota(config, s, k, t);
    ProbingUsesUpQuota(config, RunFrom(config, s, Cancelling(k, t)), k, n, t);
    RunFromConcat(config, s, Cancelling(k, t), Probing(n, t));
  }

  lemma CancelsOf(k: nat, n: nat, t: real)
    ensures Cancels(Cancelling(k, t) + Probing(n, t)) == k
    ensures forall e :: e in Cancelling(k, t) + Probing(n, t) ==> e.at == t
  {
    PairsHoldOnly(k, Call(t), Cancel(t, Probe(1)));
    PairsHoldOnly(n, Call(t), Succeed(t, Probe(1)));
    CancelsConcat(Cancelling(k, t), Probing(n, t));
    CancelsPairs(k, Call(t), Cancel(t, Probe(1)));
    CancelsPairs(n, Call(t), Succeed(t, Probe(1)));
  }

  /** From a tripped breaker, calls that use up its quota without closing it, c of them cancelled. */
  lemma SmallQuotaIsUsedUp(config: Config, c: nat, s: System, t: real) returns (es: seq<Event>)
    requires config.halfOpenMaxCalls - c < Quorum(config) && ReadyForProbe(config, s, 0, 0, t) && s.b.state == OPEN
    ensures Wedged(config, RunFrom(config, s, es)) && RunFrom(config, s, es).inFlight == multiset{}
    ensures Cancels(es) <= c && forall e :: e in es ==> e.at == t
  {
    if config.halfOpenMaxCalls <= 0 {
      es := [Call(t)];
      assert es[..0] == [] && RunFrom(config, s, es[..0]) == s;
    } else {
      var k := if c < config.halfOpenMaxCalls then c else config.halfOpenMaxCalls;
      var n := config.halfOpenMaxCalls - k;
      es := Cancelling(k, t) + Probing(n, t);
      QuotaIsUsedUp(config, s, k, n, t);
      CancelsOf(k, n, t);
    }
  }

  /** A run that wedges a breaker whose probe quota, less c cancelled probes, is below its success threshold or zero. */
  lemma SmallQuotaWedges(config: Config, c: nat) returns (es: seq<Event>)
    requires config.halfOpenMaxCalls - c < Quorum(config)
    ensures Orderly(es) && FewCancelled(config, es, c)
    ensures Wedged(config, Run(config, es)) && Run(config, es).inFlight == multiset{}
  {
    var t := if config.recoveryTimeout > 0.0 then config.recoveryTimeout else 0.0;
    var failures := Failing(Limit(config));
    FailingTrips(config, Limit(config));
    PairsHoldOnly(Limit(config), Call(0.0), Fail(0.0, Normal));
    var probes := SmallQuotaIsUsedUp(config, c, Run(config, failures), t);
    es := failures + probes;
    RunFromConcat(config, START, failures, probes);
    ConcatIsOrderly(failures, probes, 0.0, t);
    CancelsConcat(failures, probes);
    CancelsPairs(Limit(config), Call(0.0), Fail(0.0, Normal));
    forall k | 0 <= k <= |es| ensures Run(config, es[..k]).cancelled <= c {
      CancelledAtMost(config, es, k);
    }
  }

  /** When up to c callers are cancelled per HALF_OPEN period and all others end in success or failure, a breaker
      can wedge exactly when its quota leaves too few probes. */
  lemma NeverWedgesIff(config: Config, c: nat)
    ensures NeverWedges(config, c) <==> config.halfOpenMaxCalls - c >= Quorum(config)
  {
    if config.halfOpenMaxCalls - c >= Quorum(config) {
      forall es | Orderly(es) && FewCancelled(config, es, c) ensures !Wedged(config, Run(config, es)) {
        RunAccountsProbes(config, es);
        assert es[..|es|] == es;
      }
    } else {
      var es := SmallQuotaWedges(config, c);
      assert Orderly(es) && FewCancelled(config, es, c) && Wedged(config, Run(config, es));
    }
  }

  /** A wedged breaker with no call in flight stays as it is, whatever happens and however long. */
  lemma {:induction false} WedgedForever(config: Config, s: System, es: seq<Event>)
    requires Wedged(config, s) && s.inFlight == multiset{}
    ensures RunFrom(config, s, es) == s
  {
    if es != [] {
      WedgedForever(config, s, es[..|es| - 1]);
    }
  }

  // ---- When a CLOSED breaker trips ------------------------------------------

  /** Failures minus successes. */
  function Balance(outcomes: seq<bool>): int {
    if outcomes == [] then 0
    else Balance(outcomes[..|outcomes| - 1]) + (if outcomes[|outcomes| - 1] then -1 else 1)
  }

  /** v is the largest balance of a suffix, the empty one included. */
  ghost predicate Peak(outcomes: seq<bool>, v: int) {
    && (exists i :: 0 <= i <= |outcomes| && Balance(outcomes[i..]) == v)
    && forall i :: 0 <= i <= |outcomes| ==> Balance(outcomes[i..]) <= v
  }

  /** Some contiguous run of outcomes has at least n more failures than successes. */
  ghost predicate HasExcess(outcomes: seq<bool>, n: int) {
    exists i, j :: 0 <= i <= j <= |outcomes| && Balance(outcomes[i..j]) >= n
  }

  lemma BalanceAppend(outcomes: seq<bool>, ok: bool, i: nat)
    requires i <= |outcomes|
    ensures Balance((outcomes + [ok])[i..]) == Balance(outcomes[i..]) + if ok then -1 else 1
  {
    var all := (outcomes + [ok])[i..];
    assert all[..|all| - 1] == outcomes[i..];
  }

  lemma PeakAppend(outcomes: seq<bool>, v: int, ok: bool)
    requires Peak(outcomes, v)
    ensures Peak(outcomes + [ok], if !ok then v + 1 else if v - 1 > 0 then v - 1 else 0)
  {
    var all := outcomes + [ok];
    forall i | 0 <= i <= |outcomes| ensures Balance(all[i..]) == Balance(outcomes[i..]) + if ok then -1 else 1 {
      BalanceAppend(outcomes, ok, i);
    }
    var best :| 0 <= best <= |outcomes| && Balance(outcomes[best..]) == v;
    assert Balance(outcomes[|outcomes|..]) == 0;
    assert Balance(all[best..]) == v + if ok then -1 else 1;
    assert Balance(all[|all|..]) == 0;
  }

  lemma NewExcessIsSuffix(outcomes: seq<bool>, ok: bool, n: int)
    requires HasExcess(outcomes + [ok], n)
    ensures var all := outcomes + [ok];
            HasExcess(outcomes, n) || exists i :: 0 <= i <= |all| && Balance(all[i..]) >= n
  {
    var all := outcomes + [ok];
    var i, j :| 0 <= i <= j <= |all| && Balance(all[i..j]) >= n;
    if j == |all| {
      assert all[i..j] == all[i..];
    } else {
      assert all[i..j] == outcomes[i..j];
    }
  }

  lemma ExcessAppend(outcomes: seq<bool>, v: int, ok: bool, n: int)
    requires !HasExcess(outcomes, n) && Peak(outcomes + [ok], v)
    ensures HasExcess(outcomes + [ok], n) <==> v >= n
  {
    var all := outcomes + [ok];
    if v >= n {
      var i :| 0 <= i <= |all| && Balance(all[i..]) == v;
      assert all[i..|all|] == all[i..];
    }
    if HasExcess(all, n) {
      NewExcessIsSuffix(outcomes, ok, n);
    }
  }

  ghost predicate CountsOutcomes(config: Config, s: System) {
    s.b.state == CLOSED ==>
      Peak(s.outcomes, s.b.failures) && !HasExcess(s.outcomes, Limit(config))
  }

  lemma NoExcessNoPeak(outcomes: seq<bool>, v: int, n: int)
    requires Peak(outcomes, v) && !HasExcess(outcomes, n)
    ensures v < n
  {
    var i :| 0 <= i <= |outcomes| && Balance(outcomes[i..]) == v;
    assert outcomes[i..|outcomes|] == outcomes[i..];
  }

  /** One more outcome in CLOSED: the counter stays the peak, and reaches the threshold with the first excess. */
  lemma OutcomeCounted(config: Config, b: Breaker, outcomes: seq<bool>, ok: bool, now: real)
    requires b.state == CLOSED && Peak(outcomes, b.failures) && !HasExcess(outcomes, Limit(config))
    ensures var b' := if ok then OnSuccess(config, b) else OnFailure(config, b, now);
            && Peak(outcomes + [ok], b'.failures)
            && (b'.state == OPEN <==> HasExcess(outcomes + [ok], Limit(config)))
            && (b'.state == OPEN || b'.state == CLOSED)
  {
    var v := if !ok then b.failures + 1 else if b.failures - 1 > 0 then b.failures - 1 else 0;
    PeakAppend(outcomes, b.failures, ok);
    ExcessAppend(outcomes, v, ok, Limit(config));
    NoExcessNoPeak(outcomes, b.failures, Limit(config));
    assert Balance(outcomes[|outcomes|..]) == 0;
  }

  lemma StepCountsOutcomes(config: Config, s: System, e: Event)
    requires CountsOutcomes(config, s)
    ensures CountsOutcomes(config, Step(config, s, e))
    ensures s.b.state == CLOSED && (e.Succeed? || e.Fail?) && e.ticket in s.inFlight ==>
              (Step(config, s, e).b.state == OPEN <==> HasExcess(s.outcomes + [e.Succeed?], Limit(config)))
  {
    if s.b.state == CLOSED && (e.Succeed? || e.Fail?) && e.ticket in s.inFlight {
      OutcomeCounted(config, s.b, s.outcomes, e.Succeed?, e.at);
    } else {
      EmptyHistory(Limit(config));
    }
  }

  lemma EmptyHistory(n: nat)
    requires n >= 1
    ensures Peak([], 0) && !HasExcess([], n)
  {
    var none: seq<bool> := [];
    assert Balance(none[0..]) == 0;
    forall i, j | 0 <= i <= j <= |none| ensures Balance(none[i..j]) == 0 {
    }
  }

  lemma {:induction false} RunCountsOutcomes(config: Config, es: seq<Event>)
    ensures CountsOutcomes(config, Run(config, es))
  {
    if es == [] {
      EmptyHistory(Limit(config));
    } else {
      RunCountsOutcomes(config, es[..|es| - 1]);
      StepCountsOutcomes(config, Run(config, es[..|es| - 1]), es[|es| - 1]);
    }
  }

  /** While CLOSED, the failure counter is the peak of the outcomes recorded in this CLOSED period. */
  lemma FailuresArePeak(config: Config, es: seq<Event>)
    requires Run(config, es).b.state == CLOSED
    ensures Peak(Run(config, es).outcomes, Run(config, es).b.failures)
  {
    RunCountsOutcomes(config, es);
  }

  /** A completion trips a CLOSED breaker exactly when, with it, some contiguous run of this
      period's outcomes has failures exceeding successes by the threshold. */
  lemma TripsExactlyOnExcess(config: Config, es: seq<Event>, e: Event)
    requires Run(config, es).b.state == CLOSED && (e.Succeed? || e.Fail?) && e.ticket in Run(config, es).inFlight
    ensures var s, s' := Run(config, es), Run(config, es + [e]);
            s'.b.state == OPEN <==> HasExcess(s.outcomes + [e.Succeed?], Limit(config))
  {
    RunCountsOutcomes(config, es);
    StepCountsOutcomes(config, Run(config, es), e);
    assert (es + [e])[..|es|] == es;
  }

  // ---- What decides each call ------------------------------------------------------------

  lemma RunNext(config: Config, es: seq<Event>, e: Event)
    ensures Run(config, es + [e]) == Step(config, Run(config, es), e)
  {
    assert (es + [e])[..|es|] == es;
  }

  /** When a call in flight last failed. */
  function LastFailure(config: Config, es: seq<Event>): Option<real> {
    if es == [] then None
    else
      var e := es[|es| - 1];
      if e.Fail? && e.ticket in Run(config, es[..|es| - 1]).inFlight then Some(e.at)
      else LastFailure(config, es[..|es| - 1])
  }

  lemma CallKeepsFailureTime(config: Config, s: System, now: real)
    ensures Step(config, s, Call(now)).b.lastFailureTime == s.b.lastFailureTime
    ensures Step(config, s, Call(now)).b.state == OPEN ==> s.b.state == OPEN
  {
  }

  lemma EndOnFailureTime(config: Config, s: System, e: Event)
    requires !e.Call?
    ensures Step(config, s, e).b.lastFailureTime ==
            if e.Fail? && e.ticket in s.inFlight then Some(e.at) else s.b.lastFailureTime
    ensures Step(config, s, e).b.state == OPEN ==> s.b.state == OPEN || (e.Fail? && e.ticket in s.inFlight)
  {
  }

  lemma StepOnFailureTime(config: Config, s: System, e: Event)
    ensures Step(config, s, e).b.lastFailureTime ==
            if e.Fail? && e.ticket in s.inFlight then Some(e.at) else s.b.lastFailureTime
    ensures Step(config, s, e).b.state == OPEN ==> s.b.state == OPEN || (e.Fail? && e.ticket in s.inFlight)
  {
    if e.Call? {
      CallKeepsFailureTime(config, s, e.at);
    } else {
      EndOnFailureTime(config, s, e);
    }
  }

  lemma RunUnfold(config: Config, es: seq<Event>)
    requires es != []
    ensures Run(config, es) == Step(config, Run(config, es[..|es| - 1]), es[|es| - 1])
  {
  }

  lemma {:induction false} RunKnowsLastFailure(config: Config, es: seq<Event>)
    ensures Run(config, es).b.lastFailureTime == LastFailure(config, es)
    ensures Run(config, es).b.state == OPEN ==> LastFailure(config, es).Some?
  {
    if es != [] {
      var es', e := es[..|es| - 1], es[|es| - 1];
      RunKnowsLastFailure(config, es');
      RunUnfold(config, es);
      StepOnFailureTime(config, Run(config, es'), e);
    }
  }

  /** A call by itself leaves the calls in flight as they were, or joins them. */
  predicate Admits(config: Config, es: seq<Event>, now: real) {
    Run(config, es + [Call(now)]).inFlight != Run(config, es).inFlight
  }

  lemma Joins(s: multiset<Ticket>, t: Ticket)
    ensures s + multiset{t} != s
  {
    assert (s + multiset{t})[t] == s[t] + 1;
  }

  /** In every run, an OPEN breaker changes nothing on a call until the recovery timeout has passed since the last
      failure of a call in flight; from then on it turns HALF_OPEN, and admits the call if the quota is positive. */
  lemma OpenAdmitsIff(config: Config, es: seq<Event>, now: real)
    requires Run(config, es).b.state == OPEN
    ensures LastFailure(config, es).Some?
    ensures var recovered := now - LastFailure(config, es).value >= config.recoveryTimeout;
            && (Admits(config, es, now) <==> recovered && config.halfOpenMaxCalls > 0)
            && (!recovered ==> Run(config, es + [Call(now)]) == Run(config, es))
            && (recovered ==> Run(config, es + [Call(now)]).b.state == HALF_OPEN)
  {
    RunKnowsLastFailure(config, es);
    RunNext(config, es, Call(now));
    Joins(Run(config, es).inFlight, Probe(Run(config, es).period + 1));
  }

  ghost predicate Within(fs: seq<Event>, from: real, until: real) {
    forall f :: f in fs ==> from <= f.at < until
  }

  lemma StaysOpen(config: Config, s: System, e: Event)
    requires s.b.state == OPEN && s.b.lastFailureTime.Some?
    requires e.at < s.b.lastFailureTime.value + config.recoveryTimeout
    ensures Step(config, s, e).b.state == OPEN && Step(config, s, e).inFlight <= s.inFlight
  {
  }

  ghost predicate StillOpen(config: Config, es: seq<Event>, t: real, inFlight: multiset<Ticket>) {
    && Run(config, es).b.state == OPEN && Run(config, es).inFlight <= inFlight
    && LastFailure(config, es).Some? && LastFailure(config, es).value >= t
  }

  lemma OpenStep(config: Config, es: seq<Event>, e: Event, t: real, inFlight: multiset<Ticket>)
    requires StillOpen(config, es, t, inFlight) && t <= e.at < t + config.recoveryTimeout
    ensures StillOpen(config, es + [e], t, inFlight)
  {
    RunKnowsLastFailure(config, es);
    RunKnowsLastFailure(config, es + [e]);
    RunNext(config, es, e);
    StaysOpen(config, Run(config, es), e);
    StepOnFailureTime(config, Run(config, es), e);
  }

  lemma LastApart(es: seq<Event>, fs: seq<Event>)
    requires fs != []
    ensures (es + fs[..|fs| - 1]) + [fs[|fs| - 1]] == es + fs
  {
  }

  lemma {:induction false} RunStaysOpen(
      config: Config, es: seq<Event>, fs: seq<Event>, t: real, inFlight: multiset<Ticket>)
    requires StillOpen(config, es, t, inFlight) && Within(fs, t, t + config.recoveryTimeout)
    ensures StillOpen(config, es + fs, t, inFlight)
  {
    if fs == [] {
      assert es + fs == es;
    } else {
      var n := |fs| - 1;
      assert fs[n] in fs && forall f :: f in fs[..n] ==> f in fs;
      RunStaysOpen(config, es, fs[..n], t, inFlight);
      OpenStep(config, es + fs[..n], fs[n], t, inFlight);
      LastApart(es, fs);
    }
  }

  /** After a failure that leaves the breaker OPEN, nothing is admitted until the recovery timeout is over: whatever
      happens, it stays OPEN, and calls in flight only end. */
  lemma OpenIsQuiet(config: Config, es: seq<Event>, fs: seq<Event>, now: real)
    requires Run(config, es).b.state == OPEN && LastFailure(config, es).Some?
    requires var t := LastFailure(config, es).value;
             Within(fs, t, t + config.recoveryTimeout) && now < t + config.recoveryTimeout
    ensures Run(config, es + fs).b.state == OPEN
    ensures Run(config, es + fs).inFlight <= Run(config, es).inFlight
    ensures !Admits(config, es + fs, now)
  {
    RunStaysOpen(config, es, fs, LastFailure(config, es).value, Run(config, es).inFlight);
    OpenAdmitsIff(config, es + fs, now);
  }

  /** Calls admitted since the breaker last turned HALF_OPEN. */
  function AdmittedSince(config: Config, es: seq<Event>): nat {
    if es == [] then 0
    else
      var es', e := es[..|es| - 1], es[|es| - 1];
      var opens := Run(config, es').b.state != HALF_OPEN && Run(config, es).b.state == HALF_OPEN;
      (if opens then 0 else AdmittedSince(config, es'))
      + if e.Call? && Run(config, es).inFlight != Run(config, es').inFlight then 1 else 0
  }

  /** Calls in flight that have succeeded since then. */
  function SucceededSince(config: Config, es: seq<Event>): nat {
    if es == [] then 0
    else
      var es', e := es[..|es| - 1], es[|es| - 1];
      var opens := Run(config, es').b.state != HALF_OPEN && Run(config, es).b.state == HALF_OPEN;
      (if opens then 0 else SucceededSince(config, es'))
      + if e.Succeed? && e.ticket in Run(config, es').inFlight then 1 else 0
  }

  /** What a step makes of the two counters, if it ends in HALF_OPEN. */
  ghost predicate Recounted(s: System, s': System, joined: bool, succeeded: bool) {
    && s'.b.halfOpenCalls == (if s.b.state != HALF_OPEN then 0 else s.b.halfOpenCalls) + (if joined then 1 else 0)
    && s'.b.successes == (if s.b.state != HALF_OPEN then 0 else s.b.successes) + (if succeeded then 1 else 0)
  }

  lemma CallCounts(config: Config, s: System, now: real)
    requires Step(config, s, Call(now)).b.state == HALF_OPEN
    ensures var s' := Step(config, s, Call(now)); Recounted(s, s', s'.inFlight != s.inFlight, false)
  {
    Joins(s.inFlight, Probe(s.period));
    Joins(s.inFlight, Probe(s.period + 1));
  }

  lemma EndCounts(config: Config, s: System, e: Event)
    requires !e.Call? && Step(config, s, e).b.state == HALF_OPEN
    ensures Recounted(s, Step(config, s, e), false, e.Succeed? && e.ticket in s.inFlight)
  {
  }

  lemma {:induction false} RunCounts(config: Config, es: seq<Event>)
    requires Run(config, es).b.state == HALF_OPEN
    ensures Run(config, es).b.halfOpenCalls == AdmittedSince(config, es)
    ensures Run(config, es).b.successes == SucceededSince(config, es)
  {
    if es != [] {
      var es', e := es[..|es| - 1], es[|es| - 1];
      RunUnfold(config, es);
      if e.Call? {
        CallCounts(config, Run(config, es'), e.at);
      } else {
        EndCounts(config, Run(config, es'), e);
      }
      if Run(config, es').b.state == HALF_OPEN {
        RunCounts(config, es');
      }
    }
  }

  /** In every run, a HALF_OPEN breaker admits a call if and only if fewer than the quota were admitted in this period;
      it closes exactly with the success that reaches the threshold, and opens with any failure. */
  lemma HalfOpenDecides(config: Config, es: seq<Event>, now: real, t: Ticket)
    requires Run(config, es).b.state == HALF_OPEN
    ensures Admits(config, es, now) <==> AdmittedSince(config, es) < config.halfOpenMaxCalls
    ensures Run(config, es + [Call(now)]).b.state == HALF_OPEN
    ensures t in Run(config, es).inFlight ==>
              && Run(config, es + [Fail(now, t)]).b.state == OPEN
              && Run(config, es + [Succeed(now, t)]).b.state ==
                 if SucceededSince(config, es) + 1 >= config.successThreshold then CLOSED else HALF_OPEN
    ensures Run(config, es + [Cancel(now, t)]).b == Run(config, es).b
  {
    RunCounts(config, es);
    RunNext(config, es, Call(now));
    RunNext(config, es, Fail(now, t));
    RunNext(config, es, Succeed(now, t));
    RunNext(config, es, Cancel(now, t));
    Joins(Run(config, es).inFlight, Probe(Run(config, es).period));
  }

  /** A CLOSED breaker admits every call, and stays as it is. */
  lemma ClosedAdmits(config: Config, es: seq<Event>, now: real)
    requires Run(config, es).b.state == CLOSED
    ensures Admits(config, es, now) && Run(config, es + [Call(now)]).b == Run(config, es).b
  {
    RunNext(config, es, Call(now));
    Joins(Run(config, es).inFlight, Normal);
  }

  /** How often the breaker has become OPEN. */
  function Openings(config: Config, es: seq<Event>): nat {
    if es == [] then 0
    else
      Openings(config, es[..|es| - 1])
      + if Run(config, es[..|es| - 1]).b.state != OPEN && Run(config, es).b.state == OPEN then 1 else 0
  }

  lemma CallTripsNothing(config: Config, s: System, now: real)
    ensures Step(config, s, Call(now)).b.trips == s.b.trips
    ensures Step(config, s, Call(now)).b.state == OPEN ==> s.b.state == OPEN
  {
  }

  lemma EndTrips(config: Config, s: System, e: Event)
    requires !e.Call?
    ensures var s' := Step(config, s, e);
            s'.b.trips == s.b.trips + if s.b.state != OPEN && s'.b.state == OPEN then 1 else 0
  {
  }

  /** The metric counts exactly these. */
  lemma {:induction false} TripsAreOpenings(config: Config, es: seq<Event>)
    ensures Run(config, es).b.trips == Openings(config, es)
  {
    if es != [] {
      TripsAreOpenings(config, es[..|es| - 1]);
      RunUnfold(config, es);
      var s, e := Run(config, es[..|es| - 1]), es[|es| - 1];
      if e.Call? {
        CallTripsNothing(config, s, e.at);
      } else {
        EndTrips(config, s, e);
      }
    }
  }
}
