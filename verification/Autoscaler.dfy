/** The GPU autoscaler (engine/gpu_autoscaler.py): scoring, decisions, and the loop that
    decides and then applies. The lock is free between the two. */
module Autoscaler {
  import opened Options
  import opened Numbers

  datatype PoolConfig = PoolConfig(
    minNodes: int, maxNodes: int, targetUtilization: real, scaleUpCooldown: real, scaleDownCooldown: real)

  /** The metrics that count towards the score, each reported or not. */
  datatype Metrics = Metrics(
    utilization: Option<real>, queueDepth: Option<real>, waitTime: Option<real>, errorRate: Option<real>)

  const NO_METRICS := Metrics(None, None, None, None)

  datatype Action = SCALE_UP | SCALE_DOWN | MAINTAIN | EMERGENCY_SCALE_UP

  datatype Decision = Decision(action: Action, currentNodes: int, targetNodes: int)

  // ---- The load score -------------------------------------------------------------------

  datatype Reading = Reading(score: real, weight: real)

  function TotalWeight(rs: seq<Reading>): real {
    if rs == [] then 0.0 else TotalWeight(rs[..|rs| - 1]) + rs[|rs| - 1].weight
  }

  function WeightedSum(rs: seq<Reading>): real {
    if rs == [] then 0.0 else WeightedSum(rs[..|rs| - 1]) + rs[|rs| - 1].score * rs[|rs| - 1].weight
  }

  ghost predicate Weighted(rs: seq<Reading>) {
    forall i :: 0 <= i < |rs| ==> rs[i].weight > 0.0
  }

  lemma {:induction false} WeightIsPositive(rs: seq<Reading>)
    requires Weighted(rs)
    ensures TotalWeight(rs) >= 0.0 && (rs != [] ==> TotalWeight(rs) > 0.0)
  {
    if rs != [] {
      WeightIsPositive(rs[..|rs| - 1]);
    }
  }

  function Average(rs: seq<Reading>): real
    requires Weighted(rs) && rs != []
  {
    WeightIsPositive(rs);
    WeightedSum(rs) / TotalWeight(rs)
  }

  function Score(rs: seq<Reading>): real
    requires Weighted(rs)
  {
    if rs == [] then 0.0 else Min(Average(rs), 1.0)
  }

  /** Normalized by a scale and capped. */
  function Normalized(x: Option<real>, scale: real): Option<real>
    requires x.Some? ==> scale != 0.0
  {
    if x.None? then None else Some(Min(x.value / scale, 1.0))
  }

  function Reported(rs: seq<Reading>, x: Option<real>, weight: real): (r: seq<Reading>)
    requires Weighted(rs) && weight > 0.0
    ensures Weighted(r)
  {
    if x.None? then rs else rs + [Reading(x.value, weight)]
  }

  function Capacity(pool: PoolConfig): real {
    (pool.maxNodes * 10) as real
  }

  /** A queue depth is divided by the capacity of the pool. */
  predicate Raises(pool: PoolConfig, m: Metrics) {
    m.queueDepth.Some? && pool.maxNodes == 0
  }

  /** Utilization is taken as it is; the others are normalized and capped. */
  function Readings(pool: PoolConfig, m: Metrics): (rs: seq<Reading>)
    requires !Raises(pool, m)
    ensures Weighted(rs)
  {
    var utilization := Reported([], m.utilization, 3.0);
    var queueDepth := Reported(utilization, Normalized(m.queueDepth, Capacity(pool)), 2.0);
    var waitTime := Reported(queueDepth, Normalized(m.waitTime, 60.0), 1.5);
    Reported(waitTime, Normalized(m.errorRate, 0.1), 1.0)
  }

  /** None when the division by a zero capacity raises. */
  function LoadScore(pool: PoolConfig, m: Metrics): Option<real> {
    if Raises(pool, m) then None
    else Some(Score(Readings(pool, m)))
  }

  // ---- Deciding and applying ---------------------------------------------------------------

  function Decide(pool: PoolConfig, nodes: int, elapsed: real, score: real): Decision {
    if score >= 0.95 then
      Decision(EMERGENCY_SCALE_UP, nodes, MinInt(nodes + 3, pool.maxNodes))
    else if score >= pool.targetUtilization + 0.1 then
      if elapsed < pool.scaleUpCooldown then Decision(MAINTAIN, nodes, nodes)
      else Decision(SCALE_UP, nodes, MinInt(nodes + 1, pool.maxNodes))
    else if score <= pool.targetUtilization - 0.2 then
      if elapsed < pool.scaleDownCooldown then Decision(MAINTAIN, nodes, nodes)
      else Decision(SCALE_DOWN, nodes, MaxInt(nodes - 1, pool.minNodes))
    else
      Decision(MAINTAIN, nodes, nodes)
  }

  function Clamped(pool: PoolConfig, target: int): int {
    MaxInt(pool.minNodes, MinInt(target, pool.maxNodes))
  }

  function NodesAfter(pool: PoolConfig, nodes: int, d: Decision): int {
    if d.action == MAINTAIN then nodes else Clamped(pool, d.targetNodes)
  }

  /** An applied change of a node count. */
  datatype Change = Change(pool: string, decision: Decision, at: real, before: int, after: int)

  datatype State = State(
    nodes: map<string, int>, lastScale: map<string, real>, metrics: map<string, Metrics>, changes: seq<Change>)

  ghost predicate Covers(pools: map<string, PoolConfig>, s: State) {
    s.nodes.Keys == s.lastScale.Keys == pools.Keys
  }

  function Initial(pools: map<string, PoolConfig>): State {
    State(map p | p in pools :: pools[p].minNodes, map p | p in pools :: 0.0, map[], [])
  }

  function MetricsOf(s: State, p: string): Metrics {
    if p in s.metrics then s.metrics[p] else NO_METRICS
  }

  /** The decision for a pool, or None when scoring raises. */
  function Decided(pools: map<string, PoolConfig>, s: State, p: string, now: real): Option<Decision>
    requires Covers(pools, s)
  {
    if p !in pools then Some(Decision(MAINTAIN, 0, 0))
    else
      var score := LoadScore(pools[p], MetricsOf(s, p));
      if score.None? then None
      else Some(Decide(pools[p], s.nodes[p], now - s.lastScale[p], score.value))
  }

  function Applied(pools: map<string, PoolConfig>, s: State, p: string, d: Decision, now: real): State
    requires Covers(pools, s)
  {
    if p !in pools || NodesAfter(pools[p], s.nodes[p], d) == s.nodes[p] then s
    else
      var target := Clamped(pools[p], d.targetNodes);
      s.(nodes := s.nodes[p := target], lastScale := s.lastScale[p := now],
         changes := s.changes + [Change(p, d, now, s.nodes[p], target)])
  }

  function DecisionsOf(changes: seq<Change>): (r: seq<Decision>)
  {
    seq(|changes|, i requires 0 <= i < |changes| => changes[i].decision)
  }

  class GPUAutoscaler {
    const nodePools: map<string, PoolConfig>
    var currentNodes: map<string, int>
    var metrics: map<string, Metrics>
    var lastScaleTime: map<string, real>
    var scalingHistory: seq<Decision>
    ghost var changes: seq<Change>

    ghost function Value(): State
      reads this
    {
      State(currentNodes, lastScaleTime, metrics, changes)
    }

    ghost predicate Valid()
      reads this
    {
      Covers(nodePools, Value()) && scalingHistory == DecisionsOf(changes)
    }

    constructor (pools: map<string, PoolConfig>)
      ensures Valid() && nodePools == pools && Value() == Initial(pools)
    {
      nodePools := pools;
      currentNodes := map p | p in pools :: pools[p].minNodes;
      lastScaleTime := map p | p in pools :: 0.0;
      metrics, scalingHistory, changes := map[], [], [];
    }

    method UpdateMetrics(p: string, m: Metrics)
      requires Valid()
      modifies this`metrics
      ensures Valid() && Value() == old(Value()).(metrics := old(metrics)[p := m])
    {
      metrics := metrics[p := m];
    }

    /** Two parallel lists are filled, then averaged. */
    method CalculateLoadScore(pool: PoolConfig, m: Metrics) returns (score: Option<real>)
      ensures score == LoadScore(pool, m)
    {
      var readings: seq<Reading> := [];
      if m.utilization.Some? {
        readings := readings + [Reading(m.utilization.value, 3.0)];
      }
      assert readings == Reported([], m.utilization, 3.0);
      if m.queueDepth.Some? {
        if pool.maxNodes == 0 {
          return None;
        }
        readings := readings + [Reading(Min(m.queueDepth.value / Capacity(pool), 1.0), 2.0)];
      }
      if m.waitTime.Some? {
        readings := readings + [Reading(Min(m.waitTime.value / 60.0, 1.0), 1.5)];
      }
      if m.errorRate.Some? {
        readings := readings + [Reading(Min(m.errorRate.value / 0.1, 1.0), 1.0)];
      }
      assert readings == Readings(pool, m);
      var average := WeightedScore(readings);
      return Some(average);
    }

    method WeightedScore(readings: seq<Reading>) returns (score: real)
      requires Weighted(readings)
      ensures score == Score(readings)
    {
      if readings == [] {
        return 0.0;
      }
      var weightedSum, totalWeight := 0.0, 0.0;
      for i := 0 to |readings|
        invariant weightedSum == WeightedSum(readings[..i]) && totalWeight == TotalWeight(readings[..i])
      {
        assert readings[..i + 1][..i] == readings[..i];
        weightedSum := weightedSum + readings[i].score * readings[i].weight;
        totalWeight := totalWeight + readings[i].weight;
      }
      assert readings[..|readings|] == readings;
      WeightIsPositive(readings);
      return Min(weightedSum / totalWeight, 1.0);
    }

    method GetScalingDecision(p: string, now: real) returns (d: Option<Decision>)
      requires Valid()
      ensures d == Decided(nodePools, Value(), p, now)
      // Scoring raises exactly on a queue depth for a pool without nodes; an unknown pool is left alone.
      ensures d.None? <==> p in nodePools && p in metrics && metrics[p].queueDepth.Some? && nodePools[p].maxNodes == 0
      ensures p !in nodePools ==> d == Some(Decision(MAINTAIN, 0, 0))
      ensures d.Some? && p in nodePools ==> d.value.currentNodes == currentNodes[p]
    {
      if p !in nodePools {
        return Some(Decision(MAINTAIN, 0, 0));
      }
      var pool, nodes := nodePools[p], currentNodes[p];
      var elapsed := now - lastScaleTime[p];
      var score := CalculateLoadScore(pool, if p in metrics then metrics[p] else NO_METRICS);
      if score.None? {
        return None;
      }
      var decision := Choose(pool, nodes, elapsed, score.value);
      return Some(decision);
    }

    method Choose(pool: PoolConfig, nodes: int, elapsed: real, load: real) returns (d: Decision)
      ensures d == Decide(pool, nodes, elapsed, load) && d.currentNodes == nodes
    {
      if load >= 0.95 {
        return Decision(EMERGENCY_SCALE_UP, nodes, MinInt(nodes + 3, pool.maxNodes));
      } else if load >= pool.targetUtilization + 0.1 {
        if elapsed < pool.scaleUpCooldown {
          return Decision(MAINTAIN, nodes, nodes);
        }
        return Decision(SCALE_UP, nodes, MinInt(nodes + 1, pool.maxNodes));
      } else if load <= pool.targetUtilization - 0.2 {
        if elapsed < pool.scaleDownCooldown {
          return Decision(MAINTAIN, nodes, nodes);
        }
        return Decision(SCALE_DOWN, nodes, MaxInt(nodes - 1, pool.minNodes));
      }
      return Decision(MAINTAIN, nodes, nodes);
    }

    method ApplyScalingDecision(p: string, d: Decision, now: real) returns (applied: bool)
      requires Valid()
      modifies this
      ensures Valid() && Value() == Applied(nodePools, old(Value()), p, d, now)
      ensures applied <==> p in nodePools && currentNodes[p] != old(currentNodes)[p]
    {
      if d.action == MAINTAIN {
        return false;
      }
      if p !in nodePools {
        return false;
      }
      var target := Clamped(nodePools[p], d.targetNodes);
      var current := currentNodes[p];
      if target == current {
        return false;
      }
      currentNodes := currentNodes[p := target];
      lastScaleTime := lastScaleTime[p := now];
      scalingHistory := scalingHistory + [d];
      changes := changes + [Change(p, d, now, current, target)];
      return true;
    }
  }

  // ---- More load, no fewer nodes --------------------------------------------------------------

  ghost predicate RaisedTo(x: Option<real>, y: Option<real>) {
    x.Some? == y.Some? && (x.Some? ==> x.value <= y.value)
  }

  /** The same metrics are reported, none of them lower. */
  ghost predicate Raised(m: Metrics, m': Metrics) {
    && RaisedTo(m.utilization, m'.utilization) && RaisedTo(m.queueDepth, m'.queueDepth)
    && RaisedTo(m.waitTime, m'.waitTime) && RaisedTo(m.errorRate, m'.errorRate)
  }

  ghost predicate NoneLower(rs: seq<Reading>, rs': seq<Reading>) {
    && |rs| == |rs'|
    && forall i :: 0 <= i < |rs| ==> rs[i].weight == rs'[i].weight && rs[i].score <= rs'[i].score
  }

  lemma DivMonotone(a: real, b: real, w: real)
    requires a <= b && w > 0.0
    ensures a / w <= b / w
  {
  }

  lemma {:induction false} SumMonotone(rs: seq<Reading>, rs': seq<Reading>)
    requires NoneLower(rs, rs') && Weighted(rs)
    ensures WeightedSum(rs) <= WeightedSum(rs') && TotalWeight(rs) == TotalWeight(rs')
  {
    if rs != [] {
      var n := |rs| - 1;
      SumMonotone(rs[..n], rs'[..n]);
      MulMonotone(rs[n].score, rs'[n].score, rs[n].weight);
    }
  }

  lemma NormalizedMonotone(x: Option<real>, y: Option<real>, scale: real)
    requires RaisedTo(x, y) && (x.Some? ==> scale > 0.0)
    ensures RaisedTo(Normalized(x, scale), Normalized(y, scale))
  {
    if x.Some? {
      DivMonotone(x.value, y.value, scale);
    }
  }

  lemma ReportedMonotone(rs: seq<Reading>, rs': seq<Reading>, x: Option<real>, y: Option<real>, weight: real)
    requires NoneLower(rs, rs') && Weighted(rs) && Weighted(rs') && RaisedTo(x, y) && weight > 0.0
    ensures NoneLower(Reported(rs, x, weight), Reported(rs', y, weight))
  {
  }

  lemma ReadingsMonotone(pool: PoolConfig, m: Metrics, m': Metrics)
    requires Raised(m, m') && (m.queueDepth.Some? ==> pool.maxNodes > 0)
    ensures NoneLower(Readings(pool, m), Readings(pool, m'))
  {
    var queue, queue' := Normalized(m.queueDepth, Capacity(pool)), Normalized(m'.queueDepth, Capacity(pool));
    var wait, wait' := Normalized(m.waitTime, 60.0), Normalized(m'.waitTime, 60.0);
    NormalizedMonotone(m.queueDepth, m'.queueDepth, Capacity(pool));
    NormalizedMonotone(m.waitTime, m'.waitTime, 60.0);
    NormalizedMonotone(m.errorRate, m'.errorRate, 0.1);
    var a, a' := Reported([], m.utilization, 3.0), Reported([], m'.utilization, 3.0);
    ReportedMonotone([], [], m.utilization, m'.utilization, 3.0);
    var b, b' := Reported(a, queue, 2.0), Reported(a', queue', 2.0);
    ReportedMonotone(a, a', queue, queue', 2.0);
    var c, c' := Reported(b, wait, 1.5), Reported(b', wait', 1.5);
    ReportedMonotone(b, b', wait, wait', 1.5);
    ReportedMonotone(c, c', Normalized(m.errorRate, 0.1), Normalized(m'.errorRate, 0.1), 1.0);
  }

  lemma AverageMonotone(rs: seq<Reading>, rs': seq<Reading>)
    requires NoneLower(rs, rs') && Weighted(rs) && Weighted(rs') && rs != [] && rs' != []
    ensures Average(rs) <= Average(rs')
  {
    SumMonotone(rs, rs');
    WeightIsPositive(rs);
    DivMonotone(WeightedSum(rs), WeightedSum(rs'), TotalWeight(rs));
  }

  lemma ScoreOfMonotone(rs: seq<Reading>, rs': seq<Reading>)
    requires NoneLower(rs, rs') && Weighted(rs) && Weighted(rs')
    ensures Score(rs) <= Score(rs')
  {
    if rs != [] {
      AverageMonotone(rs, rs');
    }
  }

  lemma ScoreMonotone(pool: PoolConfig, m: Metrics, m': Metrics)
    requires Raised(m, m') && !Raises(pool, m) && pool.maxNodes >= 0
    ensures !Raises(pool, m') && LoadScore(pool, m).value <= LoadScore(pool, m').value
  {
    ReadingsMonotone(pool, m, m');
    ScoreOfMonotone(Readings(pool, m), Readings(pool, m'));
  }

  ghost predicate ScoreFollowsLoad(pool: PoolConfig) {
    forall m, m' :: Raised(m, m') && LoadScore(pool, m).Some? ==>
      LoadScore(pool, m').Some? && LoadScore(pool, m).value <= LoadScore(pool, m').value
  }

  /** Raising metrics never lowers the score, exactly when the capacity is not negative. */
  lemma ScoreFollowsLoadIff(pool: PoolConfig)
    ensures ScoreFollowsLoad(pool) <==> pool.maxNodes >= 0
  {
    if pool.maxNodes >= 0 {
      forall m, m' | Raised(m, m') && LoadScore(pool, m).Some?
        ensures LoadScore(pool, m').Some? && LoadScore(pool, m).value <= LoadScore(pool, m').value
      {
        ScoreMonotone(pool, m, m');
      }
    } else {
      var low, high := NO_METRICS.(queueDepth := Some(0.0)), NO_METRICS.(queueDepth := Some(-Capacity(pool)));
      QueueScore(pool, 0.0);
      QueueScore(pool, -Capacity(pool));
      assert -Capacity(pool) / Capacity(pool) == -1.0;
      assert Raised(low, high) && LoadScore(pool, low) == Some(0.0) && LoadScore(pool, high) == Some(-1.0);
    }
  }

  lemma QueueScore(pool: PoolConfig, depth: real)
    requires pool.maxNodes != 0
    ensures LoadScore(pool, NO_METRICS.(queueDepth := Some(depth))) == Some(Min(depth / Capacity(pool), 1.0))
  {
    var rs := Readings(pool, NO_METRICS.(queueDepth := Some(depth)));
    var x := Min(depth / Capacity(pool), 1.0);
    assert rs == [Reading(x, 2.0)] && rs[..0] == [];
    assert WeightedSum(rs) == WeightedSum(rs[..0]) + x * 2.0;
    assert TotalWeight(rs) == TotalWeight(rs[..0]) + 2.0;
    assert Average(rs) == x * 2.0 / 2.0;
  }

  lemma AverageWithin(rs: seq<Reading>, low: real, high: real)
    requires Weighted(rs) && rs != [] && forall i :: 0 <= i < |rs| ==> low <= rs[i].score <= high
    ensures low <= Average(rs) <= high
  {
    SumWithin(rs, low, high);
    WeightIsPositive(rs);
    QuotientWithin(WeightedSum(rs), TotalWeight(rs), low, high);
  }

  /** The score is an average: any bounds on the readings, up to the cap, are bounds on it. */
  lemma ScoreWithinReadings(pool: PoolConfig, m: Metrics, low: real, high: real)
    requires !Raises(pool, m) && Readings(pool, m) != []
    requires forall i :: 0 <= i < |Readings(pool, m)| ==> low <= Readings(pool, m)[i].score <= high
    ensures Min(low, 1.0) <= LoadScore(pool, m).value <= Min(high, 1.0)
  {
    AverageWithin(Readings(pool, m), low, high);
  }

  lemma QuotientWithin(sum: real, w: real, low: real, high: real)
    requires w > 0.0 && Between(sum, w, low, high)
    ensures low <= sum / w <= high
  {
    var q := sum / w;
    assert q * w == sum;
    if q < low {
      MulStrict(q, low, w);
    } else if high < q {
      MulStrict(high, q, w);
    }
  }

  lemma {:induction false} SumWithin(rs: seq<Reading>, low: real, high: real)
    requires Weighted(rs) && forall i :: 0 <= i < |rs| ==> low <= rs[i].score <= high
    ensures Between(WeightedSum(rs), TotalWeight(rs), low, high)
  {
    if rs != [] {
      var n := |rs| - 1;
      SumWithin(rs[..n], low, high);
      AddWithin(WeightedSum(rs[..n]), TotalWeight(rs[..n]), rs[n].score, rs[n].weight, low, high);
    }
  }

  ghost predicate Between(sum: real, total: real, low: real, high: real) {
    low * total <= sum <= high * total
  }

  lemma AddWithin(sum: real, total: real, score: real, w: real, low: real, high: real)
    requires Between(sum, total, low, high) && low <= score <= high && w > 0.0
    ensures Between(sum + score * w, total + w, low, high)
  {
    MulMonotone(low, score, w);
    MulMonotone(score, high, w);
    assert low * (total + w) == low * total + low * w;
    assert high * (total + w) == high * total + high * w;
  }

  ghost predicate InBounds(pool: PoolConfig, nodes: int) {
    pool.minNodes <= nodes <= MaxInt(pool.minNodes, pool.maxNodes)
  }

  /** With the same nodes and clock, raised metrics lower neither the target nor the node count it leads to. */
  lemma NodesFollowLoad(pool: PoolConfig, nodes: int, elapsed: real, m: Metrics, m': Metrics)
    requires Raised(m, m') && !Raises(pool, m) && pool.maxNodes >= 0 && InBounds(pool, nodes)
    ensures LoadScore(pool, m').Some?
    ensures var d, d' := Decide(pool, nodes, elapsed, LoadScore(pool, m).value),
                         Decide(pool, nodes, elapsed, LoadScore(pool, m').value);
            && NodesAfter(pool, nodes, d) <= NodesAfter(pool, nodes, d')
            && (pool.minNodes <= pool.maxNodes ==> d.targetNodes <= d'.targetNodes)
  {
    ScoreMonotone(pool, m, m');
  }

  // ---- Runs of the loop -------------------------------------------------------------------------

  /** The loop decides for a pool, and later applies what it decided; metrics arrive at any time. */
  datatype Event =
    | Report(at: real, pool: string, metrics: Metrics)
    | Deciding(at: real, pool: string)
    | Applying(at: real)

  datatype Pending = Pending(pool: string, decision: Decision)

  datatype Loop = Loop(s: State, pending: Option<Pending>)

  function Step(pools: map<string, PoolConfig>, l: Loop, e: Event): Loop
    requires Covers(pools, l.s)
  {
    match e
    case Report(_, p, m) => l.(s := l.s.(metrics := l.s.metrics[p := m]))
    case Deciding(now, p) =>
      var d := Decided(pools, l.s, p, now);
      l.(pending := if d.Some? then Some(Pending(p, d.value)) else None)
    case Applying(now) =>
      if l.pending.None? then l
      else Loop(Applied(pools, l.s, l.pending.value.pool, l.pending.value.decision, now), None)
  }

  function Run(pools: map<string, PoolConfig>, es: seq<Event>): (l: Loop)
    ensures Covers(pools, l.s)
  {
    if es == [] then Loop(Initial(pools), None)
    else Step(pools, Run(pools, es[..|es| - 1]), es[|es| - 1])
  }

  ghost predicate Orderly(es: seq<Event>) {
    forall i, j :: 0 <= i < j < |es| ==> es[i].at <= es[j].at
  }

  ghost predicate NoLaterThan(es: seq<Event>, now: real) {
    forall i :: 0 <= i < |es| ==> es[i].at <= now
  }

  /** How many nodes an applied decision adds. */
  ghost predicate RightSize(pool: PoolConfig, c: Change) {
    match c.decision.action
    case SCALE_UP => c.after == c.before + 1
    case SCALE_DOWN => c.after == c.before - 1
    case EMERGENCY_SCALE_UP => c.before < c.after == MinInt(c.before + 3, pool.maxNodes)
    case MAINTAIN => false
  }

  function Cooldown(pool: PoolConfig, a: Action): real {
    if a == SCALE_UP then pool.scaleUpCooldown else pool.scaleDownCooldown
  }

  /** A change of this kind waits for the cooldown; an emergency does not. */
  ghost predicate Cools(a: Action) {
    a == SCALE_UP || a == SCALE_DOWN
  }

  /** Every ordinary change comes its cooldown after each earlier change of the same pool. */
  ghost predicate Spaced(pools: map<string, PoolConfig>, changes: seq<Change>) {
    forall i, j :: 0 <= i < j < |changes| && changes[i].pool == changes[j].pool && changes[j].pool in pools
                   && Cools(changes[j].decision.action) ==>
                     changes[j].at - changes[i].at >= Cooldown(pools[changes[j].pool], changes[j].decision.action)
  }

  ghost predicate LastIsLatest(pools: map<string, PoolConfig>, s: State)
    requires Covers(pools, s)
  {
    forall i :: 0 <= i < |s.changes| ==>
      s.changes[i].pool in pools && s.changes[i].at <= s.lastScale[s.changes[i].pool]
  }

  /** What is pending was decided for the present node count, no later than now, and after its cooldown. */
  ghost predicate PendingIsCurrent(pools: map<string, PoolConfig>, l: Loop, now: real)
    requires Covers(pools, l.s)
  {
    l.pending.Some? && l.pending.value.pool in pools && l.pending.value.decision.action != MAINTAIN ==>
      exists score, at :: at <= now && DecidedAt(pools, l, score, at)
  }

  ghost predicate DecidedAt(pools: map<string, PoolConfig>, l: Loop, score: real, at: real)
    requires Covers(pools, l.s) && l.pending.Some? && l.pending.value.pool in pools
  {
    var p := l.pending.value.pool;
    l.pending.value.decision == Decide(pools[p], l.s.nodes[p], at - l.s.lastScale[p], score)
  }

  ghost predicate Sound(pools: map<string, PoolConfig>, l: Loop, now: real)
    requires Covers(pools, l.s)
  {
    && (forall p :: p in pools ==> InBounds(pools[p], l.s.nodes[p]))
    && (forall c :: c in l.s.changes ==> c.pool in pools && RightSize(pools[c.pool], c))
    && Spaced(pools, l.s.changes) && LastIsLatest(pools, l.s)
    && PendingIsCurrent(pools, l, now)
  }

  lemma ApplySize(pool: PoolConfig, nodes: int, elapsed: real, score: real)
    requires InBounds(pool, nodes)
    ensures var d := Decide(pool, nodes, elapsed, score);
            var after := NodesAfter(pool, nodes, d);
            && InBounds(pool, after)
            && (after != nodes ==> forall p, at :: RightSize(pool, Change(p, d, at, nodes, after)))
            && (Cools(d.action) ==> elapsed >= Cooldown(pool, d.action))
  {
  }

  /** One more change, its cooldown after the last of its pool. */
  lemma OneMoreIsSpaced(pools: map<string, PoolConfig>, s: State, c: Change)
    requires Covers(pools, s) && Spaced(pools, s.changes) && LastIsLatest(pools, s) && c.pool in pools
    requires Cools(c.decision.action) ==>
               c.at - s.lastScale[c.pool] >= Cooldown(pools[c.pool], c.decision.action)
    ensures Spaced(pools, s.changes + [c])
  {
    var all := s.changes + [c];
    forall i, j | 0 <= i < j < |all| && all[i].pool == all[j].pool && all[j].pool in pools
                  && Cools(all[j].decision.action)
      ensures all[j].at - all[i].at >= Cooldown(pools[all[j].pool], all[j].decision.action)
    {
      if j < |s.changes| {
        assert all[i] == s.changes[i] && all[j] == s.changes[j];
      } else {
        assert all[i] == s.changes[i] && all[j] == c;
      }
    }
  }

  lemma ApplyKeepsSound(pools: map<string, PoolConfig>, l: Loop, before: real, now: real)
    requires Covers(pools, l.s) && Sound(pools, l, before) && before <= now && ChangesBy(l.s, before)
    ensures Sound(pools, Step(pools, l, Applying(now)), now)
  {
    var l' := Step(pools, l, Applying(now));
    if l'.s != l.s {
      var p, d := l.pending.value.pool, l.pending.value.decision;
      var score, at :| at <= before && DecidedAt(pools, l, score, at);
      ApplySize(pools[p], l.s.nodes[p], at - l.s.lastScale[p], score);
      var c := Change(p, d, now, l.s.nodes[p], Clamped(pools[p], d.targetNodes));
      OneMoreIsSpaced(pools, l.s, c);
      assert l'.s.changes == l.s.changes + [c];
    }
  }

  ghost predicate ChangesBy(s: State, now: real) {
    forall i :: 0 <= i < |s.changes| ==> s.changes[i].at <= now
  }

  lemma StepKeepsSound(pools: map<string, PoolConfig>, l: Loop, e: Event, before: real)
    requires Covers(pools, l.s) && Sound(pools, l, before) && before <= e.at && ChangesBy(l.s, before)
    ensures Sound(pools, Step(pools, l, e), e.at) && ChangesBy(Step(pools, l, e).s, e.at)
  {
    var l' := Step(pools, l, e);
    match e {
      case Applying(_) =>
        ApplyKeepsSound(pools, l, before, e.at);
      case Deciding(now, p) =>
        if p in pools && l'.pending.Some? {
          assert DecidedAt(pools, l', LoadScore(pools[p], MetricsOf(l.s, p)).value, now);
        }
      case Report(_, _, _) =>
        if l.pending.Some? && l.pending.value.pool in pools && l.pending.value.decision.action != MAINTAIN {
          var score, at :| at <= before && DecidedAt(pools, l, score, at);
          assert DecidedAt(pools, l', score, at);
        }
    }
  }

  lemma {:induction false} RunIsSound(pools: map<string, PoolConfig>, es: seq<Event>, now: real)
    requires Orderly(es) && NoLaterThan(es, now)
    ensures Sound(pools, Run(pools, es), now) && ChangesBy(Run(pools, es).s, now)
  {
    if es != [] {
      var n := |es| - 1;
      RunIsSound(pools, es[..n], es[n].at);
      StepKeepsSound(pools, Run(pools, es[..n]), es[n], es[n].at);
      var l := Run(pools, es);
      if l.pending.Some? && l.pending.value.pool in pools && l.pending.value.decision.action != MAINTAIN {
        var score, at :| at <= es[n].at && DecidedAt(pools, l, score, at);
        assert at <= now && DecidedAt(pools, l, score, at);
      }
    }
  }

  lemma ClockOf(es: seq<Event>)
    requires Orderly(es) && es != []
    ensures NoLaterThan(es, es[|es| - 1].at)
  {
  }

  /** In every run of the loop, node counts stay within their bounds and an applied decision
      adds or removes what its kind says. */
  lemma NodesStayInBounds(pools: map<string, PoolConfig>, es: seq<Event>, p: string)
    requires Orderly(es) && p in pools
    ensures var s := Run(pools, es).s;
            && InBounds(pools[p], s.nodes[p])
            && s.nodes[p] == pools[p].minNodes + Net(s.changes, p)
            && forall c :: c in s.changes ==> c.pool in pools && RightSize(pools[c.pool], c)
  {
    if es != [] {
      ClockOf(es);
      RunIsSound(pools, es, es[|es| - 1].at);
    }
    RunIsNet(pools, es, p);
  }

  /** In every run of the loop, an applied scale-down or ordinary scale-up comes at least its
      cooldown after every earlier change of that pool. */
  lemma ChangesAreSpaced(pools: map<string, PoolConfig>, es: seq<Event>, i: nat, j: nat)
    requires Orderly(es)
    requires var cs := Run(pools, es).s.changes;
             i < j < |cs| && cs[i].pool == cs[j].pool && Cools(cs[j].decision.action)
    ensures var cs := Run(pools, es).s.changes;
            cs[j].pool in pools && cs[j].at >= cs[i].at + Cooldown(pools[cs[j].pool], cs[j].decision.action)
  {
    ClockOf(es);
    RunIsSound(pools, es, es[|es| - 1].at);
  }

  /** What the changes of a pool add up to. */
  function Net(changes: seq<Change>, p: string): int {
    if changes == [] then 0
    else
      var c := changes[|changes| - 1];
      Net(changes[..|changes| - 1], p) + if c.pool == p then c.after - c.before else 0
  }

  lemma AppliedIsNet(pools: map<string, PoolConfig>, s: State, q: string, d: Decision, now: real, p: string)
    requires Covers(pools, s) && p in pools
    ensures var s' := Applied(pools, s, q, d, now);
            s'.nodes[p] - Net(s'.changes, p) == s.nodes[p] - Net(s.changes, p)
  {
    var s' := Applied(pools, s, q, d, now);
    if s'.changes != s.changes {
      assert s'.changes[..|s'.changes| - 1] == s.changes;
    }
  }

  lemma {:induction false} RunIsNet(pools: map<string, PoolConfig>, es: seq<Event>, p: string)
    requires p in pools
    ensures Run(pools, es).s.nodes[p] == pools[p].minNodes + Net(Run(pools, es).s.changes, p)
  {
    if es != [] {
      var n := |es| - 1;
      var l := Run(pools, es[..n]);
      RunIsNet(pools, es[..n], p);
      if es[n].Applying? && l.pending.Some? {
        AppliedIsNet(pools, l.s, l.pending.value.pool, l.pending.value.decision, es[n].at, p);
      }
    }
  }

  // ---- The score, metric by metric ---------------------------------------------------------

  function Part(x: Option<real>, weight: real): real {
    if x.Some? then weight * x.value else 0.0
  }

  function Weight(x: Option<real>, weight: real): real {
    if x.Some? then weight else 0.0
  }

  function Capped(x: Option<real>, scale: real): Option<real>
    requires x.Some? ==> scale != 0.0
  {
    if x.Some? then Some(Min(x.value / scale, 1.0)) else None
  }

  lemma ReportedSums(rs: seq<Reading>, x: Option<real>, weight: real)
    requires Weighted(rs) && weight > 0.0
    ensures WeightedSum(Reported(rs, x, weight)) == WeightedSum(rs) + Part(x, weight)
    ensures TotalWeight(Reported(rs, x, weight)) == TotalWeight(rs) + Weight(x, weight)
    ensures Reported(rs, x, weight) == [] <==> rs == [] && x.None?
  {
    if x.Some? {
      var all := Reported(rs, x, weight);
      assert all[..|all| - 1] == rs;
      assert x.value * weight == weight * x.value;
    }
  }

  lemma FourSums(a: Option<real>, b: Option<real>, c: Option<real>, d: Option<real>)
    ensures var rs := Reported(Reported(Reported(Reported([], a, 3.0), b, 2.0), c, 1.5), d, 1.0);
            && WeightedSum(rs) == Part(a, 3.0) + Part(b, 2.0) + Part(c, 1.5) + Part(d, 1.0)
            && TotalWeight(rs) == Weight(a, 3.0) + Weight(b, 2.0) + Weight(c, 1.5) + Weight(d, 1.0)
            && (rs == [] <==> TotalWeight(rs) == 0.0)
  {
    var first := Reported([], a, 3.0);
    var second := Reported(first, b, 2.0);
    var third := Reported(second, c, 1.5);
    ReportedSums([], a, 3.0);
    ReportedSums(first, b, 2.0);
    ReportedSums(second, c, 1.5);
    ReportedSums(third, d, 1.0);
    WeightIsPositive(Reported(third, d, 1.0));
  }

  lemma ScoreOfSums(rs: seq<Reading>, sum: real, weight: real)
    requires Weighted(rs) && WeightedSum(rs) == sum && TotalWeight(rs) == weight && (rs == [] <==> weight == 0.0)
    ensures Score(rs) == if weight == 0.0 then 0.0 else Min(sum / weight, 1.0)
  {
  }

  /** The score is the weighted average of the metrics reported, capped at 1: utilization as it is counts 3; queue
      depth by ten jobs per node counts 2, waiting time by the minute 1.5 and the error rate by a tenth 1, each of
      these capped at 1. */
  lemma ScoreOfMetrics(pool: PoolConfig, m: Metrics)
    requires m.queueDepth.None? || pool.maxNodes != 0
    ensures var queue := Capped(m.queueDepth, (pool.maxNodes * 10) as real);
            var wait, errors := Capped(m.waitTime, 60.0), Capped(m.errorRate, 0.1);
            var weight := Weight(m.utilization, 3.0) + Weight(queue, 2.0) + Weight(wait, 1.5) + Weight(errors, 1.0);
            var sum := Part(m.utilization, 3.0) + Part(queue, 2.0) + Part(wait, 1.5) + Part(errors, 1.0);
            LoadScore(pool, m) == Some(if weight == 0.0 then 0.0 else Min(sum / weight, 1.0))
  {
    var queue := Capped(m.queueDepth, (pool.maxNodes * 10) as real);
    var wait, errors := Capped(m.waitTime, 60.0), Capped(m.errorRate, 0.1);
    assert queue == Normalized(m.queueDepth, Capacity(pool));
    assert wait == Normalized(m.waitTime, 60.0) && errors == Normalized(m.errorRate, 0.1);
    FourSums(m.utilization, queue, wait, errors);
    var rs := Readings(pool, m);
    assert rs == Reported(Reported(Reported(Reported([], m.utilization, 3.0), queue, 2.0), wait, 1.5), errors, 1.0);
    ScoreOfSums(rs, WeightedSum(rs), TotalWeight(rs));
  }

  // ---- What a round of the loop does -----------------------------------------------------------

  /** When the node count of a pool was last changed, 0 at first. */
  function LastChange(changes: seq<Change>, p: string): real {
    if changes == [] then 0.0
    else if changes[|changes| - 1].pool == p then changes[|changes| - 1].at
    else LastChange(changes[..|changes| - 1], p)
  }

  lemma AppliedStamps(pools: map<string, PoolConfig>, s: State, q: string, d: Decision, now: real, p: string)
    requires Covers(pools, s) && p in pools && s.lastScale[p] == LastChange(s.changes, p)
    ensures var s' := Applied(pools, s, q, d, now); s'.lastScale[p] == LastChange(s'.changes, p)
  {
    var s' := Applied(pools, s, q, d, now);
    if s'.changes != s.changes {
      assert s'.changes[..|s'.changes| - 1] == s.changes;
    }
  }

  lemma {:induction false} RunStamps(pools: map<string, PoolConfig>, es: seq<Event>, p: string)
    requires p in pools
    ensures Run(pools, es).s.lastScale[p] == LastChange(Run(pools, es).s.changes, p)
  {
    if es != [] {
      var n := |es| - 1;
      var l := Run(pools, es[..n]);
      RunStamps(pools, es[..n], p);
      if es[n].Applying? && l.pending.Some? {
        AppliedStamps(pools, l.s, l.pending.value.pool, l.pending.value.decision, es[n].at, p);
      }
    }
  }

  lemma RunNext(pools: map<string, PoolConfig>, es: seq<Event>, e: Event)
    ensures Run(pools, es + [e]) == Step(pools, Run(pools, es), e)
  {
    assert (es + [e])[..|es|] == es;
  }

  /** The loop decides for a pool at one time and applies at another. */
  function Round(p: string, at: real, later: real): seq<Event> {
    [Deciding(at, p)] + [Applying(later)]
  }

  lemma AfterRound(pools: map<string, PoolConfig>, es: seq<Event>, p: string, at: real, later: real)
    ensures Run(pools, es + Round(p, at, later)) ==
            Step(pools, Step(pools, Run(pools, es), Deciding(at, p)), Applying(later))
  {
    RunNext(pools, es, Deciding(at, p));
    RunNext(pools, es + [Deciding(at, p)], Applying(later));
    assert es + Round(p, at, later) == es + [Deciding(at, p)] + [Applying(later)];
  }

  /** From n nodes to n' in one round, so long after the last change: three more, up to the maximum, at 0.95 or above;
      otherwise one more at a tenth above the target or higher, and one less at a fifth below or lower, if the cooldown
      is over; and else the same. */
  ghost predicate OneRound(pool: PoolConfig, n: int, n': int, elapsed: real, score: real) {
    && (score >= 0.95 ==> n' == MinInt(n + 3, pool.maxNodes))
    && (pool.targetUtilization + 0.1 <= score < 0.95 ==>
          n' == if elapsed >= pool.scaleUpCooldown then MinInt(n + 1, pool.maxNodes) else n)
    && (score <= pool.targetUtilization - 0.2 && score < 0.95 ==>
          n' == if elapsed >= pool.scaleDownCooldown then MaxInt(n - 1, pool.minNodes) else n)
    && (pool.targetUtilization - 0.2 < score < pool.targetUtilization + 0.1 && score < 0.95 ==> n' == n)
  }

  lemma NodesAfterRound(pool: PoolConfig, n: int, elapsed: real, score: real)
    requires pool.minNodes <= n <= pool.maxNodes
    ensures OneRound(pool, n, NodesAfter(pool, n, Decide(pool, n, elapsed, score)), elapsed, score)
  {
  }

  lemma RoundOnState(pools: map<string, PoolConfig>, l: Loop, p: string, at: real, later: real, score: real)
    requires Covers(pools, l.s) && p in pools && pools[p].minNodes <= pools[p].maxNodes
    requires InBounds(pools[p], l.s.nodes[p]) && LoadScore(pools[p], MetricsOf(l.s, p)) == Some(score)
    ensures var l' := Step(pools, Step(pools, l, Deciding(at, p)), Applying(later));
            && l'.s.metrics == l.s.metrics
            && (forall q :: q in pools && q != p ==> l'.s.nodes[q] == l.s.nodes[q])
            && OneRound(pools[p], l.s.nodes[p], l'.s.nodes[p], at - l.s.lastScale[p], score)
  {
    NodesAfterRound(pools[p], l.s.nodes[p], at - l.s.lastScale[p], score);
  }

  /** In every run, this is what one round of the loop does to a pool, and it does nothing to the others. */
  lemma RoundReaches(pools: map<string, PoolConfig>, es: seq<Event>, p: string, at: real, later: real, score: real)
    requires Orderly(es) && p in pools && pools[p].minNodes <= pools[p].maxNodes
    requires LoadScore(pools[p], MetricsOf(Run(pools, es).s, p)) == Some(score)
    ensures var s, s' := Run(pools, es).s, Run(pools, es + Round(p, at, later)).s;
            && s'.metrics == s.metrics && InBounds(pools[p], s.nodes[p])
            && (forall q :: q in pools && q != p ==> s'.nodes[q] == s.nodes[q])
            && OneRound(pools[p], s.nodes[p], s'.nodes[p], at - LastChange(s.changes, p), score)
  {
    NodesStayInBounds(pools, es, p);
    RunStamps(pools, es, p);
    AfterRound(pools, es, p, at, later);
    RoundOnState(pools, Run(pools, es), p, at, later, score);
  }

  // ---- Rounds upon rounds ------------------------------------------------------------------------

  /** Rounds for one pool, one after another, each with its two times. */
  function Rounds(p: string, times: seq<(real, real)>): seq<Event> {
    if times == [] then []
    else
      var n := |times| - 1;
      Rounds(p, times[..n]) + Round(p, times[n].0, times[n].1)
  }

  /** Each round decides no earlier than a cooldown after the pool's last change. */
  ghost predicate Cooled(
      pools: map<string, PoolConfig>, es: seq<Event>, p: string, times: seq<(real, real)>, cooldown: real)
  {
    forall i :: 0 <= i < |times| ==>
      times[i].0 - LastChange(Run(pools, es + Rounds(p, times[..i])).s.changes, p) >= cooldown
  }

  lemma CooledBefore(
      pools: map<string, PoolConfig>, es: seq<Event>, p: string, times: seq<(real, real)>, cooldown: real)
    requires times != [] && Cooled(pools, es, p, times, cooldown)
    ensures var n := |times| - 1;
            && Cooled(pools, es, p, times[..n], cooldown)
            && times[n].0 - LastChange(Run(pools, es + Rounds(p, times[..n])).s.changes, p) >= cooldown
  {
    var n := |times| - 1;
    forall i | 0 <= i < n
      ensures times[..n][i].0 - LastChange(Run(pools, es + Rounds(p, times[..n][..i])).s.changes, p) >= cooldown
    {
      assert times[..n][..i] == times[..i] && times[..n][i] == times[i];
    }
  }

  lemma OrderlyBefore(es: seq<Event>, fs: seq<Event>)
    requires Orderly(es + fs)
    ensures Orderly(es)
  {
    assert forall i :: 0 <= i < |es| ==> es[i] == (es + fs)[i];
  }

  lemma LastRound(es: seq<Event>, p: string, times: seq<(real, real)>)
    requires times != []
    ensures var n := |times| - 1;
            es + Rounds(p, times) == (es + Rounds(p, times[..n])) + Round(p, times[n].0, times[n].1)
  {
  }

  /** Where k rounds take a pool, at the same reported score. */
  ghost predicate Reaches(pool: PoolConfig, n: int, n': int, k: nat, score: real, cooledUp: bool, cooledDown: bool) {
    && (score >= 0.95 ==> n' == MinInt(n + 3 * k, pool.maxNodes))
    && (pool.targetUtilization + 0.1 <= score < 0.95 && cooledUp ==> n' == MinInt(n + k, pool.maxNodes))
    && (score <= pool.targetUtilization - 0.2 && score < 0.95 && cooledDown ==> n' == MaxInt(n - k, pool.minNodes))
    && (pool.targetUtilization - 0.2 < score < pool.targetUtilization + 0.1 && score < 0.95 ==> n' == n)
  }

  lemma OneMoreRound(
      pool: PoolConfig, n: int, n1: int, n2: int, k: nat, score: real, elapsed: real, up: bool, down: bool)
    requires Reaches(pool, n, n1, k, score, up, down) && OneRound(pool, n1, n2, elapsed, score)
    requires pool.minNodes <= n <= pool.maxNodes
    requires (up ==> elapsed >= pool.scaleUpCooldown) && (down ==> elapsed >= pool.scaleDownCooldown)
    ensures Reaches(pool, n, n2, k + 1, score, up, down)
  {
  }

  /** In every run, k rounds at the same reported score take a pool of n nodes to n + 3k, n + k or n - k, as the score
      says, as far as its bounds allow: overload and idleness are met by as many nodes as there are rounds, each a
      cooldown after the last change but in an emergency. */
  lemma {:induction false} RoundsReach(
      pools: map<string, PoolConfig>, es: seq<Event>, p: string, times: seq<(real, real)>, score: real,
      up: bool, down: bool)
    requires Orderly(es + Rounds(p, times)) && p in pools && pools[p].minNodes <= pools[p].maxNodes
    requires LoadScore(pools[p], MetricsOf(Run(pools, es).s, p)) == Some(score)
    requires up ==> Cooled(pools, es, p, times, pools[p].scaleUpCooldown)
    requires down ==> Cooled(pools, es, p, times, pools[p].scaleDownCooldown)
    ensures var s, s' := Run(pools, es).s, Run(pools, es + Rounds(p, times)).s;
            && s'.metrics == s.metrics
            && Reaches(pools[p], s.nodes[p], s'.nodes[p], |times|, score, up, down)
  {
    OrderlyBefore(es, Rounds(p, times));
    NodesStayInBounds(pools, es, p);
    if times == [] {
      assert es + Rounds(p, times) == es;
    } else {
      var n := |times| - 1;
      var before := es + Rounds(p, times[..n]);
      if up {
        CooledBefore(pools, es, p, times, pools[p].scaleUpCooldown);
      }
      if down {
        CooledBefore(pools, es, p, times, pools[p].scaleDownCooldown);
      }
      LastRound(es, p, times);
      OrderlyBefore(before, Round(p, times[n].0, times[n].1));
      RoundsReach(pools, es, p, times[..n], score, up, down);
      RoundReaches(pools, before, p, times[n].0, times[n].1, score);
      OneMoreRound(pools[p], Run(pools, es).s.nodes[p], Run(pools, before).s.nodes[p],
                   Run(pools, es + Rounds(p, times)).s.nodes[p], n, score,
                   times[n].0 - LastChange(Run(pools, before).s.changes, p), up, down);
    }
  }
}
