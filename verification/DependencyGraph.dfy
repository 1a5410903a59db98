/** What the order and the load pass of the plugin manager mean: layers,
    dependency cycles, and the least set of plugins that can be loaded. */
module DependencyGraph {
  import opened Lexicographic

  type Name = string

  /** For every candidate, the names it requires (candidates or not). */
  type Graph = map<Name, set<Name>>

  // ---- Orders ----------------------------------------------------------

  /** n requires nothing that is still unresolved. */
  ghost predicate Ready(deps: Graph, unresolved: set<Name>, n: Name)
    requires n in deps
  {
    deps[n] * unresolved == {}
  }

  /** No candidate in u can be placed before every other one: each requires one in u. */
  ghost predicate Stuck(deps: Graph, u: set<Name>) {
    u <= deps.Keys && forall n {:trigger Ready(deps, u, n)} :: n in u ==> !Ready(deps, u, n)
  }

  /** The candidates that are not in a layer below k. */
  ghost function Above(deps: Graph, layer: map<Name, nat>, k: nat): set<Name> {
    set n | n in deps && (n in layer ==> layer[n] >= k)
  }

  /** n has every candidate it requires in a lower layer. */
  ghost predicate Supported(deps: Graph, layer: map<Name, nat>, n: Name)
    requires n in deps && n in layer
  {
    forall d :: d in deps[n] && d in deps ==> d in layer && layer[d] < layer[n]
  }

  /** n was placed to break a cycle: nothing that was left could be placed. */
  ghost predicate BrokeCycle(deps: Graph, layer: map<Name, nat>, n: Name)
    requires n in layer
  {
    && Stuck(deps, Above(deps, layer, layer[n]))
    && forall m :: m in layer && layer[m] == layer[n] ==> m == n
  }

  /** n could not have been placed one layer earlier. */
  ghost predicate AsEarlyAsPossible(deps: Graph, layer: map<Name, nat>, n: Name)
    requires n in deps && n in layer
  {
    layer[n] > 0 ==> exists d :: d in deps[n] && d in layer && layer[d] + 1 == layer[n]
  }

  ghost predicate WellPlaced(deps: Graph, layer: map<Name, nat>, n: Name)
    requires n in deps && n in layer
  {
    (Supported(deps, layer, n) && AsEarlyAsPossible(deps, layer, n)) || BrokeCycle(deps, layer, n)
  }

  ghost predicate Before(layer: map<Name, nat>, a: Name, b: Name) {
    && a in layer && b in layer
    && (layer[a] < layer[b] || (layer[a] == layer[b] && Lt(a, b)))
  }

  /** Every candidate once, by layer and, within a layer, by name. */
  ghost predicate LayeredOrder(order: seq<Name>, layer: map<Name, nat>) {
    && (forall n :: n in order <==> n in layer)
    && forall i, j :: 0 <= i < j < |order| ==> Before(layer, order[i], order[j])
  }

  ghost predicate Resolution(deps: Graph, order: seq<Name>, layer: map<Name, nat>) {
    && LayeredOrder(order, layer)
    && layer.Keys == deps.Keys
    && forall n :: n in layer ==> WellPlaced(deps, layer, n)
  }

  /** Every candidate that order[i] requires comes before it. */
  ghost predicate DepsFirst(deps: Graph, order: seq<Name>, i: nat)
    requires i < |order| && order[i] in deps
  {
    forall d :: d in deps[order[i]] && d in deps ==> d in order[..i]
  }

  ghost predicate Topological(deps: Graph, order: seq<Name>) {
    && (forall n :: n in order ==> n in deps)
    && forall i :: 0 <= i < |order| ==> DepsFirst(deps, order, i)
  }

  lemma OrderIsDistinct(order: seq<Name>, layer: map<Name, nat>, i: nat, j: nat)
    requires LayeredOrder(order, layer) && i < |order| && j < |order| && order[i] == order[j]
    ensures i == j
  {
  }

  /** A lower layer is earlier in the order. */
  lemma LowerLayerComesFirst(order: seq<Name>, layer: map<Name, nat>, d: Name, i: nat)
    requires LayeredOrder(order, layer) && d in layer && i < |order| && layer[d] < layer[order[i]]
    ensures d in order[..i]
  {
    assert d in order;
    var j :| 0 <= j < |order| && order[j] == d;
    assert j < i;
    assert order[..i][j] == d;
  }

  // ---- Cycles ----------------------------------------------------------

  /** Each name on the walk is a candidate and requires the next one. */
  ghost predicate Walk(deps: Graph, w: seq<Name>) {
    && (forall n :: n in w ==> n in deps)
    && forall i :: 0 <= i < |w| - 1 ==> w[i + 1] in deps[w[i]]
  }

  ghost predicate Cycle(deps: Graph, w: seq<Name>) {
    |w| >= 2 && w[0] == w[|w| - 1] && Walk(deps, w)
  }

  ghost predicate Acyclic(deps: Graph) {
    !exists w :: Cycle(deps, w)
  }

  lemma {:induction false} WalkInStuckSet(deps: Graph, u: set<Name>, k: nat) returns (w: seq<Name>)
    requires Stuck(deps, u) && u != {}
    ensures |w| == k + 1 && Walk(deps, w) && forall n :: n in w ==> n in u
  {
    if k == 0 {
      var n :| n in u;
      w := [n];
    } else {
      var v := WalkInStuckSet(deps, u, k - 1);
      assert v[k - 1] in v && !Ready(deps, u, v[k - 1]);
      var d :| d in deps[v[k - 1]] * u;
      w := v + [d];
    }
  }

  lemma {:induction false} Pigeonhole(u: set<Name>, w: seq<Name>) returns (i: nat, j: nat)
    requires |w| > |u| && forall n :: n in w ==> n in u
    ensures i < j < |w| && w[i] == w[j]
    decreases |w|
  {
    var last := |w| - 1;
    if k :| 0 <= k < last && w[k] == w[last] {
      i, j := k, last;
    } else {
      forall n | n in w[..last] ensures n in u - {w[last]} {
        var m :| 0 <= m < last && w[m] == n;
      }
      i, j := Pigeonhole(u - {w[last]}, w[..last]);
    }
  }

  lemma StuckSetHoldsCycle(deps: Graph, u: set<Name>)
    requires Stuck(deps, u) && u != {}
    ensures !Acyclic(deps)
  {
    var w := WalkInStuckSet(deps, u, |u|);
    var i, j := Pigeonhole(u, w);
    var c := w[i..j + 1];
    forall k | 0 <= k < |c| - 1 ensures c[k + 1] in deps[c[k]] {
      assert c[k] == w[i + k] && c[k + 1] == w[i + k + 1];
    }
    assert Cycle(deps, c);
  }

  lemma {:induction false} WalkDescends(deps: Graph, order: seq<Name>, w: seq<Name>, p: nat) returns (q: nat)
    requires Topological(deps, order) && Walk(deps, w) && |w| >= 1
    requires p < |order| && order[p] == w[0]
    ensures q < |order| && order[q] == w[|w| - 1] && q <= p && (|w| >= 2 ==> q < p)
    decreases |w|
  {
    q := p;
    if |w| >= 2 {
      assert DepsFirst(deps, order, p);
      assert w[1] in deps[w[0]];
      assert w[1] in order[..p];
      var p1 :| 0 <= p1 < p && order[p1] == w[1];
      forall i | 0 <= i < |w[1..]| - 1 ensures w[1..][i + 1] in deps[w[1..][i]] {
        assert w[1..][i] == w[i + 1] && w[1..][i + 1] == w[i + 2];
      }
      q := WalkDescends(deps, order, w[1..], p1);
    }
  }

  /** The order puts every dependency first exactly when there is no cycle. */
  lemma TopologicalIffAcyclic(deps: Graph, order: seq<Name>, layer: map<Name, nat>)
    requires Resolution(deps, order, layer)
    ensures Topological(deps, order) <==> Acyclic(deps)
  {
    if Acyclic(deps) {
      forall i | 0 <= i < |order| ensures DepsFirst(deps, order, i) {
        var n := order[i];
        assert n in order;
        AcyclicIsSupported(deps, order, layer, n);
        forall d | d in deps[n] && d in deps ensures d in order[..i] {
          LowerLayerComesFirst(order, layer, d, i);
        }
      }
    } else if Topological(deps, order) {
      var w :| Cycle(deps, w);
      assert w[0] in order;
      var p :| 0 <= p < |order| && order[p] == w[0];
      var q := WalkDescends(deps, order, w, p);
      OrderIsDistinct(order, layer, p, q);
      assert false;
    }
  }

  /** Without cycles nothing is left to the hash order of a set: all runs agree. */
  lemma {:induction false} AcyclicLayersAgree(
      deps: Graph, order: seq<Name>, layer: map<Name, nat>, order': seq<Name>, layer': map<Name, nat>, k: nat, n: Name)
    requires Acyclic(deps) && Resolution(deps, order, layer) && Resolution(deps, order', layer')
    requires n in deps && (layer[n] <= k || layer'[n] <= k)
    ensures layer[n] == layer'[n]
    decreases k
  {
    AcyclicIsSupported(deps, order, layer, n);
    AcyclicIsSupported(deps, order', layer', n);
    if k > 0 && layer[n] > layer'[n] {
      var d :| d in deps[n] && d in layer && layer[d] + 1 == layer[n];
      AcyclicLayersAgree(deps, order, layer, order', layer', k - 1, d);
    }
    if k > 0 && layer'[n] > layer[n] {
      var d :| d in deps[n] && d in layer' && layer'[d] + 1 == layer'[n];
      AcyclicLayersAgree(deps, order, layer, order', layer', k - 1, d);
    }
  }

  lemma EmptyOrder(order: seq<Name>, layer: map<Name, nat>)
    requires LayeredOrder(order, layer)
    ensures order == [] <==> layer.Keys == {}
  {
    if order != [] {
      assert order[0] in order;
    }
  }

  lemma FirstInLayeredOrder(order: seq<Name>, layer: map<Name, nat>, n: Name)
    requires LayeredOrder(order, layer) && n in layer && order != [] && n != order[0]
    ensures Before(layer, order[0], n)
  {
    var i :| 0 <= i < |order| && order[i] == n;
  }

  lemma SameFirst(order: seq<Name>, order': seq<Name>, layer: map<Name, nat>)
    requires LayeredOrder(order, layer) && LayeredOrder(order', layer) && order != [] && order' != []
    ensures order[0] == order'[0]
  {
    var n, n' := order[0], order'[0];
    assert n in order && n' in order';
    if n != n' {
      FirstInLayeredOrder(order, layer, n');
      FirstInLayeredOrder(order', layer, n);
      LeAntisymmetric(n, n');
    }
  }

  lemma {:induction false} LayeredOrderIsUnique(order: seq<Name>, order': seq<Name>, layer: map<Name, nat>)
    requires LayeredOrder(order, layer) && LayeredOrder(order', layer)
    ensures order == order'
    decreases |order|
  {
    EmptyOrder(order, layer);
    EmptyOrder(order', layer);
    if order != [] {
      SameFirst(order, order', layer);
      TailIsLayered(order, layer);
      TailIsLayered(order', layer);
      LayeredOrderIsUnique(order[1..], order'[1..], layer - {order[0]});
      assert order == [order[0]] + order[1..] && order' == [order'[0]] + order'[1..];
    }
  }

  lemma TailIsLayered(order: seq<Name>, layer: map<Name, nat>)
    requires LayeredOrder(order, layer) && order != []
    ensures LayeredOrder(order[1..], layer - {order[0]})
  {
    var rest := layer - {order[0]};
    forall n | n in order[1..] ensures n in rest {
      var i :| 0 <= i < |order[1..]| && order[1..][i] == n;
      assert order[i + 1] == n && n in order;
    }
    forall n | n in rest ensures n in order[1..] {
      assert n in order;
      var i :| 0 <= i < |order| && order[i] == n;
      assert order[1..][i - 1] == n;
    }
    forall i, j | 0 <= i < j < |order[1..]| ensures Before(rest, order[1..][i], order[1..][j]) {
      assert order[1..][i] == order[i + 1] && order[1..][j] == order[j + 1];
      assert Before(layer, order[0], order[i + 1]) && Before(layer, order[i + 1], order[j + 1]);
    }
  }

  lemma SameLayers(
      deps: Graph, order: seq<Name>, layer: map<Name, nat>, order': seq<Name>, layer': map<Name, nat>)
    requires Acyclic(deps) && Resolution(deps, order, layer) && Resolution(deps, order', layer')
    ensures layer == layer'
  {
    forall n | n in deps ensures layer[n] == layer'[n] {
      AcyclicLayersAgree(deps, order, layer, order', layer', layer[n], n);
    }
  }

  /** Without cycles the resolved order depends on nothing but the requirements. */
  lemma AcyclicOrderIsUnique(
      deps: Graph, order: seq<Name>, layer: map<Name, nat>, order': seq<Name>, layer': map<Name, nat>)
    requires Acyclic(deps) && Resolution(deps, order, layer) && Resolution(deps, order', layer')
    ensures order == order'
  {
    SameLayers(deps, order, layer, order', layer');
    LayeredOrderIsUnique(order, order', layer);
  }

  lemma AcyclicIsSupported(deps: Graph, order: seq<Name>, layer: map<Name, nat>, n: Name)
    requires Acyclic(deps) && Resolution(deps, order, layer) && n in deps
    ensures Supported(deps, layer, n) && AsEarlyAsPossible(deps, layer, n)
  {
    assert WellPlaced(deps, layer, n);
    if BrokeCycle(deps, layer, n) {
      assert n in Above(deps, layer, layer[n]);
      StuckSetHoldsCycle(deps, Above(deps, layer, layer[n]));
    }
  }

  // ---- What gets loaded ------------------------------------------------

  /** One attempt to load: n must be loadable by itself and find what it requires loaded. */
  ghost function Attempt(deps: Graph, loadable: set<Name>, loaded: set<Name>, n: Name): set<Name> {
    if n in deps && n in loadable && deps[n] <= loaded then loaded + {n} else loaded
  }

  ghost function LoadInOrder(deps: Graph, loadable: set<Name>, order: seq<Name>, i: nat): set<Name>
    requires i <= |order|
  {
    if i == 0 then {} else Attempt(deps, loadable, LoadInOrder(deps, loadable, order, i - 1), order[i - 1])
  }

  /** Adding any further plugin whose requirements are in s is impossible. */
  ghost predicate Closed(deps: Graph, loadable: set<Name>, s: set<Name>) {
    forall n :: n in deps && n in loadable && deps[n] <= s ==> n in s
  }

  ghost predicate LeastClosed(deps: Graph, loadable: set<Name>, s: set<Name>) {
    Closed(deps, loadable, s) && forall t :: Closed(deps, loadable, t) ==> s <= t
  }

  lemma {:induction false} LoadedIsNecessary(deps: Graph, loadable: set<Name>, order: seq<Name>, i: nat, t: set<Name>)
    requires i <= |order| && Closed(deps, loadable, t)
    ensures LoadInOrder(deps, loadable, order, i) <= t
  {
    if i > 0 {
      LoadedIsNecessary(deps, loadable, order, i - 1, t);
    }
  }

  lemma {:induction false} LoadedGrows(deps: Graph, loadable: set<Name>, order: seq<Name>, i: nat, j: nat)
    requires i <= j <= |order|
    ensures LoadInOrder(deps, loadable, order, i) <= LoadInOrder(deps, loadable, order, j)
    decreases j
  {
    if i < j {
      LoadedGrows(deps, loadable, order, i, j - 1);
    }
  }

  lemma {:induction false} LoadedWasAttempted(deps: Graph, loadable: set<Name>, order: seq<Name>, i: nat, n: Name)
      returns (j: nat)
    requires i <= |order| && n in LoadInOrder(deps, loadable, order, i)
    ensures j < i && order[j] == n && n in LoadInOrder(deps, loadable, order, j + 1)
  {
    if n in LoadInOrder(deps, loadable, order, i - 1) {
      j := LoadedWasAttempted(deps, loadable, order, i - 1, n);
    } else {
      j := i - 1;
    }
  }

  lemma {:induction false} StuckIsNeverLoaded(deps: Graph, loadable: set<Name>, order: seq<Name>, i: nat, u: set<Name>)
    requires i <= |order| && Stuck(deps, u)
    ensures LoadInOrder(deps, loadable, order, i) * u == {}
  {
    if i > 0 {
      StuckIsNeverLoaded(deps, loadable, order, i - 1, u);
      var n := order[i - 1];
      if n in u {
        var loaded := LoadInOrder(deps, loadable, order, i - 1);
        assert !Ready(deps, u, n);
        var d :| d in deps[n] * u;
        assert d in loaded ==> d in loaded * u;
        assert !(deps[n] <= loaded);
      }
    }
  }

  /** What is ever loaded is loaded at its turn. */
  lemma LoadedAtItsTurn(deps: Graph, loadable: set<Name>, order: seq<Name>, layer: map<Name, nat>, p: nat)
    requires LayeredOrder(order, layer) && p < |order|
    requires order[p] in LoadInOrder(deps, loadable, order, |order|)
    ensures order[p] in LoadInOrder(deps, loadable, order, p + 1)
  {
    var j := LoadedWasAttempted(deps, loadable, order, |order|, order[p]);
    OrderIsDistinct(order, layer, j, p);
  }

  /** What is in a lower layer and will be loaded is loaded by i's turn. */
  lemma LowerLayerLoaded(
      deps: Graph, loadable: set<Name>, order: seq<Name>, layer: map<Name, nat>, i: nat, d: Name)
    requires LayeredOrder(order, layer) && i < |order| && d in layer && layer[d] < layer[order[i]]
    requires d in LoadInOrder(deps, loadable, order, |order|)
    ensures d in LoadInOrder(deps, loadable, order, i)
  {
    LowerLayerComesFirst(order, layer, d, i);
    var p :| 0 <= p < i && order[p] == d;
    LoadedAtItsTurn(deps, loadable, order, layer, p);
    LoadedGrows(deps, loadable, order, p + 1, i);
  }

  /** By the time n is attempted, whatever it requires and will be loaded has been loaded. */
  lemma RequirementsLoadedInTime(
      deps: Graph, loadable: set<Name>, order: seq<Name>, layer: map<Name, nat>, i: nat, d: Name)
    requires Resolution(deps, order, layer) && i < |order| && Supported(deps, layer, order[i])
    requires d in deps[order[i]] && d in LoadInOrder(deps, loadable, order, |order|)
    ensures d in LoadInOrder(deps, loadable, order, i)
  {
    LoadedIsSupported(deps, loadable, order, |order|, d);
    LowerLayerLoaded(deps, loadable, order, layer, i, d);
  }

  /** A plugin placed to break a cycle never has everything it requires. */
  lemma BrokenStaysOut(deps: Graph, loadable: set<Name>, order: seq<Name>, layer: map<Name, nat>, n: Name)
    requires n in deps && n in layer && BrokeCycle(deps, layer, n)
    ensures !(deps[n] <= LoadInOrder(deps, loadable, order, |order|))
  {
    var u := Above(deps, layer, layer[n]);
    StuckIsNeverLoaded(deps, loadable, order, |order|, u);
    assert !Ready(deps, u, n);
    var d :| d in deps[n] * u;
  }

  lemma PassIsClosed(deps: Graph, loadable: set<Name>, order: seq<Name>, layer: map<Name, nat>, n: Name)
    requires Resolution(deps, order, layer) && n in deps && n in loadable
    requires deps[n] <= LoadInOrder(deps, loadable, order, |order|)
    ensures n in LoadInOrder(deps, loadable, order, |order|)
  {
    assert n in order && WellPlaced(deps, layer, n);
    var i :| 0 <= i < |order| && order[i] == n;
    if BrokeCycle(deps, layer, n) {
      BrokenStaysOut(deps, loadable, order, layer, n);
    }
    forall d | d in deps[n] ensures d in LoadInOrder(deps, loadable, order, i) {
      RequirementsLoadedInTime(deps, loadable, order, layer, i, d);
    }
    LoadedGrows(deps, loadable, order, i + 1, |order|);
  }

  /** One pass in the resolved order reaches the least fixpoint, cycles or not. */
  lemma OnePassLoadsLeastClosedSet(deps: Graph, loadable: set<Name>, order: seq<Name>, layer: map<Name, nat>)
    requires Resolution(deps, order, layer)
    ensures LeastClosed(deps, loadable, LoadInOrder(deps, loadable, order, |order|))
  {
    var s := LoadInOrder(deps, loadable, order, |order|);
    forall n | n in deps && n in loadable && deps[n] <= s ensures n in s {
      PassIsClosed(deps, loadable, order, layer, n);
    }
    forall t | Closed(deps, loadable, t) ensures s <= t {
      LoadedIsNecessary(deps, loadable, order, |order|, t);
    }
  }

  /** What was loaded has everything it requires loaded. */
  lemma {:induction false} LoadedIsSupported(deps: Graph, loadable: set<Name>, order: seq<Name>, i: nat, n: Name)
    requires i <= |order| && n in LoadInOrder(deps, loadable, order, i)
    ensures n in deps && n in loadable && deps[n] <= LoadInOrder(deps, loadable, order, i)
  {
    if n in LoadInOrder(deps, loadable, order, i - 1) {
      LoadedIsSupported(deps, loadable, order, i - 1, n);
    }
  }
}
