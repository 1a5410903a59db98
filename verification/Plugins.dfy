/** Plugin discovery: dependency order and load pass of the plugin manager
    (engine/plugin_system.py). The file system and the loading of a module are
    oracles: what a path's metadata says, and whether its plugin comes up. */
module Plugins {
  import opened Lexicographic
  import opened DependencyGraph

  type Path = string

  datatype Metadata = Metadata(enabled: bool, engineSatisfied: bool, requiresPlugins: seq<Name>)

  datatype Candidate = Candidate(name: Name, path: Path)

  /** What is on disk: metadata by path, and the paths whose plugin class loads and initialises. */
  datatype Disk = Disk(metadata: Path -> Metadata, comesUp: Path -> bool)

  function Requires(disk: Disk, path: Path): set<Name> {
    set d | d in disk.metadata(path).requiresPlugins
  }

  /** Loadable once its requirements are there. */
  predicate Loadable(disk: Disk, path: Path) {
    disk.metadata(path).enabled && disk.metadata(path).engineSatisfied && disk.comesUp(path)
  }

  /** n is a loadable plugin that has been loaded, and so has everything it requires. */
  ghost predicate PluginSupported(disk: Disk, plugins: map<Name, Path>, n: Name) {
    n in plugins && Loadable(disk, plugins[n]) && Requires(disk, plugins[n]) <= plugins.Keys
  }

  /** The path of each candidate name; a later entry of the same name wins. */
  function Paths(candidates: seq<Candidate>): map<Name, Path> {
    if candidates == [] then map[]
    else
      var last := candidates[|candidates| - 1];
      Paths(candidates[..|candidates| - 1])[last.name := last.path]
  }

  function GraphOf(disk: Disk, paths: map<Name, Path>): Graph {
    map n | n in paths :: Requires(disk, paths[n])
  }

  function LoadableNames(disk: Disk, paths: map<Name, Path>): set<Name> {
    set n | n in paths && Loadable(disk, paths[n])
  }

  ghost function AddLayer(layer: map<Name, nat>, ready: set<Name>, k: nat): (r: map<Name, nat>)
    ensures r.Keys == layer.Keys + ready
    ensures forall n :: n in ready ==> r[n] == k
    ensures forall n :: n in layer && n !in ready ==> r[n] == layer[n]
  {
    layer + map n | n in ready :: k
  }

  /** One more layer, all of it, keeps the order layered. */
  lemma LayerAppended(resolved: seq<Name>, layer: map<Name, nat>, ready: set<Name>, batch: seq<Name>, k: nat)
    requires LayeredOrder(resolved, layer) && StrictlySorted(batch)
    requires forall n :: n in batch <==> n in ready
    requires forall n :: n in layer ==> layer[n] < k && n !in ready
    ensures LayeredOrder(resolved + batch, AddLayer(layer, ready, k))
  {
    var order, layer' := resolved + batch, AddLayer(layer, ready, k);
    forall i, j | 0 <= i < j < |order| ensures Before(layer', order[i], order[j]) {
      if j < |resolved| {
        assert Before(layer, resolved[i], resolved[j]);
      } else if i < |resolved| {
        assert order[i] in resolved && order[j] in batch;
      } else {
        assert order[i] in batch && order[j] in batch;
        assert Lt(batch[i - |resolved|], batch[j - |resolved|]);
      }
    }
  }

  /** The layers given so far, with `unresolved` left. */
  ghost predicate Split(deps: Graph, layer: map<Name, nat>, unresolved: set<Name>, k: nat) {
    && layer.Keys !! unresolved && layer.Keys + unresolved == deps.Keys
    && forall n :: n in layer ==> layer[n] < k
  }

  /** n was not ready in the round before k. */
  ghost predicate Waiting(deps: Graph, layer: map<Name, nat>, unresolved: set<Name>, k: nat, n: Name)
    requires n in deps
  {
    exists d :: d in deps[n] && (d in unresolved || (d in layer && layer[d] + 1 == k))
  }

  /** What resolving has established when layer k is next. */
  ghost predicate Resolving(deps: Graph, resolved: seq<Name>, layer: map<Name, nat>, unresolved: set<Name>, k: nat) {
    && LayeredOrder(resolved, layer)
    && Split(deps, layer, unresolved, k)
    && (forall n :: n in layer ==> WellPlaced(deps, layer, n))
    && (k > 0 ==> forall n :: n in unresolved ==> Waiting(deps, layer, unresolved, k, n))
  }

  /** The plugins of the next layer: the ready ones, or any one when there are none. */
  ghost predicate NextLayer(deps: Graph, unresolved: set<Name>, ready: set<Name>) {
    && ready <= unresolved <= deps.Keys
    && if exists n :: n in unresolved && Ready(deps, unresolved, n)
       then forall n :: n in unresolved ==> (n in ready <==> Ready(deps, unresolved, n))
       else exists n :: ready == {n}
  }

  lemma EarlierLayersKept(deps: Graph, layer: map<Name, nat>, unresolved: set<Name>, ready: set<Name>, k: nat, n: Name)
    requires Split(deps, layer, unresolved, k) && ready <= unresolved
    requires n in layer && WellPlaced(deps, layer, n)
    ensures WellPlaced(deps, AddLayer(layer, ready, k), n)
  {
    var layer' := AddLayer(layer, ready, k);
    if BrokeCycle(deps, layer, n) {
      assert Above(deps, layer', layer'[n]) == Above(deps, layer, layer[n]);
    } else if layer[n] > 0 {
      var d :| d in deps[n] && d in layer && layer[d] + 1 == layer[n];
      assert d in layer' && layer'[d] + 1 == layer'[n];
    }
  }

  lemma NewLayerPlaced(deps: Graph, layer: map<Name, nat>, unresolved: set<Name>, ready: set<Name>, k: nat, n: Name)
    requires Split(deps, layer, unresolved, k)
    requires NextLayer(deps, unresolved, ready) && n in ready
    requires k > 0 ==> Waiting(deps, layer, unresolved, k, n)
    ensures WellPlaced(deps, AddLayer(layer, ready, k), n)
  {
    var layer' := AddLayer(layer, ready, k);
    if Ready(deps, unresolved, n) {
      forall d | d in deps[n] && d in deps ensures d in layer' && layer'[d] < layer'[n] {
        assert d !in deps[n] * unresolved;
      }
    } else {
      assert Above(deps, layer', k) == unresolved;
      assert BrokeCycle(deps, layer', n);
    }
  }

  lemma StillWaiting(deps: Graph, layer: map<Name, nat>, unresolved: set<Name>, ready: set<Name>, k: nat, n: Name)
    requires NextLayer(deps, unresolved, ready) && n in unresolved - ready
    ensures Waiting(deps, AddLayer(layer, ready, k), unresolved - ready, k + 1, n)
  {
    assert !Ready(deps, unresolved, n);
    var d :| d in deps[n] * unresolved;
    assert d in ready || d in unresolved - ready;
  }

  lemma LayerSplit(deps: Graph, layer: map<Name, nat>, unresolved: set<Name>, ready: set<Name>, k: nat)
    requires Split(deps, layer, unresolved, k) && ready <= unresolved
    ensures Split(deps, AddLayer(layer, ready, k), unresolved - ready, k + 1)
  {
  }

  /** One round of the resolving loop. */
  lemma LayerResolved(deps: Graph, resolved: seq<Name>, layer: map<Name, nat>, unresolved: set<Name>,
                      ready: set<Name>, batch: seq<Name>, k: nat)
    requires Resolving(deps, resolved, layer, unresolved, k) && NextLayer(deps, unresolved, ready)
    requires StrictlySorted(batch) && forall n :: n in batch <==> n in ready
    ensures Resolving(deps, resolved + batch, AddLayer(layer, ready, k), unresolved - ready, k + 1)
  {
    var layer' := AddLayer(layer, ready, k);
    LayerAppended(resolved, layer, ready, batch, k);
    LayerSplit(deps, layer, unresolved, ready, k);
    forall n | n in layer' ensures WellPlaced(deps, layer', n) {
      if n in ready {
        NewLayerPlaced(deps, layer, unresolved, ready, k, n);
      } else {
        EarlierLayersKept(deps, layer, unresolved, ready, k, n);
      }
    }
    forall n | n in unresolved - ready ensures Waiting(deps, layer', unresolved - ready, k + 1, n) {
      StillWaiting(deps, layer, unresolved, ready, k, n);
    }
  }

  method ReadyPlugins(deps: Graph, unresolved: set<Name>) returns (ready: set<Name>)
    requires unresolved <= deps.Keys && unresolved != {}
    ensures NextLayer(deps, unresolved, ready) && ready != {}
  {
    ready := set n | n in unresolved && deps[n] * unresolved == {};
    assert forall n :: n in unresolved ==> (Ready(deps, unresolved, n) <==> n in ready);
    if ready == {} {
      var broken :| broken in unresolved;
      ready := {broken};
    }
  }

  lemma ResolvesAll(deps: Graph, order: seq<Name>, layer: map<Name, nat>)
    requires Resolution(deps, order, layer)
    ensures forall n :: n in order <==> n in deps
    ensures forall i, j :: 0 <= i < j < |order| ==> order[i] != order[j]
  {
    forall i, j | 0 <= i < j < |order| ensures order[i] != order[j] {
      if order[i] == order[j] {
        OrderIsDistinct(order, layer, i, j);
      }
    }
  }

  /** The layered topological sort. When nothing is ready, any unresolved plugin may come next. */
  method Resolve(deps: Graph) returns (resolved: seq<Name>, ghost layer: map<Name, nat>)
    ensures Resolution(deps, resolved, layer)
    // Every candidate once, and after what it requires unless there are cycles.
    ensures forall n :: n in resolved <==> n in deps
    ensures forall i, j :: 0 <= i < j < |resolved| ==> resolved[i] != resolved[j]
    ensures Topological(deps, resolved) <==> Acyclic(deps)
  {
    resolved, layer := [], map[];
    var unresolved := deps.Keys;
    ghost var k: nat := 0;
    while unresolved != {}
      invariant Resolving(deps, resolved, layer, unresolved, k)
      decreases unresolved
    {
      var ready := ReadyPlugins(deps, unresolved);
      var batch := Sorted(ready);
      LayerResolved(deps, resolved, layer, unresolved, ready, batch, k);
      resolved, unresolved := Place(batch, ready, resolved, unresolved);
      layer := AddLayer(layer, ready, k);
      k := k + 1;
    }
    ResolvesAll(deps, resolved, layer);
    TopologicalIffAcyclic(deps, resolved, layer);
  }

  /** Appends a sorted layer to the order, one name at a time. */
  method Place(batch: seq<Name>, ghost ready: set<Name>, resolved: seq<Name>, unresolved: set<Name>)
      returns (resolved': seq<Name>, unresolved': set<Name>)
    requires forall n :: n in batch <==> n in ready
    ensures resolved' == resolved + batch && unresolved' == unresolved - ready
  {
    resolved', unresolved' := resolved, unresolved;
    for j := 0 to |batch|
      invariant resolved' == resolved + batch[..j]
      invariant unresolved' == unresolved - set n | n in batch[..j]
    {
      resolved' := resolved' + [batch[j]];
      unresolved' := unresolved' - {batch[j]};
    }
    assert batch[..|batch|] == batch;
  }

  /** The names that one load pass from an empty manager leaves loaded. */
  ghost function LoadPass(disk: Disk, order: seq<Candidate>, i: nat): set<Name>
    requires i <= |order|
  {
    if i == 0 then {}
    else
      var before, c := LoadPass(disk, order, i - 1), order[i - 1];
      if Loadable(disk, c.path) && Requires(disk, c.path) <= before then before + {c.name} else before
  }

  lemma NextAttempt(disk: Disk, order: seq<Candidate>, i: nat, before: set<Name>, after: set<Name>)
    requires i < |order| && before == LoadPass(disk, order, i)
    requires var c := order[i];
             after == if c.name !in before && Loadable(disk, c.path) && Requires(disk, c.path) <= before
                      then before + {c.name} else before
    ensures after == LoadPass(disk, order, i + 1)
  {
  }

  lemma {:induction false} LoadPassIsLoadInOrder(disk: Disk, paths: map<Name, Path>, order: seq<Candidate>, i: nat)
    requires i <= |order| && forall c :: c in order ==> c.name in paths && c.path == paths[c.name]
    ensures LoadPass(disk, order, i) ==
            LoadInOrder(GraphOf(disk, paths), LoadableNames(disk, paths), Names(order), i)
  {
    if i > 0 {
      LoadPassIsLoadInOrder(disk, paths, order, i - 1);
      assert order[i - 1] in order && Names(order)[i - 1] == order[i - 1].name;
    }
  }

  method AttachPaths(resolved: seq<Name>, paths: map<Name, Path>) returns (order: seq<Candidate>)
    requires forall n :: n in resolved ==> n in paths
    ensures Names(order) == resolved
    ensures forall c :: c in order ==> c.name in paths && c.path == paths[c.name]
  {
    order := [];
    for i := 0 to |resolved|
      invariant Names(order) == resolved[..i]
      invariant forall c :: c in order ==> c.name in paths && c.path == paths[c.name]
    {
      order := order + [Candidate(resolved[i], paths[resolved[i]])];
    }
  }

  lemma StaysSupported(disk: Disk, plugins: map<Name, Path>, plugins': map<Name, Path>, n: Name)
    requires n in plugins && PluginSupported(disk, plugins, n)
    requires plugins.Keys <= plugins'.Keys && plugins'[n] == plugins[n]
    ensures PluginSupported(disk, plugins', n)
  {
  }

  // ---- What the metadata say ------------------------------------------------------------

  /** No later candidate has the same name. */
  ghost predicate LastOfItsName(candidates: seq<Candidate>, i: int) {
    0 <= i < |candidates| && forall j :: i < j < |candidates| ==> candidates[j].name != candidates[i].name
  }

  /** The plugin at this path is enabled, fits the engine, comes up, and requires only names in s. */
  ghost predicate CanLoad(disk: Disk, path: Path, s: set<Name>) {
    && disk.metadata(path).enabled && disk.metadata(path).engineSatisfied && disk.comesUp(path)
    && forall d :: d in disk.metadata(path).requiresPlugins ==> d in s
  }

  /** s holds every candidate whose plugin can load next to s. */
  ghost predicate MetadataClosed(disk: Disk, candidates: seq<Candidate>, s: set<Name>) {
    forall i :: LastOfItsName(candidates, i) && CanLoad(disk, candidates[i].path, s) ==> candidates[i].name in s
  }

  lemma {:induction false} PathIsLast(candidates: seq<Candidate>, n: Name) returns (i: int)
    requires n in Paths(candidates)
    ensures LastOfItsName(candidates, i) && candidates[i] == Candidate(n, Paths(candidates)[n])
  {
    i := |candidates| - 1;
    if candidates[i].name != n {
      var m := i;
      i := PathIsLast(candidates[..m], n);
      assert forall j :: 0 <= j < m ==> candidates[..m][j] == candidates[j];
    }
  }

  lemma {:induction false} LastIsPath(candidates: seq<Candidate>, i: int)
    requires LastOfItsName(candidates, i)
    ensures candidates[i].name in Paths(candidates) && Paths(candidates)[candidates[i].name] == candidates[i].path
  {
    var m := |candidates| - 1;
    if i < m {
      assert forall j :: 0 <= j < m ==> candidates[..m][j] == candidates[j];
      LastIsPath(candidates[..m], i);
      assert candidates[m].name != candidates[i].name;
    }
  }

  /** Being closed according to the metadata is being closed in the graph that resolving reads. */
  lemma ClosedByMetadata(disk: Disk, candidates: seq<Candidate>, s: set<Name>)
    ensures var paths := Paths(candidates);
            MetadataClosed(disk, candidates, s) <==> Closed(GraphOf(disk, paths), LoadableNames(disk, paths), s)
  {
    var paths := Paths(candidates);
    var deps, loadable := GraphOf(disk, paths), LoadableNames(disk, paths);
    forall path ensures CanLoad(disk, path, s) <==> Loadable(disk, path) && Requires(disk, path) <= s {
    }
    if MetadataClosed(disk, candidates, s) {
      forall n | n in deps && n in loadable && deps[n] <= s ensures n in s {
        var i := PathIsLast(candidates, n);
      }
    }
    if Closed(deps, loadable, s) {
      forall i | LastOfItsName(candidates, i) && CanLoad(disk, candidates[i].path, s) ensures candidates[i].name in s {
        LastIsPath(candidates, i);
        assert candidates[i].name in deps && candidates[i].name in loadable;
      }
    }
  }

  lemma LeastByMetadata(disk: Disk, candidates: seq<Candidate>)
    ensures var paths := Paths(candidates);
            forall s :: LeastClosed(GraphOf(disk, paths), LoadableNames(disk, paths), s) ==>
              && MetadataClosed(disk, candidates, s)
              && forall s' :: MetadataClosed(disk, candidates, s') ==> s <= s'
  {
    forall s ensures MetadataClosed(disk, candidates, s) <==>
                     Closed(GraphOf(disk, Paths(candidates)), LoadableNames(disk, Paths(candidates)), s)
    {
      ClosedByMetadata(disk, candidates, s);
    }
  }

  class PluginManager {
    const disk: Disk
    var plugins: map<Name, Path>
    var metadata: map<Name, Metadata>

    ghost predicate Valid()
      reads this
    {
      metadata == map n | n in plugins :: disk.metadata(plugins[n])
    }

    constructor (disk: Disk)
      ensures Valid() && this.disk == disk && plugins == map[]
    {
      this.disk := disk;
      plugins, metadata := map[], map[];
    }

    /** Orders the candidate names; `layer` records the round that placed each of them. */
    method ResolveDependencies(candidates: seq<Candidate>) returns (order: seq<Candidate>, ghost layer: map<Name, nat>)
      ensures Resolution(GraphOf(disk, Paths(candidates)), Names(order), layer)
      ensures forall c :: c in order ==> c.name in Paths(candidates) && c.path == Paths(candidates)[c.name]
    {
      var deps, paths := ReadGraph(candidates);
      var resolved;
      resolved, layer := Resolve(deps);
      assert forall n :: n in resolved ==> n in layer && n in paths;
      order := AttachPaths(resolved, paths);
    }

    /** The first half of resolving: what every candidate requires, and where it is. */
    method ReadGraph(candidates: seq<Candidate>) returns (deps: Graph, paths: map<Name, Path>)
      ensures paths == Paths(candidates) && deps == GraphOf(disk, paths)
    {
      deps, paths := map[], map[];
      for i := 0 to |candidates|
        invariant paths == Paths(candidates[..i]) && deps == GraphOf(disk, paths)
      {
        var c := candidates[i];
        assert candidates[..i + 1][..i] == candidates[..i];
        paths := paths[c.name := c.path];
        deps := deps[c.name := Requires(disk, c.path)];
      }
      assert candidates[..|candidates|] == candidates;
    }

    /** Loads one plugin unless it is loaded, not loadable, or lacks a requirement. */
    method LoadPlugin(name: Name, path: Path) returns (loaded: bool)
      requires Valid()
      modifies this
      ensures Valid()
      ensures loaded <==>
                && name !in old(plugins)
                && disk.metadata(path).enabled && disk.metadata(path).engineSatisfied && disk.comesUp(path)
                && forall d :: d in disk.metadata(path).requiresPlugins ==> d in old(plugins)
      ensures plugins == if loaded then old(plugins)[name := path] else old(plugins)
    {
      if name in plugins {
        return false;
      }
      var meta := disk.metadata(path);
      if !meta.enabled || !meta.engineSatisfied {
        return false;
      }
      for i := 0 to |meta.requiresPlugins|
        invariant forall d :: d in meta.requiresPlugins[..i] ==> d in plugins
      {
        if meta.requiresPlugins[i] !in plugins {
          assert meta.requiresPlugins[i] in Requires(disk, path);
          return false;
        }
      }
      if !disk.comesUp(path) {
        return false;
      }
      plugins := plugins[name := path];
      metadata := metadata[name := meta];
      return true;
    }

    /** Resolves the candidates and loads them in that order. */
    method DiscoverPlugins(candidates: seq<Candidate>) returns (loaded: seq<Name>)
      requires Valid()
      modifies this
      ensures Valid()
      ensures plugins.Keys == old(plugins.Keys) + set n | n in loaded
      ensures forall n :: n in old(plugins) ==> plugins[n] == old(plugins)[n]
      // What is loaded now was listed, and no later entry has its name.
      ensures forall n :: n in loaded ==>
                exists i :: LastOfItsName(candidates, i) && candidates[i] == Candidate(n, plugins[n])
      // Whatever was there before, a plugin loaded now has what its metadata require.
      ensures forall n, d :: n in loaded && d in disk.metadata(plugins[n]).requiresPlugins ==> d in plugins
      // From an empty manager, exactly the least set that holds every plugin which can come up and has all it requires.
      ensures old(plugins) == map[] ==>
                && MetadataClosed(disk, candidates, plugins.Keys)
                && forall s :: MetadataClosed(disk, candidates, s) ==> plugins.Keys <= s
    {
      ghost var paths := Paths(candidates);
      ghost var deps, loadable := GraphOf(disk, paths), LoadableNames(disk, paths);
      var order;
      ghost var layer;
      order, layer := ResolveDependencies(candidates);
      OnePassLoadsLeastClosedSet(deps, loadable, Names(order), layer);
      loaded := LoadAll(order, paths);
      LoadPassIsLoadInOrder(disk, paths, order, |order|);
      forall n | n in loaded
        ensures exists i :: LastOfItsName(candidates, i) && candidates[i] == Candidate(n, plugins[n])
      {
        var i := PathIsLast(candidates, n);
        assert LastOfItsName(candidates, i);
      }
      LeastByMetadata(disk, candidates);
    }

    /** The load pass over resolved candidates. */
    method LoadAll(order: seq<Candidate>, ghost paths: map<Name, Path>) returns (loaded: seq<Name>)
      requires Valid()
      requires forall c :: c in order ==> c.name in paths && c.path == paths[c.name]
      modifies this
      ensures Valid()
      ensures plugins.Keys == old(plugins.Keys) + set n | n in loaded
      ensures forall n :: n in old(plugins) ==> plugins[n] == old(plugins)[n]
      ensures forall n :: n in loaded ==> n in paths && plugins[n] == paths[n]
      ensures forall n :: n in loaded ==> PluginSupported(disk, plugins, n)
      ensures old(plugins) == map[] ==> plugins.Keys == LoadPass(disk, order, |order|)
    {
      loaded := [];
      for i := 0 to |order|
        invariant Valid()
        invariant plugins.Keys == old(plugins.Keys) + set n | n in loaded
        invariant forall n :: n in old(plugins) ==> plugins[n] == old(plugins)[n]
        invariant forall n :: n in loaded ==> n in paths && n in plugins && plugins[n] == paths[n]
        invariant forall n :: n in loaded ==> PluginSupported(disk, plugins, n)
        invariant old(plugins) == map[] ==> plugins.Keys == LoadPass(disk, order, i)
      {
        var c := order[i];
        assert c in order;
        ghost var before := plugins;
        var ok := LoadPlugin(c.name, c.path);
        if ok {
          assert PluginSupported(disk, plugins, c.name);
          forall n | n in loaded ensures PluginSupported(disk, plugins, n) {
            StaysSupported(disk, before, plugins, n);
          }
          loaded := loaded + [c.name];
        }
        if old(plugins) == map[] {
          NextAttempt(disk, order, i, before.Keys, plugins.Keys);
        }
      }
    }
  }

  function Names(order: seq<Candidate>): seq<Name> {
    seq(|order|, i requires 0 <= i < |order| => order[i].name)
  }
}
