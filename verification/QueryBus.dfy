/** Cached queries (engine/query.py): one cache, one lock for all keys, any number of askers. */
module QueryBus {
  import opened Options

  type Key = string

  type Value = string

  type Asker = nat

  /** The fields of the bus that cached queries use. */
  datatype Core = Core(cache: map<Key, Value>, locked: bool)

  /** What an asker does on getting the lock: take a value that has appeared, and give the lock back,
      or keep it and call the handler. */
  function Entered(c: Core, key: Key): (Core, Option<Value>) {
    if key in c.cache then (c, Some(c.cache[key])) else (c.(locked := true), None)
  }

  function StoredValue(c: Core, key: Key, value: Value): Core {
    Core(c.cache[key := value], false)
  }

  class Bus {
    var cache: map<Key, Value>
    var locked: bool

    ghost function Fields(): Core
      reads this
    {
      Core(cache, locked)
    }

    constructor ()
      ensures Fields() == Core(map[], false)
    {
      cache, locked := map[], false;
    }

    /** The check before the lock is asked for. */
    method Lookup(key: Key) returns (hit: Option<Value>)
      ensures hit == if key in cache then Some(cache[key]) else None
    {
      hit := if key in cache then Some(cache[key]) else None;
    }

    method Enter(key: Key) returns (hit: Option<Value>)
      requires !locked
      modifies this
      ensures (Fields(), hit) == Entered(old(Fields()), key)
    {
      locked := true;
      if key in cache {
        hit := Some(cache[key]);
        locked := false;
      } else {
        hit := None;
      }
    }

    method Store(key: Key, value: Value)
      requires locked
      modifies this
      ensures Fields() == StoredValue(old(Fields()), key, value)
    {
      cache := cache[key := value];
      locked := false;
    }

    method GiveUp()
      requires locked
      modifies this`locked
      ensures !locked
    {
      locked := false;
    }

    method Invalidate(key: Key)
      modifies this`cache
      ensures cache == old(cache) - {key}
    {
      cache := cache - {key};
    }

    method ClearCache()
      modifies this`cache
      ensures cache == map[]
    {
      cache := map[];
    }
  }

  // ---- Runs ----------------------------------------------------------------------

  /** What has happened to the cache. */
  datatype Entry = Stored(key: Key, value: Value) | Dropped(key: Key) | Cleared

  predicate Drops(e: Entry, key: Key) {
    e == Dropped(key) || e.Cleared?
  }

  /** The value the entries so far leave under the key. */
  function Current(log: seq<Entry>, key: Key): Option<Value> {
    if log == [] then None
    else
      var e := log[|log| - 1];
      if e.Stored? && e.key == key then Some(e.value)
      else if Drops(e, key) then None
      else Current(log[..|log| - 1], key)
  }

  /** An ask in progress or over. The numbers are lengths of the log: `asked` when it began, `at` when it got its
      value, and `born` when the handler that computed the value began. */
  datatype Phase =
    | Waiting(key: Key, asked: nat)
    | Handling(key: Key, asked: nat, born: nat)
    | Got(key: Key, asked: nat, value: Value, at: nat, born: nat)
    | Failed(key: Key)

  /** `births`: for each cached key, when the handler that computed its value began. */
  datatype System = System(core: Core, births: map<Key, nat>, askers: map<Asker, Phase>, log: seq<Entry>)

  const START := System(Core(map[], false), map[], map[], [])

  function BirthOf(s: System, key: Key): nat {
    if key in s.births then s.births[key] else 0
  }

  datatype Event =
    | Ask(asker: Asker, key: Key)               // a new ask, up to its wait for the lock
    | Acquire(asker: Asker)                     // it gets the free lock
    | HandlerReturns(asker: Asker, value: Value)
    | HandlerRaises(asker: Asker)               // or there is none, or the asker is cancelled
    | Invalidate(key: Key)
    | ClearCache

  function Step(s: System, e: Event): System {
    match e
    case Ask(a, key) =>
      if a in s.askers then s
      else s.(askers := s.askers[a := if key in s.core.cache
                                      then Got(key, |s.log|, s.core.cache[key], |s.log|, BirthOf(s, key))
                                      else Waiting(key, |s.log|)])
    case Acquire(a) =>
      if a !in s.askers || !s.askers[a].Waiting? || s.core.locked then s
      else
        var p := s.askers[a];
        var (core, hit) := Entered(s.core, p.key);
        s.(core := core,
           askers := s.askers[a := if hit.Some? then Got(p.key, p.asked, hit.value, |s.log|, BirthOf(s, p.key))
                                   else Handling(p.key, p.asked, |s.log|)])
    case HandlerReturns(a, value) =>
      if a !in s.askers || !s.askers[a].Handling? then s
      else
        var p := s.askers[a];
        System(StoredValue(s.core, p.key, value),
               s.births[p.key := p.born],
               s.askers[a := Got(p.key, p.asked, value, |s.log| + 1, p.born)],
               s.log + [Stored(p.key, value)])
    case HandlerRaises(a) =>
      if a !in s.askers || !s.askers[a].Handling? then s
      else s.(core := s.core.(locked := false), askers := s.askers[a := Failed(s.askers[a].key)])
    case Invalidate(key) =>
      s.(core := s.core.(cache := s.core.cache - {key}), births := s.births - {key}, log := s.log + [Dropped(key)])
    case ClearCache =>
      s.(core := s.core.(cache := map[]), births := map[], log := s.log + [Cleared])
  }

  function RunFrom(s: System, es: seq<Event>): System {
    if es == [] then s else Step(RunFrom(s, es[..|es| - 1]), es[|es| - 1])
  }

  function Run(es: seq<Event>): System {
    RunFrom(START, es)
  }

  /** The cache holds what the log says. */
  ghost predicate CacheAgrees(s: System) {
    && s.births.Keys == s.core.cache.Keys
    && forall k :: Current(s.log, k) == if k in s.core.cache then Some(s.core.cache[k]) else None
  }

  /** At most one asker is at its handler, exactly while the lock is held, and its key is not cached. */
  ghost predicate OneHandler(s: System) {
    && (forall a, b :: a in s.askers && b in s.askers && s.askers[a].Handling? && s.askers[b].Handling? ==> a == b)
    && (forall a :: a in s.askers && s.askers[a].Handling? ==> s.core.locked && s.askers[a].key !in s.core.cache)
    && (s.core.locked ==> exists a :: a in s.askers && s.askers[a].Handling?)
  }

  /** Between any two values stored under a key, the key was dropped. */
  ghost predicate DroppedBetween(log: seq<Entry>) {
    forall i, j :: 0 <= i < j < |log| && log[i].Stored? && log[j].Stored? && log[i].key == log[j].key ==>
      exists m :: i < m < j && Drops(log[m], log[i].key)
  }

  /** What an asker got was the current value at a moment between its ask and now. */
  ghost predicate Timely(s: System, p: Phase) {
    match p
    case Got(key, asked, value, at, _) => asked <= at <= |s.log| && Current(s.log[..at], key) == Some(value)
    case Waiting(_, asked) => asked <= |s.log|
    case Handling(_, asked, born) => asked <= born <= |s.log|
    case Failed(_) => true
  }

  ghost predicate Sound(s: System) {
    && CacheAgrees(s) && OneHandler(s) && DroppedBetween(s.log)
    && forall a :: a in s.askers ==> Timely(s, s.askers[a])
  }

  lemma CurrentAppend(log: seq<Entry>, e: Entry, key: Key)
    ensures Current(log + [e], key) ==
            if e.Stored? && e.key == key then Some(e.value) else if Drops(e, key) then None else Current(log, key)
  {
    assert (log + [e])[..|log|] == log;
  }

  /** A key without a current value has been dropped since it was last stored. */
  lemma {:induction false} NoneMeansDropped(log: seq<Entry>, key: Key, i: nat)
    requires Current(log, key) == None && i < |log| && log[i].Stored? && log[i].key == key
    ensures exists m :: i < m < |log| && Drops(log[m], key)
  {
    var n := |log| - 1;
    if !Drops(log[n], key) {
      NoneMeansDropped(log[..n], key, i);
      var m :| i < m < n && Drops(log[..n][m], key);
      assert log[m] == log[..n][m];
    }
  }

  lemma StoreKeepsDroppedBetween(log: seq<Entry>, key: Key, value: Value)
    requires DroppedBetween(log) && Current(log, key) == None
    ensures DroppedBetween(log + [Stored(key, value)])
  {
    var log' := log + [Stored(key, value)];
    forall i, j | 0 <= i < j < |log'| && log'[i].Stored? && log'[j].Stored? && log'[i].key == log'[j].key
      ensures exists m :: i < m < j && Drops(log'[m], log'[i].key)
    {
      if j == |log| {
        NoneMeansDropped(log, key, i);
        var m :| i < m < |log| && Drops(log[m], key);
        assert log'[m] == log[m];
      } else {
        var m :| i < m < j && Drops(log[m], log[i].key);
        assert log'[m] == log[m];
      }
    }
  }

  lemma DropKeepsDroppedBetween(log: seq<Entry>, e: Entry)
    requires DroppedBetween(log) && !e.Stored?
    ensures DroppedBetween(log + [e])
  {
    var log' := log + [e];
    forall i, j | 0 <= i < j < |log'| && log'[i].Stored? && log'[j].Stored? && log'[i].key == log'[j].key
      ensures exists m :: i < m < j && Drops(log'[m], log'[i].key)
    {
      var m :| i < m < j && Drops(log[m], log[i].key);
      assert log'[m] == log[m];
    }
  }

  lemma StepKeepsCache(s: System, e: Event)
    requires Sound(s)
    ensures CacheAgrees(Step(s, e)) && DroppedBetween(Step(s, e).log)
  {
    var s' := Step(s, e);
    if s'.log != s.log {
      var entry := s'.log[|s.log|];
      assert s'.log == s.log + [entry];
      forall k ensures Current(s'.log, k) == if k in s'.core.cache then Some(s'.core.cache[k]) else None {
        CurrentAppend(s.log, entry, k);
      }
      if entry.Stored? {
        StoreKeepsDroppedBetween(s.log, entry.key, entry.value);
      } else {
        DropKeepsDroppedBetween(s.log, entry);
      }
    }
  }

  lemma StepKeepsOneHandler(s: System, e: Event)
    requires OneHandler(s)
    ensures OneHandler(Step(s, e))
  {
    var s' := Step(s, e);
    if s'.core.locked && !s.core.locked {
      assert s'.askers[e.asker].Handling?;
    } else if s'.core.locked {
      var a :| a in s.askers && s.askers[a].Handling?;
      assert s'.askers[a].Handling?;
    }
  }

  lemma StepKeepsTimely(s: System, e: Event, a: Asker)
    requires Sound(s) && a in Step(s, e).askers
    ensures Timely(Step(s, e), Step(s, e).askers[a])
  {
    var s' := Step(s, e);
    if a in s.askers && s'.askers[a] == s.askers[a] {
      var p := s.askers[a];
      assert Timely(s, p);
      if p.Got? {
        assert s'.log[..p.at] == s.log[..p.at];
      }
    } else {
      assert s'.log[..|s'.log|] == s'.log;
      if e.HandlerReturns? {
        CurrentAppend(s.log, s'.log[|s.log|], s.askers[a].key);
      } else {
        assert s'.log == s.log;
      }
    }
  }

  lemma {:induction false} RunIsSound(es: seq<Event>)
    ensures Sound(Run(es))
  {
    if es != [] {
      var s, e := Run(es[..|es| - 1]), es[|es| - 1];
      RunIsSound(es[..|es| - 1]);
      StepKeepsCache(s, e);
      StepKeepsOneHandler(s, e);
      forall a | a in Step(s, e).askers ensures Timely(Step(s, e), Step(s, e).askers[a]) {
        StepKeepsTimely(s, e, a);
      }
    }
  }

  /** However many ask at once: between two handler results stored under one key, there is an
      invalidation of the key or a clearing of the cache. */
  lemma SingleFlight(es: seq<Event>, i: nat, j: nat)
    requires i < j < |Run(es).log|
    requires var log := Run(es).log; log[i].Stored? && log[j].Stored? && log[i].key == log[j].key
    ensures exists m :: i < m < j && Drops(Run(es).log[m], Run(es).log[i].key)
  {
    RunIsSound(es);
  }

  lemma {:induction false} LogHasNoDrops(es: seq<Event>, key: Key)
    requires forall i :: 0 <= i < |es| ==> es[i] != Invalidate(key) && es[i] != ClearCache
    ensures forall m :: 0 <= m < |Run(es).log| ==> !Drops(Run(es).log[m], key)
  {
    if es != [] {
      LogHasNoDrops(es[..|es| - 1], key);
      assert es[|es| - 1] != Invalidate(key) && es[|es| - 1] != ClearCache;
      assert Run(es) == Step(Run(es[..|es| - 1]), es[|es| - 1]);
    }
  }

  lemma {:induction false} CurrentWasStored(log: seq<Entry>, key: Key) returns (i: nat)
    requires Current(log, key).Some?
    ensures i < |log| && log[i] == Stored(key, Current(log, key).value)
    ensures forall m :: i < m < |log| ==> !Drops(log[m], key)
  {
    i := |log| - 1;
    if !(log[i].Stored? && log[i].key == key) {
      var n := i;
      i := CurrentWasStored(log[..n], key);
      assert log[..n][i] == log[i];
      forall m | i < m < |log| ensures !Drops(log[m], key) {
        assert m < n ==> log[m] == log[..n][m];
      }
    }
  }

  /** In a run that neither invalidates the key nor clears the cache, all who get a value get the same. */
  lemma AllGetTheSame(es: seq<Event>, a: Asker, b: Asker)
    requires a in Run(es).askers && b in Run(es).askers
    requires var p, q := Run(es).askers[a], Run(es).askers[b];
             && p.Got? && q.Got? && p.key == q.key
             && forall i :: 0 <= i < |es| ==> es[i] != Invalidate(p.key) && es[i] != ClearCache
    ensures Run(es).askers[a].value == Run(es).askers[b].value
  {
    RunIsSound(es);
    var s := Run(es);
    var p, q := s.askers[a], s.askers[b];
    LogHasNoDrops(es, p.key);
    assert Timely(s, p) && Timely(s, q);
    var i := CurrentWasStored(s.log[..p.at], p.key);
    var j := CurrentWasStored(s.log[..q.at], q.key);
    assert s.log[i] == s.log[..p.at][i] && s.log[j] == s.log[..q.at][j];
    assert i == j;
  }

  /** Nobody gets a value that was stored before the key was dropped before they asked. */
  lemma ServedAfterDrop(es: seq<Event>, a: Asker, d: nat)
    requires a in Run(es).askers && Run(es).askers[a].Got?
    requires var p := Run(es).askers[a]; d < p.asked && d < |Run(es).log| && Drops(Run(es).log[d], p.key)
    ensures var p := Run(es).askers[a];
            exists i :: d < i < |Run(es).log| && Run(es).log[i] == Stored(p.key, p.value)
  {
    RunIsSound(es);
    var s := Run(es);
    var p := s.askers[a];
    assert Timely(s, p);
    var i := CurrentWasStored(s.log[..p.at], p.key);
    assert s.log[d] == s.log[..p.at][d] && s.log[i] == s.log[..p.at][i];
  }

  /** In every run, who asks for a key gets its current value at once, without the lock, if and only if it has one. */
  lemma HitsNeedNoLock(es: seq<Event>, a: Asker, key: Key)
    requires a !in Run(es).askers
    ensures a in Run(es + [Ask(a, key)]).askers
    ensures var p, current := Run(es + [Ask(a, key)]).askers[a], Current(Run(es).log, key);
            if current.Some? then p.Got? && p.key == key && p.value == current.value
            else p == Waiting(key, |Run(es).log|)
    ensures Run(es + [Ask(a, key)]).core == Run(es).core
  {
    RunIsSound(es);
    assert (es + [Ask(a, key)])[..|es|] == es;
  }

  /** In every run, the value a handler returns becomes the current one and reaches its asker, and the lock is free;
      a handler that raises changes no value. */
  lemma HandlerEnds(es: seq<Event>, a: Asker, value: Value)
    requires a in Run(es).askers && Run(es).askers[a].Handling?
    ensures var s, s' := Run(es), Run(es + [HandlerReturns(a, value)]);
            && s'.log == s.log + [Stored(s.askers[a].key, value)] && !s'.core.locked
            && a in s'.askers && s'.askers[a].Got? && s'.askers[a].value == value
    ensures var s, s' := Run(es), Run(es + [HandlerRaises(a)]);
            s'.log == s.log && !s'.core.locked && a in s'.askers && s'.askers[a].Failed?
  {
    assert (es + [HandlerReturns(a, value)])[..|es|] == es;
    assert (es + [HandlerRaises(a)])[..|es|] == es;
  }

  // ---- Values computed before an invalidation ---------------------------------------------

  predicate DropEvent(e: Event, key: Key) {
    e == Invalidate(key) || e == ClearCache
  }

  /** Somebody who asks for the key from now on can be served a value whose handler began before now. */
  ghost predicate CanServeStale(s: System, key: Key) {
    exists es :: ServesStale(s, key, es)
  }

  ghost predicate ServesStale(s: System, key: Key, es: seq<Event>) {
    exists a :: a !in s.askers && a in RunFrom(s, es).askers && GotOld(RunFrom(s, es).askers[a], key, |s.log|)
  }

  predicate GotOld(p: Phase, key: Key, now: nat) {
    p.Got? && p.key == key && p.born < now
  }

  /** Nothing computed, or being computed, for the key began before `now`, but for what the earlier askers have got. */
  ghost predicate NoneOld(s: System, key: Key, now: nat, earlier: set<Asker>) {
    && now <= |s.log| && s.births.Keys == s.core.cache.Keys
    && (key in s.births ==> s.births[key] >= now)
    && forall a :: a in s.askers ==>
         match s.askers[a]
         case Handling(k, _, born) => k == key ==> born >= now
         case Got(_, _, _, _, _) => a in earlier || !GotOld(s.askers[a], key, now)
         case _ => true
  }

  lemma StepKeepsNoneOld(s: System, e: Event, key: Key, now: nat, earlier: set<Asker>)
    requires NoneOld(s, key, now, earlier)
    ensures NoneOld(Step(s, e), key, now, earlier)
  {
  }

  lemma {:induction false} RunKeepsNoneOld(s: System, es: seq<Event>, key: Key, now: nat, earlier: set<Asker>)
    requires NoneOld(s, key, now, earlier)
    ensures NoneOld(RunFrom(s, es), key, now, earlier)
  {
    if es != [] {
      RunKeepsNoneOld(s, es[..|es| - 1], key, now, earlier);
      StepKeepsNoneOld(RunFrom(s, es[..|es| - 1]), es[|es| - 1], key, now, earlier);
    }
  }

  lemma {:induction false} FreshAsker(s: set<Asker>) returns (a: Asker)
    ensures a !in s && forall b :: b in s ==> b < a
  {
    if s == {} {
      a := 0;
    } else {
      var b :| b in s;
      var m := FreshAsker(s - {b});
      assert forall c :: c in s ==> c == b || c in s - {b};
      a := if m > b then m else b + 1;
    }
  }

  /** A drop does not reach the result of a handler that is running: when that returns, it is stored all the
      same and served to whoever asks next. */
  lemma InvalidationMissesRunningHandler(s: System, a: Asker, value: Value, b: Asker)
    requires a in s.askers && s.askers[a].Handling? && b !in s.askers && s.births.Keys == s.core.cache.Keys
    ensures var p := s.askers[a];
            var s' := RunFrom(s, [HandlerReturns(a, value), Ask(b, p.key)]);
            b in s'.askers && s'.askers[b] == Got(p.key, |s.log| + 1, value, |s.log| + 1, p.born)
  {
    var back, next := HandlerReturns(a, value), Ask(b, s.askers[a].key);
    assert [back, next][..1] == [back] && [back][..0] == [];
    assert RunFrom(s, [back]) == Step(s, back);
  }

  /** In every run, after a drop of a key a later asker can still be served a value whose handler began before
      the drop, if and only if a handler for the key is running at the drop. */
  lemma StaleAfterDropIff(es: seq<Event>, e: Event, key: Key)
    requires DropEvent(e, key)
    ensures CanServeStale(Run(es + [e]), key) <==>
            exists a :: a in Run(es).askers && Run(es).askers[a].Handling? && Run(es).askers[a].key == key
  {
    var s, s' := Run(es), Run(es + [e]);
    assert (es + [e])[..|es|] == es;
    RunIsSound(es);
    RunIsSound(es + [e]);
    if a :| a in s.askers && s.askers[a].Handling? && s.askers[a].key == key {
      assert Timely(s, s.askers[a]);
      var b := FreshAsker(s'.askers.Keys);
      var fs := [HandlerReturns(a, ""), Ask(b, key)];
      InvalidationMissesRunningHandler(s', a, "", b);
      assert ServesStale(s', key, fs);
    } else {
      assert NoneOld(s', key, |s'.log|, s'.askers.Keys);
      forall fs ensures !ServesStale(s', key, fs) {
        RunKeepsNoneOld(s', fs, key, |s'.log|, s'.askers.Keys);
      }
    }
  }
}
