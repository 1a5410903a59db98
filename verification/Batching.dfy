/** Batching by size or timeout (engine/batch.py), and the batching stage of a stream
    pipeline (engine/pipeline.py) as its plain specification. */
module Batching {

  function Flatten<T>(batches: seq<seq<T>>): seq<T> {
    if batches == [] then [] else Flatten(batches[..|batches| - 1]) + batches[|batches| - 1]
  }

  // ---- BatchStage ------------------------------------------------------------------

  /** Cut into pieces of the given size; only the last may be shorter. */
  function Chunks<T>(items: seq<T>, size: nat): seq<seq<T>>
    requires size >= 1
    decreases |items|
  {
    if items == [] then []
    else if |items| <= size then [items]
    else [items[..size]] + Chunks(items[size..], size)
  }

  lemma FirstChunk<T>(items: seq<T>, size: nat)
    requires size >= 1 && |items| >= size
    ensures Chunks(items, size) == [items[..size]] + Chunks(items[size..], size)
  {
    if |items| == size {
      assert items[..size] == items && items[size..] == [];
    }
  }

  lemma {:induction false} FlattenConcat<T>(a: seq<seq<T>>, b: seq<seq<T>>)
    ensures Flatten(a + b) == Flatten(a) + Flatten(b)
  {
    if b == [] {
      assert a + b == a;
    } else {
      FlattenConcat(a, b[..|b| - 1]);
      assert (a + b)[..|a + b| - 1] == a + b[..|b| - 1];
    }
  }

  lemma FlattenOne<T>(batch: seq<T>)
    ensures Flatten([batch]) == batch
  {
    assert [batch][..0] == [] && Flatten<T>([]) == [];
  }

  lemma FlattenAppend<T>(batches: seq<seq<T>>, batch: seq<T>)
    ensures Flatten(batches + [batch]) == Flatten(batches) + batch
  {
    assert (batches + [batch])[..|batches|] == batches;
  }

  /** Batches that are full but for the last are the chunks of their items. */
  ghost predicate FullButLast<T>(batches: seq<seq<T>>, size: nat) {
    forall i :: 0 <= i < |batches| ==> 1 <= |batches[i]| <= size && (i < |batches| - 1 ==> |batches[i]| == size)
  }

  lemma {:induction false} FullBatchesAreChunks<T>(batches: seq<seq<T>>, size: nat)
    requires size >= 1 && FullButLast(batches, size)
    ensures Chunks(Flatten(batches), size) == batches
  {
    if |batches| == 1 {
      FlattenOne(batches[0]);
      assert batches == [batches[0]];
    } else if batches != [] {
      var first, rest := batches[0], batches[1..];
      FullBatchesAreChunks(rest, size);
      assert batches == [first] + rest;
      FlattenConcat([first], rest);
      FlattenOne(first);
      FirstChunk(first + Flatten(rest), size);
      assert (first + Flatten(rest))[..size] == first && (first + Flatten(rest))[size..] == Flatten(rest);
    }
  }

  method BatchStage<T>(items: seq<T>, size: nat) returns (batches: seq<seq<T>>)
    requires size >= 1
    ensures batches == Chunks(items, size)
  {
    batches := [];
    var batch: seq<T> := [];
    for i := 0 to |items|
      invariant |batch| < size && Flatten(batches) + batch == items[..i]
      invariant forall b :: b in batches ==> |b| == size
    {
      assert items[..i + 1] == items[..i] + [items[i]];
      batch := batch + [items[i]];
      if |batch| >= size {
        FlattenAppend(batches, batch);
        batches := batches + [batch];
        batch := [];
      }
    }
    assert items[..|items|] == items;
    if batch != [] {
      FlattenAppend(batches, batch);
      batches := batches + [batch];
    }
    FullBatchesAreChunks(batches, size);
  }

  lemma FullFirst<T>(first: seq<T>, rest: seq<seq<T>>, size: nat)
    requires 1 <= |first| == size && FullButLast(rest, size)
    ensures FullButLast([first] + rest, size)
  {
  }

  /** Batching loses and reorders nothing, and every batch but the last is full. */
  lemma {:induction false} ChunksKeepItems<T>(items: seq<T>, size: nat)
    requires size >= 1
    ensures Flatten(Chunks(items, size)) == items
    ensures FullButLast(Chunks(items, size), size)
    decreases |items|
  {
    if |items| > size {
      var first, rest := items[..size], items[size..];
      ChunksKeepItems(rest, size);
      FlattenConcat([first], Chunks(rest, size));
      FlattenOne(first);
      FullFirst(first, Chunks(rest, size), size);
      assert first + rest == items;
    } else if items != [] {
      FlattenOne(items);
    }
  }

  // ---- BatchAccumulator ----------------------------------------------------------------

  /** The buffer and the event that is set while something is buffered. */
  datatype Core<T> = Core(buffer: seq<T>, dirty: bool)

  function Taken<T>(): Core<T> {
    Core([], false)
  }

  /** The accumulator after an item is added, and the batch that comes out, if any. */
  function Added<T>(c: Core<T>, item: T, maxSize: nat): (Core<T>, seq<T>) {
    var buffer := c.buffer + [item];
    if |buffer| >= maxSize then (Taken(), buffer) else (Core(buffer, true), [])
  }

  class BatchAccumulator<T> {
    const maxSize: nat
    var buffer: seq<T>
    var dirty: bool

    ghost function Value(): Core<T>
      reads this
    {
      Core(buffer, dirty)
    }

    /** Between critical sections. */
    ghost predicate Valid()
      reads this
    {
      |buffer| < maxSize && (dirty <==> buffer != [])
    }

    constructor (maxSize: nat)
      requires maxSize >= 1
      ensures Valid() && this.maxSize == maxSize && buffer == []
    {
      this.maxSize, buffer, dirty := maxSize, [], false;
    }

    method Take() returns (items: seq<T>)
      modifies this
      ensures items == old(buffer) && Value() == Taken()
    {
      items, buffer := buffer, [];
      dirty := false;
    }

    /** The batch that the item fills, if it does; an empty sequence stands for None. */
    method Add(item: T) returns (batch: seq<T>)
      requires Valid()
      modifies this
      ensures Valid() && (Value(), batch) == Added(old(Value()), item, maxSize)
      ensures batch + buffer == old(buffer) + [item]
      ensures batch == [] || |batch| == maxSize
    {
      buffer := buffer + [item];
      dirty := true;
      if |buffer| >= maxSize {
        batch := Take();
      } else {
        batch := [];
      }
    }

    method Flush() returns (items: seq<T>)
      requires Valid()
      modifies this
      ensures Valid() && items == old(buffer) && Value() == Taken()
    {
      items := Take();
    }
  }

  // ---- run(): the producer and the timer task ----------------------------------------------

  /** Producer: reading the source, delivering the batch with a number, delivering the last one, done; or ended
      by an error. */
  datatype Producer = Reading | Delivering(batch: nat) | Finishing(batch: nat) | Finished | Aborted

  /** Timer task: not begun, waiting for the event, woken by it, sleeping, delivering; or ended. The event wakes
      it for good, though it may be cleared before the task runs again. */
  datatype Watcher = NotBegun | Waiting | Woken | Sleeping | Busy(batch: nat) | Ended

  /** taken: all batches, in the order they were taken; delivered and lost: the numbers of those whose on_batch has
      returned, and of those whose on_batch was cut off or raised. */
  datatype Run<T> = Run(
    consumed: nat, core: Core<T>, taken: seq<seq<T>>, delivered: set<nat>, lost: set<nat>, timed: nat,
    producer: Producer, watcher: Watcher)

  datatype Event =
    | ProducerStep      // read an item and add it, or, at the end of the source, the last flush
    | ProducerReturns   // on_batch of the producer returns
    | ProducerFails     // the source or on_batch raises
    | WatcherBegins     // the timer task gets to its first wait
    | DirtyWakes        // the timer task runs after the event was set
    | TimerFlushes      // its sleep is over
    | WatcherReturns    // on_batch of the timer task returns
    | WatcherFails      // or raises
    | WatcherCancelled  // the producer is done with the timer task

  function Start<T>(): Run<T> {
    Run(0, Taken(), [], {}, {}, 0, Reading, NotBegun)
  }

  /** The timer task waits for the event: not at all if it is set. */
  function Awaiting<T>(r: Run<T>): Run<T> {
    r.(watcher := if r.core.dirty then Woken else Waiting)
  }

  function Flushed<T>(r: Run<T>): Run<T> {
    r.(core := Taken(), taken := if r.core.buffer == [] then r.taken else r.taken + [r.core.buffer])
  }

  /** An item is added; that sets the event, and so wakes the timer task. */
  function Produced<T>(r: Run<T>, item: T, maxSize: nat): Run<T> {
    var (core, batch) := Added(r.core, item, maxSize);
    var watcher := if r.watcher == Waiting then Woken else r.watcher;
    var next := r.(consumed := r.consumed + 1, core := core, watcher := watcher);
    if batch == [] then next else next.(taken := r.taken + [batch], producer := Delivering(|r.taken|))
  }

  function Step<T>(source: seq<T>, maxSize: nat, r: Run<T>, e: Event): Run<T> {
    match e
    case ProducerStep =>
      if r.producer != Reading then r
      else if r.consumed < |source| then Produced(r, source[r.consumed], maxSize)
      else Flushed(r).(producer := if r.core.buffer == [] then Finished else Finishing(|r.taken|))
    case ProducerReturns =>
      (match r.producer
       case Delivering(b) => r.(producer := Reading, delivered := r.delivered + {b})
       case Finishing(b) => r.(producer := Finished, delivered := r.delivered + {b})
       case _ => r)
    case ProducerFails =>
      (match r.producer
       case Delivering(b) => r.(producer := Aborted, lost := r.lost + {b})
       case Finishing(b) => r.(producer := Aborted, lost := r.lost + {b})
       case Reading => r.(producer := Aborted)
       case _ => r)
    case WatcherBegins => if r.watcher == NotBegun then Awaiting(r) else r
    case DirtyWakes => if r.watcher == Woken then r.(watcher := Sleeping) else r
    case TimerFlushes =>
      if r.watcher != Sleeping then r
      else if r.core.buffer == [] then Awaiting(Flushed(r))
      else Flushed(r).(watcher := Busy(|r.taken|), timed := r.timed + 1)
    case WatcherReturns =>
      if r.watcher.Busy? then Awaiting(r.(delivered := r.delivered + {r.watcher.batch})) else r
    case WatcherFails =>
      if r.watcher.Busy? then r.(watcher := Ended, lost := r.lost + {r.watcher.batch}) else r
    case WatcherCancelled =>
      if r.producer != Finished && r.producer != Aborted then r
      else r.(watcher := Ended, lost := if r.watcher.Busy? then r.lost + {r.watcher.batch} else r.lost)
  }

  function RunFrom<T>(source: seq<T>, maxSize: nat, r: Run<T>, es: seq<Event>): Run<T> {
    if es == [] then r else Step(source, maxSize, RunFrom(source, maxSize, r, es[..|es| - 1]), es[|es| - 1])
  }

  function After<T>(source: seq<T>, maxSize: nat, es: seq<Event>): Run<T> {
    RunFrom(source, maxSize, Start(), es)
  }

  // ---- Items ---------------------------------------------------------------------------------

  ghost predicate Sound<T>(source: seq<T>, maxSize: nat, r: Run<T>) {
    && r.consumed <= |source|
    && Flatten(r.taken) + r.core.buffer == source[..r.consumed]
    && |r.core.buffer| < maxSize
    && (r.core.dirty <==> r.core.buffer != [])
    && (forall b :: b in r.taken ==> 1 <= |b| <= maxSize)
    && (r.producer.Finishing? || r.producer == Finished ==> r.consumed == |source| && r.core.buffer == [])
  }

  lemma FlushIsSound<T>(r: Run<T>)
    ensures Flatten(Flushed(r).taken) + Flushed(r).core.buffer == Flatten(r.taken) + r.core.buffer
  {
    if r.core.buffer != [] {
      FlattenAppend(r.taken, r.core.buffer);
    }
  }

  lemma ItemAdded<T>(source: seq<T>, r: Run<T>)
    requires r.consumed < |source| && Flatten(r.taken) + r.core.buffer == source[..r.consumed]
    ensures Flatten(r.taken) + (r.core.buffer + [source[r.consumed]]) == source[..r.consumed + 1]
  {
    assert source[..r.consumed + 1] == source[..r.consumed] + [source[r.consumed]];
  }

  lemma ProducedIsSound<T>(source: seq<T>, maxSize: nat, r: Run<T>)
    requires maxSize >= 1 && Sound(source, maxSize, r) && r.producer == Reading && r.consumed < |source|
    ensures Sound(source, maxSize, Produced(r, source[r.consumed], maxSize))
  {
    var buffer := r.core.buffer + [source[r.consumed]];
    var r' := Produced(r, source[r.consumed], maxSize);
    ItemAdded(source, r);
    FlattenAppend(r.taken, buffer);
    if |buffer| >= maxSize {
      assert r'.taken == r.taken + [buffer] && r'.core == Taken();
    } else {
      assert r'.taken == r.taken && r'.core == Core(buffer, true);
    }
  }

  lemma FlushedIsSound<T>(source: seq<T>, maxSize: nat, r: Run<T>)
    requires maxSize >= 1 && Sound(source, maxSize, r)
    ensures Sound(source, maxSize, Flushed(r))
  {
    FlushIsSound(r);
  }

  lemma StepIsSound<T>(source: seq<T>, maxSize: nat, r: Run<T>, e: Event)
    requires maxSize >= 1 && Sound(source, maxSize, r)
    ensures Sound(source, maxSize, Step(source, maxSize, r, e))
  {
    if e == ProducerStep && r.producer == Reading && r.consumed < |source| {
      ProducedIsSound(source, maxSize, r);
    } else if e == ProducerStep || e == TimerFlushes {
      FlushedIsSound(source, maxSize, r);
    }
  }

  /** In every interleaving of producer and timer: the batches in take order, then the buffer, are the
      items consumed so far; batches have 1 to maxSize items; the event is set exactly while something
      is buffered; and when the source is exhausted, nothing is. */
  lemma {:induction false} RunIsSound<T>(source: seq<T>, maxSize: nat, es: seq<Event>)
    requires maxSize >= 1
    ensures Sound(source, maxSize, After(source, maxSize, es))
  {
    if es != [] {
      RunIsSound(source, maxSize, es[..|es| - 1]);
      StepIsSound(source, maxSize, After(source, maxSize, es[..|es| - 1]), es[|es| - 1]);
    }
  }

  lemma FinishedTookEverything<T>(source: seq<T>, maxSize: nat, es: seq<Event>)
    requires maxSize >= 1 && After(source, maxSize, es).producer == Finished
    ensures Flatten(After(source, maxSize, es).taken) == source
  {
    RunIsSound(source, maxSize, es);
  }

  // ---- Deliveries ------------------------------------------------------------------------------

  function Underway<T>(r: Run<T>): set<nat> {
    (match r.producer case Delivering(b) => {b} case Finishing(b) => {b} case _ => {})
    + if r.watcher.Busy? then {r.watcher.batch} else {}
  }

  /** The numbers 0 to n - 1. */
  function Below(n: nat): set<nat> {
    if n == 0 then {} else Below(n - 1) + {n - 1}
  }

  /** Every batch taken is delivered, lost, or being delivered by one task; unless the producer has failed, only
      the timer task loses any, and no more than one. */
  ghost predicate Settled<T>(r: Run<T>) {
    && r.delivered + r.lost + Underway(r) == Below(|r.taken|)
    && r.delivered !! r.lost && (r.delivered + r.lost) !! Underway(r)
    && (r.producer != Aborted ==> r.lost == {} || (r.watcher == Ended && exists b :: r.lost == {b}))
    && (r.watcher.Busy? && (r.producer.Delivering? || r.producer.Finishing?) ==> r.watcher.batch != r.producer.batch)
  }

  lemma {:induction false} BelowIsLess(n: nat)
    ensures forall i: nat :: i in Below(n) <==> i < n
  {
    if n > 0 {
      BelowIsLess(n - 1);
    }
  }

  lemma StepIsSettled<T>(source: seq<T>, maxSize: nat, r: Run<T>, e: Event)
    requires Settled(r)
    ensures Settled(Step(source, maxSize, r, e))
  {
    BelowIsLess(|r.taken|);
  }

  lemma {:induction false} RunIsSettled<T>(source: seq<T>, maxSize: nat, es: seq<Event>)
    ensures Settled(After(source, maxSize, es))
  {
    if es != [] {
      RunIsSettled(source, maxSize, es[..|es| - 1]);
      StepIsSettled(source, maxSize, After(source, maxSize, es[..|es| - 1]), es[|es| - 1]);
    }
  }

  /** run() is over without a failure of the source or of the producer's own deliveries. */
  predicate Over<T>(r: Run<T>) {
    r.producer == Finished && r.watcher == Ended
  }

  /** The event cuts off the timer task's delivery, or it raises. */
  predicate CutsOff<T>(r: Run<T>, e: Event) {
    r.watcher.Busy? &&
    (e == WatcherFails || (e == WatcherCancelled && (r.producer == Finished || r.producer == Aborted)))
  }

  ghost predicate TimerCutOff<T>(source: seq<T>, maxSize: nat, es: seq<Event>) {
    exists k :: 0 <= k < |es| && CutsOff(After(source, maxSize, es[..k]), es[k])
  }

  lemma TimerCutOffAppend<T>(source: seq<T>, maxSize: nat, es: seq<Event>, e: Event)
    ensures TimerCutOff(source, maxSize, es + [e]) <==>
            TimerCutOff(source, maxSize, es) || CutsOff(After(source, maxSize, es), e)
  {
    var all := es + [e];
    assert all[|es|] == e && all[..|es|] == es;
    assert forall k :: 0 <= k < |es| ==> all[k] == es[k] && all[..k] == es[..k];
    if k :| 0 <= k < |es| && CutsOff(After(source, maxSize, es[..k]), es[k]) {
      assert CutsOff(After(source, maxSize, all[..k]), all[k]);
    }
    if k :| 0 <= k < |all| && CutsOff(After(source, maxSize, all[..k]), all[k]) {
      assert k < |es| ==> CutsOff(After(source, maxSize, es[..k]), es[k]);
    }
  }

  lemma StepLosesIffCutOff<T>(source: seq<T>, maxSize: nat, r: Run<T>, e: Event)
    requires Step(source, maxSize, r, e).producer != Aborted
    ensures r.producer != Aborted
    ensures Step(source, maxSize, r, e).lost != {} <==> r.lost != {} || CutsOff(r, e)
  {
  }

  lemma AfterNext<T>(source: seq<T>, maxSize: nat, es: seq<Event>, e: Event)
    ensures After(source, maxSize, es + [e]) == Step(source, maxSize, After(source, maxSize, es), e)
  {
    assert (es + [e])[..|es|] == es;
  }

  lemma {:induction false} LostIffCutOff<T>(source: seq<T>, maxSize: nat, es: seq<Event>)
    requires After(source, maxSize, es).producer != Aborted
    ensures After(source, maxSize, es).lost != {} <==> TimerCutOff(source, maxSize, es)
  {
    if es != [] {
      var es', e := es[..|es| - 1], es[|es| - 1];
      assert es == es' + [e];
      AfterNext(source, maxSize, es', e);
      StepLosesIffCutOff(source, maxSize, After(source, maxSize, es'), e);
      LostIffCutOff(source, maxSize, es');
      TimerCutOffAppend(source, maxSize, es', e);
    }
  }

  /** A run that ends without a failure of its producer has taken the whole source, and delivered every batch if and
      only if no delivery of the timer task was cut off or failed. At most one batch is missing. */
  lemma DeliveredAllIff<T>(source: seq<T>, maxSize: nat, es: seq<Event>)
    requires maxSize >= 1 && Over(After(source, maxSize, es))
    ensures var r := After(source, maxSize, es);
            && Flatten(r.taken) == source
            && (r.delivered == Below(|r.taken|) <==> !TimerCutOff(source, maxSize, es))
            && exists b :: Below(|r.taken|) - r.delivered <= {b}
  {
    FinishedTookEverything(source, maxSize, es);
    RunIsSettled(source, maxSize, es);
    LostIffCutOff(source, maxSize, es);
    var r := After(source, maxSize, es);
    assert Below(|r.taken|) - r.delivered == r.lost;
    if r.lost == {} {
      assert r.lost <= {0};
    }
  }

  // ---- When batches can be lost -------------------------------------------------------------------

  ghost predicate CanLose<T>(source: seq<T>, maxSize: nat) {
    exists es :: Loses(source, maxSize, es)
  }

  /** A run that ends without a failure of its producer, and yet has not delivered every batch. */
  ghost predicate Loses<T>(source: seq<T>, maxSize: nat, es: seq<Event>) {
    var r := After(source, maxSize, es);
    Over(r) && r.delivered != Below(|r.taken|)
  }

  lemma {:induction false} RunFromConcat<T>(source: seq<T>, maxSize: nat, r: Run<T>, es: seq<Event>, fs: seq<Event>)
    ensures RunFrom(source, maxSize, r, es + fs) == RunFrom(source, maxSize, RunFrom(source, maxSize, r, es), fs)
  {
    if fs == [] {
      assert es + fs == es;
    } else {
      var n := |fs| - 1;
      RunFromConcat(source, maxSize, r, es, fs[..n]);
      assert (es + fs)[..|es + fs| - 1] == es + fs[..n];
    }
  }

  lemma RunFromOne<T>(source: seq<T>, maxSize: nat, r: Run<T>, e: Event)
    ensures RunFrom(source, maxSize, r, [e]) == Step(source, maxSize, r, e)
  {
    assert [e][..0] == [];
  }

  /** The producer's next events, while the timer task is busy delivering. */
  lemma NextItem<T>(source: seq<T>, maxSize: nat, r: Run<T>) returns (es: seq<Event>)
    requires maxSize >= 1 && r.producer == Reading && r.watcher.Busy?
    ensures var r' := RunFrom(source, maxSize, r, es);
            && r'.watcher == r.watcher
            && if r.consumed < |source| then r'.producer == Reading && r'.consumed == r.consumed + 1
               else r'.producer == Finished
  {
    var r1 := Step(source, maxSize, r, ProducerStep);
    RunFromOne(source, maxSize, r, ProducerStep);
    es := [ProducerStep];
    if r1.producer.Delivering? || r1.producer.Finishing? {
      RunFromOne(source, maxSize, r1, ProducerReturns);
      RunFromConcat(source, maxSize, r, [ProducerStep], [ProducerReturns]);
      es := [ProducerStep] + [ProducerReturns];
    }
  }

  lemma {:induction false} ProducerCanFinish<T>(source: seq<T>, maxSize: nat, r: Run<T>) returns (es: seq<Event>)
    requires maxSize >= 1 && r.producer == Reading && r.watcher.Busy? && r.consumed <= |source|
    ensures var r' := RunFrom(source, maxSize, r, es);
            r'.watcher == r.watcher && r'.producer == Finished
    decreases |source| - r.consumed
  {
    es := NextItem(source, maxSize, r);
    if r.consumed < |source| {
      var rest := ProducerCanFinish(source, maxSize, RunFrom(source, maxSize, r, es));
      RunFromConcat(source, maxSize, r, es, rest);
      es := es + rest;
    }
  }

  /** The first item is buffered, and the timer task takes it. */
  lemma TimerTakesFirst<T>(source: seq<T>, maxSize: nat) returns (es: seq<Event>)
    requires maxSize >= 2 && source != []
    ensures var r := After(source, maxSize, es);
            r.producer == Reading && r.watcher.Busy? && r.consumed == 1
  {
    AfterNext(source, maxSize, [], ProducerStep);
    AfterNext(source, maxSize, [] + [ProducerStep], WatcherBegins);
    AfterNext(source, maxSize, [] + [ProducerStep] + [WatcherBegins], DirtyWakes);
    es := [] + [ProducerStep] + [WatcherBegins] + [DirtyWakes] + [TimerFlushes];
    AfterNext(source, maxSize, [] + [ProducerStep] + [WatcherBegins] + [DirtyWakes], TimerFlushes);
  }

  lemma SomeRunLoses<T>(source: seq<T>, maxSize: nat) returns (es: seq<Event>)
    requires maxSize >= 2 && source != []
    ensures Loses(source, maxSize, es)
  {
    var first := TimerTakesFirst(source, maxSize);
    var rest := ProducerCanFinish(source, maxSize, After(source, maxSize, first));
    RunFromConcat(source, maxSize, Start(), first, rest);
    var before := first + rest;
    es := before + [WatcherCancelled];
    AfterNext(source, maxSize, before, WatcherCancelled);
    TimerCutOffAppend(source, maxSize, before, WatcherCancelled);
    DeliveredAllIff(source, maxSize, es);
  }

  lemma NothingBuffered<T>(source: seq<T>, maxSize: nat, es: seq<Event>)
    requires maxSize == 1 || (maxSize >= 1 && source == [])
    ensures After(source, maxSize, es).core.buffer == []
  {
    RunIsSound(source, maxSize, es);
  }

  lemma IdleStep<T>(source: seq<T>, maxSize: nat, r: Run<T>, e: Event)
    requires !r.watcher.Busy? && r.core.buffer == []
    ensures !Step(source, maxSize, r, e).watcher.Busy?
  {
  }

  /** When at most one item is ever buffered at a time, the timer task never has anything to deliver. */
  lemma {:induction false} TimerStaysIdle<T>(source: seq<T>, maxSize: nat, es: seq<Event>)
    requires maxSize == 1 || (maxSize >= 1 && source == [])
    ensures !After(source, maxSize, es).watcher.Busy? && !TimerCutOff(source, maxSize, es)
  {
    if es != [] {
      var es', e := es[..|es| - 1], es[|es| - 1];
      assert es == es' + [e];
      TimerStaysIdle(source, maxSize, es');
      NothingBuffered(source, maxSize, es');
      AfterNext(source, maxSize, es', e);
      IdleStep(source, maxSize, After(source, maxSize, es'), e);
      TimerCutOffAppend(source, maxSize, es', e);
    }
  }

  /** A batch can get lost in a run whose producer never fails if and only if batches may have more than one item and
      there is an item at all. */
  lemma CanLoseIff<T>(source: seq<T>, maxSize: nat)
    requires maxSize >= 1
    ensures CanLose(source, maxSize) <==> maxSize >= 2 && source != []
  {
    if maxSize >= 2 && source != [] {
      var es := SomeRunLoses(source, maxSize);
    } else {
      forall es ensures !Loses(source, maxSize, es) {
        if Loses(source, maxSize, es) {
          DeliveredAllIff(source, maxSize, es);
          TimerStaysIdle(source, maxSize, es);
        }
      }
    }
  }

  // ---- Runs without timer flushes -----------------------------------------------------------------

  /** As long as the timer has flushed nothing, every batch is full, but for one from the last flush. */
  ghost predicate FullBatches<T>(maxSize: nat, r: Run<T>) {
    r.timed == 0 ==>
      && FullButLast(r.taken, maxSize)
      && (r.producer == Reading || r.producer.Delivering? ==> forall b :: b in r.taken ==> |b| == maxSize)
  }

  lemma StepHasFullBatches<T>(source: seq<T>, maxSize: nat, r: Run<T>, e: Event)
    requires maxSize >= 1 && Sound(source, maxSize, r) && FullBatches(maxSize, r)
    ensures FullBatches(maxSize, Step(source, maxSize, r, e))
  {
    var r' := Step(source, maxSize, r, e);
    if r'.timed == 0 && r'.taken != r.taken {
      assert r'.taken == r.taken + [r'.taken[|r.taken|]];
      forall i | 0 <= i < |r.taken| ensures |r'.taken[i]| == maxSize {
        assert r'.taken[i] in r.taken;
      }
    }
  }

  lemma {:induction false} RunHasFullBatches<T>(source: seq<T>, maxSize: nat, es: seq<Event>)
    requires maxSize >= 1
    ensures FullBatches(maxSize, After(source, maxSize, es))
  {
    if es != [] {
      var n := |es| - 1;
      RunHasFullBatches(source, maxSize, es[..n]);
      RunIsSound(source, maxSize, es[..n]);
      StepHasFullBatches(source, maxSize, After(source, maxSize, es[..n]), es[n]);
    }
  }

  /** A finished run in which the timer flushed nothing has emitted what BatchStage emits. */
  lemma NoTimerFlushMeansChunks<T>(source: seq<T>, maxSize: nat, es: seq<Event>)
    requires maxSize >= 1
    requires After(source, maxSize, es).producer == Finished && After(source, maxSize, es).timed == 0
    ensures After(source, maxSize, es).taken == Chunks(source, maxSize)
  {
    RunHasFullBatches(source, maxSize, es);
    FinishedTookEverything(source, maxSize, es);
    FullBatchesAreChunks(After(source, maxSize, es).taken, maxSize);
  }
}
