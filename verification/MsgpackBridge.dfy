/** The correlation table of the msgpack bridge (engine/msgpack_bridge.py): calls, replies,
    timeouts and shutdown race for the same futures. */
module MsgpackBridge {
  import opened Options
  import opened Framing

  type Cid = string

  /** A reply; `error` is the text of an error Python takes for true, None for any other. */
  datatype Message = Message(id: Cid, error: Option<string>, result: string)

  /** What unpacking a payload gives; a value that is not a mapping has no "id" to get. */
  datatype Unpacked = Undecodable | NotAMapping | Mapping(msg: Message)

  datatype Future = Undone | Result(value: string) | RemoteError(text: string) | TimedOut | ShutDown | Cancelled

  /** The read loop: none yet, at work, over, or ended by an exception. */
  datatype Reader = Absent | Alive | Ended | Died

  /** pending: the ids in the table; futures: the future of every call made; timers: those not cancelled or fired. */
  datatype Table = Table(
    running: bool, reader: Reader, pending: set<Cid>, futures: map<Cid, Future>, timers: set<Cid>)

  const STOPPED := Table(false, Absent, {}, map[], {})

  // ---- The steps --------------------------------------------------------------------

  function Started(t: Table): Table {
    t.(running := true, reader := Alive)
  }

  function Called(t: Table, cid: Cid): Table {
    if !t.running then t
    else t.(pending := t.pending + {cid}, futures := t.futures[cid := Undone], timers := t.timers + {cid})
  }

  /** Takes the id out of the table and, if its future is undone, completes it. */
  function Popped(t: Table, cid: Cid, f: Future): Table {
    if cid in t.pending && cid in t.futures && t.futures[cid] == Undone
    then t.(pending := t.pending - {cid}, futures := t.futures[cid := f])
    else t.(pending := t.pending - {cid})
  }

  function Fired(t: Table, cid: Cid): Table {
    Popped(t, cid, TimedOut).(timers := t.timers - {cid})
  }

  function Answer(msg: Message): Future {
    if msg.error.Some? then RemoteError(msg.error.value) else Result(msg.result)
  }

  function Dispatched(t: Table, msg: Message): Table {
    var t' := Popped(t, msg.id, Answer(msg));
    if t'.futures == t.futures then t' else t'.(timers := t.timers - {msg.id})
  }

  function Closed(t: Table): Table {
    t.(pending := {},
       futures := map c | c in t.futures :: if c in t.pending && t.futures[c] == Undone then ShutDown else t.futures[c])
  }

  /** stop() awaits the read loop: one that has died raises again there, and nothing is cleaned up. */
  function Stopped(t: Table): Table {
    if t.reader == Died then t
    else Closed(t).(reader := if t.reader == Alive then Ended else t.reader)
  }

  /** One payload comes in. Looking up the id of what is not a mapping raises, outside the try. */
  function ReadOne(t: Table, u: Unpacked): Table {
    if t.reader != Alive then t
    else
      match u
      case Undecodable => t
      case NotAMapping => t.(reader := Died)
      case Mapping(msg) => Dispatched(t, msg)
  }

  function ReadAll(t: Table, unpack: Bytes -> Unpacked, payloads: seq<Bytes>): Table
    decreases payloads
  {
    if payloads == [] then t else ReadAll(ReadOne(t, unpack(payloads[0])), unpack, payloads[1..])
  }

  function StreamEnded(t: Table): Table {
    if t.reader == Alive then t.(reader := Ended) else t
  }

  /** The messages the read loop dispatches: undecodable payloads are skipped, and a payload that
      is not a mapping ends the loop. */
  function Messages(unpack: Bytes -> Unpacked, payloads: seq<Bytes>): seq<Message> {
    if payloads == [] then []
    else
      match unpack(payloads[0])
      case Undecodable => Messages(unpack, payloads[1..])
      case NotAMapping => []
      case Mapping(msg) => [msg] + Messages(unpack, payloads[1..])
  }

  function DispatchedAll(t: Table, msgs: seq<Message>): Table
    decreases msgs
  {
    if msgs == [] then t else DispatchedAll(Dispatched(t, msgs[0]), msgs[1..])
  }

  class Bridge {
    const unpack: Bytes -> Unpacked
    var running: bool
    var reader: Reader
    var pending: set<Cid>
    var futures: map<Cid, Future>
    var timers: set<Cid>

    ghost function Value(): Table
      reads this
    {
      Table(running, reader, pending, futures, timers)
    }

    constructor (unpack: Bytes -> Unpacked)
      ensures Value() == STOPPED && this.unpack == unpack
    {
      this.unpack := unpack;
      running, reader, pending, futures, timers := false, Absent, {}, map[], {};
    }

    method Start()
      modifies this`running, this`reader
      ensures Value() == Started(old(Value()))
    {
      running := true;
      reader := Alive;
    }

    /** The table entry and the bytes of one call; None when the bridge is not running, or the payload too long. */
    method Call(cid: Cid, payload: Bytes) returns (frame: Option<Bytes>)
      modifies this
      ensures Value() == Called(old(Value()), cid)
      ensures frame == if running then Frame(payload) else None
    {
      if !running {
        return None;
      }
      futures := futures[cid := Undone];
      timers := timers + {cid};
      pending := pending + {cid};
      return Frame(payload);
    }

    method OnTimeout(cid: Cid)
      modifies this
      ensures Value() == Fired(old(Value()), cid)
    {
      timers := timers - {cid};
      if cid in pending && cid in futures && futures[cid] == Undone {
        futures := futures[cid := TimedOut];
      }
      pending := pending - {cid};
    }

    method Dispatch(msg: Message)
      modifies this
      ensures Value() == Dispatched(old(Value()), msg)
      ensures pending == old(pending) - {msg.id}
      // Who is waiting for this id gets the error, if there is one, and else the result; nobody else gets anything.
      ensures futures ==
              if msg.id in old(pending) && msg.id in old(futures) && old(futures)[msg.id] == Undone
              then old(futures)[msg.id := if msg.error.Some? then RemoteError(msg.error.value) else Result(msg.result)]
              else old(futures)
      // And its timer is cancelled.
      ensures timers == if futures == old(futures) then old(timers) else old(timers) - {msg.id}
    {
      var known := msg.id in pending;
      pending := pending - {msg.id};
      if !known || msg.id !in futures || futures[msg.id] != Undone {
        return;
      }
      assert futures[msg.id := Answer(msg)][msg.id] != Undone;
      timers := timers - {msg.id};
      if msg.error.Some? {
        futures := futures[msg.id := RemoteError(msg.error.value)];
      } else {
        futures := futures[msg.id := Result(msg.result)];
      }
    }

    method ReadPayload(payload: Bytes)
      requires reader == Alive
      modifies this
      ensures Value() == ReadOne(old(Value()), unpack(payload)) && (reader == Alive || reader == Died)
    {
      match unpack(payload)
      case Undecodable =>
      case NotAMapping => reader := Died;
      case Mapping(msg) => Dispatch(msg);
    }

    /** The read loop on a stream that ends. */
    method ReadLoop(stream: Bytes)
      requires reader == Alive
      modifies this
      ensures Value() == StreamEnded(ReadAll(old(Value()), unpack, Frames(stream)))
    {
      var pos := 0;
      while |stream| - pos >= HEADER
        invariant 0 <= pos <= |stream| && reader == Alive
        invariant ReadAll(Value(), unpack, Frames(stream[pos..])) == ReadAll(old(Value()), unpack, Frames(stream))
        decreases |stream| - pos
      {
        var n := UnpackLength(stream[pos..pos + HEADER]);
        if |stream| - pos < HEADER + n {
          CutShort(stream, pos);
          break;
        }
        var payload := stream[pos + HEADER..pos + HEADER + n];
        ReadNext(Value(), unpack, stream, pos);
        pos := pos + HEADER + n;
        ReadPayload(payload);
        if reader == Died {
          DeadReadsNothing(Value(), unpack, Frames(stream[pos..]));
          return;
        }
      }
      reader := Ended;
    }

    /** The end of stop(): whoever is still waiting is told, unless awaiting the read loop raises. */
    method FinishStop() returns (raised: bool)
      modifies this
      ensures Value() == Stopped(old(Value())) && (raised <==> old(reader) == Died)
    {
      if reader == Died {
        return true;
      }
      if reader == Alive {
        reader := Ended;
      }
      TellWaiting();
      pending := {};
      return false;
    }

    method TellWaiting()
      modifies this`futures
      ensures futures == Closed(old(Value())).futures
    {
      var waiting := pending;
      while waiting != {}
        invariant waiting <= pending && futures.Keys == old(futures).Keys
        invariant forall c :: c in futures ==>
                    futures[c] == if c in pending - waiting && old(futures)[c] == Undone then ShutDown
                                  else old(futures)[c]
        decreases waiting
      {
        var c :| c in waiting;
        if c in futures && futures[c] == Undone {
          futures := futures[c := ShutDown];
        }
        waiting := waiting - {c};
      }
    }
  }

  // ---- The read loop ------------------------------------------------------------------

  /** Reading on from a full frame is taking in its payload, then reading on after it. */
  lemma ReadNext(t: Table, unpack: Bytes -> Unpacked, stream: Bytes, pos: nat)
    requires pos + HEADER <= |stream|
    requires var n := UnpackLength(stream[pos..pos + HEADER]); pos + HEADER + n <= |stream|
    ensures var n := UnpackLength(stream[pos..pos + HEADER]);
            var payload := stream[pos + HEADER..pos + HEADER + n];
            ReadAll(t, unpack, Frames(stream[pos..])) ==
            ReadAll(ReadOne(t, unpack(payload)), unpack, Frames(stream[pos + HEADER + n..]))
  {
    var n := UnpackLength(stream[pos..pos + HEADER]);
    var rest := stream[pos..];
    assert rest[..HEADER] == stream[pos..pos + HEADER];
    assert rest[HEADER..HEADER + n] == stream[pos + HEADER..pos + HEADER + n];
    assert rest[HEADER + n..] == stream[pos + HEADER + n..];
    var payloads := Frames(rest);
    assert payloads[0] == rest[HEADER..HEADER + n] && payloads[1..] == Frames(rest[HEADER + n..]);
  }

  lemma CutShort(stream: Bytes, pos: nat)
    requires pos + HEADER <= |stream|
    requires |stream| < pos + HEADER + UnpackLength(stream[pos..pos + HEADER])
    ensures Frames(stream[pos..]) == []
  {
    assert stream[pos..][..HEADER] == stream[pos..pos + HEADER];
  }

  lemma {:induction false} DeadReadsNothing(t: Table, unpack: Bytes -> Unpacked, payloads: seq<Bytes>)
    requires t.reader != Alive
    ensures ReadAll(t, unpack, payloads) == t
    decreases payloads
  {
    if payloads != [] {
      DeadReadsNothing(t, unpack, payloads[1..]);
    }
  }

  /** A reader at work dispatches its messages in order, and dies exactly of a payload that decodes to
      something other than a mapping. */
  lemma {:induction false} ReadingIsDispatching(t: Table, unpack: Bytes -> Unpacked, payloads: seq<Bytes>)
    requires t.reader == Alive
    ensures ReadAll(t, unpack, payloads).(reader := Alive) == DispatchedAll(t, Messages(unpack, payloads))
    ensures ReadAll(t, unpack, payloads).reader ==
            if exists i :: 0 <= i < |payloads| && unpack(payloads[i]).NotAMapping? then Died else Alive
    decreases payloads
  {
    if payloads != [] {
      var first, rest := unpack(payloads[0]), payloads[1..];
      assert forall i :: 0 < i < |payloads| ==> payloads[i] == rest[i - 1];
      assert forall i :: 0 <= i < |rest| ==> rest[i] == payloads[i + 1];
      match first
      case NotAMapping => DeadReadsNothing(ReadOne(t, first), unpack, rest);
      case Undecodable => ReadingIsDispatching(t, unpack, rest);
      case Mapping(msg) =>
        ReadingIsDispatching(Dispatched(t, msg), unpack, rest);
        assert ([msg] + Messages(unpack, rest))[1..] == Messages(unpack, rest);
    }
  }

  /** Payloads that are mappings are dispatched in order; the others are skipped without a trace. */
  function Mappings(unpack: Bytes -> Unpacked, payloads: seq<Bytes>): seq<Message> {
    if payloads == [] then []
    else
      var first := unpack(payloads[0]);
      (if first.Mapping? then [first.msg] else []) + Mappings(unpack, payloads[1..])
  }

  /** No payload with a mapping anywhere after it unpacks to something other than a mapping. */
  ghost predicate NothingEndsLoop(unpack: Bytes -> Unpacked, payloads: seq<Bytes>) {
    forall i, j :: 0 <= i < j < |payloads| && unpack(payloads[j]).Mapping? ==> !unpack(payloads[i]).NotAMapping?
  }

  /** What was written, followed by less than a full frame, is read; all its mappings are dispatched,
      in order and whatever undecodable payloads lie between, exactly when nothing ends the loop early. */
  lemma ReadsWhatWasWritten(unpack: Bytes -> Unpacked, payloads: seq<Bytes>, tail: Bytes)
    requires Packable(payloads) && Frames(tail) == []
    ensures Frames(Written(payloads) + tail) == payloads
    ensures Messages(unpack, Frames(Written(payloads) + tail)) == Mappings(unpack, payloads) <==>
            NothingEndsLoop(unpack, payloads)
  {
    RoundTrip(payloads, tail);
    assert payloads + [] == payloads;
    AllDispatchedIff(unpack, payloads);
  }

  lemma {:induction false} AllDispatchedIff(unpack: Bytes -> Unpacked, payloads: seq<Bytes>)
    ensures Messages(unpack, payloads) == Mappings(unpack, payloads) <==> NothingEndsLoop(unpack, payloads)
  {
    if payloads != [] {
      AllDispatchedIff(unpack, payloads[1..]);
      MappingsEmptyIff(unpack, payloads[1..]);
      NothingEndsLoopCons(unpack, payloads);
      var ms, ns := Messages(unpack, payloads[1..]), Mappings(unpack, payloads[1..]);
      match unpack(payloads[0])
      case Undecodable => assert Mappings(unpack, payloads) == ns;
      case NotAMapping => assert Mappings(unpack, payloads) == ns;
      case Mapping(msg) => assert ([msg] + ms)[1..] == ms && ([msg] + ns)[1..] == ns;
    }
  }

  lemma NothingEndsLoopCons(unpack: Bytes -> Unpacked, payloads: seq<Bytes>)
    requires payloads != []
    ensures NothingEndsLoop(unpack, payloads) <==>
            && NothingEndsLoop(unpack, payloads[1..])
            && (unpack(payloads[0]).NotAMapping? ==>
                  forall j :: 0 <= j < |payloads[1..]| ==> !unpack(payloads[1..][j]).Mapping?)
  {
    var rest := payloads[1..];
    assert forall j :: 0 <= j < |rest| ==> rest[j] == payloads[j + 1];
    if NothingEndsLoop(unpack, payloads) {
      forall i, j | 0 <= i < j < |rest| && unpack(rest[j]).Mapping? ensures !unpack(rest[i]).NotAMapping? {
        assert rest[i] == payloads[i + 1] && rest[j] == payloads[j + 1];
      }
    }
    assert forall j :: 0 < j < |payloads| ==> payloads[j] == rest[j - 1];
  }

  lemma {:induction false} MappingsEmptyIff(unpack: Bytes -> Unpacked, payloads: seq<Bytes>)
    ensures Mappings(unpack, payloads) == [] <==> forall j :: 0 <= j < |payloads| ==> !unpack(payloads[j]).Mapping?
  {
    if payloads != [] {
      MappingsEmptyIff(unpack, payloads[1..]);
      assert forall j :: 0 < j < |payloads| ==> payloads[j] == payloads[1..][j - 1];
      assert forall j :: 0 <= j < |payloads[1..]| ==> payloads[1..][j] == payloads[j + 1];
    }
  }

  // ---- Runs -----------------------------------------------------------------------------

  datatype Event =
    | Start
    | Call(cid: Cid)           // a fresh id
    | Read(what: Unpacked)     // one payload: any reply, in any order, any number of times, or none at all
    | EndOfStream
    | TimerFires(cid: Cid)
    | CallerCancels(cid: Cid)
    | StopBegins
    | StopEnds

  function Step(t: Table, e: Event): Table {
    match e
    case Start => if t.reader == Alive then t else Started(t)
    case Call(cid) => if cid in t.futures then t else Called(t, cid)
    case Read(what) => ReadOne(t, what)
    case EndOfStream => StreamEnded(t)
    case TimerFires(cid) => if cid in t.timers then Fired(t, cid) else t
    case CallerCancels(cid) =>
      if cid in t.futures && t.futures[cid] == Undone then t.(futures := t.futures[cid := Cancelled]) else t
    case StopBegins => t.(running := false)
    case StopEnds => Stopped(t)
  }

  function Run(es: seq<Event>): Table {
    if es == [] then STOPPED else Step(Run(es[..|es| - 1]), es[|es| - 1])
  }

  lemma RunOne(es: seq<Event>, e: Event)
    ensures Run(es + [e]) == Step(Run(es), e)
  {
    assert (es + [e])[..|es|] == es;
  }

  // ---- One future at a time -------------------------------------------------------------

  /** Whether the bridge runs, and what its read loop does, looking at no call. */
  function Control(es: seq<Event>): (bool, Reader) {
    if es == [] then (false, Absent)
    else
      var (running, reader) := Control(es[..|es| - 1]);
      match es[|es| - 1]
      case Start => if reader == Alive then (running, reader) else (true, Alive)
      case Read(what) => (running, if reader == Alive && what.NotAMapping? then Died else reader)
      case EndOfStream => (running, if reader == Alive then Ended else reader)
      case StopBegins => (false, reader)
      case StopEnds => (running, if reader == Alive then Ended else reader)
      case _ => (running, reader)
  }

  /** What an event makes of an undone future with this id, if anything, given what the read loop does. */
  function Completion(e: Event, cid: Cid, reader: Reader): Option<Future> {
    match e
    case Read(what) =>
      if reader == Alive && what.Mapping? && what.msg.id == cid then Some(Answer(what.msg)) else None
    case TimerFires(c) => if c == cid then Some(TimedOut) else None
    case CallerCancels(c) => if c == cid then Some(Cancelled) else None
    case StopEnds => if reader == Died then None else Some(ShutDown)
    case _ => None
  }

  /** The fate of one call, looking at no other: created by its call while the bridge runs,
      completed by the first event after that which concerns it, and then left alone. */
  function Fate(es: seq<Event>, cid: Cid): Option<Future> {
    if es == [] then None
    else
      var es', e := es[..|es| - 1], es[|es| - 1];
      var before := Fate(es', cid);
      if before.None? then (if e == Call(cid) && Control(es').0 then Some(Undone) else None)
      else if before == Some(Undone) && Completion(e, cid, Control(es').1).Some? then
        Completion(e, cid, Control(es').1)
      else before
  }

  function FutureOf(t: Table, cid: Cid): Option<Future> {
    if cid in t.futures then Some(t.futures[cid]) else None
  }

  /** Undone futures are in the table with their timer armed; what is in the table is undone or was cancelled. */
  ghost predicate Consistent(t: Table) {
    && (forall c :: c in t.futures && t.futures[c] == Undone ==> c in t.pending && c in t.timers)
    && forall c :: c in t.pending ==> c in t.futures && (t.futures[c] == Undone || t.futures[c] == Cancelled)
  }

  lemma DispatchIsConsistent(t: Table, msg: Message)
    requires Consistent(t)
    ensures Consistent(Dispatched(t, msg))
    ensures forall c :: FutureOf(Dispatched(t, msg), c) ==
                        if c == msg.id && FutureOf(t, c) == Some(Undone) then Some(Answer(msg)) else FutureOf(t, c)
  {
    if msg.id in t.pending && t.futures[msg.id] == Undone {
      assert Dispatched(t, msg).futures[msg.id] != Undone;
    }
  }

  lemma StepIsConsistent(t: Table, e: Event)
    requires Consistent(t)
    ensures Consistent(Step(t, e))
  {
    if e.Read? && e.what.Mapping? {
      DispatchIsConsistent(t, e.what.msg);
    }
  }

  lemma {:induction false} RunIsConsistent(es: seq<Event>)
    ensures Consistent(Run(es))
  {
    if es != [] {
      RunIsConsistent(es[..|es| - 1]);
      StepIsConsistent(Run(es[..|es| - 1]), es[|es| - 1]);
    }
  }

  lemma StepOnFuture(t: Table, e: Event, cid: Cid)
    requires Consistent(t)
    ensures var before, after := FutureOf(t, cid), FutureOf(Step(t, e), cid);
            after == if before.None? then (if e == Call(cid) && t.running then Some(Undone) else None)
                     else if before == Some(Undone) && Completion(e, cid, t.reader).Some? then
                       Completion(e, cid, t.reader)
                     else before
  {
    if e.Read? && e.what.Mapping? {
      DispatchIsConsistent(t, e.what.msg);
    }
  }

  lemma {:induction false} RunIsControlled(es: seq<Event>)
    ensures (Run(es).running, Run(es).reader) == Control(es)
  {
    if es != [] {
      RunIsControlled(es[..|es| - 1]);
    }
  }

  /** In every interleaving, each future is what its own events alone make of it. */
  lemma {:induction false} EachCallHasItsOwnFate(es: seq<Event>, cid: Cid)
    ensures FutureOf(Run(es), cid) == Fate(es, cid)
  {
    if es != [] {
      EachCallHasItsOwnFate(es[..|es| - 1], cid);
      RunIsConsistent(es[..|es| - 1]);
      RunIsControlled(es[..|es| - 1]);
      StepOnFuture(Run(es[..|es| - 1]), es[|es| - 1], cid);
    }
  }

  /** Without cancelled callers an id is in the table exactly while its future is undone. */
  lemma PendingIffUndone(es: seq<Event>, cid: Cid)
    requires forall i :: 0 <= i < |es| ==> es[i] != CallerCancels(cid)
    ensures cid in Run(es).pending <==> FutureOf(Run(es), cid) == Some(Undone)
  {
    RunIsConsistent(es);
    EachCallHasItsOwnFate(es, cid);
    NotCancelled(es, cid);
  }

  lemma {:induction false} NotCancelled(es: seq<Event>, cid: Cid)
    requires forall i :: 0 <= i < |es| ==> es[i] != CallerCancels(cid)
    ensures Fate(es, cid) != Some(Cancelled)
  {
    if es != [] {
      NotCancelled(es[..|es| - 1], cid);
    }
  }

  ghost predicate Done(f: Option<Future>) {
    f.Some? && f.value != Undone
  }

  /** In every run a future that is done stays as it is. */
  lemma {:induction false} DoneOnce(es: seq<Event>, cid: Cid, k: nat)
    requires k <= |es| && Done(FutureOf(Run(es[..k]), cid))
    ensures FutureOf(Run(es), cid) == FutureOf(Run(es[..k]), cid)
    decreases |es|
  {
    if k == |es| {
      assert es[..k] == es;
    } else {
      var n := |es| - 1;
      assert es[..n][..k] == es[..k];
      DoneOnce(es[..n], cid, k);
      RunIsConsistent(es[..n]);
      StepOnFuture(Run(es[..n]), es[n], cid);
    }
  }

  /** A future that is done was completed at one point of the run, by an event that concerns it. */
  lemma {:induction false} DoneByItsOwnEvent(es: seq<Event>, cid: Cid) returns (k: nat)
    requires Done(FutureOf(Run(es), cid))
    ensures k < |es| && FutureOf(Run(es[..k]), cid) == Some(Undone)
    ensures FutureOf(Run(es), cid) == Completion(es[k], cid, Run(es[..k]).reader)
  {
    k := |es| - 1;
    if Done(FutureOf(Run(es[..k]), cid)) {
      DoneOnce(es, cid, k);
      var n := k;
      k := DoneByItsOwnEvent(es[..n], cid);
      assert es[..n][..k] == es[..k];
    } else {
      RunIsConsistent(es[..k]);
      StepOnFuture(Run(es[..k]), es[k], cid);
    }
  }

  // ---- What each outcome tells ----------------------------------------------------------------

  /** The k-th event completes this future. */
  ghost predicate CompletedAt(es: seq<Event>, cid: Cid, k: int) {
    0 <= k < |es| && FutureOf(Run(es[..k]), cid) == Some(Undone) && Done(FutureOf(Run(es[..k + 1]), cid))
  }

  /** A future that is done has one completing event, and the outcome that this event gave it. */
  lemma DoneIffCompleted(es: seq<Event>, cid: Cid)
    ensures Done(FutureOf(Run(es), cid)) <==> exists k :: CompletedAt(es, cid, k)
    ensures forall k :: CompletedAt(es, cid, k) ==> FutureOf(Run(es), cid) == FutureOf(Run(es[..k + 1]), cid)
  {
    forall k | CompletedAt(es, cid, k) ensures FutureOf(Run(es), cid) == FutureOf(Run(es[..k + 1]), cid) {
      DoneOnce(es, cid, k + 1);
    }
    if Done(FutureOf(Run(es), cid)) {
      var k := DoneByItsOwnEvent(es, cid);
      CompletionIsDone(es, cid, k);
      assert CompletedAt(es, cid, k);
    }
  }

  lemma CompletionIsDone(es: seq<Event>, cid: Cid, k: nat)
    requires k < |es| && FutureOf(Run(es[..k]), cid) == Some(Undone)
    ensures FutureOf(Run(es[..k + 1]), cid) ==
            if Completion(es[k], cid, Run(es[..k]).reader).Some? then Completion(es[k], cid, Run(es[..k]).reader)
            else Some(Undone)
    ensures Completion(es[k], cid, Run(es[..k]).reader) != Some(Undone)
  {
    assert es[..k + 1] == es[..k] + [es[k]];
    RunOne(es[..k], es[k]);
    RunIsConsistent(es[..k]);
    StepOnFuture(Run(es[..k]), es[k], cid);
  }

  /** The k-th event completes this future with the reply given. */
  ghost predicate RepliedAt(es: seq<Event>, cid: Cid, k: int, error: Option<string>, result: string) {
    CompletedAt(es, cid, k) && es[k] == Read(Mapping(Message(cid, error, result))) && Run(es[..k]).reader == Alive
  }

  lemma OutcomeAt(es: seq<Event>, cid: Cid, k: int)
    requires CompletedAt(es, cid, k)
    ensures FutureOf(Run(es), cid) == Completion(es[k], cid, Run(es[..k]).reader)
    ensures Completion(es[k], cid, Run(es[..k]).reader).Some?
  {
    DoneIffCompleted(es, cid);
    CompletionIsDone(es, cid, k);
  }

  /** In every run: a caller gets a remote error if and only if the read loop, at work, took in a reply with its id and
      this error while the caller was waiting; and a result if and only if one without an error and with this result. */
  lemma OutcomeTellsReply(es: seq<Event>, cid: Cid, text: string)
    ensures FutureOf(Run(es), cid) == Some(RemoteError(text)) <==>
            exists k, result :: RepliedAt(es, cid, k, Some(text), result)
    ensures FutureOf(Run(es), cid) == Some(Result(text)) <==> exists k :: RepliedAt(es, cid, k, None, text)
  {
    forall k | CompletedAt(es, cid, k)
      ensures FutureOf(Run(es), cid) == Completion(es[k], cid, Run(es[..k]).reader)
    {
      OutcomeAt(es, cid, k);
    }
    if Done(FutureOf(Run(es), cid)) {
      DoneIffCompleted(es, cid);
      var k :| CompletedAt(es, cid, k);
      OutcomeAt(es, cid, k);
      if es[k].Read? {
        assert RepliedAt(es, cid, k, es[k].what.msg.error, es[k].what.msg.result);
      }
    }
  }

  ghost predicate CompletedBy(es: seq<Event>, cid: Cid, k: int, e: Event) {
    CompletedAt(es, cid, k) && es[k] == e
  }

  /** An event that ends a call otherwise than by a reply, and the outcome it gives. */
  predicate Ends(cid: Cid, e: Event, f: Future) {
    || (e == TimerFires(cid) && f == TimedOut)
    || (e == StopEnds && f == ShutDown)
    || (e == CallerCancels(cid) && f == Cancelled)
  }

  lemma EndTells(es: seq<Event>, cid: Cid, e: Event, f: Future)
    requires Ends(cid, e, f)
    ensures FutureOf(Run(es), cid) == Some(f) <==> exists k :: CompletedBy(es, cid, k, e)
  {
    if k :| CompletedBy(es, cid, k, e) {
      OutcomeAt(es, cid, k);
    }
    if FutureOf(Run(es), cid) == Some(f) {
      DoneIffCompleted(es, cid);
      var k :| CompletedAt(es, cid, k);
      OutcomeAt(es, cid, k);
      assert CompletedBy(es, cid, k, e);
    }
  }

  /** In every run: a caller gets a timeout if and only if its own timer fired while it was waiting, the shutdown error
      if and only if stop() got to its end then, and a cancellation if and only if it was cancelled then. */
  lemma OutcomeTellsEnd(es: seq<Event>, cid: Cid)
    ensures FutureOf(Run(es), cid) == Some(TimedOut) <==> exists k :: CompletedBy(es, cid, k, TimerFires(cid))
    ensures FutureOf(Run(es), cid) == Some(ShutDown) <==> exists k :: CompletedBy(es, cid, k, StopEnds)
    ensures FutureOf(Run(es), cid) == Some(Cancelled) <==> exists k :: CompletedBy(es, cid, k, CallerCancels(cid))
  {
    EndTells(es, cid, TimerFires(cid), TimedOut);
    EndTells(es, cid, StopEnds, ShutDown);
    EndTells(es, cid, CallerCancels(cid), Cancelled);
  }

  // ---- Shutdown ---------------------------------------------------------------------------

  ghost predicate SomebodyWaits(t: Table) {
    exists cid :: FutureOf(t, cid) == Some(Undone)
  }

  /** While its reader was at work, it got a payload that decodes to no mapping, and has not been started since. */
  ghost predicate GotNonMapping(es: seq<Event>) {
    exists k :: 0 <= k < |es| && es[k] == Read(NotAMapping) && Run(es[..k]).reader == Alive
                && forall j :: k < j < |es| ==> es[j] != Start
  }

  lemma GotNonMappingNow(es: seq<Event>, e: Event)
    requires GotNonMapping(es + [e])
    ensures (e == Read(NotAMapping) && Run(es).reader == Alive) || (e != Start && GotNonMapping(es))
  {
    var all := es + [e];
    var k :| 0 <= k < |all| && all[k] == Read(NotAMapping) && Run(all[..k]).reader == Alive
             && forall j :: k < j < |all| ==> all[j] != Start;
    assert all[|es|] == e && all[..|es|] == es;
    if k < |es| {
      assert all[..k] == es[..k] && forall j :: k < j < |es| ==> es[j] == all[j];
    }
  }

  lemma GotNonMappingStays(es: seq<Event>, e: Event)
    requires (e == Read(NotAMapping) && Run(es).reader == Alive) || (e != Start && GotNonMapping(es))
    ensures GotNonMapping(es + [e])
  {
    var all := es + [e];
    assert all[|es|] == e && all[..|es|] == es;
    if e != Start && GotNonMapping(es) {
      var k :| 0 <= k < |es| && es[k] == Read(NotAMapping) && Run(es[..k]).reader == Alive
               && forall j :: k < j < |es| ==> es[j] != Start;
      assert all[..k] == es[..k] && forall j :: 0 <= j < |es| ==> all[j] == es[j];
    }
  }

  lemma {:induction false} DiedIffNonMapping(es: seq<Event>)
    ensures Run(es).reader == Died <==> GotNonMapping(es)
  {
    if es != [] {
      var es', e := es[..|es| - 1], es[|es| - 1];
      assert es == es' + [e];
      DiedIffNonMapping(es');
      if GotNonMapping(es) {
        GotNonMappingNow(es', e);
      } else if (e == Read(NotAMapping) && Run(es').reader == Alive) || (e != Start && GotNonMapping(es')) {
        GotNonMappingStays(es', e);
      }
    }
  }

  /** In every run, stopping leaves nobody waiting if and only if its reader has not died of a payload that
      is no mapping, or nobody was waiting. Otherwise it changes nothing. */
  lemma StopLeavesNobodyWaitingIff(es: seq<Event>)
    ensures !SomebodyWaits(Run(es + [StopEnds])) <==> !GotNonMapping(es) || !SomebodyWaits(Run(es))
    ensures GotNonMapping(es) ==> Run(es + [StopEnds]) == Run(es)
  {
    RunOne(es, StopEnds);
    DiedIffNonMapping(es);
    RunIsConsistent(es);
    if !GotNonMapping(es) {
      forall cid ensures FutureOf(Run(es + [StopEnds]), cid) != Some(Undone) {
        StepOnFuture(Run(es), StopEnds, cid);
      }
    }
  }

  /** In every run, stopped or not, whoever waits has a timer armed, and is told when it fires. */
  lemma WaitingHasTimer(es: seq<Event>, cid: Cid)
    requires FutureOf(Run(es), cid) == Some(Undone)
    ensures cid in Run(es).timers && FutureOf(Run(es + [TimerFires(cid)]), cid) == Some(TimedOut)
  {
    RunIsConsistent(es);
    RunOne(es, TimerFires(cid));
    StepOnFuture(Run(es), TimerFires(cid), cid);
  }

  /** After one payload that is no mapping, a caller who waits keeps waiting through any replies and shutdowns,
      until its own timer fires, it is cancelled, or the bridge is started anew. */
  lemma {:induction false} WaitsForItsTimer(es: seq<Event>, fs: seq<Event>, cid: Cid)
    requires FutureOf(Run(es), cid) == Some(Undone) && Run(es).reader == Alive
    requires forall f :: f in fs ==> f != Start && f != TimerFires(cid) && f != CallerCancels(cid)
    ensures Run(es + [Read(NotAMapping)] + fs).reader == Died
    ensures FutureOf(Run(es + [Read(NotAMapping)] + fs), cid) == Some(Undone)
  {
    var killed := es + [Read(NotAMapping)];
    if fs == [] {
      RunOne(es, Read(NotAMapping));
      assert killed + fs == killed;
    } else {
      var n := |fs| - 1;
      assert forall f :: f in fs[..n] ==> f in fs;
      assert fs[n] in fs;
      WaitsForItsTimer(es, fs[..n], cid);
      assert killed + fs == (killed + fs[..n]) + [fs[n]];
      RunOne(killed + fs[..n], fs[n]);
      RunIsConsistent(killed + fs[..n]);
      StepOnFuture(Run(killed + fs[..n]), fs[n], cid);
    }
  }
}
