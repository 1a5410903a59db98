/** What the dead letter queue holds, told from the history of a run alone: what has been added, what has been cleaned
    up or pushed out since, and how often each entry was replayed. */
module DeadLetterHistory {
  import opened Options
  import opened Numbers
  import opened DeadLetter
  import opened DeadLetterRuns

  /** The entries added so far, in order. */
  ghost function Adds(maxEntries: int, start: real, es: seq<Event>): seq<Entry> {
    if es == [] then []
    else
      var es', e := es[..|es| - 1], es[|es| - 1];
      Adds(maxEntries, start, es') + if e.Add? && Enabled(Run(maxEntries, start, es'), e) then [e.e] else []
  }

  function CountOlder(entries: seq<Entry>, cutoff: real): nat {
    if entries == [] then 0
    else CountOlder(entries[..|entries| - 1], cutoff) + if entries[|entries| - 1].createdAt < cutoff then 1 else 0
  }

  /** How many of these, from the first, are gone after one more event: pushed out by the bound, or too old at a
      cleanup. */
  function NextGone(maxEntries: int, e: Event, adds: seq<Entry>, gone: nat): nat {
    match e
    case Add(_) => MaxInt(gone, |adds| - Max0(maxEntries))
    case Cleanup(cutoff) => MaxInt(gone, CountOlder(adds, cutoff))
    case _ => gone
  }

  ghost function Gone(maxEntries: int, start: real, es: seq<Event>): nat {
    if es == [] then 0
    else NextGone(maxEntries, es[|es| - 1], Adds(maxEntries, start, es), Gone(maxEntries, start, es[..|es| - 1]))
  }

  /** The queue holds, but for the replay fields, the adds from the given one on; these are in order, up to now. */
  ghost predicate HoldsFrom(s: State, adds: seq<Entry>, gone: nat) {
    && gone <= |adds| && StrippedAll(s.q.entries) == adds[gone..]
    && StrictlyOrdered(adds) && NoneLaterThan(adds, s.last)
  }

  lemma StrippedAppend(entries: seq<Entry>, e: Entry)
    requires e == Stripped(e)
    ensures StrippedAll(entries + [e]) == StrippedAll(entries) + [e]
  {
  }

  /** One more entry, and the first pushed out if there are too many. */
  lemma AddedSuffix(entries: seq<Entry>, e: Entry, adds: seq<Entry>, gone: nat)
    requires gone <= |adds| && StrippedAll(entries) == adds[gone..] && e == Stripped(e)
    ensures StrippedAll(entries + [e]) == (adds + [e])[gone..]
    ensures StrippedAll((entries + [e])[1..]) == (adds + [e])[gone + 1..]
  {
    var all := entries + [e];
    StrippedAppend(entries, e);
    assert (adds + [e])[gone..] == adds[gone..] + [e];
    assert StrippedAll(all[1..]) == StrippedAll(all)[1..];
    assert (adds + [e])[gone + 1..] == (adds + [e])[gone..][1..];
  }

  lemma PushedOut(maxEntries: int, q: Queue, e: Entry, adds: seq<Entry>, gone: nat)
    requires |q.entries| <= Max0(maxEntries)
    requires gone <= |adds| && StrippedAll(q.entries) == adds[gone..] && e == Stripped(e)
    ensures var gone' := MaxInt(gone, |adds| + 1 - Max0(maxEntries));
            gone' <= |adds| + 1 && StrippedAll(Added(q, e, maxEntries).entries) == (adds + [e])[gone'..]
  {
    AddedSuffix(q.entries, e, adds, gone);
    assert |q.entries| == |StrippedAll(q.entries)|;
  }

  lemma AddHolds(maxEntries: int, s: State, e: Event, adds: seq<Entry>, gone: nat)
    requires Sound(maxEntries, s) && HoldsFrom(s, adds, gone) && e.Add? && Enabled(s, e)
    ensures HoldsFrom(Step(maxEntries, s, e), adds + [e.e], MaxInt(gone, |adds| + 1 - Max0(maxEntries)))
  {
    PushedOut(maxEntries, s.q, e.e, adds, gone);
    LaterAppended(adds, e.e);
  }

  lemma {:induction false} OlderComeFirst(entries: seq<Entry>, cutoff: real)
    requires StrictlyOrdered(entries)
    ensures CountOlder(entries, cutoff) <= |entries|
    ensures forall i :: 0 <= i < |entries| ==> (entries[i].createdAt < cutoff <==> i < CountOlder(entries, cutoff))
  {
    if entries != [] {
      OlderComeFirst(entries[..|entries| - 1], cutoff);
    }
  }

  lemma {:induction false} KeptFrom(entries: seq<Entry>, cutoff: real, k: nat)
    requires k <= |entries| && forall i :: 0 <= i < |entries| ==> (entries[i].createdAt < cutoff <==> i < k)
    ensures Kept(entries, cutoff) == entries[k..]
  {
    if entries != [] {
      KeptFrom(entries[1..], cutoff, if k > 0 then k - 1 else 0);
    }
  }

  lemma {:induction false} KeptStripped(entries: seq<Entry>, cutoff: real)
    ensures StrippedAll(Kept(entries, cutoff)) == Kept(StrippedAll(entries), cutoff)
  {
    if entries != [] {
      KeptStripped(entries[1..], cutoff);
      assert StrippedAll(entries)[1..] == StrippedAll(entries[1..]);
      assert entries[0].createdAt == StrippedAll(entries)[0].createdAt;
    }
  }

  lemma CleanupHolds(maxEntries: int, s: State, cutoff: real, adds: seq<Entry>, gone: nat)
    requires HoldsFrom(s, adds, gone)
    ensures HoldsFrom(Step(maxEntries, s, Cleanup(cutoff)), adds, MaxInt(gone, CountOlder(adds, cutoff)))
  {
    var older := CountOlder(adds, cutoff);
    OlderComeFirst(adds, cutoff);
    KeptStripped(s.q.entries, cutoff);
    KeptFrom(adds[gone..], cutoff, if older > gone then older - gone else 0);
  }

  lemma ReplayHolds(maxEntries: int, s: State, id: JobId, now: real, adds: seq<Entry>, gone: nat)
    requires HoldsFrom(s, adds, gone)
    ensures HoldsFrom(Step(maxEntries, s, Replay(id, now)), adds, gone)
  {
    assert StrippedAll(Replayed(s.q, id, now).entries) == StrippedAll(s.q.entries);
  }

  lemma ReloadHolds(maxEntries: int, s: State, listing: seq<JobId>, adds: seq<Entry>, gone: nat)
    requires Sound(maxEntries, s) && HoldsFrom(s, adds, gone)
    ensures HoldsFrom(Step(maxEntries, s, Reload(listing)), adds, gone)
  {
    if Lists(listing, s.q.files) {
      ReloadStep(maxEntries, s, listing);
      assert StrippedAll(StrippedAll(s.q.entries)) == StrippedAll(s.q.entries);
    }
  }

  lemma StepHolds(maxEntries: int, s: State, e: Event, adds: seq<Entry>, gone: nat)
    requires Sound(maxEntries, s) && HoldsFrom(s, adds, gone)
    ensures var adds' := adds + if e.Add? && Enabled(s, e) then [e.e] else [];
            HoldsFrom(Step(maxEntries, s, e), adds', NextGone(maxEntries, e, adds', gone))
  {
    match e {
      case Add(_) =>
        if Enabled(s, e) {
          AddHolds(maxEntries, s, e, adds, gone);
        } else {
          SizeFits(maxEntries, s, adds, gone);
        }
      case Cleanup(cutoff) => CleanupHolds(maxEntries, s, cutoff, adds, gone);
      case Replay(id, now) => ReplayHolds(maxEntries, s, id, now, adds, gone);
      case Reload(listing) => ReloadHolds(maxEntries, s, listing, adds, gone);
    }
    assert adds + [] == adds;
  }

  lemma {:induction false} RunHolds(maxEntries: int, start: real, es: seq<Event>)
    ensures HoldsFrom(Run(maxEntries, start, es), Adds(maxEntries, start, es), Gone(maxEntries, start, es))
  {
    if es != [] {
      var es' := es[..|es| - 1];
      RunHolds(maxEntries, start, es');
      RunIsSound(maxEntries, start, es');
      StepHolds(maxEntries, Run(maxEntries, start, es'), es[|es| - 1],
                Adds(maxEntries, start, es'), Gone(maxEntries, start, es'));
    }
  }

  /** In every run, the queue holds exactly the entries added that are not gone, in order: the last maxEntries at most,
      less those that were too old at a cleanup since. */
  lemma QueueHoldsTheRest(maxEntries: int, start: real, es: seq<Event>)
    ensures Gone(maxEntries, start, es) <= |Adds(maxEntries, start, es)|
    ensures StrippedAll(Run(maxEntries, start, es).q.entries) ==
            Adds(maxEntries, start, es)[Gone(maxEntries, start, es)..]
  {
    RunHolds(maxEntries, start, es);
  }

  lemma SizeFits(maxEntries: int, s: State, adds: seq<Entry>, gone: nat)
    requires Sound(maxEntries, s) && HoldsFrom(s, adds, gone)
    ensures |adds| - Max0(maxEntries) <= gone
  {
    assert |StrippedAll(s.q.entries)| == |s.q.entries|;
  }

  // ---- Replays --------------------------------------------------------------------------------

  /** How often a job was replayed since it was added or the queue was last loaded, and when last. */
  ghost function Replays(maxEntries: int, start: real, es: seq<Event>, id: JobId): (nat, Option<real>) {
    if es == [] then (0, None)
    else
      var es', e := es[..|es| - 1], es[|es| - 1];
      var before := Replays(maxEntries, start, es', id);
      if !Enabled(Run(maxEntries, start, es'), e) then before
      else
        match e
        case Add(entry) => if entry.jobId == id then (0, None) else before
        case Replay(other, now) => if other == id then (before.0 + 1, Some(now)) else before
        case Reload(_) => (0, None)
        case _ => before
  }

  ghost predicate ReplayedAs(entries: seq<Entry>, id: JobId, replays: (int, Option<real>)) {
    forall x :: x in entries && x.jobId == id ==> (x.replayCount, x.lastRetryAt) == replays
  }

  lemma AddReplays(maxEntries: int, s: State, e: Event, id: JobId, replays: (nat, Option<real>))
    requires Sound(maxEntries, s) && e.Add? && Enabled(s, e) && ReplayedAs(s.q.entries, id, replays)
    ensures ReplayedAs(Step(maxEntries, s, e).q.entries, id, if e.e.jobId == id then (0, None) else replays)
  {
    var all := s.q.entries + [e.e];
    forall x | x in Step(maxEntries, s, e).q.entries && x.jobId == id
      ensures (x.replayCount, x.lastRetryAt) == if e.e.jobId == id then (0, None) else replays
    {
      assert x in all;
    }
  }

  lemma ReplayedEntries(q: Queue, id: JobId, now: real, x: Entry)
    requires DistinctIds(q.entries) && x in Replayed(q, id, now).entries
    ensures if x.jobId != id then x in q.entries
            else exists y :: y in q.entries && y.jobId == id
                             && x.replayCount == y.replayCount + 1 && x.lastRetryAt == Some(now)
  {
    IndexFinds(q.entries, id);
    var i, after := IndexOf(q.entries, id), Replayed(q, id, now).entries;
    var k :| 0 <= k < |after| && after[k] == x;
    if k == i {
      assert q.entries[i] in q.entries;
    } else {
      assert x == q.entries[k] && q.entries[k] in q.entries;
    }
  }

  lemma ReplayReplays(maxEntries: int, s: State, other: JobId, now: real, id: JobId, replays: (nat, Option<real>))
    requires Sound(maxEntries, s) && ReplayedAs(s.q.entries, id, replays)
    ensures ReplayedAs(Step(maxEntries, s, Replay(other, now)).q.entries, id,
                       if other == id then (replays.0 + 1, Some(now)) else replays)
  {
    forall x | x in Replayed(s.q, other, now).entries && x.jobId == id
      ensures (x.replayCount, x.lastRetryAt) == if other == id then (replays.0 + 1, Some(now)) else replays
    {
      ReplayedEntries(s.q, other, now, x);
    }
  }

  /** In every run, an entry says how often and when last its job was replayed, since it was added or loaded. */
  lemma {:induction false} EntriesTellReplays(maxEntries: int, start: real, es: seq<Event>, id: JobId)
    ensures ReplayedAs(Run(maxEntries, start, es).q.entries, id, Replays(maxEntries, start, es, id))
  {
    if es != [] {
      var es', e := es[..|es| - 1], es[|es| - 1];
      var s, replays := Run(maxEntries, start, es'), Replays(maxEntries, start, es', id);
      EntriesTellReplays(maxEntries, start, es', id);
      RunIsSound(maxEntries, start, es');
      if Enabled(s, e) {
        match e {
          case Add(_) => AddReplays(maxEntries, s, e, id, replays);
          case Cleanup(cutoff) => OldAndKept(s.q.entries, cutoff);
          case Replay(other, now) => ReplayReplays(maxEntries, s, other, now, id, replays);
          case Reload(listing) => ReloadStep(maxEntries, s, listing);
        }
      }
    }
  }

  // ---- Loading any directory -----------------------------------------------------------------------

  ghost predicate Readable(files: Files, name: JobId, e: Entry) {
    name in files && files[name].Json? && FromDict(files[name].record) == Some(e)
  }

  /** Whatever else is in the directory, exactly the readable files give an entry. */
  lemma {:induction false} ReadableFilesAreParsed(files: Files, listing: seq<JobId>, e: Entry)
    ensures e in Parsed(files, listing) <==> exists name :: name in listing && Readable(files, name, e)
  {
    if listing != [] {
      var n := |listing| - 1;
      ReadableFilesAreParsed(files, listing[..n], e);
      assert forall name :: name in listing <==> name in listing[..n] || name == listing[n];
      assert forall x, y :: x in Parsed(files, listing[..n]) + [y] <==> x in Parsed(files, listing[..n]) || x == y;
      assert e in Parsed(files, listing) <==> e in Parsed(files, listing[..n]) || Readable(files, listing[n], e);
    }
  }

  ghost predicate Ordered(entries: seq<Entry>) {
    forall i, j :: 0 <= i < j < |entries| ==> entries[i].createdAt <= entries[j].createdAt
  }

  /** Those created at a given time, in order. */
  function CreatedAt(entries: seq<Entry>, at: real): seq<Entry> {
    if entries == [] then []
    else
      var n := |entries| - 1;
      CreatedAt(entries[..n], at) + if entries[n].createdAt == at then [entries[n]] else []
  }

  lemma CreatedAtAppend(entries: seq<Entry>, e: Entry, at: real)
    ensures CreatedAt(entries + [e], at) == CreatedAt(entries, at) + if e.createdAt == at then [e] else []
  {
    assert (entries + [e])[..|entries|] == entries;
  }

  lemma LastIsGreatest(entries: seq<Entry>)
    requires Ordered(entries) && entries != []
    ensures var n := |entries| - 1;
            && entries == entries[..n] + [entries[n]] && Ordered(entries[..n])
            && forall x :: x in entries ==> x.createdAt <= entries[n].createdAt
  {
  }

  lemma AppendedInOrder(entries: seq<Entry>, e: Entry)
    requires Ordered(entries) && forall x :: x in entries ==> x.createdAt <= e.createdAt
    ensures Ordered(entries + [e])
  {
    assert forall i :: 0 <= i < |entries| ==> entries[i] in entries;
  }

  lemma {:induction false} InsertedIsOrdered(entries: seq<Entry>, e: Entry)
    requires Ordered(entries)
    ensures Ordered(Inserted(entries, e))
    ensures forall x :: x in Inserted(entries, e) <==> x in entries || x == e
  {
    if entries != [] {
      var n := |entries| - 1;
      LastIsGreatest(entries);
      if entries[n].createdAt > e.createdAt {
        InsertedIsOrdered(entries[..n], e);
        assert forall x :: x in entries <==> x in entries[..n] || x == entries[n];
        AppendedInOrder(Inserted(entries[..n], e), entries[n]);
      } else {
        AppendedInOrder(entries, e);
      }
    }
  }

  /** Only one of the two was created at the given time, so their order does not matter. */
  lemma LaterStaysLast(inserted: seq<Entry>, first: seq<Entry>, last: Entry, e: Entry, at: real)
    requires last.createdAt > e.createdAt
    requires CreatedAt(inserted, at) == CreatedAt(first, at) + if e.createdAt == at then [e] else []
    ensures CreatedAt(inserted + [last], at) == CreatedAt(first + [last], at) + if e.createdAt == at then [e] else []
  {
    var before := CreatedAt(first, at);
    CreatedAtAppend(inserted, last, at);
    CreatedAtAppend(first, last, at);
    assert before + [] == before;
    assert CreatedAt(inserted, at) + [] == CreatedAt(inserted, at);
    assert before + [last] + [] == before + [last];
  }

  lemma {:induction false} InsertedIsStable(entries: seq<Entry>, e: Entry, at: real)
    requires Ordered(entries)
    ensures CreatedAt(Inserted(entries, e), at) == CreatedAt(entries, at) + if e.createdAt == at then [e] else []
  {
    if entries != [] && entries[|entries| - 1].createdAt > e.createdAt {
      var n := |entries| - 1;
      var first, last := entries[..n], entries[n];
      LastIsGreatest(entries);
      InsertedIsStable(first, e, at);
      LaterStaysLast(Inserted(first, e), first, last, e, at);
      assert Inserted(entries, e) == Inserted(first, e) + [last];
    } else {
      CreatedAtAppend(entries, e, at);
    }
  }

  /** Sorting is by creation time; entries created at the same time keep their order, and none is lost. */
  lemma {:induction false} SortingIsStable(entries: seq<Entry>, at: real)
    ensures Ordered(SortedByCreation(entries))
    ensures CreatedAt(SortedByCreation(entries), at) == CreatedAt(entries, at)
  {
    if entries != [] {
      var n := |entries| - 1;
      assert entries == entries[..n] + [entries[n]];
      SortingIsStable(entries[..n], at);
      InsertedIsOrdered(SortedByCreation(entries[..n]), entries[n]);
      InsertedIsStable(SortedByCreation(entries[..n]), entries[n], at);
      CreatedAtAppend(entries[..n], entries[n], at);
    }
  }
}
