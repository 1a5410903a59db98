/** Whole runs of the dead letter queue: it stays within its bound, disk mirrors memory, and
    loading rebuilds what was there. */
module DeadLetterRuns {
  import opened Options
  import opened Numbers
  import opened DeadLetter

  lemma AddKeepsValid(q: Queue, e: Entry, maxEntries: int)
    requires Valid(q, maxEntries) && Fresh(q, e)
    ensures Valid(Added(q, e, maxEntries), maxEntries)
  {
    var all := q.entries + [e];
    AppendedMirrors(q.files, q.entries, e);
    AppendedInOrder(q.entries, e);
    if |all| > maxEntries {
      FirstDropped(Persisted(q.files, e), all);
    }
  }

  lemma AppendedInOrder(entries: seq<Entry>, e: Entry)
    requires StrictlyOrdered(entries) && DistinctIds(entries)
    requires forall x :: x in entries ==> x.jobId != e.jobId && x.createdAt < e.createdAt
    ensures StrictlyOrdered(entries + [e]) && DistinctIds(entries + [e])
  {
    assert forall i :: 0 <= i < |entries| ==> entries[i] in entries;
  }

  lemma AppendedMirrors(files: Files, entries: seq<Entry>, e: Entry)
    requires Mirrors(files, entries) && e == Stripped(e) && forall x :: x in entries ==> x.jobId != e.jobId
    ensures Mirrors(Persisted(files, e), entries + [e])
  {
    IdsAppend(entries, e);
    forall x | x in entries + [e] ensures OnDisk(Persisted(files, e), x) {
      if x in entries {
        assert OnDisk(files, x);
      }
    }
  }

  lemma TailInOrder(entries: seq<Entry>)
    requires StrictlyOrdered(entries) && DistinctIds(entries) && entries != []
    ensures StrictlyOrdered(entries[1..]) && DistinctIds(entries[1..])
    ensures forall x :: x in entries[1..] ==> x.jobId != entries[0].jobId && entries[0].createdAt < x.createdAt
  {
  }

  lemma DroppedMirrors(files: Files, rest: seq<Entry>, gone: JobId)
    requires files.Keys == {gone} + Ids(rest) && gone !in Ids(rest)
    requires forall x :: x in rest ==> OnDisk(files - {gone}, x)
    ensures Mirrors(files - {gone}, rest)
  {
    assert (files - {gone}).Keys == Ids(rest);
  }

  /** Taking the first entry out of memory and its file off the disk keeps the rest. */
  lemma FirstDropped(files: Files, entries: seq<Entry>)
    requires Mirrors(files, entries) && DistinctIds(entries) && StrictlyOrdered(entries) && entries != []
    ensures Mirrors(files - {entries[0].jobId}, entries[1..])
    ensures DistinctIds(entries[1..]) && StrictlyOrdered(entries[1..])
  {
    var gone, rest := entries[0].jobId, entries[1..];
    TailInOrder(entries);
    IdsCons(entries);
    forall x | x in rest ensures OnDisk(files - {gone}, x) {
      assert OnDisk(files, x);
    }
    DroppedMirrors(files, rest, gone);
  }

  lemma IdsCons(entries: seq<Entry>)
    requires entries != []
    ensures Ids(entries) == {entries[0].jobId} + Ids(entries[1..])
    ensures forall x :: x in entries[1..] ==> x in entries
  {
    assert entries == [entries[0]] + entries[1..];
    assert forall x :: x in entries <==> x == entries[0] || x in entries[1..];
  }

  lemma PrependedInOrder(e: Entry, rest: seq<Entry>)
    requires StrictlyOrdered(rest) && DistinctIds(rest)
    requires forall x :: x in rest ==> e.createdAt < x.createdAt && e.jobId != x.jobId
    ensures StrictlyOrdered([e] + rest) && DistinctIds([e] + rest)
  {
    assert forall i :: 0 <= i < |rest| ==> rest[i] in rest;
  }

  /** A subsequence given by a filter stays ordered and distinct. */
  lemma {:induction false} KeptStaysOrdered(entries: seq<Entry>, cutoff: real)
    requires StrictlyOrdered(entries) && DistinctIds(entries)
    ensures StrictlyOrdered(Kept(entries, cutoff)) && DistinctIds(Kept(entries, cutoff))
  {
    if entries != [] {
      TailInOrder(entries);
      KeptStaysOrdered(entries[1..], cutoff);
      OldAndKept(entries[1..], cutoff);
      PrependedInOrder(entries[0], Kept(entries[1..], cutoff));
    }
  }

  lemma CleanupKeepsValid(q: Queue, cutoff: real, maxEntries: int)
    requires Valid(q, maxEntries)
    ensures Valid(Cleaned(q, cutoff), maxEntries)
    ensures forall e :: e in q.entries ==> (e in Cleaned(q, cutoff).entries <==> e.createdAt >= cutoff)
  {
    OldAndKept(q.entries, cutoff);
    KeptStaysOrdered(q.entries, cutoff);
    KeptMirrors(q.files, q.entries, cutoff);
  }

  lemma KeptMirrors(files: Files, entries: seq<Entry>, cutoff: real)
    requires Mirrors(files, entries) && DistinctIds(entries)
    ensures Mirrors(files - Ids(Old(entries, cutoff)), Kept(entries, cutoff))
  {
    OldAndKept(entries, cutoff);
    var gone, kept := Old(entries, cutoff), Kept(entries, cutoff);
    forall x | x in kept ensures x.jobId !in Ids(gone) && OnDisk(files, x) {
      forall y | y in gone ensures y.jobId != x.jobId {
        if y.jobId == x.jobId {
          SameIdSameEntry(entries, x, y);
        }
      }
    }
    assert Ids(kept) == Ids(entries) - Ids(gone);
  }

  lemma SameIdSameEntry(entries: seq<Entry>, x: Entry, y: Entry)
    requires DistinctIds(entries) && x in entries && y in entries && x.jobId == y.jobId
    ensures x == y
  {
  }

  /** The same entries up to replay fields. */
  ghost predicate Alike(a: seq<Entry>, b: seq<Entry>) {
    |a| == |b| && forall i :: 0 <= i < |a| ==> Stripped(a[i]) == Stripped(b[i])
  }

  lemma AlikeKeepsValid(q: Queue, entries: seq<Entry>, maxEntries: int)
    requires Valid(q, maxEntries) && Alike(entries, q.entries)
    ensures Valid(q.(entries := entries), maxEntries)
  {
    forall i | 0 <= i < |entries|
      ensures entries[i].jobId == q.entries[i].jobId && entries[i].createdAt == q.entries[i].createdAt
    {
      assert Stripped(entries[i]).jobId == Stripped(q.entries[i]).jobId;
      assert Stripped(entries[i]).createdAt == Stripped(q.entries[i]).createdAt;
    }
    AlikeMirrors(q.files, q.entries, entries);
  }

  lemma AlikeMirrors(files: Files, a: seq<Entry>, b: seq<Entry>)
    requires Mirrors(files, a) && Alike(b, a)
    requires forall i :: 0 <= i < |a| ==> a[i].jobId == b[i].jobId
    ensures Mirrors(files, b)
  {
    SameIds(a, b);
    SameIds(b, a);
    forall e | e in b ensures OnDisk(files, e) {
      var i :| 0 <= i < |b| && b[i] == e;
      assert a[i] in a && OnDisk(files, a[i]);
    }
  }

  lemma SameIds(a: seq<Entry>, b: seq<Entry>)
    requires |a| == |b| && forall i :: 0 <= i < |a| ==> a[i].jobId == b[i].jobId
    ensures Ids(a) <= Ids(b)
  {
    forall id | id in Ids(a) ensures id in Ids(b) {
      var e :| e in a && e.jobId == id;
      var i :| 0 <= i < |a| && a[i] == e;
      assert b[i] in b;
    }
  }

  lemma ReplayKeepsValid(q: Queue, id: JobId, now: real, maxEntries: int)
    requires Valid(q, maxEntries)
    ensures Valid(Replayed(q, id, now), maxEntries)
  {
    AlikeKeepsValid(q, Replayed(q, id, now).entries, maxEntries);
  }

  // ---- Loading -------------------------------------------------------------------------

  ghost predicate DistinctTimes(entries: seq<Entry>) {
    forall i, j :: 0 <= i < j < |entries| ==> entries[i].createdAt != entries[j].createdAt
  }

  ghost predicate SameElements(a: seq<Entry>, b: seq<Entry>) {
    forall e :: e in a <==> e in b
  }

  lemma LaterAppended(entries: seq<Entry>, e: Entry)
    requires StrictlyOrdered(entries) && forall x :: x in entries ==> x.createdAt < e.createdAt
    ensures StrictlyOrdered(entries + [e])
    ensures forall x :: x in entries + [e] <==> x in entries || x == e
  {
    assert forall i :: 0 <= i < |entries| ==> entries[i] in entries;
  }

  lemma LastIsLatest(entries: seq<Entry>)
    requires StrictlyOrdered(entries) && entries != []
    ensures var n := |entries| - 1;
            && entries == entries[..n] + [entries[n]] && StrictlyOrdered(entries[..n])
            && forall x :: x in entries[..n] ==> x in entries && x.createdAt < entries[n].createdAt
  {
  }

  lemma {:induction false} InsertedInOrder(entries: seq<Entry>, e: Entry)
    requires StrictlyOrdered(entries) && forall x :: x in entries ==> x.createdAt != e.createdAt
    ensures StrictlyOrdered(Inserted(entries, e))
    ensures forall x :: x in Inserted(entries, e) <==> x in entries || x == e
  {
    if entries == [] {
      LaterAppended(entries, e);
    } else {
      var n := |entries| - 1;
      var first, last := entries[..n], entries[n];
      LastIsLatest(entries);
      assert last in entries && forall x :: x in entries <==> x in first || x == last;
      if last.createdAt <= e.createdAt {
        LaterAppended(entries, e);
      } else {
        InsertedInOrder(first, e);
        LaterAppended(Inserted(first, e), last);
      }
    }
  }

  lemma {:induction false} SortingDistinctTimes(entries: seq<Entry>)
    requires DistinctTimes(entries)
    ensures StrictlyOrdered(SortedByCreation(entries)) && SameElements(SortedByCreation(entries), entries)
  {
    if entries != [] {
      var n := |entries| - 1;
      SortingDistinctTimes(entries[..n]);
      assert forall x :: x in entries[..n] ==> x.createdAt != entries[n].createdAt;
      assert entries == entries[..n] + [entries[n]];
      InsertedInOrder(SortedByCreation(entries[..n]), entries[n]);
    }
  }

  lemma EmptyIffNoElements(s: seq<Entry>)
    ensures s == [] <==> forall e :: e !in s
  {
    if s != [] {
      assert s[0] in s;
    }
  }

  /** There is only one way to put entries in order of distinct creation times. */
  lemma {:induction false} OrderIsUnique(a: seq<Entry>, b: seq<Entry>)
    requires StrictlyOrdered(a) && StrictlyOrdered(b) && SameElements(a, b)
    ensures a == b
    decreases |a|
  {
    if a == [] {
      EmptyIffNoElements(b);
      EmptyIffNoElements(a);
    } else {
      assert a[0] in b;
      var j :| 0 <= j < |b| && b[j] == a[0];
      assert b[0] in a;
      var i :| 0 <= i < |a| && a[i] == b[0];
      assert i == 0 && j == 0;
      forall e ensures e in a[1..] <==> e in b[1..] {
        TailMembers(a, e);
        TailMembers(b, e);
      }
      OrderIsUnique(a[1..], b[1..]);
      assert a == [a[0]] + a[1..] && b == [b[0]] + b[1..];
    }
  }

  lemma TailMembers(a: seq<Entry>, e: Entry)
    requires StrictlyOrdered(a) && a != []
    ensures e in a[1..] <==> e in a && e != a[0]
  {
    assert a == [a[0]] + a[1..];
    if e in a[1..] {
      var i :| 0 <= i < |a[1..]| && a[1..][i] == e;
      assert a[i + 1] == e;
    }
  }

  function StrippedAll(entries: seq<Entry>): seq<Entry> {
    seq(|entries|, i requires 0 <= i < |entries| => Stripped(entries[i]))
  }

  /** All the files, each once, in any order. */
  ghost predicate Lists(listing: seq<JobId>, files: Files) {
    && (forall i, j :: 0 <= i < j < |listing| ==> listing[i] != listing[j])
    && forall id :: id in listing <==> id in files
  }

  /** The position of the entry with the given id. */
  lemma EntryOfFile(files: Files, entries: seq<Entry>, id: JobId) returns (i: nat)
    requires Mirrors(files, entries) && id in files
    ensures i < |entries| && entries[i].jobId == id && OnDisk(files, entries[i])
  {
    assert id in Ids(entries);
    var e :| e in entries && e.jobId == id;
    i :| 0 <= i < |entries| && entries[i] == e;
  }

  /** What is read from a file is the stripped entry it was written from. */
  ghost predicate ReadFrom(entries: seq<Entry>, id: JobId, e: Entry) {
    exists i :: 0 <= i < |entries| && entries[i].jobId == id && e == Stripped(entries[i])
  }

  lemma ParsedNext(files: Files, listing: seq<JobId>, e: Entry)
    requires listing != [] && listing[|listing| - 1] == e.jobId && OnDisk(files, e)
    ensures Parsed(files, listing) == Parsed(files, listing[..|listing| - 1]) + [Stripped(e)]
  {
    DictRoundTrip(Stripped(e), ToDict(Stripped(e)));
  }

  lemma {:induction false} ParsedMirror(files: Files, entries: seq<Entry>, listing: seq<JobId>)
    requires Mirrors(files, entries) && forall n :: n in listing ==> n in files
    ensures |Parsed(files, listing)| == |listing|
    ensures forall k :: 0 <= k < |listing| ==> ReadFrom(entries, listing[k], Parsed(files, listing)[k])
  {
    if listing != [] {
      var n := |listing| - 1;
      ParsedMirror(files, entries, listing[..n]);
      var i := EntryOfFile(files, entries, listing[n]);
      ParsedNext(files, listing, entries[i]);
      assert forall k :: 0 <= k < n ==> listing[..n][k] == listing[k];
    }
  }

  lemma ReadFromSame(entries: seq<Entry>, id: JobId, e: Entry, id': JobId, e': Entry)
    requires StrictlyOrdered(entries) && DistinctIds(entries)
    requires ReadFrom(entries, id, e) && ReadFrom(entries, id', e')
    ensures e.createdAt == e'.createdAt <==> id == id'
    ensures id == id' ==> e == e'
  {
    var i :| 0 <= i < |entries| && entries[i].jobId == id && e == Stripped(entries[i]);
    var j :| 0 <= j < |entries| && entries[j].jobId == id' && e' == Stripped(entries[j]);
    assert e.createdAt == entries[i].createdAt && e'.createdAt == entries[j].createdAt;
  }

  lemma ParsedTimesDiffer(q: Queue, maxEntries: int, listing: seq<JobId>)
    requires Valid(q, maxEntries) && Lists(listing, q.files)
    ensures DistinctTimes(Parsed(q.files, listing))
  {
    ParsedMirror(q.files, q.entries, listing);
    var parsed := Parsed(q.files, listing);
    forall j, k | 0 <= j < k < |parsed| ensures parsed[j].createdAt != parsed[k].createdAt {
      ReadFromSame(q.entries, listing[j], parsed[j], listing[k], parsed[k]);
    }
  }

  lemma ParsedIsEverything(q: Queue, maxEntries: int, listing: seq<JobId>)
    requires Valid(q, maxEntries) && Lists(listing, q.files)
    ensures SameElements(Parsed(q.files, listing), StrippedAll(q.entries))
  {
    ParsedMirror(q.files, q.entries, listing);
    var parsed, stripped := Parsed(q.files, listing), StrippedAll(q.entries);
    forall e | e in parsed ensures e in stripped {
      var k :| 0 <= k < |parsed| && parsed[k] == e;
      assert ReadFrom(q.entries, listing[k], e);
      var i :| 0 <= i < |q.entries| && q.entries[i].jobId == listing[k] && e == Stripped(q.entries[i]);
      assert stripped[i] == e;
    }
    forall e | e in stripped ensures e in parsed {
      var i :| 0 <= i < |stripped| && stripped[i] == e;
      EntryIsParsed(q, maxEntries, listing, i);
    }
  }

  lemma EntryIsParsed(q: Queue, maxEntries: int, listing: seq<JobId>, i: nat)
    requires Valid(q, maxEntries) && Lists(listing, q.files) && i < |q.entries|
    ensures Stripped(q.entries[i]) in Parsed(q.files, listing)
  {
    ParsedMirror(q.files, q.entries, listing);
    var x, parsed := q.entries[i], Parsed(q.files, listing);
    assert x in q.entries && OnDisk(q.files, x) && x.jobId in listing;
    var k :| 0 <= k < |listing| && listing[k] == x.jobId;
    assert ReadFrom(q.entries, x.jobId, Stripped(x)) && ReadFrom(q.entries, listing[k], parsed[k]);
    ReadFromSame(q.entries, x.jobId, Stripped(x), listing[k], parsed[k]);
  }

  lemma StrippedInOrder(entries: seq<Entry>)
    requires StrictlyOrdered(entries)
    ensures StrictlyOrdered(StrippedAll(entries))
  {
  }

  /** Loading the files of a valid queue, listed in any order, rebuilds its entries in their order, but
      for the replay fields. */
  lemma LoadRebuilds(q: Queue, maxEntries: int, listing: seq<JobId>)
    requires Valid(q, maxEntries) && Lists(listing, q.files)
    ensures SortedByCreation(Parsed(q.files, listing)) == StrippedAll(q.entries)
  {
    ParsedTimesDiffer(q, maxEntries, listing);
    ParsedIsEverything(q, maxEntries, listing);
    SortingDistinctTimes(Parsed(q.files, listing));
    StrippedInOrder(q.entries);
    OrderIsUnique(SortedByCreation(Parsed(q.files, listing)), StrippedAll(q.entries));
  }

  lemma StrippedKeepsValid(q: Queue, maxEntries: int)
    requires Valid(q, maxEntries)
    ensures Valid(q.(entries := StrippedAll(q.entries)), maxEntries)
  {
    AlikeKeepsValid(q, StrippedAll(q.entries), maxEntries);
  }

  // ---- Runs ------------------------------------------------------------------------------

  datatype Event =
    | Add(e: Entry)
    | Cleanup(cutoff: real)
    | Replay(id: JobId, now: real)
    | Reload(listing: seq<JobId>)   // load_from_disk, with the files listed in some order

  /** The queue and the latest creation time so far. */
  datatype State = State(q: Queue, last: real)

  /** New entries have ids not in the queue and creation times later than all before. */
  ghost predicate Enabled(s: State, e: Event) {
    match e
    case Add(entry) =>
      entry == Stripped(entry) && entry.createdAt > s.last && forall x :: x in s.q.entries ==> x.jobId != entry.jobId
    case Reload(listing) => Lists(listing, s.q.files)
    case _ => true
  }

  ghost function Step(maxEntries: int, s: State, e: Event): State {
    if !Enabled(s, e) then s else
    match e
    case Add(entry) => State(Added(s.q, entry, maxEntries), entry.createdAt)
    case Cleanup(cutoff) => s.(q := Cleaned(s.q, cutoff))
    case Replay(id, now) => s.(q := Replayed(s.q, id, now))
    case Reload(listing) => s.(q := s.q.(entries := SortedByCreation(Parsed(s.q.files, listing))))
  }

  ghost function Run(maxEntries: int, start: real, es: seq<Event>): State {
    if es == [] then State(Queue([], map[]), start)
    else Step(maxEntries, Run(maxEntries, start, es[..|es| - 1]), es[|es| - 1])
  }

  ghost predicate NoneLaterThan(entries: seq<Entry>, last: real) {
    forall x :: x in entries ==> x.createdAt <= last
  }

  ghost predicate Sound(maxEntries: int, s: State) {
    Valid(s.q, maxEntries) && NoneLaterThan(s.q.entries, s.last)
  }

  lemma AddIsSound(maxEntries: int, s: State, e: Event)
    requires Sound(maxEntries, s) && e.Add? && Enabled(s, e)
    ensures Sound(maxEntries, Step(maxEntries, s, e))
  {
    AddKeepsValid(s.q, e.e, maxEntries);
    var all := s.q.entries + [e.e];
    forall x | x in Step(maxEntries, s, e).q.entries ensures x.createdAt <= e.e.createdAt {
      assert x in all;
    }
  }

  lemma AlikeIsNotLater(a: seq<Entry>, b: seq<Entry>, last: real)
    requires Alike(b, a) && NoneLaterThan(a, last)
    ensures NoneLaterThan(b, last)
  {
    forall x | x in b ensures x.createdAt <= last {
      var i :| 0 <= i < |b| && b[i] == x;
      assert a[i] in a && Stripped(a[i]).createdAt == Stripped(x).createdAt;
    }
  }

  lemma StepIsSound(maxEntries: int, s: State, e: Event)
    requires Sound(maxEntries, s)
    ensures Sound(maxEntries, Step(maxEntries, s, e))
  {
    if Enabled(s, e) {
      match e
      case Add(_) => AddIsSound(maxEntries, s, e);
      case Cleanup(cutoff) =>
        CleanupKeepsValid(s.q, cutoff, maxEntries);
        OldAndKept(s.q.entries, cutoff);
      case Replay(id, now) =>
        ReplayKeepsValid(s.q, id, now, maxEntries);
        AlikeIsNotLater(s.q.entries, Replayed(s.q, id, now).entries, s.last);
      case Reload(listing) =>
        LoadRebuilds(s.q, maxEntries, listing);
        StrippedKeepsValid(s.q, maxEntries);
        AlikeIsNotLater(s.q.entries, StrippedAll(s.q.entries), s.last);
    }
  }

  /** Every run keeps at most maxEntries entries and keeps disk equal to memory but for the replay fields. */
  lemma {:induction false} RunIsSound(maxEntries: int, start: real, es: seq<Event>)
    ensures Sound(maxEntries, Run(maxEntries, start, es))
  {
    if es != [] {
      RunIsSound(maxEntries, start, es[..|es| - 1]);
      StepIsSound(maxEntries, Run(maxEntries, start, es[..|es| - 1]), es[|es| - 1]);
    }
  }

  lemma ReloadStep(maxEntries: int, s: State, listing: seq<JobId>)
    requires Sound(maxEntries, s) && Lists(listing, s.q.files)
    ensures Step(maxEntries, s, Reload(listing)).q == s.q.(entries := StrippedAll(s.q.entries))
  {
    LoadRebuilds(s.q, maxEntries, listing);
  }

  /** So loading after any run loses nothing but the replay fields. */
  lemma ReloadAfterAnyRun(maxEntries: int, start: real, es: seq<Event>, listing: seq<JobId>)
    requires Lists(listing, Run(maxEntries, start, es).q.files)
    ensures var q := Run(maxEntries, start, es).q;
            && |q.entries| <= Max0(maxEntries)
            && Run(maxEntries, start, es + [Reload(listing)]).q == q.(entries := StrippedAll(q.entries))
  {
    RunIsSound(maxEntries, start, es);
    ReloadStep(maxEntries, Run(maxEntries, start, es), listing);
    assert (es + [Reload(listing)])[..|es|] == es;
  }
}
