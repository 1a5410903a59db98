/** The dead letter queue and its mirror on disk (engine/dead_letter_queue.py): one JSON file per entry. */
module DeadLetter {
  import opened Options
  import opened Numbers

  type JobId = string

  datatype Reason = MaxRetriesExceeded | CircuitBreakerOpen | Timeout | ValidationError | UnknownError

  datatype Entry = Entry(
    jobId: JobId, payload: string, meta: string, reason: Reason, errorMessage: string, retryCount: int,
    createdAt: real, lastRetryAt: Option<real>, replayCount: int)

  /** An entry as a dictionary: the reason is spelled out. */
  datatype Record = Record(
    jobId: JobId, payload: string, meta: string, reason: string, errorMessage: string, retryCount: int,
    createdAt: real, lastRetryAt: Option<real>, replayCount: int)

  /** A file holds a dictionary with these keys, or something that cannot be made an entry of. */
  datatype File = Json(record: Record) | Unreadable

  function ReasonValue(r: Reason): string {
    match r
    case MaxRetriesExceeded => "max_retries"
    case CircuitBreakerOpen => "circuit_breaker"
    case Timeout => "timeout"
    case ValidationError => "validation"
    case UnknownError => "unknown"
  }

  function ReasonOf(value: string): Option<Reason> {
    if value == "max_retries" then Some(MaxRetriesExceeded)
    else if value == "circuit_breaker" then Some(CircuitBreakerOpen)
    else if value == "timeout" then Some(Timeout)
    else if value == "validation" then Some(ValidationError)
    else if value == "unknown" then Some(UnknownError)
    else None
  }

  function ToDict(e: Entry): Record {
    Record(e.jobId, e.payload, e.meta, ReasonValue(e.reason), e.errorMessage, e.retryCount,
           e.createdAt, e.lastRetryAt, e.replayCount)
  }

  /** An unknown reason raises. */
  function FromDict(r: Record): Option<Entry> {
    var reason := ReasonOf(r.reason);
    if reason.None? then None
    else Some(Entry(r.jobId, r.payload, r.meta, reason.value, r.errorMessage, r.retryCount,
                    r.createdAt, r.lastRetryAt, r.replayCount))
  }

  lemma DictRoundTrip(e: Entry, r: Record)
    ensures FromDict(ToDict(e)) == Some(e)
    ensures FromDict(r).Some? ==> ToDict(FromDict(r).value) == r
    ensures FromDict(r).None? <==> forall reason :: ReasonValue(reason) != r.reason
  {
    if FromDict(r).Some? {
      assert ReasonValue(ReasonOf(r.reason).value) == r.reason;
    }
    forall reason ensures ReasonOf(ReasonValue(reason)) == Some(reason) {
    }
  }

  /** The dictionary names every field as the entry does, and the reason by its value. */
  lemma DictFields(e: Entry)
    ensures var r := ToDict(e);
            && r.jobId == e.jobId && r.payload == e.payload && r.meta == e.meta && r.errorMessage == e.errorMessage
            && r.retryCount == e.retryCount && r.createdAt == e.createdAt && r.lastRetryAt == e.lastRetryAt
            && r.replayCount == e.replayCount
            && (r.reason == "max_retries" <==> e.reason == MaxRetriesExceeded)
            && (r.reason == "circuit_breaker" <==> e.reason == CircuitBreakerOpen)
            && (r.reason == "timeout" <==> e.reason == Timeout)
            && (r.reason == "validation" <==> e.reason == ValidationError)
            && (r.reason == "unknown" <==> e.reason == UnknownError)
  {
    assert "max_retries"[0] == 'm' && "circuit_breaker"[0] == 'c' && "timeout"[0] == 't';
    assert "validation"[0] == 'v' && "unknown"[0] == 'u';
  }

  // ---- The queue ----------------------------------------------------------------------

  /** The file of an entry is named after its job. */
  type Files = map<JobId, File>

  datatype Queue = Queue(entries: seq<Entry>, files: Files)

  function Persisted(files: Files, e: Entry): Files {
    files[e.jobId := Json(ToDict(e))]
  }

  function Added(q: Queue, e: Entry, maxEntries: int): Queue {
    var entries, files := q.entries + [e], Persisted(q.files, e);
    if |entries| > maxEntries then Queue(entries[1..], files - {entries[0].jobId})
    else Queue(entries, files)
  }

  /** list.remove: the first equal element. */
  function Removed(entries: seq<Entry>, e: Entry): seq<Entry> {
    if entries == [] then []
    else if entries[0] == e then entries[1..]
    else [entries[0]] + Removed(entries[1..], e)
  }

  /** The given entries taken out one after another, each with its file. */
  function RemovedAll(q: Queue, gone: seq<Entry>): Queue {
    if gone == [] then q
    else
      var n := |gone| - 1;
      var rest := RemovedAll(q, gone[..n]);
      Queue(Removed(rest.entries, gone[n]), rest.files - {gone[n].jobId})
  }

  function Old(entries: seq<Entry>, cutoff: real): seq<Entry> {
    if entries == [] then []
    else if entries[0].createdAt < cutoff then [entries[0]] + Old(entries[1..], cutoff)
    else Old(entries[1..], cutoff)
  }

  function Kept(entries: seq<Entry>, cutoff: real): seq<Entry> {
    if entries == [] then []
    else if entries[0].createdAt < cutoff then Kept(entries[1..], cutoff)
    else [entries[0]] + Kept(entries[1..], cutoff)
  }

  function Ids(entries: seq<Entry>): set<JobId> {
    set e | e in entries :: e.jobId
  }

  function Cleaned(q: Queue, cutoff: real): Queue {
    Queue(Kept(q.entries, cutoff), q.files - Ids(Old(q.entries, cutoff)))
  }

  function IndexOf(entries: seq<Entry>, id: JobId): (i: nat)
    ensures i <= |entries| && (i < |entries| ==> entries[i].jobId == id)
  {
    if entries == [] || entries[0].jobId == id then 0 else 1 + IndexOf(entries[1..], id)
  }

  /** A replay counts in memory only. */
  function Replayed(q: Queue, id: JobId, now: real): Queue {
    var i := IndexOf(q.entries, id);
    if i == |q.entries| then q
    else
      var e := q.entries[i];
      q.(entries := q.entries[i := e.(replayCount := e.replayCount + 1, lastRetryAt := Some(now))])
  }

  /** The entries of the readable ones among the named files. */
  function Parsed(files: Files, names: seq<JobId>): seq<Entry> {
    if names == [] then []
    else
      var n := |names| - 1;
      var rest := Parsed(files, names[..n]);
      if names[n] in files && files[names[n]].Json? && FromDict(files[names[n]].record).Some?
      then rest + [FromDict(files[names[n]].record).value] else rest
  }

  /** Into its place by creation time, after its equals. */
  function Inserted(entries: seq<Entry>, e: Entry): seq<Entry> {
    if entries == [] || entries[|entries| - 1].createdAt <= e.createdAt then entries + [e]
    else Inserted(entries[..|entries| - 1], e) + [entries[|entries| - 1]]
  }

  /** The stable sort by creation time. */
  function SortedByCreation(entries: seq<Entry>): seq<Entry> {
    if entries == [] then []
    else Inserted(SortedByCreation(entries[..|entries| - 1]), entries[|entries| - 1])
  }

  /** The replay fields as they are when an entry is made. */
  function Stripped(e: Entry): Entry {
    e.(lastRetryAt := None, replayCount := 0)
  }

  // ---- What every step keeps ------------------------------------------------------------

  ghost predicate StrictlyOrdered(entries: seq<Entry>) {
    forall i, j :: 0 <= i < j < |entries| ==> entries[i].createdAt < entries[j].createdAt
  }

  ghost predicate DistinctIds(entries: seq<Entry>) {
    forall i, j :: 0 <= i < j < |entries| ==> entries[i].jobId != entries[j].jobId
  }

  /** The file of e holds e, but for the replay fields. */
  ghost predicate OnDisk(files: Files, e: Entry) {
    e.jobId in files && files[e.jobId] == Json(ToDict(Stripped(e)))
  }

  /** Disk equals memory, but for the replay fields. */
  ghost predicate Mirrors(files: Files, entries: seq<Entry>) {
    && files.Keys == Ids(entries)
    && forall e :: e in entries ==> OnDisk(files, e)
  }

  ghost predicate Valid(q: Queue, maxEntries: int) {
    && |q.entries| <= Max0(maxEntries)
    && StrictlyOrdered(q.entries) && DistinctIds(q.entries) && Mirrors(q.files, q.entries)
  }

  ghost predicate Fresh(q: Queue, e: Entry) {
    && e == Stripped(e)
    && forall f :: f in q.entries ==> f.jobId != e.jobId && f.createdAt < e.createdAt
  }

  class DeadLetterQueue {
    const maxEntries: int
    const retentionDays: int
    var entries: seq<Entry>
    var files: Files

    ghost function Value(): Queue
      reads this
    {
      Queue(entries, files)
    }

    constructor (maxEntries: int, retentionDays: int)
      ensures Value() == Queue([], map[]) && this.maxEntries == maxEntries && this.retentionDays == retentionDays
    {
      this.maxEntries, this.retentionDays, entries, files := maxEntries, retentionDays, [], map[];
    }

    method Add(jobId: JobId, payload: string, meta: string, reason: Reason, errorMessage: string, retryCount: int,
               now: real)
      modifies this
      ensures var entry := Entry(jobId, payload, meta, reason, errorMessage, retryCount, now, None, 0);
              Value() == Added(old(Value()), entry, maxEntries)
    {
      var entry := Entry(jobId, payload, meta, reason, errorMessage, retryCount, now, None, 0);
      entries := entries + [entry];
      files := files[jobId := Json(ToDict(entry))];
      if |entries| > maxEntries {
        var removed := entries[0];
        entries := entries[1..];
        files := files - {removed.jobId};
      }
    }

    /** Removes the old entries one by one; with distinct ids that is a filter. */
    method Cleanup(now: real) returns (removed: nat)
      modifies this
      ensures var cutoff := now - (retentionDays * 86400) as real;
              && Value() == RemovedAll(old(Value()), Old(old(entries), cutoff))
              && removed == |Old(old(entries), cutoff)|
              && (DistinctIds(old(entries)) ==>
                    Value() == Cleaned(old(Value()), cutoff) && removed == |old(entries)| - |entries|)
    {
      ghost var before := Value();
      var cutoff := now - (retentionDays * 86400) as real;
      var toRemove := Old(entries, cutoff);
      removed := RemoveAll(toRemove);
      if DistinctIds(before.entries) {
        RemovingOldIsCleaning(before, cutoff);
        OldAndKept(before.entries, cutoff);
      }
    }

    method RemoveAll(gone: seq<Entry>) returns (removed: nat)
      modifies this
      ensures Value() == RemovedAll(old(Value()), gone) && removed == |gone|
    {
      removed := 0;
      for i := 0 to |gone|
        invariant removed == i && Value() == RemovedAll(old(Value()), gone[..i])
      {
        assert gone[..i + 1][..i] == gone[..i];
        entries := Removed(entries, gone[i]);
        files := files - {gone[i].jobId};
        removed := removed + 1;
      }
      assert gone[..|gone|] == gone;
    }

    /** `handled` says whether there is a handler for an entry of a given reason, `succeeds` whether it returns. */
    method Replay(id: JobId, handled: Reason -> bool, succeeds: bool, now: real) returns (ok: bool)
      modifies this`entries
      ensures var i := IndexOf(old(entries), id);
              && (i < |old(entries)| <==> exists e :: e in old(entries) && e.jobId == id)
              && if i < |old(entries)| && handled(old(entries)[i].reason)
                 then Value() == Replayed(old(Value()), id, now) && ok == succeeds
                 else Value() == old(Value()) && !ok
    {
      var i := IndexOf(entries, id);
      IndexFinds(entries, id);
      if i == |entries| || !handled(entries[i].reason) {
        return false;
      }
      entries := entries[i := entries[i].(replayCount := entries[i].replayCount + 1, lastRetryAt := Some(now))];
      return succeeds;
    }

    /** The files may be listed in any order. */
    method LoadFromDisk(listing: seq<JobId>)
      modifies this`entries
      ensures entries == SortedByCreation(Parsed(files, listing))
    {
      entries := [];
      for i := 0 to |listing|
        invariant entries == Parsed(files, listing[..i])
      {
        assert listing[..i + 1][..i] == listing[..i];
        if listing[i] in files {
          match files[listing[i]]
          case Unreadable =>
          case Json(record) =>
            var entry := FromDict(record);
            if entry.Some? {
              entries := entries + [entry.value];
            }
        }
      }
      assert listing[..|listing|] == listing;
      entries := SortedByCreation(entries);
    }
  }

  lemma {:induction false} IndexFinds(entries: seq<Entry>, id: JobId)
    ensures IndexOf(entries, id) < |entries| <==> exists e :: e in entries && e.jobId == id
  {
    if entries != [] {
      IndexFinds(entries[1..], id);
    }
  }

  // ---- Cleaning up one by one ---------------------------------------------------------------

  /** The entries that are not among the given ones. */
  function Without(entries: seq<Entry>, gone: seq<Entry>): seq<Entry> {
    if entries == [] then []
    else if entries[0] in gone then Without(entries[1..], gone)
    else [entries[0]] + Without(entries[1..], gone)
  }

  lemma {:induction false} OldAndKept(entries: seq<Entry>, cutoff: real)
    ensures |Old(entries, cutoff)| + |Kept(entries, cutoff)| == |entries|
    ensures forall e :: e in Old(entries, cutoff) <==> e in entries && e.createdAt < cutoff
    ensures forall e :: e in Kept(entries, cutoff) <==> e in entries && !(e.createdAt < cutoff)
  {
    if entries != [] {
      OldAndKept(entries[1..], cutoff);
    }
  }

  lemma {:induction false} WithoutNothing(entries: seq<Entry>)
    ensures Without(entries, []) == entries
  {
    if entries != [] {
      WithoutNothing(entries[1..]);
    }
  }

  lemma {:induction false} WithoutIsKept(entries: seq<Entry>, gone: seq<Entry>, cutoff: real)
    requires forall e :: e in entries ==> (e in gone <==> e.createdAt < cutoff)
    ensures Without(entries, gone) == Kept(entries, cutoff)
  {
    if entries != [] {
      WithoutIsKept(entries[1..], gone, cutoff);
    }
  }

  lemma WithoutOld(entries: seq<Entry>, cutoff: real)
    ensures Without(entries, Old(entries, cutoff)) == Kept(entries, cutoff)
  {
    OldAndKept(entries, cutoff);
    WithoutIsKept(entries, Old(entries, cutoff), cutoff);
  }

  ghost predicate Distinct(entries: seq<Entry>) {
    forall i, j :: 0 <= i < j < |entries| ==> entries[i] != entries[j]
  }

  lemma RemovedHead(e: Entry, rest: seq<Entry>)
    ensures Removed([e] + rest, e) == rest
  {
  }

  lemma RemovedInTail(first: Entry, rest: seq<Entry>, e: Entry)
    requires first != e && e in rest
    ensures Removed([first] + rest, e) == [first] + Removed(rest, e)
  {
    assert ([first] + rest)[1..] == rest;
  }

  lemma WithoutCons(first: Entry, rest: seq<Entry>, gone: seq<Entry>)
    ensures Without([first] + rest, gone) ==
            if first in gone then Without(rest, gone) else [first] + Without(rest, gone)
  {
    assert ([first] + rest)[1..] == rest;
  }

  lemma RemoveLater(first: Entry, rest: seq<Entry>, gone: seq<Entry>, e: Entry)
    requires first != e && e in Without(rest, gone)
    requires Removed(Without(rest, gone), e) == Without(rest, gone + [e])
    ensures e in Without([first] + rest, gone)
    ensures Removed(Without([first] + rest, gone), e) == Without([first] + rest, gone + [e])
  {
    WithoutCons(first, rest, gone);
    WithoutCons(first, rest, gone + [e]);
    assert first in gone + [e] <==> first in gone;
    if first !in gone {
      RemovedInTail(first, Without(rest, gone), e);
    }
  }

  lemma {:induction false} RemoveOne(entries: seq<Entry>, gone: seq<Entry>, e: Entry)
    requires Distinct(entries) && e in entries && e !in gone
    ensures e in Without(entries, gone) && Removed(Without(entries, gone), e) == Without(entries, gone + [e])
  {
    var first, rest := entries[0], entries[1..];
    if first == e {
      SameWithout(rest, gone, e);
      RemovedHead(e, Without(rest, gone));
    } else {
      RemoveOne(rest, gone, e);
      RemoveLater(first, rest, gone, e);
      assert entries == [first] + rest;
    }
  }

  lemma {:induction false} SameWithout(entries: seq<Entry>, gone: seq<Entry>, e: Entry)
    requires e !in entries
    ensures Without(entries, gone + [e]) == Without(entries, gone)
  {
    if entries != [] {
      SameWithout(entries[1..], gone, e);
    }
  }

  lemma {:induction false} OldIsDistinct(entries: seq<Entry>, cutoff: real)
    requires Distinct(entries)
    ensures Distinct(Old(entries, cutoff))
  {
    if entries != [] {
      OldIsDistinct(entries[1..], cutoff);
      OldAndKept(entries[1..], cutoff);
      assert forall x :: x in entries[1..] ==> x != entries[0];
    }
  }

  lemma {:induction false} RemovedAllIsWithout(q: Queue, gone: seq<Entry>)
    requires Distinct(q.entries) && Distinct(gone) && forall e :: e in gone ==> e in q.entries
    ensures RemovedAll(q, gone) == Queue(Without(q.entries, gone), q.files - Ids(gone))
  {
    if gone == [] {
      WithoutNothing(q.entries);
      assert q.files - Ids([]) == q.files;
    } else {
      var n := |gone| - 1;
      RemovedAllIsWithout(q, gone[..n]);
      RemoveOne(q.entries, gone[..n], gone[n]);
      FilesOfAll(q.files, gone);
    }
  }

  lemma FilesOfAll(files: Files, gone: seq<Entry>)
    requires gone != []
    ensures var n := |gone| - 1;
            && gone == gone[..n] + [gone[n]]
            && files - Ids(gone) == (files - Ids(gone[..n])) - {gone[n].jobId}
  {
    var n := |gone| - 1;
    assert gone == gone[..n] + [gone[n]];
    IdsAppend(gone[..n], gone[n]);
  }

  lemma IdsAppend(entries: seq<Entry>, e: Entry)
    ensures Ids(entries + [e]) == Ids(entries) + {e.jobId}
  {
    assert forall x :: x in entries + [e] <==> x in entries || x == e;
  }

  /** With distinct entries, taking the old ones out one by one is keeping the others. */
  lemma RemovingOldIsCleaning(q: Queue, cutoff: real)
    requires DistinctIds(q.entries)
    ensures RemovedAll(q, Old(q.entries, cutoff)) == Cleaned(q, cutoff)
  {
    assert Distinct(q.entries);
    OldAndKept(q.entries, cutoff);
    OldIsDistinct(q.entries, cutoff);
    RemovedAllIsWithout(q, Old(q.entries, cutoff));
    WithoutOld(q.entries, cutoff);
  }
}
