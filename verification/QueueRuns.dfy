/** Whole runs of the job queue: where every job is, what the depth reports, how many
    failures a job survives, how long a queue takes to drain, and what is popped first. */
module QueueRuns {
  import opened Options
  import opened Sums
  import opened DistributedQueue

  datatype Event =
    | EnqueueJob(id: JobId, payload: string, priority: int, now: real)
    | ClaimNext(worker: string, now: real)
    | CompleteClaimed(id: JobId, result: Option<string>, error: Option<string>, now: real)
    | CleanStale(now: real)
    | PurgeDead(maxAge: real, now: real)

  /** How a pending job got its score. */
  datatype Origin = Fresh | Recovered | Retried

  datatype Ticket = Ticket(origin: Origin, at: real)

  /** The queue, and what has been recorded about every job id ever enqueued. */
  datatype Run = Run(
    q: Queue, completed: set<JobId>, purged: set<JobId>, failures: map<JobId, nat>, tickets: map<JobId, Ticket>)

  const START := Run(EMPTY, {}, {}, map[], map[])

  /** Ids are fresh when enqueued, and only claimed jobs are completed. */
  predicate Enabled(r: Run, e: Event) {
    match e
    case EnqueueJob(id, _, _, _) => id !in r.q.jobs
    case CompleteClaimed(id, _, _, _) => id in r.q.claimed
    case _ => true
  }

  /** One event; an event that is not enabled does nothing. */
  ghost function Step(config: Config, r: Run, e: Event): Run {
    if !Enabled(r, e) then r else
    match e
    case EnqueueJob(id, payload, priority, now) =>
      r.(q := Enqueued(r.q, id, payload, priority, now),
         failures := r.failures[id := 0], tickets := r.tickets[id := Ticket(Fresh, now)])
    case ClaimNext(worker, now) =>
      r.(q := Claim(r.q, config, worker, now).0)
    case CompleteClaimed(id, result, error, now) =>
      var q := Complete(r.q, config, id, result, error, now);
      if !IsError(error) then r.(q := q, completed := r.completed + {id})
      else r.(q := q,
              failures := if id in r.failures then r.failures[id := r.failures[id] + 1] else r.failures,
              tickets := r.tickets[id := Ticket(Retried, now)])
    case CleanStale(now) =>
      var stale := UpTo(r.q.claimed, now - config.claimTimeout) * r.q.jobs.Keys;
      r.(q := Cleaned(r.q, config, now),
         tickets := r.tickets + map id | id in stale :: Ticket(Recovered, now))
    case PurgeDead(maxAge, now) =>
      r.(q := Purged(r.q, maxAge, now), purged := r.purged + UpTo(r.q.dead, now - maxAge))
  }

  ghost function RunFrom(config: Config, r: Run, es: seq<Event>): Run {
    if es == [] then r else Step(config, RunFrom(config, r, es[..|es| - 1]), es[|es| - 1])
  }

  ghost function After(config: Config, es: seq<Event>): Run {
    RunFrom(config, START, es)
  }

  // ---- Every job is in exactly one place ----------------------------------------

  /** The records of one job agree with its place and with what has happened to it. */
  ghost predicate Agrees(r: Run, id: JobId)
    requires id in r.q.jobs
  {
    && (id in r.completed <==> r.q.jobs[id].status == Completed)
    && (id in r.purged <==> r.q.jobs[id].status == Failed && id !in r.q.dead)
    && id in r.failures && r.failures[id] == r.q.jobs[id].retryCount
  }

  ghost predicate Accounted(config: Config, r: Run) {
    && Valid(r.q, config)
    && r.completed <= r.q.jobs.Keys && r.purged <= r.q.jobs.Keys && r.failures.Keys == r.q.jobs.Keys
    && forall id :: id in r.q.jobs ==> Agrees(r, id)
  }

  lemma EnqueueKeepsAccount(config: Config, r: Run, e: Event)
    requires Accounted(config, r) && e.EnqueueJob? && Enabled(r, e)
    ensures Accounted(config, Step(config, r, e))
  {
    EnqueueKeepsValid(r.q, config, e.id, e.payload, e.priority, e.now);
    var r' := Step(config, r, e);
    forall id | id in r'.q.jobs ensures Agrees(r', id) {
      assert id in r.q.jobs ==> Agrees(r, id);
    }
  }

  lemma ClaimKeepsAccount(config: Config, r: Run, e: Event)
    requires Accounted(config, r) && e.ClaimNext?
    ensures Accounted(config, Step(config, r, e))
  {
    ClaimIsDirect(r.q, config, e.worker, e.now);
    ClaimKeepsValid(r.q, config, e.worker, e.now);
    var r' := Step(config, r, e);
    forall id | id in r'.q.jobs ensures Agrees(r', id) {
      assert Agrees(r, id) && Placed(r.q, config, id);
    }
  }

  lemma CompleteAgrees(config: Config, r: Run, e: Event)
    requires e.CompleteClaimed? && e.id in r.q.claimed && e.id in r.q.jobs
    requires Placed(r.q, config, e.id) && Agrees(r, e.id)
    ensures e.id in Step(config, r, e).q.jobs && Agrees(Step(config, r, e), e.id)
  {
  }

  lemma OthersAgree(config: Config, r: Run, e: Event, id: JobId)
    requires e.CompleteClaimed? && e.id in r.q.claimed && id != e.id && id in r.q.jobs && Agrees(r, id)
    ensures id in Step(config, r, e).q.jobs && Agrees(Step(config, r, e), id)
  {
    CompleteTouchesOne(r.q, config, e.id, e.result, e.error, e.now, id);
  }

  lemma CompleteKeepsAccount(config: Config, r: Run, e: Event)
    requires Accounted(config, r) && e.CompleteClaimed? && Enabled(r, e)
    ensures Accounted(config, Step(config, r, e))
  {
    CompleteKeepsValidIff(r.q, config, e.id, e.result, e.error, e.now);
    var r' := Step(config, r, e);
    CompleteKeepsIds(r.q, config, e.id, e.result, e.error, e.now);
    forall id | id in r.q.jobs ensures Agrees(r', id) {
      assert Agrees(r, id) && Placed(r.q, config, id);
      if id == e.id {
        CompleteAgrees(config, r, e);
      } else {
        OthersAgree(config, r, e, id);
      }
    }
  }

  lemma CleanKeepsAccount(config: Config, r: Run, e: Event)
    requires Accounted(config, r) && e.CleanStale?
    ensures Accounted(config, Step(config, r, e))
  {
    CleanupKeepsValid(r.q, config, e.now);
    var r' := Step(config, r, e);
    forall id | id in r'.q.jobs ensures Agrees(r', id) {
      assert Agrees(r, id) && Placed(r.q, config, id);
    }
  }

  lemma PurgeKeepsAccount(config: Config, r: Run, e: Event)
    requires Accounted(config, r) && e.PurgeDead?
    ensures Accounted(config, Step(config, r, e))
  {
    PurgeKeepsValid(r.q, config, e.maxAge, e.now);
    var r' := Step(config, r, e);
    forall id | id in r'.q.jobs ensures Agrees(r', id) {
      assert Agrees(r, id) && Placed(r.q, config, id);
    }
  }

  lemma StepKeepsAccount(config: Config, r: Run, e: Event)
    requires Accounted(config, r)
    ensures Accounted(config, Step(config, r, e))
  {
    if Enabled(r, e) {
      match e
      case EnqueueJob(_, _, _, _) => EnqueueKeepsAccount(config, r, e);
      case ClaimNext(_, _) => ClaimKeepsAccount(config, r, e);
      case CompleteClaimed(_, _, _, _) => CompleteKeepsAccount(config, r, e);
      case CleanStale(_) => CleanKeepsAccount(config, r, e);
      case PurgeDead(_, _) => PurgeKeepsAccount(config, r, e);
    }
  }

  lemma {:induction false} RunIsAccounted(config: Config, es: seq<Event>)
    ensures Accounted(config, After(config, es))
  {
    if es != [] {
      RunIsAccounted(config, es[..|es| - 1]);
      StepKeepsAccount(config, After(config, es[..|es| - 1]), es[|es| - 1]);
    }
  }

  lemma StepAddsTheEnqueued(config: Config, r: Run, e: Event)
    requires Accounted(config, r)
    ensures Step(config, r, e).q.jobs.Keys == r.q.jobs.Keys + if e.EnqueueJob? then {e.id} else {}
  {
    match e
    case ClaimNext(worker, now) => ClaimIsDirect(r.q, config, worker, now);
    case CompleteClaimed(id, result, error, now) => CompleteKeepsIds(r.q, config, id, result, error, now);
    case _ =>
  }

  /** The jobs on record are those that were enqueued; none is forgotten. */
  lemma {:induction false} JobsAreTheEnqueued(config: Config, es: seq<Event>, id: JobId)
    ensures id in After(config, es).q.jobs <==> exists i :: 0 <= i < |es| && es[i].EnqueueJob? && es[i].id == id
  {
    if es != [] {
      var n := |es| - 1;
      JobsAreTheEnqueued(config, es[..n], id);
      RunIsAccounted(config, es[..n]);
      StepAddsTheEnqueued(config, After(config, es[..n]), es[n]);
      if i :| 0 <= i < n && es[..n][i].EnqueueJob? && es[..n][i].id == id {
        assert es[i] == es[..n][i];
      }
      if i :| 0 <= i < n && es[i].EnqueueJob? && es[i].id == id {
        assert es[..n][i] == es[i];
      }
    }
  }

  datatype Place = InPending | InClaimed | InDead | IsCompleted | IsPurged

  ghost function Places(r: Run, id: JobId): set<Place> {
    (if id in r.q.pending then {InPending} else {}) +
    (if id in r.q.claimed then {InClaimed} else {}) +
    (if id in r.q.dead then {InDead} else {}) +
    (if id in r.completed then {IsCompleted} else {}) +
    (if id in r.purged then {IsPurged} else {})
  }

  function StatusIn(p: Place): Status {
    match p
    case InPending => Pending
    case InClaimed => Claimed
    case InDead => Failed
    case IsCompleted => Completed
    case IsPurged => Failed
  }

  /** In every run, an enqueued job is in exactly one place, its stored status says which kind,
      and it has been given up exactly when it has failed as often as allowed. */
  lemma ExactlyOnePlace(config: Config, es: seq<Event>, id: JobId)
    requires id in After(config, es).q.jobs
    ensures var r := After(config, es);
            exists p :: Places(r, id) == {p} && r.q.jobs[id].status == StatusIn(p) &&
                        id in r.failures && (p == InDead || p == IsPurged <==> r.failures[id] == Limit(config))
  {
    RunIsAccounted(config, es);
    var r := After(config, es);
    assert Placed(r.q, config, id) && Agrees(r, id);
    var p := if id in r.q.pending then InPending else if id in r.q.claimed then InClaimed
             else if id in r.q.dead then InDead else if id in r.completed then IsCompleted else IsPurged;
    assert Places(r, id) == {p};
  }

  /** The reported total is the number of jobs enqueued less those completed and purged. */
  lemma DepthIsBalance(config: Config, es: seq<Event>)
    ensures var r := After(config, es);
            QueueDepth(r.q).total == |r.q.jobs| - |r.completed| - |r.purged|
  {
    RunIsAccounted(config, es);
    AccountedDepth(config, After(config, es));
  }

  lemma AccountedDepth(config: Config, r: Run)
    requires Accounted(config, r)
    ensures QueueDepth(r.q).total == |r.q.jobs| - |r.completed| - |r.purged|
  {
    forall id | id in r.q.jobs
      ensures InOne(id, r.q.pending.Keys, r.q.claimed.Keys, r.q.dead.Keys, r.completed, r.purged)
    {
      assert Placed(r.q, config, id) && Agrees(r, id);
    }
    FiveParts(r.q.jobs.Keys, r.q.pending.Keys, r.q.claimed.Keys, r.q.dead.Keys, r.completed, r.purged);
  }

  ghost predicate InOne(id: JobId, a: set<JobId>, b: set<JobId>, c: set<JobId>, d: set<JobId>, e: set<JobId>) {
    && (id in a ==> id !in b && id !in c && id !in d && id !in e)
    && (id in b ==> id !in c && id !in d && id !in e)
    && (id in c ==> id !in d && id !in e)
    && (id in d ==> id !in e)
    && (id in a || id in b || id in c || id in d || id in e)
  }

  lemma FiveParts(all: set<JobId>, a: set<JobId>, b: set<JobId>, c: set<JobId>, d: set<JobId>, e: set<JobId>)
    requires forall id :: id in all ==> InOne(id, a, b, c, d, e)
    requires a <= all && b <= all && c <= all && d <= all && e <= all
    ensures |all| == |a| + |b| + |c| + |d| + |e|
  {
    assert all == a + b + c + d + e;
    assert a !! b && (a + b) !! c && (a + b + c) !! d && (a + b + c + d) !! e;
  }

  /** No claim in any run takes the branch that puts a popped job back and starts over. */
  lemma ClaimNeverStartsOver(config: Config, es: seq<Event>, worker: string, now: real)
    ensures var q := After(config, es).q;
            var outcome := Claim(q, config, worker, now).1;
            if q.pending == map[] then outcome == Nothing else outcome.Got? && outcome.id == Next(q.pending)
  {
    RunIsAccounted(config, es);
    ClaimIsDirect(After(config, es).q, config, worker, now);
  }

  /** Completing a claimed job puts it among the dead exactly when this is its last allowed failure. */
  lemma DeadOnLastFailure(
    config: Config, es: seq<Event>, id: JobId, result: Option<string>, error: Option<string>, now: real)
    requires id in After(config, es).q.claimed
    ensures var r := After(config, es);
            && id in r.failures
            && (id in Step(config, r, CompleteClaimed(id, result, error, now)).q.dead <==>
                IsError(error) && r.failures[id] + 1 == Limit(config))
  {
    RunIsAccounted(config, es);
    var r := After(config, es);
    assert Placed(r.q, config, id) && Agrees(r, id);
  }

  // ---- Draining ------------------------------------------------------------------

  ghost function Live(q: Queue): set<JobId> {
    q.pending.Keys + q.claimed.Keys
  }

  /** Steps a live job can still take part in. */
  ghost function Remaining(config: Config, q: Queue, id: JobId): int {
    if id !in q.jobs then 0
    else 2 * (Limit(config) - q.jobs[id].retryCount) - if id in q.claimed then 1 else 0
  }

  ghost function Work(config: Config, q: Queue): int {
    Sum(Live(q), (id: JobId) => Remaining(config, q, id))
  }

  /** A step of the workers that does something: a claim of a job, or a completion of one. */
  predicate Progress(r: Run, e: Event) {
    (e.ClaimNext? && r.q.pending != map[]) || (e.CompleteClaimed? && e.id in r.q.claimed)
  }

  predicate WorkerEvent(e: Event) {
    e.ClaimNext? || e.CompleteClaimed? || e.PurgeDead?
  }

  ghost function ProgressSteps(config: Config, r: Run, es: seq<Event>): nat {
    if es == [] then 0
    else ProgressSteps(config, r, es[..|es| - 1]) +
         if Progress(RunFrom(config, r, es[..|es| - 1]), es[|es| - 1]) then 1 else 0
  }

  /** Work changes only through the one job that moved. */
  lemma WorkThrough(config: Config, q: Queue, q': Queue, id: JobId)
    requires id in Live(q)
    requires Live(q') == Live(q) || Live(q') == Live(q) - {id}
    requires forall other :: other in Live(q) && other != id ==>
               Remaining(config, q', other) == Remaining(config, q, other)
    ensures Work(config, q) - Work(config, q') ==
            Remaining(config, q, id) - if id in Live(q') then Remaining(config, q', id) else 0
  {
    var w := (x: JobId) => Remaining(config, q, x);
    var w' := (x: JobId) => Remaining(config, q', x);
    SumPick(Live(q), w, id);
    SumSame(Live(q) - {id}, w, w');
    if id in Live(q') {
      SumPick(Live(q'), w', id);
    }
  }

  lemma ClaimLowersWork(config: Config, q: Queue, worker: string, now: real)
    requires Valid(q, config) && q.pending != map[]
    ensures Work(config, Claim(q, config, worker, now).0) < Work(config, q)
  {
    ClaimIsDirect(q, config, worker, now);
    var q', id := Claim(q, config, worker, now).0, Next(q.pending);
    assert Placed(q, config, id);
    assert Live(q') == Live(q);
    WorkThrough(config, q, q', id);
  }

  lemma CompleteMovesOne(
      q: Queue, config: Config, id: JobId, result: Option<string>, error: Option<string>, now: real)
    requires Valid(q, config) && id in q.claimed
    ensures var q' := Complete(q, config, id, result, error, now);
            Live(q') == if id in q'.pending then Live(q) else Live(q) - {id}
  {
    assert Placed(q, config, id);
  }

  lemma CompleteLowersWork(
      config: Config, q: Queue, id: JobId, result: Option<string>, error: Option<string>, now: real)
    requires Valid(q, config) && id in q.claimed
    ensures Work(config, Complete(q, config, id, result, error, now)) < Work(config, q)
  {
    var q' := Complete(q, config, id, result, error, now);
    assert Placed(q, config, id);
    CompleteMovesOne(q, config, id, result, error, now);
    forall other | other in Live(q) && other != id
      ensures Remaining(config, q', other) == Remaining(config, q, other)
    {
      CompleteTouchesOne(q, config, id, result, error, now, other);
    }
    WorkThrough(config, q, q', id);
  }

  lemma WorkIsNatural(config: Config, q: Queue)
    requires Valid(q, config)
    ensures Work(config, q) >= 0
    ensures Live(q) != {} ==> Work(config, q) > 0
  {
    forall id | id in Live(q) ensures 1 <= Remaining(config, q, id) <= 2 * Limit(config) {
      assert Placed(q, config, id);
    }
    SumBounds(Live(q), (id: JobId) => Remaining(config, q, id), 1, 2 * Limit(config));
  }

  lemma PurgeKeepsWork(config: Config, q: Queue, maxAge: real, now: real)
    ensures Work(config, Purged(q, maxAge, now)) == Work(config, q)
  {
    var q' := Purged(q, maxAge, now);
    assert Live(q') == Live(q);
    SumSame(Live(q), (id: JobId) => Remaining(config, q, id), (id: JobId) => Remaining(config, q', id));
  }

  lemma WorkerStep(config: Config, r: Run, e: Event)
    requires Accounted(config, r) && WorkerEvent(e)
    ensures var r' := Step(config, r, e);
            Work(config, r'.q) <= Work(config, r.q) - if Progress(r, e) then 1 else 0
  {
    match e
    case ClaimNext(worker, now) =>
      if r.q.pending != map[] {
        ClaimLowersWork(config, r.q, worker, now);
      }
    case CompleteClaimed(id, result, error, now) =>
      if id in r.q.claimed {
        CompleteLowersWork(config, r.q, id, result, error, now);
      }
    case PurgeDead(maxAge, now) =>
      PurgeKeepsWork(config, r.q, maxAge, now);
    case EnqueueJob(_, _, _, _) => assert false;
    case CleanStale(_) => assert false;
  }

  /** Workers cannot make more steps than there is work. */
  lemma {:induction false} ProgressIsBounded(config: Config, r: Run, es: seq<Event>)
    requires Accounted(config, r) && forall e :: e in es ==> WorkerEvent(e)
    ensures Accounted(config, RunFrom(config, r, es))
    ensures ProgressSteps(config, r, es) + Work(config, RunFrom(config, r, es).q) <= Work(config, r.q)
    ensures ProgressSteps(config, r, es) <= Work(config, r.q)
  {
    if es != [] {
      var n := |es| - 1;
      ProgressIsBounded(config, r, es[..n]);
      WorkerStep(config, RunFrom(config, r, es[..n]), es[n]);
      StepKeepsAccount(config, RunFrom(config, r, es[..n]), es[n]);
    }
    WorkIsNatural(config, RunFrom(config, r, es).q);
  }

  /** n fresh jobs are drained within 2 * n * Limit steps; while a job is live another step is possible. */
  lemma FreshJobsDrain(config: Config, r: Run, es: seq<Event>, n: nat)
    requires Accounted(config, r) && r.q.claimed == map[] && |r.q.pending| == n
    requires forall id :: id in r.q.pending && id in r.q.jobs ==> r.q.jobs[id].retryCount == 0
    requires forall e :: e in es ==> WorkerEvent(e)
    ensures ProgressSteps(config, r, es) <= 2 * Limit(config) * n
    ensures ProgressSteps(config, r, es) == 2 * Limit(config) * n ==> Live(RunFrom(config, r, es).q) == {}
    ensures Live(RunFrom(config, r, es).q) != {} ==>
              exists e :: WorkerEvent(e) && Progress(RunFrom(config, r, es), e)
  {
    assert Live(r.q) == r.q.pending.Keys;
    SumBounds(Live(r.q), (id: JobId) => Remaining(config, r.q, id), 0, 2 * Limit(config));
    ProgressIsBounded(config, r, es);
    var r' := RunFrom(config, r, es);
    WorkIsNatural(config, r'.q);
    if id :| id in r'.q.claimed {
      assert WorkerEvent(CompleteClaimed(id, None, None, 0.0)) && Progress(r', CompleteClaimed(id, None, None, 0.0));
    } else if r'.q.pending != map[] {
      assert WorkerEvent(ClaimNext("", 0.0)) && Progress(r', ClaimNext("", 0.0));
    }
  }

  // ---- What is popped first --------------------------------------------------------

  /** The level at which a pending job competes: one lower after a failure, its own otherwise. */
  ghost function Level(r: Run, id: JobId): int
    requires id in r.q.jobs && id in r.tickets
  {
    r.q.jobs[id].priority + if r.tickets[id].origin == Retried then 1 else 0
  }

  ghost predicate Scored(r: Run, id: JobId) {
    && id in r.q.pending && id in r.q.jobs && id in r.tickets
    && r.q.pending[id] == Score(Level(r, id), r.tickets[id].at)
  }

  lemma CompleteScores(config: Config, r: Run, e: Event, id: JobId)
    requires Accounted(config, r) && e.CompleteClaimed? && e.id in r.q.claimed
    requires id in r.q.pending ==> Scored(r, id)
    requires id in Step(config, r, e).q.pending
    ensures Scored(Step(config, r, e), id)
  {
    assert Placed(r.q, config, e.id);
    if id != e.id {
      CompleteTouchesOne(r.q, config, e.id, e.result, e.error, e.now, id);
    }
  }

  lemma CleanScores(config: Config, r: Run, e: Event, id: JobId)
    requires Accounted(config, r) && e.CleanStale?
    requires id in r.q.pending ==> Scored(r, id)
    requires id in Step(config, r, e).q.pending
    ensures Scored(Step(config, r, e), id)
  {
    if id in r.q.pending {
      assert Placed(r.q, config, id);
    }
  }

  lemma StepKeepsScores(config: Config, r: Run, e: Event)
    requires Accounted(config, r) && forall id :: id in r.q.pending ==> Scored(r, id)
    ensures forall id :: id in Step(config, r, e).q.pending ==> Scored(Step(config, r, e), id)
  {
    if e.ClaimNext? {
      ClaimIsDirect(r.q, config, e.worker, e.now);
    }
    forall id | id in Step(config, r, e).q.pending ensures Scored(Step(config, r, e), id) {
      assert id in r.q.pending ==> Scored(r, id);
      if e.CompleteClaimed? && Enabled(r, e) {
        CompleteScores(config, r, e, id);
      } else if e.CleanStale? {
        CleanScores(config, r, e, id);
      }
    }
  }

  lemma {:induction false} RunIsScored(config: Config, es: seq<Event>)
    ensures forall id :: id in After(config, es).q.pending ==> Scored(After(config, es), id)
  {
    if es != [] {
      RunIsScored(config, es[..|es| - 1]);
      RunIsAccounted(config, es[..|es| - 1]);
      StepKeepsScores(config, After(config, es[..|es| - 1]), es[|es| - 1]);
    }
  }

  /** a competes at a better level than b, or at the same level and since no later. */
  ghost predicate Precedes(r: Run, a: JobId, b: JobId)
    requires Scored(r, a) && Scored(r, b)
  {
    Level(r, a) < Level(r, b) || (Level(r, a) == Level(r, b) && r.tickets[a].at <= r.tickets[b].at)
  }

  lemma ScoreOrder(la: int, ta: real, lb: int, tb: real)
    requires -1000000000.0 < ta - tb < 1000000000.0
    ensures Score(la, ta) <= Score(lb, tb) <==> la < lb || (la == lb && ta <= tb)
  {
    if la < lb {
      assert (lb * LEVEL) as real - (la * LEVEL) as real >= LEVEL as real by {
        assert lb * LEVEL - la * LEVEL >= LEVEL;
      }
    } else if lb < la {
      assert (la * LEVEL) as real - (lb * LEVEL) as real >= LEVEL as real by {
        assert la * LEVEL - lb * LEVEL >= LEVEL;
      }
    }
  }

  /** As long as waiting times differ by less than 10^9 seconds, a claim takes a job that
      precedes every other pending one by (level, time). */
  lemma PoppedByLevelThenTime(config: Config, es: seq<Event>, other: JobId)
    requires other in After(config, es).q.pending
    requires var r := After(config, es);
             forall a, b :: a in r.q.pending && b in r.q.pending && a in r.tickets && b in r.tickets ==>
               r.tickets[a].at - r.tickets[b].at < 1000000000.0
    ensures var r := After(config, es);
            var id := Next(r.q.pending);
            Scored(r, id) && Scored(r, other) && Precedes(r, id, other)
  {
    RunIsScored(config, es);
    var r := After(config, es);
    var id := Next(r.q.pending);
    assert Scored(r, id) && Scored(r, other) && NotAfter(r.q.pending, id, other);
    ScoreOrder(Level(r, id), r.tickets[id].at, Level(r, other), r.tickets[other].at);
  }

  // ---- A completion that comes too late ----------------------------------------------

  lemma StaleGoesBack(config: Config, q: Queue, id: JobId, now: real)
    requires Valid(q, config) && id in UpTo(q.claimed, now - config.claimTimeout)
    ensures id in Cleaned(q, config, now).pending
  {
  }

  lemma LateOutcome(
      config: Config, q: Queue, id: JobId, result: Option<string>, error: Option<string>, later: real)
    requires Valid(q, config) && id in q.pending
    ensures var late := Complete(q, config, id, result, error, later);
            && id in q.jobs && id in late.jobs
            && (Valid(late, config) <==> IsError(error) && q.jobs[id].retryCount + 1 < config.maxRetries)
            && (!IsError(error) ==> id in late.pending && late.jobs[id].status == Completed)
  {
    assert Placed(q, config, id);
    CompleteKeepsValidIff(q, config, id, result, error, later);
  }

  /** In every run: once a stale claim has been taken back, its worker's completion is harmless if and only if
      it reports a failure with a try to spare. A success leaves the job pending and completed at once. */
  lemma LateCompletion(
      config: Config, es: seq<Event>, id: JobId, result: Option<string>, error: Option<string>, now: real, later: real)
    requires id in UpTo(After(config, es).q.claimed, now - config.claimTimeout)
    ensures var q := After(config, es + [CleanStale(now)]).q;
            var late := Complete(q, config, id, result, error, later);
            && id in q.pending && id in q.jobs && id in late.jobs
            && (Valid(late, config) <==> IsError(error) && q.jobs[id].retryCount + 1 < config.maxRetries)
            && (!IsError(error) ==> id in late.pending && late.jobs[id].status == Completed)
  {
    RunIsAccounted(config, es);
    RunOne(config, es, CleanStale(now));
    var before := After(config, es).q;
    StaleGoesBack(config, before, id, now);
    CleanupKeepsValid(before, config, now);
    LateOutcome(config, Cleaned(before, config, now), id, result, error, later);
  }

  lemma RunOne(config: Config, es: seq<Event>, e: Event)
    ensures After(config, es + [e]) == Step(config, After(config, es), e)
  {
    assert (es + [e])[..|es|] == es;
  }

  // ---- What the records tell --------------------------------------------------------------

  /** The last claim of a job: its worker and its time. */
  ghost function LastClaim(config: Config, es: seq<Event>, id: JobId): Option<(string, real)> {
    if es == [] then None
    else
      var es', e := es[..|es| - 1], es[|es| - 1];
      if e.ClaimNext? && id in After(config, es').q.pending && id in After(config, es).q.claimed
      then Some((e.worker, e.now)) else LastClaim(config, es', id)
  }

  /** When the completion that made a job dead came. */
  ghost function DeathTime(config: Config, es: seq<Event>, id: JobId): Option<real> {
    if es == [] then None
    else
      var es', e := es[..|es| - 1], es[|es| - 1];
      if e.CompleteClaimed? && e.id == id && id in After(config, es').q.claimed && id in After(config, es).q.dead
      then Some(e.now) else DeathTime(config, es', id)
  }

  ghost predicate ClaimStands(q: Queue, id: JobId, claim: Option<(string, real)>) {
    id in q.claimed ==>
      && id in q.jobs && claim.Some?
      && q.claimed[id] == claim.value.1
      && q.jobs[id].workerId == Some(claim.value.0) && q.jobs[id].startedAt == Some(claim.value.1)
  }

  lemma CompletionKeepsClaims(config: Config, r: Run, e: Event, id: JobId, claim: Option<(string, real)>)
    requires Accounted(config, r) && ClaimStands(r.q, id, claim) && e.CompleteClaimed?
    ensures ClaimStands(Step(config, r, e).q, id, claim)
  {
    if e.id != id {
      CompleteTouchesOne(r.q, config, e.id, e.result, e.error, e.now, id);
    }
  }

  lemma StepOnClaim(config: Config, r: Run, e: Event, id: JobId, claim: Option<(string, real)>)
    requires Accounted(config, r) && ClaimStands(r.q, id, claim)
    ensures var r' := Step(config, r, e);
            ClaimStands(r'.q, id, if e.ClaimNext? && id in r.q.pending && id in r'.q.claimed
                                  then Some((e.worker, e.now)) else claim)
  {
    if id in r.q.jobs {
      assert Placed(r.q, config, id);
    }
    match e
    case ClaimNext(worker, now) => ClaimIsDirect(r.q, config, worker, now);
    case CompleteClaimed(_, _, _, _) => CompletionKeepsClaims(config, r, e, id, claim);
    case _ =>
  }

  lemma {:induction false} RunKnowsClaims(config: Config, es: seq<Event>, id: JobId)
    ensures ClaimStands(After(config, es).q, id, LastClaim(config, es, id))
  {
    if es != [] {
      RunKnowsClaims(config, es[..|es| - 1], id);
      RunIsAccounted(config, es[..|es| - 1]);
      StepOnClaim(config, After(config, es[..|es| - 1]), es[|es| - 1], id, LastClaim(config, es[..|es| - 1], id));
    }
  }

  lemma StepOnDeath(config: Config, r: Run, e: Event, id: JobId)
    requires Accounted(config, r) && id in Step(config, r, e).q.dead
    ensures var died := e.CompleteClaimed? && e.id == id && id in r.q.claimed;
            if died then Step(config, r, e).q.dead[id] == e.now
            else id in r.q.dead && Step(config, r, e).q.dead[id] == r.q.dead[id]
  {
    if e.ClaimNext? {
      ClaimIsDirect(r.q, config, e.worker, e.now);
    }
  }

  lemma {:induction false} RunKnowsDeaths(config: Config, es: seq<Event>, id: JobId)
    requires id in After(config, es).q.dead
    ensures DeathTime(config, es, id) == Some(After(config, es).q.dead[id])
  {
    var es', e := es[..|es| - 1], es[|es| - 1];
    RunIsAccounted(config, es');
    StepOnDeath(config, After(config, es'), e, id);
    if !(e.CompleteClaimed? && e.id == id && id in After(config, es').q.claimed) {
      RunKnowsDeaths(config, es', id);
    }
  }

  /** In every run, a cleanup takes back exactly the claims made no later than the timeout before it (and no earlier
      than time 0, where the range it asks Redis for begins); those go back to pending. */
  lemma StaleIff(config: Config, es: seq<Event>, id: JobId, now: real)
    requires id in After(config, es).q.claimed
    ensures LastClaim(config, es, id).Some?
    ensures var claimedAt := LastClaim(config, es, id).value.1;
            var q := After(config, es + [CleanStale(now)]).q;
            && (id in q.claimed <==> !(0.0 <= claimedAt <= now - config.claimTimeout))
            && (id !in q.claimed ==> id in q.pending)
  {
    RunKnowsClaims(config, es, id);
    RunOne(config, es, CleanStale(now));
  }

  /** In every run, a purge removes exactly the jobs that died no later than the given age before it (and no earlier
      than time 0). */
  lemma PurgedIff(config: Config, es: seq<Event>, id: JobId, maxAge: real, now: real)
    requires id in After(config, es).q.dead
    ensures DeathTime(config, es, id).Some?
    ensures id in After(config, es + [PurgeDead(maxAge, now)]).q.dead <==>
            !(0.0 <= DeathTime(config, es, id).value <= now - maxAge)
  {
    RunKnowsDeaths(config, es, id);
    RunOne(config, es, PurgeDead(maxAge, now));
  }

  /** The event that first brought a job in. */
  ghost function Origins(config: Config, es: seq<Event>, id: JobId): Option<Event> {
    if es == [] then None
    else
      var es', e := es[..|es| - 1], es[|es| - 1];
      if e.EnqueueJob? && e.id == id && id !in After(config, es').q.jobs then Some(e) else Origins(config, es', id)
  }

  /** The last completion of a job that was claimed, among those that failed or among the others. */
  ghost function LastCompletion(config: Config, es: seq<Event>, id: JobId, failed: bool): Option<Event> {
    if es == [] then None
    else
      var es', e := es[..|es| - 1], es[|es| - 1];
      if e.CompleteClaimed? && e.id == id && id in After(config, es').q.claimed && (failed <==> IsError(e.error))
      then Some(e) else LastCompletion(config, es', id, failed)
  }

  ghost predicate Tells(job: Job, origin: Option<Event>, success: Option<Event>, failure: Option<Event>) {
    && origin.Some? && origin.value.EnqueueJob?
    && job.payload == origin.value.payload && job.priority == origin.value.priority && job.createdAt == origin.value.now
    && (success.Some? ==> success.value.CompleteClaimed?) && (failure.Some? ==> failure.value.CompleteClaimed?)
    && job.result == (if success.Some? then success.value.result else None)
    && job.error == (if failure.Some? then failure.value.error else None)
    && (success.Some? ==> job.completedAt == Some(success.value.now))
    && (success.None? ==> job.completedAt == if failure.Some? then Some(failure.value.now) else None)
  }

  lemma OwnCompletionTells(
      config: Config, r: Run, e: Event, origin: Option<Event>, success: Option<Event>, failure: Option<Event>)
    requires Accounted(config, r) && e.CompleteClaimed? && e.id in r.q.claimed && success == None
    requires e.id in r.q.jobs && Tells(r.q.jobs[e.id], origin, success, failure)
    ensures var q' := Step(config, r, e).q;
            e.id in q'.jobs && Tells(q'.jobs[e.id], origin, if IsError(e.error) then None else Some(e),
                                     if IsError(e.error) then Some(e) else failure)
  {
  }

  /** Only its own completion changes what a stored record tells. */
  lemma OtherStepsTell(
      config: Config, r: Run, e: Event, id: JobId,
      origin: Option<Event>, success: Option<Event>, failure: Option<Event>)
    requires Accounted(config, r) && !(e.CompleteClaimed? && e.id == id && id in r.q.claimed)
    requires id in r.q.jobs && Tells(r.q.jobs[id], origin, success, failure)
    ensures id in Step(config, r, e).q.jobs && Tells(Step(config, r, e).q.jobs[id], origin, success, failure)
  {
    match e
    case ClaimNext(worker, now) => ClaimIsDirect(r.q, config, worker, now);
    case CompleteClaimed(other, result, error, now) =>
      if other != id {
        CompleteTouchesOne(r.q, config, other, result, error, now, id);
      }
    case _ =>
  }

  lemma NewJobTells(config: Config, r: Run, e: Event)
    requires e.EnqueueJob? && e.id !in r.q.jobs
    ensures var q' := Step(config, r, e).q;
            e.id in q'.jobs && Tells(q'.jobs[e.id], Some(e), None, None)
  {
  }

  lemma {:induction false} NoCompletionYet(config: Config, es: seq<Event>, id: JobId, failed: bool)
    requires id !in After(config, es).q.jobs
    ensures LastCompletion(config, es, id, failed) == None
  {
    if es != [] {
      var es', e := es[..|es| - 1], es[|es| - 1];
      RunIsAccounted(config, es');
      StepAddsTheEnqueued(config, After(config, es'), e);
      NoCompletionYet(config, es', id, failed);
    }
  }

  lemma {:induction false} SucceededIsCompleted(config: Config, es: seq<Event>, id: JobId)
    ensures LastCompletion(config, es, id, false).Some? ==> id in After(config, es).completed
  {
    if es != [] {
      SucceededIsCompleted(config, es[..|es| - 1], id);
    }
  }

  /** In every run, a stored job has the data it was enqueued with, the result of its successful completion, the error
      of its last failure, and the time of its last completion. */
  lemma {:induction false} RecordsTellHistory(config: Config, es: seq<Event>, id: JobId)
    requires id in After(config, es).q.jobs
    ensures Tells(After(config, es).q.jobs[id], Origins(config, es, id),
                  LastCompletion(config, es, id, false), LastCompletion(config, es, id, true))
  {
    var es', e := es[..|es| - 1], es[|es| - 1];
    var r := After(config, es');
    RunIsAccounted(config, es');
    StepAddsTheEnqueued(config, r, e);
    if id !in r.q.jobs {
      NoCompletionYet(config, es', id, false);
      NoCompletionYet(config, es', id, true);
      NewJobTells(config, r, e);
    } else {
      RecordsTellHistory(config, es', id);
      var origin, failure := Origins(config, es', id), LastCompletion(config, es', id, true);
      if e.CompleteClaimed? && e.id == id && id in r.q.claimed {
        SucceededIsCompleted(config, es', id);
        assert Placed(r.q, config, id) && Agrees(r, id);
        OwnCompletionTells(config, r, e, origin, None, failure);
      } else {
        OtherStepsTell(config, r, e, id, origin, LastCompletion(config, es', id, false), failure);
      }
    }
  }
}
