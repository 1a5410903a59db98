/** The Redis-backed job queue (engine/distributed_queue.py): one hash of jobs and
    three sorted sets. Every public method is one step on them, at one clock reading. */
module DistributedQueue {
  import opened Options
  import opened Lexicographic

  type JobId = string

  datatype Status = Pending | Claimed | Completed | Failed

  datatype Job = Job(
    payload: string, priority: int, createdAt: real, workerId: Option<string>, startedAt: Option<real>,
    completedAt: Option<real>, status: Status, result: Option<string>, error: Option<string>, retryCount: int)

  datatype Config = Config(claimTimeout: real, maxRetries: int)

  datatype Queue = Queue(
    jobs: map<JobId, Job>, pending: map<JobId, real>, claimed: map<JobId, real>, dead: map<JobId, real>)

  const EMPTY := Queue(map[], map[], map[], map[])

  const LEVEL := 1000000000

  function Score(level: int, now: real): real {
    (level * LEVEL) as real + now
  }

  /** zpopmin's choice: the least score and, among equals, the least member. */
  predicate NotAfter(scores: map<JobId, real>, a: JobId, b: JobId)
    requires a in scores && b in scores
  {
    scores[a] < scores[b] || (scores[a] == scores[b] && Le(a, b))
  }

  predicate IsNext(scores: map<JobId, real>, id: JobId) {
    id in scores && forall other :: other in scores ==> NotAfter(scores, id, other)
  }

  lemma {:induction false} NextExists(scores: map<JobId, real>)
    requires scores != map[]
    ensures exists id :: IsNext(scores, id)
    decreases scores.Keys
  {
    var x :| x in scores;
    LeTotal(x, x);
    var rest := scores - {x};
    if rest == map[] {
      forall other | other in scores ensures other == x {
        assert other !in rest;
      }
      assert IsNext(scores, x);
    } else {
      NextExists(rest);
      var m :| IsNext(rest, m);
      LeTotal(x, m);
      var least := if NotAfter(scores, x, m) then x else m;
      forall other | other in scores ensures NotAfter(scores, least, other) {
        if other != x && least == x && scores[x] == scores[m] == scores[other] {
          assert NotAfter(rest, m, other);
          LeTransitive(x, m, other);
        } else if other != x {
          assert NotAfter(rest, m, other);
        }
      }
      assert IsNext(scores, least);
    }
  }

  lemma NextIsUnique(scores: map<JobId, real>, a: JobId, b: JobId)
    requires IsNext(scores, a) && IsNext(scores, b)
    ensures a == b
  {
    assert NotAfter(scores, a, b) && NotAfter(scores, b, a);
    if scores[a] == scores[b] {
      LeAntisymmetric(a, b);
    }
  }

  ghost function Next(scores: map<JobId, real>): (id: JobId)
    requires scores != map[]
    ensures IsNext(scores, id)
  {
    NextExists(scores);
    var id :| IsNext(scores, id);
    id
  }

  // ---- The steps -------------------------------------------------------------

  function NewJob(payload: string, priority: int, now: real): Job {
    Job(payload, priority, now, None, None, None, Pending, None, None, 0)
  }

  function Enqueued(q: Queue, id: JobId, payload: string, priority: int, now: real): Queue {
    q.(jobs := q.jobs[id := NewJob(payload, priority, now)],
       pending := q.pending[id := Score(priority, now)])
  }

  datatype ClaimOutcome = Nothing | DataMissing(id: JobId) | PutBack(id: JobId) | Got(id: JobId, job: Job)

  /** Claimed, with a start time Python takes for true, and not timed out. */
  predicate StillClaimed(job: Job, timeout: real, now: real) {
    job.status == Claimed && job.startedAt.Some? && job.startedAt.value != 0.0 && now - job.startedAt.value < timeout
  }

  /** One pass through claim_job; it starts over when the outcome is PutBack. */
  ghost function Claim(q: Queue, config: Config, worker: string, now: real): (Queue, ClaimOutcome) {
    if q.pending == map[] then (q, Nothing)
    else
      var id := Next(q.pending);
      ClaimPopped(q.(pending := q.pending - {id}), id, config, worker, now)
  }

  function ClaimPopped(q: Queue, id: JobId, config: Config, worker: string, now: real): (Queue, ClaimOutcome) {
    if id !in q.jobs then (q, DataMissing(id))
    else if StillClaimed(q.jobs[id], config.claimTimeout, now) then
      (q.(pending := q.pending[id := Score(q.jobs[id].priority - 1, now)]), PutBack(id))
    else
      var job := q.jobs[id].(status := Claimed, workerId := Some(worker), startedAt := Some(now));
      (q.(jobs := q.jobs[id := job], claimed := q.claimed[id := now]), Got(id, job))
  }

  datatype ClaimResult = NoJob | GotJob(job: Job) | TooDeep

  /** claim_job from its k-th pass on. */
  ghost function ClaimFrom(q: Queue, config: Config, worker: string, now: nat -> real, k: nat, depth: nat)
    : (Queue, ClaimResult)
    requires k <= depth
    decreases depth - k
  {
    if k == depth then (q, TooDeep)
    else
      var (q', outcome) := Claim(q, config, worker, now(k));
      match outcome
      case Nothing => (q', NoJob)
      case DataMissing(_) => (q', NoJob)
      case Got(_, job) => (q', GotJob(job))
      case PutBack(_) => ClaimFrom(q', config, worker, now, k + 1, depth)
  }

  /** An error counts only if it is a non-empty string. */
  predicate IsError(error: Option<string>) {
    error.Some? && error.value != ""
  }

  function Complete(q: Queue, config: Config, id: JobId, result: Option<string>, error: Option<string>, now: real)
    : Queue
  {
    if id !in q.jobs then q
    else
      var job := q.jobs[id].(completedAt := Some(now));
      if !IsError(error) then
        q.(jobs := q.jobs[id := job.(status := Completed, result := result)], claimed := q.claimed - {id})
      else
        var failed := job.(status := Failed, error := error, retryCount := job.retryCount + 1);
        if failed.retryCount < config.maxRetries then
          q.(jobs := q.jobs[id := failed.(status := Pending, workerId := None, startedAt := None)],
             pending := q.pending[id := Score(failed.priority + 1, now)],
             claimed := q.claimed - {id})
        else
          q.(jobs := q.jobs[id := failed], dead := q.dead[id := now], claimed := q.claimed - {id})
  }

  /** zrangebyscore(0, cutoff). */
  function UpTo(scores: map<JobId, real>, cutoff: real): set<JobId> {
    set id | id in scores && 0.0 <= scores[id] <= cutoff
  }

  function Unclaimed(job: Job): Job {
    job.(status := Pending, workerId := None, startedAt := None)
  }

  /** One claim put back at the job's own priority; an id without data stays where it is. */
  function PutBackClaim(q: Queue, id: JobId, now: real): Queue {
    if id !in q.jobs then q
    else q.(jobs := q.jobs[id := Unclaimed(q.jobs[id])],
            pending := q.pending[id := Score(q.jobs[id].priority, now)],
            claimed := q.claimed - {id})
  }

  function UnclaimJobs(jobs: map<JobId, Job>, ids: set<JobId>): map<JobId, Job> {
    map id | id in jobs :: if id in ids then Unclaimed(jobs[id]) else jobs[id]
  }

  function OwnScores(jobs: map<JobId, Job>, ids: set<JobId>, now: real): map<JobId, real> {
    map id | id in ids && id in jobs :: Score(jobs[id].priority, now)
  }

  /** All the given claims put back. */
  function PutBackClaims(q: Queue, ids: set<JobId>, now: real): Queue {
    Queue(UnclaimJobs(q.jobs, ids), q.pending + OwnScores(q.jobs, ids, now), q.claimed - ids * q.jobs.Keys, q.dead)
  }

  function Cleaned(q: Queue, config: Config, now: real): Queue {
    PutBackClaims(q, UpTo(q.claimed, now - config.claimTimeout), now)
  }

  function Purged(q: Queue, maxAge: real, now: real): Queue {
    q.(dead := q.dead - UpTo(q.dead, now - maxAge))
  }

  datatype Depth = Depth(pending: nat, claimed: nat, dead: nat, total: nat)

  function QueueDepth(q: Queue): Depth {
    Depth(|q.pending|, |q.claimed|, |q.dead|, |q.pending| + |q.claimed| + |q.dead|)
  }

  // ---- What every step keeps ---------------------------------------------------

  /** Number of failures after which a job is given up. */
  function Limit(config: Config): nat {
    if config.maxRetries > 1 then config.maxRetries else 1
  }

  /** The job is in at most one of the three sets, and its record agrees with where it is. */
  ghost predicate Placed(q: Queue, config: Config, id: JobId)
    requires id in q.jobs
  {
    var job := q.jobs[id];
    && 0 <= job.retryCount <= Limit(config)
    && (id in q.pending ==>
          && id !in q.claimed && id !in q.dead
          && job.status == Pending && job.startedAt == None && job.workerId == None)
    && (id in q.claimed ==>
          id !in q.dead && job.status == Claimed && job.startedAt.Some? && job.workerId.Some?)
    && (id in q.dead ==> job.status == Failed)
    && (id !in q.pending && id !in q.claimed && id !in q.dead ==> job.status == Completed || job.status == Failed)
    && (job.status == Failed <==> job.retryCount == Limit(config))
  }

  ghost predicate Valid(q: Queue, config: Config) {
    && q.pending.Keys <= q.jobs.Keys && q.claimed.Keys <= q.jobs.Keys && q.dead.Keys <= q.jobs.Keys
    && forall id :: id in q.jobs ==> Placed(q, config, id)
  }

  /** The claims that have timed out, of jobs whose data are there. */
  function Stale(q: Queue, config: Config, now: real): set<JobId> {
    set id | id in q.claimed && id in q.jobs && q.claimed[id] >= 0.0 && now - q.claimed[id] >= config.claimTimeout
  }

  lemma StaleIsUpTo(q: Queue, config: Config, now: real)
    ensures UpTo(q.claimed, now - config.claimTimeout) * q.jobs.Keys == Stale(q, config, now)
  {
  }

  class RedisQueue {
    const config: Config
    var jobs: map<JobId, Job>
    var pending: map<JobId, real>
    var claimed: map<JobId, real>
    var dead: map<JobId, real>

    ghost function Value(): Queue
      reads this
    {
      Queue(jobs, pending, claimed, dead)
    }

    constructor (config: Config)
      ensures Value() == EMPTY && this.config == config
    {
      this.config := config;
      jobs, pending, claimed, dead := map[], map[], map[], map[];
    }

    method Enqueue(id: JobId, payload: string, priority: int, now: real)
      modifies this
      ensures Value() == Enqueued(old(Value()), id, payload, priority, now)
    {
      jobs := jobs[id := NewJob(payload, priority, now)];
      pending := pending[id := Score(priority, now)];
    }

    method PopPending() returns (id: JobId)
      requires pending != map[]
      modifies this`pending
      ensures id == Next(old(pending)) && pending == old(pending) - {id}
    {
      NextExists(pending);
      id :| id in pending && forall other :: other in pending ==> NotAfter(pending, id, other);
      NextIsUnique(pending, id, Next(pending));
      pending := pending - {id};
    }

    /** One pass; the caller starts over on PutBack. */
    method TryClaim(worker: string, now: real) returns (r: ClaimOutcome)
      modifies this
      ensures (Value(), r) == Claim(old(Value()), config, worker, now)
      // Put back if and only if the job popped is held by a claim that has not timed out.
      ensures r.PutBack? <==>
                && old(pending) != map[] && Next(old(pending)) in old(jobs)
                && var job := old(jobs)[Next(old(pending))];
                   job.status == Claimed && job.startedAt.Some? && job.startedAt.value != 0.0
                   && now - job.startedAt.value < config.claimTimeout
      ensures r.PutBack? ==>
                && jobs == old(jobs) && claimed == old(claimed) && dead == old(dead)
                && pending == old(pending)[r.id := ((old(jobs)[r.id].priority - 1) * 1000000000) as real + now]
      // What is popped has the least score, and is the least of those with that score.
      ensures !r.Nothing? ==>
                && r.id in old(pending)
                && forall other :: other in old(pending) ==>
                     || old(pending)[r.id] < old(pending)[other]
                     || (old(pending)[r.id] == old(pending)[other] && Le(r.id, other))
    {
      if pending == map[] {
        return Nothing;
      }
      var id := PopPending();
      if id !in jobs {
        return DataMissing(id);
      }
      var job := jobs[id];
      if job.status == Claimed && job.startedAt.Some? && job.startedAt.value != 0.0
         && now - job.startedAt.value < config.claimTimeout
      {
        pending := pending[id := Score(job.priority - 1, now)];
        return PutBack(id);
      }
      job := job.(status := Claimed, workerId := Some(worker), startedAt := Some(now));
      jobs := jobs[id := job];
      claimed := claimed[id := now];
      return Got(id, job);
    }

    /** The whole claim: passes, each at its own clock reading, until one does not put its job back. A job that
        is put back may be popped again at once; after `depth` passes the recursion is too deep. */
    method ClaimJob(worker: string, now: nat -> real, depth: nat) returns (r: ClaimResult)
      modifies this
      ensures (Value(), r) == ClaimFrom(old(Value()), config, worker, now, 0, depth)
      // In a valid queue one pass is enough: the first pending job moves, and nothing else changes.
      ensures old(Valid(Value(), config)) && depth > 0 ==>
                && Valid(Value(), config)
                && (r == NoJob <==> old(pending) == map[])
                && if r == NoJob then Value() == old(Value())
                   else
                     var id := Next(old(pending));
                     && id in old(jobs) && r == GotJob(old(jobs)[id].(
                          status := Claimed, workerId := Some(worker), startedAt := Some(now(0))))
                     && jobs == old(jobs)[id := r.job] && claimed == old(claimed)[id := now(0)]
                     && pending == old(pending) - {id} && dead == old(dead)
    {
      ghost var before := Value();
      if Valid(before, config) && depth > 0 {
        ClaimIsDirect(before, config, worker, now(0));
        ClaimKeepsValid(before, config, worker, now(0));
      }
      for k := 0 to depth
        invariant ClaimFrom(Value(), config, worker, now, k, depth) ==
                  ClaimFrom(before, config, worker, now, 0, depth)
        invariant k == 0 ==> Value() == before
        invariant Valid(before, config) ==> k == 0
      {
        var outcome := TryClaim(worker, now(k));
        match outcome {
          case Nothing => return NoJob;
          case DataMissing(_) => return NoJob;
          case Got(_, job) => return GotJob(job);
          case PutBack(_) =>
        }
      }
      r := TooDeep;
    }

    method CompleteJob(id: JobId, result: Option<string>, error: Option<string>, now: real)
      modifies this
      ensures Value() == Complete(old(Value()), config, id, result, error, now)
    {
      if id !in jobs {
        return;
      }
      var job := jobs[id].(completedAt := Some(now));
      if error.Some? && error.value != "" {
        job := job.(status := Failed, error := error, retryCount := job.retryCount + 1);
        if job.retryCount < config.maxRetries {
          job := job.(status := Pending, workerId := None, startedAt := None);
          pending := pending[id := Score(job.priority + 1, now)];
        } else {
          dead := dead[id := now];
        }
      } else {
        job := job.(status := Completed, result := result);
      }
      jobs := jobs[id := job];
      claimed := claimed - {id};
    }

    /** Puts the stale claims back one by one; together that is PutBackClaims, in any order. */
    method CleanupStaleClaims(now: real) returns (requeued: nat)
      modifies this
      ensures Value() == PutBackClaims(old(Value()), UpTo(old(claimed), now - config.claimTimeout), now)
      ensures requeued == |Stale(old(Value()), config, now)|
    {
      ghost var before := Value();
      var stale := Listed(UpTo(claimed, now - config.claimTimeout));
      StaleIsUpTo(before, config, now);
      requeued := PutBackAll(stale, now);
      PutBackListIsPutBackClaims(before, stale, now);
    }

    method PutBackAll(stale: seq<JobId>, now: real) returns (requeued: nat)
      requires Distinct(stale)
      modifies this
      ensures Value() == PutBackList(old(Value()), stale, now)
      ensures requeued == |Elements(stale) * old(jobs).Keys|
    {
      ghost var before := Value();
      requeued := 0;
      for i := 0 to |stale|
        invariant Value() == PutBackList(before, stale[..i], now)
        invariant jobs.Keys == before.jobs.Keys && requeued == |Elements(stale[..i]) * before.jobs.Keys|
      {
        KnownOne(stale, i, before.jobs.Keys);
        PutBackNext(before, stale, i, now);
        var moved := PutBackIfKnown(stale[i], now);
        if moved {
          requeued := requeued + 1;
        }
      }
      assert stale[..|stale|] == stale;
    }

    method PutBackIfKnown(id: JobId, now: real) returns (moved: bool)
      modifies this
      ensures Value() == PutBackClaim(old(Value()), id, now)
      ensures moved <==> id in old(jobs)
      ensures jobs.Keys == old(jobs.Keys)
    {
      moved := id in jobs;
      if moved {
        var job := jobs[id].(status := Pending, workerId := None, startedAt := None);
        pending := pending[id := Score(job.priority, now)];
        claimed := claimed - {id};
        jobs := jobs[id := job];
      }
    }

    method PurgeDeadLetter(maxAge: real, now: real) returns (removed: nat)
      modifies this`dead
      ensures Value() == Purged(old(Value()), maxAge, now)
      ensures removed == |old(dead)| - |dead|
      ensures forall id :: id in old(dead) ==> (id in dead <==> !(0.0 <= old(dead)[id] <= now - maxAge))
    {
      var expired := UpTo(dead, now - maxAge);
      removed := |expired|;
      assert |dead.Keys - expired| == |dead.Keys| - |expired|;
      assert (dead - expired).Keys == dead.Keys - expired;
      dead := dead - expired;
    }

    method GetQueueDepth() returns (depth: Depth)
      ensures depth == QueueDepth(Value())
      ensures depth.pending == |pending| && depth.claimed == |claimed| && depth.dead == |dead|
    {
      return Depth(|pending|, |claimed|, |dead|, |pending| + |claimed| + |dead|);
    }
  }

  lemma PutBackNone(q: Queue, now: real)
    ensures PutBackClaims(q, {}, now) == q
  {
    assert UnclaimJobs(q.jobs, {}) == q.jobs;
    assert q.pending + OwnScores(q.jobs, {}, now) == q.pending;
    assert q.claimed - {} * q.jobs.Keys == q.claimed;
  }

  lemma UnclaimOne(jobs: map<JobId, Job>, done: set<JobId>, id: JobId)
    requires id in jobs && id !in done
    ensures UnclaimJobs(jobs, done + {id}) == UnclaimJobs(jobs, done)[id := Unclaimed(jobs[id])]
  {
  }

  lemma ScoreOne(jobs: map<JobId, Job>, scores: map<JobId, real>, done: set<JobId>, id: JobId, now: real)
    requires id in jobs
    ensures scores + OwnScores(jobs, done + {id}, now) ==
            (scores + OwnScores(jobs, done, now))[id := Score(jobs[id].priority, now)]
  {
  }

  lemma UnclaimOther(q: Queue, done: set<JobId>, id: JobId, now: real)
    requires id !in q.jobs
    ensures PutBackClaims(q, done + {id}, now) == PutBackClaims(q, done, now)
  {
    assert UnclaimJobs(q.jobs, done + {id}) == UnclaimJobs(q.jobs, done);
    assert OwnScores(q.jobs, done + {id}, now) == OwnScores(q.jobs, done, now);
    assert (done + {id}) * q.jobs.Keys == done * q.jobs.Keys;
  }

  /** Putting claims back one by one puts them all back. */
  lemma PutBackOne(q: Queue, done: set<JobId>, id: JobId, now: real)
    requires id !in done
    ensures PutBackClaims(q, done + {id}, now) == PutBackClaim(PutBackClaims(q, done, now), id, now)
  {
    if id in q.jobs {
      UnclaimOne(q.jobs, done, id);
      ScoreOne(q.jobs, q.pending, done, id, now);
      assert q.claimed - (done + {id}) * q.jobs.Keys == (q.claimed - done * q.jobs.Keys) - {id};
    } else {
      UnclaimOther(q, done, id, now);
    }
  }

  function Elements(ids: seq<JobId>): set<JobId> {
    set id | id in ids
  }

  predicate Distinct(ids: seq<JobId>) {
    forall i, j :: 0 <= i < j < |ids| ==> ids[i] != ids[j]
  }

  /** The members of a range, as a list. */
  method Listed(ids: set<JobId>) returns (r: seq<JobId>)
    ensures Distinct(r) && Elements(r) == ids
  {
    r := [];
    var rest := ids;
    while rest != {}
      invariant Distinct(r) && Elements(r) == ids - rest && rest <= ids
      decreases rest
    {
      var id :| id in rest;
      assert id !in Elements(r);
      rest := rest - {id};
      assert Elements(r + [id]) == Elements(r) + {id};
      r := r + [id];
    }
  }

  lemma KnownOne(ids: seq<JobId>, i: nat, known: set<JobId>)
    requires Distinct(ids) && i < |ids|
    ensures |Elements(ids[..i + 1]) * known| == |Elements(ids[..i]) * known| + if ids[i] in known then 1 else 0
  {
    var done := Elements(ids[..i]) * known;
    assert ids[..i + 1] == ids[..i] + [ids[i]];
    assert ids[i] !in ids[..i];
    assert Elements(ids[..i + 1]) * known == if ids[i] in known then done + {ids[i]} else done;
  }

  /** The claims put back in list order. */
  function PutBackList(q: Queue, ids: seq<JobId>, now: real): Queue {
    if ids == [] then q else PutBackClaim(PutBackList(q, ids[..|ids| - 1], now), ids[|ids| - 1], now)
  }

  lemma PutBackNext(q: Queue, ids: seq<JobId>, i: nat, now: real)
    requires i < |ids|
    ensures PutBackList(q, ids[..i + 1], now) == PutBackClaim(PutBackList(q, ids[..i], now), ids[i], now)
  {
    assert ids[..i + 1][..i] == ids[..i];
  }

  lemma {:induction false} PutBackListIsPutBackClaims(q: Queue, ids: seq<JobId>, now: real)
    requires Distinct(ids)
    ensures PutBackList(q, ids, now) == PutBackClaims(q, Elements(ids), now)
  {
    if ids == [] {
      PutBackNone(q, now);
    } else {
      var n := |ids| - 1;
      PutBackListIsPutBackClaims(q, ids[..n], now);
      PutBackOne(q, Elements(ids[..n]), ids[n], now);
      assert Elements(ids) == Elements(ids[..n]) + {ids[n]} by {
        assert ids == ids[..n] + [ids[n]];
      }
    }
  }

  // ---- Each step keeps the queue valid ------------------------------------------

  lemma EnqueueKeepsValid(q: Queue, config: Config, id: JobId, payload: string, priority: int, now: real)
    requires Valid(q, config) && id !in q.jobs
    ensures Valid(Enqueued(q, id, payload, priority, now), config)
  {
    var q' := Enqueued(q, id, payload, priority, now);
    forall other | other in q'.jobs ensures Placed(q', config, other) {
      if other != id {
        assert Placed(q, config, other);
      }
    }
  }

  /** No pass over a valid queue has to start over. */
  lemma ClaimIsDirect(q: Queue, config: Config, worker: string, now: real)
    requires Valid(q, config)
    ensures var (q', r) := Claim(q, config, worker, now);
            if q.pending == map[] then r == Nothing && q' == q
            else r.Got? && r.id == Next(q.pending)
  {
    if q.pending != map[] {
      assert Placed(q, config, Next(q.pending));
    }
  }

  lemma ClaimKeepsValid(q: Queue, config: Config, worker: string, now: real)
    requires Valid(q, config)
    ensures Valid(Claim(q, config, worker, now).0, config)
  {
    ClaimIsDirect(q, config, worker, now);
    var q' := Claim(q, config, worker, now).0;
    forall id | id in q'.jobs ensures Placed(q', config, id) {
      assert Placed(q, config, id);
    }
  }

  /** The same data in the same place. */
  ghost predicate Untouched(q: Queue, q': Queue, id: JobId) {
    && (id in q'.jobs <==> id in q.jobs) && (id in q.jobs ==> q'.jobs[id] == q.jobs[id])
    && (id in q'.pending <==> id in q.pending) && (id in q.pending ==> q'.pending[id] == q.pending[id])
    && (id in q'.claimed <==> id in q.claimed) && (id in q'.dead <==> id in q.dead)
  }

  lemma CompleteTouchesOne(
      q: Queue, config: Config, id: JobId, result: Option<string>, error: Option<string>, now: real, other: JobId)
    requires other != id
    ensures Untouched(q, Complete(q, config, id, result, error, now), other)
  {
  }

  lemma CompleteKeepsIds(
      q: Queue, config: Config, id: JobId, result: Option<string>, error: Option<string>, now: real)
    ensures Complete(q, config, id, result, error, now).jobs.Keys == q.jobs.Keys
  {
  }

  /** The completions of a valid queue's jobs that leave it valid: of a job that is claimed, of one that has been
      completed before, or of a pending one that fails with a try to spare. */
  predicate Completable(q: Queue, config: Config, id: JobId, error: Option<string>) {
    id in q.jobs ==>
      || id in q.claimed
      || q.jobs[id].status == Completed
      || (id in q.pending && IsError(error) && q.jobs[id].retryCount + 1 < config.maxRetries)
  }

  lemma CompletePlacesIff(
      q: Queue, config: Config, id: JobId, result: Option<string>, error: Option<string>, now: real)
    requires id in q.jobs && Placed(q, config, id)
    ensures Placed(Complete(q, config, id, result, error, now), config, id) <==> Completable(q, config, id, error)
  {
  }

  /** Nobody checks who completes a job. Completing one keeps a valid queue valid if and only if it is completable. */
  lemma CompleteKeepsValidIff(
      q: Queue, config: Config, id: JobId, result: Option<string>, error: Option<string>, now: real)
    requires Valid(q, config)
    ensures Valid(Complete(q, config, id, result, error, now), config) <==> Completable(q, config, id, error)
  {
    var q' := Complete(q, config, id, result, error, now);
    CompleteKeepsIds(q, config, id, result, error, now);
    if id in q.jobs {
      assert Placed(q, config, id);
      CompletePlacesIff(q, config, id, result, error, now);
      if Completable(q, config, id, error) {
        forall other | other in q'.jobs ensures Placed(q', config, other) {
          assert Placed(q, config, other);
          if other != id {
            CompleteTouchesOne(q, config, id, result, error, now, other);
          }
        }
        CompleteKeepsKeys(q, config, id, result, error, now);
      }
    }
  }

  lemma CompleteKeepsKeys(
      q: Queue, config: Config, id: JobId, result: Option<string>, error: Option<string>, now: real)
    requires q.pending.Keys <= q.jobs.Keys && q.claimed.Keys <= q.jobs.Keys && q.dead.Keys <= q.jobs.Keys
    ensures var q' := Complete(q, config, id, result, error, now);
            q'.pending.Keys <= q'.jobs.Keys && q'.claimed.Keys <= q'.jobs.Keys && q'.dead.Keys <= q'.jobs.Keys
  {
  }

  lemma CleanupKeepsValid(q: Queue, config: Config, now: real)
    requires Valid(q, config)
    ensures Valid(Cleaned(q, config, now), config)
  {
    var q' := Cleaned(q, config, now);
    forall id | id in q'.jobs ensures Placed(q', config, id) {
      assert Placed(q, config, id);
    }
  }

  lemma PurgeKeepsValid(q: Queue, config: Config, maxAge: real, now: real)
    requires Valid(q, config)
    ensures Valid(Purged(q, maxAge, now), config)
  {
    var q' := Purged(q, maxAge, now);
    forall id | id in q'.jobs ensures Placed(q', config, id) {
      assert Placed(q, config, id);
    }
  }
}
