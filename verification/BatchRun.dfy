/** Batches of jobs (engine/api_client.py): any number of tasks share a semaphore, a progress
    counter and metrics. A task's steps lie between its awaits. */
module BatchRun {
  import opened Options

  datatype JobStatus = Completed | Error

  // ---- Polling one job ------------------------------------------------------------

  /** What a history request yields: nothing usable, or a status and whether there are outputs. */
  datatype History = NoHistory | History(status: string, hasOutputs: bool)

  predicate Succeeded(h: History) {
    h.History? && (h.status == "success" || h.hasOutputs)
  }

  predicate Terminal(h: History) {
    Succeeded(h) || (h.History? && h.status == "error")
  }

  class Metrics {
    var completed: nat
    var failed: nat
    var timedOut: nat

    ghost function Total(): nat
      reads this
    {
      completed + failed + timedOut
    }

    constructor ()
      ensures completed == failed == timedOut == 0
    {
      completed, failed, timedOut := 0, 0, 0;
    }
  }

  /** The polling loop: by round, the time elapsed at its start and the history it fetches. It ends in
      the first round that starts too late or fetches a terminal history; lateness is looked at first. */
  method PollJob(timeout: real, elapsed: nat -> real, history: nat -> History, metrics: Metrics)
      returns (status: JobStatus, round: nat)
    requires exists k: nat :: elapsed(k) > timeout || Terminal(history(k))
    modifies metrics
    // Every earlier round was in time, and fetched nothing or a status that is neither success nor error, without
    // outputs.
    ensures forall k :: 0 <= k < round ==>
              && elapsed(k) <= timeout
              && (history(k).NoHistory? ||
                  (!history(k).hasOutputs && history(k).status != "success" && history(k).status != "error"))
    // The last was too late, or fetched one or the other.
    ensures elapsed(round) > timeout ||
            (history(round).History? &&
             (history(round).hasOutputs || history(round).status == "success" || history(round).status == "error"))
    ensures status == if elapsed(round) <= timeout && (history(round).hasOutputs || history(round).status == "success")
                      then Completed else Error
    ensures metrics.completed == old(metrics.completed) + if status == Completed then 1 else 0
    ensures metrics.timedOut == old(metrics.timedOut) + if elapsed(round) > timeout then 1 else 0
    ensures metrics.failed == old(metrics.failed) + if status == Error && elapsed(round) <= timeout then 1 else 0
  {
    ghost var last: nat :| elapsed(last) > timeout || Terminal(history(last));
    round := 0;
    while true
      invariant round <= last
      invariant forall k :: 0 <= k < round ==> elapsed(k) <= timeout && !Terminal(history(k))
      invariant unchanged(metrics)
      decreases last - round
    {
      if elapsed(round) > timeout {
        metrics.timedOut := metrics.timedOut + 1;
        return Error, round;
      }
      match history(round) {
        case NoHistory =>
        case History(s, hasOutputs) =>
          if s == "success" || hasOutputs {
            metrics.completed := metrics.completed + 1;
            return Completed, round;
          } else if s == "error" {
            metrics.failed := metrics.failed + 1;
            return Error, round;
          }
      }
      round := round + 1;
    }
  }

  // ---- A batch ----------------------------------------------------------------------

  /** Where one task is. From Submitting to Leaving it holds the semaphore. */
  datatype Phase =
    | Queued
    | Submitting
    | Polling
    | Leaving(status: JobStatus)
    | Raised                      // an exception left run_job, and with it the semaphore
    | Reporting(status: JobStatus)
    | Reported(status: JobStatus, callbackRaised: bool)

  datatype Counters = Counters(completed: nat, failed: nat, timedOut: nat)

  function Sum(c: Counters): nat {
    c.completed + c.failed + c.timedOut
  }

  datatype Progress = Progress(total: nat, count: nat, status: JobStatus)

  datatype Batch = Batch(
    tasks: seq<Phase>, permits: nat, counters: Counters, done: nat, progress: seq<Progress>)

  function Start(n: nat, maxConcurrent: nat): Batch {
    Batch(seq(n, _ => Queued), maxConcurrent, Counters(0, 0, 0), 0, [])
  }

  datatype Event =
    | Enters(i: nat)              // acquires the semaphore
    | Submits(i: nat)             // the prompt is accepted
    | FindsBreakerOpen(i: nat)
    | PollCompletes(i: nat)
    | PollFails(i: nat)
    | PollTimesOut(i: nat)
    | Raises(i: nat)              // submitting or polling raises anything else
    | Leaves(i: nat)              // releases the semaphore
    | Recovers(i: nat)            // the wrapper turns the exception into an error job
    | Reports(i: nat, callbackRaises: bool)

  predicate Enabled(b: Batch, e: Event) {
    && e.i < |b.tasks|
    && match e
       case Enters(i) => b.tasks[i] == Queued && b.permits > 0
       case Submits(i) => b.tasks[i] == Submitting
       case FindsBreakerOpen(i) => b.tasks[i] == Submitting
       case PollCompletes(i) => b.tasks[i] == Polling
       case PollFails(i) => b.tasks[i] == Polling
       case PollTimesOut(i) => b.tasks[i] == Polling
       case Raises(i) => b.tasks[i] == Submitting || b.tasks[i] == Polling
       case Leaves(i) => b.tasks[i].Leaving?
       case Recovers(i) => b.tasks[i] == Raised
       case Reports(i, _) => b.tasks[i].Reporting?
  }

  function AddFailed(c: Counters): Counters {
    c.(failed := c.failed + 1)
  }

  function Moved(b: Batch, i: nat, p: Phase): Batch
    requires i < |b.tasks|
  {
    b.(tasks := b.tasks[i := p])
  }

  /** One step; a step that is not enabled does nothing. */
  function Step(b: Batch, e: Event): Batch {
    if !Enabled(b, e) then b else
    match e
    case Enters(i) => Moved(b, i, Submitting).(permits := b.permits - 1)
    case Submits(i) => Moved(b, i, Polling)
    case FindsBreakerOpen(i) => Moved(b, i, Leaving(Error)).(counters := AddFailed(b.counters))
    case PollCompletes(i) =>
      Moved(b, i, Leaving(Completed)).(counters := b.counters.(completed := b.counters.completed + 1))
    case PollFails(i) => Moved(b, i, Leaving(Error)).(counters := AddFailed(b.counters))
    case PollTimesOut(i) =>
      Moved(b, i, Leaving(Error)).(counters := b.counters.(timedOut := b.counters.timedOut + 1))
    case Raises(i) => Moved(b, i, Raised).(permits := b.permits + 1)
    case Leaves(i) => Moved(b, i, Reporting(b.tasks[i].status)).(permits := b.permits + 1)
    case Recovers(i) => Moved(b, i, Reporting(Error)).(counters := AddFailed(b.counters))
    case Reports(i, callbackRaises) =>
      Moved(b, i, Reported(b.tasks[i].status, callbackRaises)).(
        done := b.done + 1,
        progress := b.progress + [Progress(|b.tasks|, b.done + 1, b.tasks[i].status)])
  }

  function Run(n: nat, maxConcurrent: nat, es: seq<Event>): Batch {
    if es == [] then Start(n, maxConcurrent) else Step(Run(n, maxConcurrent, es[..|es| - 1]), es[|es| - 1])
  }

  // ---- Counting tasks ------------------------------------------------------------------

  predicate Holds(p: Phase) {
    p.Submitting? || p.Polling? || p.Leaving?
  }

  predicate Counted(p: Phase) {
    p.Leaving? || p.Reporting? || p.Reported?
  }

  predicate CountedAs(p: Phase, status: JobStatus) {
    Counted(p)
    && match p case Leaving(s) => s == status case Reporting(s) => s == status case Reported(s, _) => s == status
  }

  function Count(tasks: seq<Phase>, f: Phase -> bool): nat {
    if tasks == [] then 0
    else Count(tasks[..|tasks| - 1], f) + if f(tasks[|tasks| - 1]) then 1 else 0
  }

  lemma {:induction false} CountUpdate(tasks: seq<Phase>, i: nat, p: Phase, f: Phase -> bool)
    requires i < |tasks|
    ensures Count(tasks[i := p], f) == Count(tasks, f) - (if f(tasks[i]) then 1 else 0) + if f(p) then 1 else 0
  {
    var n := |tasks| - 1;
    if i == n {
      assert tasks[i := p][..n] == tasks[..n];
    } else {
      CountUpdate(tasks[..n], i, p, f);
      assert tasks[i := p][..n] == tasks[..n][i := p];
    }
  }

  lemma {:induction false} CountAll(tasks: seq<Phase>, f: Phase -> bool)
    ensures Count(tasks, f) <= |tasks|
    ensures Count(tasks, f) == |tasks| <==> forall i :: 0 <= i < |tasks| ==> f(tasks[i])
    ensures Count(tasks, f) == 0 <==> forall i :: 0 <= i < |tasks| ==> !f(tasks[i])
  {
    if tasks != [] {
      CountAll(tasks[..|tasks| - 1], f);
      assert forall i :: 0 <= i < |tasks| - 1 ==> tasks[i] == tasks[..|tasks| - 1][i];
    }
  }

  predicate AsCompleted(p: Phase) {
    CountedAs(p, Completed)
  }

  predicate AsError(p: Phase) {
    CountedAs(p, Error)
  }

  predicate IsReported(p: Phase) {
    p.Reported?
  }

  ghost predicate Sound(n: nat, maxConcurrent: nat, b: Batch) {
    && |b.tasks| == n
    && b.permits + Count(b.tasks, Holds) == maxConcurrent
    && b.counters.completed == Count(b.tasks, AsCompleted)
    && b.counters.failed + b.counters.timedOut == Count(b.tasks, AsError)
    && b.done == |b.progress| == Count(b.tasks, IsReported)
    && forall k :: 0 <= k < |b.progress| ==> b.progress[k].total == n && b.progress[k].count == k + 1
  }

  /** A step changes a count by what the task that made it was and is. */
  predicate Recounted(b: Batch, e: Event, f: Phase -> bool)
    requires Enabled(b, e)
  {
    Count(Step(b, e).tasks, f) ==
    Count(b.tasks, f) - (if f(b.tasks[e.i]) then 1 else 0) + (if f(Step(b, e).tasks[e.i]) then 1 else 0)
  }

  lemma CountsAfter(b: Batch, e: Event)
    requires Enabled(b, e)
    ensures |Step(b, e).tasks| == |b.tasks|
    ensures Recounted(b, e, Holds) && Recounted(b, e, AsCompleted)
    ensures Recounted(b, e, AsError) && Recounted(b, e, IsReported)
  {
    var p := Step(b, e).tasks[e.i];
    assert Step(b, e).tasks == b.tasks[e.i := p];
    CountUpdate(b.tasks, e.i, p, Holds);
    CountUpdate(b.tasks, e.i, p, AsCompleted);
    CountUpdate(b.tasks, e.i, p, AsError);
    CountUpdate(b.tasks, e.i, p, IsReported);
  }

  lemma StepIsSound(n: nat, maxConcurrent: nat, b: Batch, e: Event)
    requires Sound(n, maxConcurrent, b)
    ensures Sound(n, maxConcurrent, Step(b, e))
  {
    if Enabled(b, e) {
      CountsAfter(b, e);
    }
  }

  lemma {:induction false} RunIsSound(n: nat, maxConcurrent: nat, es: seq<Event>)
    ensures Sound(n, maxConcurrent, Run(n, maxConcurrent, es))
  {
    if es == [] {
      var b := Start(n, maxConcurrent);
      CountAll(b.tasks, Holds);
      CountAll(b.tasks, AsCompleted);
      CountAll(b.tasks, AsError);
      CountAll(b.tasks, IsReported);
    } else {
      RunIsSound(n, maxConcurrent, es[..|es| - 1]);
      StepIsSound(n, maxConcurrent, Run(n, maxConcurrent, es[..|es| - 1]), es[|es| - 1]);
    }
  }

  /** Never more tasks in the guarded section than the semaphore allows. */
  lemma ConcurrencyIsBounded(n: nat, maxConcurrent: nat, es: seq<Event>)
    ensures Count(Run(n, maxConcurrent, es).tasks, Holds) <= maxConcurrent
  {
    RunIsSound(n, maxConcurrent, es);
  }

  /** At any time progress has been reported as 1, 2, 3 and so on, once for every task that is done. */
  lemma ProgressInOrder(n: nat, maxConcurrent: nat, es: seq<Event>)
    ensures var b := Run(n, maxConcurrent, es);
            && |b.progress| == Count(b.tasks, IsReported)
            && forall k :: 0 <= k < |b.progress| ==> b.progress[k].total == n && b.progress[k].count == k + 1
  {
    RunIsSound(n, maxConcurrent, es);
  }

  // ---- Collecting the results -------------------------------------------------------------

  /** A job of the result: the payload it belongs to and how it ended. */
  datatype Job = Job(payload: nat, status: JobStatus)

  ghost predicate AllReported(b: Batch) {
    forall i :: 0 <= i < |b.tasks| ==> b.tasks[i].Reported?
  }

  predicate CallbackRaised(p: Phase) {
    p.Reported? && p.callbackRaised
  }

  /** The counters once the results are collected. */
  function Collected(b: Batch): Counters {
    b.counters.(failed := b.counters.failed + Count(b.tasks, CallbackRaised))
  }

  /** After gather: one job per payload, in input order; a task whose callback raised gives an error job
      and one more failure. */
  method CollectJobs(b: Batch) returns (jobs: seq<Job>, counters: Counters)
    requires AllReported(b)
    ensures |jobs| == |b.tasks|
    ensures forall i :: 0 <= i < |jobs| ==>
              jobs[i] == Job(i, if b.tasks[i].callbackRaised then Error else b.tasks[i].status)
    ensures counters == Collected(b)
  {
    jobs, counters := [], b.counters;
    for i := 0 to |b.tasks|
      invariant |jobs| == i
      invariant forall k :: 0 <= k < i ==>
                  jobs[k] == Job(k, if b.tasks[k].callbackRaised then Error else b.tasks[k].status)
      invariant counters == b.counters.(failed := b.counters.failed + Count(b.tasks[..i], CallbackRaised))
    {
      assert b.tasks[..i + 1][..i] == b.tasks[..i];
      if b.tasks[i].callbackRaised {
        counters := AddFailed(counters);
        jobs := jobs + [Job(i, Error)];
      } else {
        jobs := jobs + [Job(i, b.tasks[i].status)];
      }
    }
    assert b.tasks[..|b.tasks|] == b.tasks;
  }

  /** A finished batch has raised the three counters by one per task, and by one more per raising
      callback: by exactly n if and only if no callback raised. */
  lemma CountersMatchBatch(n: nat, maxConcurrent: nat, es: seq<Event>)
    requires AllReported(Run(n, maxConcurrent, es))
    ensures var b := Run(n, maxConcurrent, es);
            && |b.tasks| == n && Sum(b.counters) == n
            && b.counters.completed == Count(b.tasks, AsCompleted)
            && var final := Collected(b);
               (Sum(final) == n + Count(b.tasks, CallbackRaised)) &&
               (Sum(final) == n <==> forall i :: 0 <= i < n ==> !b.tasks[i].callbackRaised)
  {
    RunIsSound(n, maxConcurrent, es);
    var b := Run(n, maxConcurrent, es);
    CompletedOrError(b.tasks);
    CountAll(b.tasks, CallbackRaised);
  }

  lemma {:induction false} CompletedOrError(tasks: seq<Phase>)
    requires forall i :: 0 <= i < |tasks| ==> tasks[i].Reported?
    ensures Count(tasks, AsCompleted) + Count(tasks, AsError) == |tasks|
  {
    if tasks != [] {
      CompletedOrError(tasks[..|tasks| - 1]);
    }
  }

  // ---- Every batch comes to an end -----------------------------------------------------------

  function Rank(p: Phase): nat {
    match p
    case Queued => 5
    case Submitting => 4
    case Polling => 3
    case Leaving(_) => 2
    case Raised => 2
    case Reporting(_) => 1
    case Reported(_, _) => 0
  }

  function TotalRank(tasks: seq<Phase>): nat {
    if tasks == [] then 0 else TotalRank(tasks[..|tasks| - 1]) + Rank(tasks[|tasks| - 1])
  }

  lemma {:induction false} RankUpdate(tasks: seq<Phase>, i: nat, p: Phase)
    requires i < |tasks|
    ensures TotalRank(tasks[i := p]) == TotalRank(tasks) - Rank(tasks[i]) + Rank(p)
  {
    var n := |tasks| - 1;
    if i == n {
      assert tasks[i := p][..n] == tasks[..n];
    } else {
      RankUpdate(tasks[..n], i, p);
      assert tasks[i := p][..n] == tasks[..n][i := p];
    }
  }

  function EffectiveSteps(n: nat, maxConcurrent: nat, es: seq<Event>): nat {
    if es == [] then 0
    else EffectiveSteps(n, maxConcurrent, es[..|es| - 1]) +
         if Enabled(Run(n, maxConcurrent, es[..|es| - 1]), es[|es| - 1]) then 1 else 0
  }

  lemma {:induction false} StartRank(n: nat)
    ensures TotalRank(seq(n, _ => Queued)) == 5 * n
  {
    if n > 0 {
      StartRank(n - 1);
      assert seq(n, _ => Queued)[..n - 1] == seq(n - 1, _ => Queued);
    }
  }

  lemma StepLowersRank(b: Batch, e: Event)
    requires Enabled(b, e)
    ensures TotalRank(Step(b, e).tasks) < TotalRank(b.tasks)
  {
    RankUpdate(b.tasks, e.i, Step(b, e).tasks[e.i]);
  }

  lemma {:induction false} StepsAreBounded(n: nat, maxConcurrent: nat, es: seq<Event>)
    ensures EffectiveSteps(n, maxConcurrent, es) + TotalRank(Run(n, maxConcurrent, es).tasks) <= 5 * n
  {
    if es == [] {
      StartRank(n);
    } else {
      StepsAreBounded(n, maxConcurrent, es[..|es| - 1]);
      var b, e := Run(n, maxConcurrent, es[..|es| - 1]), es[|es| - 1];
      if Enabled(b, e) {
        StepLowersRank(b, e);
      }
    }
  }

  /** A batch of n takes at most 5 * n steps, and as long as it is not finished some task can make one. */
  lemma BatchEnds(n: nat, maxConcurrent: nat, es: seq<Event>)
    requires maxConcurrent >= 1
    ensures EffectiveSteps(n, maxConcurrent, es) <= 5 * n
    ensures AllReported(Run(n, maxConcurrent, es)) || exists e :: Enabled(Run(n, maxConcurrent, es), e)
  {
    StepsAreBounded(n, maxConcurrent, es);
    RunIsSound(n, maxConcurrent, es);
    if !AllReported(Run(n, maxConcurrent, es)) {
      SomeTaskCanMove(n, maxConcurrent, Run(n, maxConcurrent, es));
    }
  }

  lemma SomeTaskCanMove(n: nat, maxConcurrent: nat, b: Batch)
    requires Sound(n, maxConcurrent, b) && maxConcurrent >= 1 && !AllReported(b)
    ensures exists e :: Enabled(b, e)
  {
    CountAll(b.tasks, Holds);
    if i :| 0 <= i < |b.tasks| && Holds(b.tasks[i]) {
      var e := if b.tasks[i].Leaving? then Leaves(i) else Raises(i);
      assert Enabled(b, e);
    } else {
      var i :| 0 <= i < |b.tasks| && !b.tasks[i].Reported?;
      var e := if b.tasks[i].Queued? then Enters(i) else if b.tasks[i].Raised? then Recovers(i) else Reports(i, false);
      assert Enabled(b, e);
    }
  }

  // ---- What the events tell --------------------------------------------------------------------

  /** What has decided how task i ends, if anything has: an event that was possible when it came. */
  function Verdict(n: nat, maxConcurrent: nat, es: seq<Event>, i: nat): Option<JobStatus> {
    if es == [] then None
    else
      var es', e := es[..|es| - 1], es[|es| - 1];
      if e.i == i && Enabled(Run(n, maxConcurrent, es'), e) then
        match e
        case PollCompletes(_) => Some(Completed)
        case PollFails(_) => Some(Error)
        case PollTimesOut(_) => Some(Error)
        case FindsBreakerOpen(_) => Some(Error)
        case Raises(_) => Some(Error)
        case _ => Verdict(n, maxConcurrent, es', i)
      else Verdict(n, maxConcurrent, es', i)
  }

  /** The phase of a task agrees with its verdict. */
  ghost predicate Follows(p: Phase, verdict: Option<JobStatus>) {
    match p
    case Leaving(s) => verdict == Some(s)
    case Reporting(s) => verdict == Some(s)
    case Reported(s, _) => verdict == Some(s)
    case Raised => verdict == Some(Error)
    case _ => verdict == None
  }

  /** In every run, a task ends completed if and only if its poll has found success, and ends in error if and only if
      the breaker was open, the poll failed or timed out, or something raised. */
  lemma {:induction false} StatusFollowsEvents(n: nat, maxConcurrent: nat, es: seq<Event>, i: nat)
    requires i < n
    ensures |Run(n, maxConcurrent, es).tasks| == n
    ensures Follows(Run(n, maxConcurrent, es).tasks[i], Verdict(n, maxConcurrent, es, i))
  {
    if es != [] {
      StatusFollowsEvents(n, maxConcurrent, es[..|es| - 1], i);
    }
  }

  /** How many events of a kind have taken place. */
  function Happened(n: nat, maxConcurrent: nat, es: seq<Event>, kind: Event -> bool): nat {
    if es == [] then 0
    else
      var es', e := es[..|es| - 1], es[|es| - 1];
      Happened(n, maxConcurrent, es', kind) + if kind(e) && Enabled(Run(n, maxConcurrent, es'), e) then 1 else 0
  }

  predicate IsCompletion(e: Event) {
    e.PollCompletes?
  }

  predicate IsTimeout(e: Event) {
    e.PollTimesOut?
  }

  predicate IsFailure(e: Event) {
    e.PollFails? || e.FindsBreakerOpen? || e.Recovers?
  }

  /** In every run each counter counts its events: successful polls, timed out polls, and failed polls, open breakers
      and recovered exceptions together. */
  lemma {:induction false} CountersCountEvents(n: nat, maxConcurrent: nat, es: seq<Event>)
    ensures Run(n, maxConcurrent, es).counters ==
            Counters(Happened(n, maxConcurrent, es, IsCompletion), Happened(n, maxConcurrent, es, IsFailure),
                     Happened(n, maxConcurrent, es, IsTimeout))
  {
    if es != [] {
      CountersCountEvents(n, maxConcurrent, es[..|es| - 1]);
    }
  }
}
