/** The request drivers of the coprocessor endpoint: the unary and the streaming future, each
    of which may fail or be dropped at any point. */
module RequestDrivers {
  import opened Wrappers
  import opened TrackerSpec
  import opened TrackerModel
  import opened TrackerTheorems

  datatype Error =
    | DeadlineExceeded
    | SnapshotFailed
    | BucketVersionNotMatch(version: nat)
    | BuildFailed
    | HandlerFailed(code: int)

  type Data = string

  // ----- what happens around a request, in the order the driver sees it

  datatype Snapshot =
    | NeverArrives                   // the future is dropped while it waits
    | Fails
    | Arrives(buckets: Option<nat>, dataVersion: Option<nat>)

  /** A handler is polled `pending` times without being ready and then finishes, or is dropped. */
  datatype Handler =
    | CannotBuild
    | Runs(pending: nat, result: Option<Result<Data, Error>>, stats: Statistics)

  datatype Surroundings = Surroundings(lateWhenScheduled: bool, snapshot: Snapshot, lateAfterSnapshot: bool,
                                       deadlineExceededAtDrop: bool)

  datatype Request = Request(bucketsVersion: nat, cacheMatchVersion: Option<nat>)

  datatype Response = Response(payload: Result<Data, Error>, details: ExecDetails)

  // ----- unary requests

  datatype UnaryResult =
    | Dropped
    | Refused(error: Error)
    | Answered(response: Response, latestBucketsVersion: nat)

  /** The error that stops a request before its handler is chosen, if there is one. */
  function EarlyError(req: Request, env: Surroundings): Option<Error>
    requires env.lateWhenScheduled || !env.snapshot.NeverArrives?
  {
    if env.lateWhenScheduled then Some(DeadlineExceeded)
    else if env.snapshot.Fails? then Some(SnapshotFailed)
    else if Outdated(req, env.snapshot.buckets) then Some(BucketVersionNotMatch(env.snapshot.buckets.value))
    else if env.lateAfterSnapshot then Some(DeadlineExceeded)
    else None
  }

  /** The region has newer buckets than the ones the request names; zero names none. */
  predicate Outdated(req: Request, latest: Option<nat>) {
    latest.Some? && latest.value > req.bucketsVersion && req.bucketsVersion != 0
  }

  /** The client's cached answer is still good: the data have not changed since. */
  predicate UsesCache(req: Request, snapshot: Snapshot)
    requires snapshot.Arrives?
  {
    req.cacheMatchVersion.Some? && req.cacheMatchVersion == snapshot.dataVersion
  }

  function Chosen(req: Request, snapshot: Snapshot, handler: Handler, cached: Handler): Handler
    requires snapshot.Arrives?
  {
    if UsesCache(req, snapshot) then cached else handler
  }

  /** The handler that is polled to its end, if the request gets that far. */
  function Completed(req: Request, env: Surroundings, handler: Handler, cached: Handler): Option<Handler> {
    if env.lateWhenScheduled || !env.snapshot.Arrives? || EarlyError(req, env).Some? then None
    else
      var h := Chosen(req, env.snapshot, handler, cached);
      if h.Runs? && h.result.Some? then Some(h) else None
  }

  /** How often the handler is polled. */
  ghost function Polls(log: seq<Event>): nat {
    if log == [] then 0
    else Polls(log[..|log| - 1]) + (if log[|log| - 1].op.FinishItem? then 1 else 0)
  }

  lemma PollsMore(log: seq<Event>, e: Event)
    ensures Polls(log + [e]) == Polls(log) + (if e.op.FinishItem? then 1 else 0)
  {
    assert (log + [e])[..|log|] == log;
  }

  lemma {:induction false} NoPolls(log: seq<Event>)
    requires forall i :: 0 <= i < |log| ==> !log[i].op.FinishItem?
    ensures Polls(log) == 0
  {
    if log != [] {
      NoPolls(log[..|log| - 1]);
    }
  }

  /** Polls the handler once. */
  method Poll(t: Tracker)
    requires t.Valid() && (t.stage == AllItemsBegan || t.stage.ItemFinished?)
    modifies t, t.clock
    ensures t.Valid() && t.stage.ItemFinished? && Polls(t.log) == old(Polls(t.log)) + 1
    ensures t.totalStorageStats == old(t.totalStorageStats) && t.reported == old(t.reported)
  {
    hide Polls;
    t.OnBeginItem();
    PollsMore(old(t.log), t.log[|old(t.log)|]);
    label begun:
    t.OnFinishItem(None);
    PollsMore(old@begun(t.log), t.log[|old@begun(t.log)|]);
  }

  /** Polls the handler until it is ready or dropped, then reads off and closes the tracker. */
  method PollToEnd(t: Tracker, h: Handler, bucketsVersion: nat) returns (r: UnaryResult)
    requires t.Valid() && t.stage == AllItemsBegan && h.Runs?
    requires Polls(t.log) == 0 && t.totalStorageStats == NO_STATISTICS && t.reported == []
    modifies t, t.clock
    ensures t.Valid()
    ensures h.result.None? ==> r.Dropped? && !t.stage.Tracked? && t.totalStorageStats == NO_STATISTICS && t.reported == []
    ensures h.result.Some? ==>
              && r == Answered(Response(h.result.value, ExecDetails(t.totalProcessTime, t.totalSuspendTime,
                                                                    t.waitTime, h.stats)), bucketsVersion)
              && t.stage.Tracked? && t.totalStorageStats == NO_STATISTICS && t.reported == [h.stats]
              && Polls(t.log) == h.pending + 1
  {
    hide Perform, After, Ordered, Allowed, Polls;
    var polls := 0;
    while polls < h.pending
      invariant polls <= h.pending
      invariant t.Valid() && (t.stage == AllItemsBegan || t.stage.ItemFinished?)
      invariant Polls(t.log) == polls && t.totalStorageStats == NO_STATISTICS && t.reported == []
    {
      Poll(t);
      polls := polls + 1;
    }
    if h.result.None? {
      return Dropped;
    }
    Poll(t);
    label polled:
    t.CollectStorageStatistics(h.stats);
    PollsMore(old@polled(t.log), t.log[|old@polled(t.log)|]);
    label collected:
    var details := t.GetExecDetails();
    t.OnFinishAllItems();
    PollsMore(old@collected(t.log), t.log[|old@collected(t.log)|]);
    r := Answered(Response(h.result.value, details), bucketsVersion);
  }

  /** What the driver of a unary request guarantees, before the tracker is dropped. */
  ghost predicate UnaryDone(req: Request, env: Surroundings, handler: Handler, cached: Handler, r: UnaryResult,
                            f: Fields, log: seq<Event>) {
    match Completed(req, env, handler, cached)
    case None =>
      && !r.Answered? && !f.stage.Tracked? && f.stats == NO_STATISTICS && f.reported == []
      && (r.Refused? <==> WillRefuse(req, env, handler, cached))
      && (r.Refused? ==> r.error == if EarlyError(req, env).Some? then EarlyError(req, env).value else BuildFailed)
    case Some(h) =>
      && r.Answered? && r.response.payload == h.result.value
      && r.latestBucketsVersion == (if env.snapshot.buckets.Some? then env.snapshot.buckets.value else 0)
      && r.response.details == ExecDetails(f.totalProcess, f.totalSuspend, f.wait, h.stats)
      && f.stage.Tracked? && f.stats == NO_STATISTICS && f.reported == [h.stats]
      && Polls(log) == h.pending + 1
  }

  predicate WillRefuse(req: Request, env: Surroundings, handler: Handler, cached: Handler) {
    && (env.lateWhenScheduled || !env.snapshot.NeverArrives?)
    && (EarlyError(req, env).None? ==> Chosen(req, env.snapshot, handler, cached).CannotBuild?)
  }

  /** Everything before the first item: `Stopped` holds the error, or nothing when dropped. */
  datatype Prepared = Stopped(error: Option<Error>) | Ready(cached: bool, bucketsVersion: nat)

  function Preparation(req: Request, env: Surroundings, builds: bool, buildsCached: bool): Prepared {
    if !env.lateWhenScheduled && env.snapshot.NeverArrives? then Stopped(None)
    else if EarlyError(req, env).Some? then Stopped(EarlyError(req, env))
    else
      var cached := UsesCache(req, env.snapshot);
      if !(if cached then buildsCached else builds) then Stopped(Some(BuildFailed))
      else Ready(cached, if env.snapshot.buckets.Some? then env.snapshot.buckets.value else 0)
  }

  /** The steps both drivers share, up to the start of the items. */
  method Prepare(t: Tracker, req: Request, env: Surroundings, builds: bool, buildsCached: bool)
      returns (p: Prepared)
    requires t.Valid() && t.log == [] && t.Contents() == NEW_FIELDS
    modifies t, t.clock
    ensures t.Valid() && t.totalStorageStats == NO_STATISTICS && t.reported == [] && !t.stage.Tracked?
    ensures forall i :: 0 <= i < |t.log| ==> !t.log[i].op.FinishItem?
    ensures p == Preparation(req, env, builds, buildsCached)
    ensures p.Ready? ==> t.stage == AllItemsBegan
    ensures t.totalProcessTime == t.totalSuspendTime == 0
  {
    hide Perform, After, Ordered, Allowed;
    t.OnScheduled();
    if env.lateWhenScheduled {
      return Stopped(Some(DeadlineExceeded));
    }
    match env.snapshot
    case NeverArrives =>
      return Stopped(None);
    case Fails =>
      return Stopped(Some(SnapshotFailed));
    case Arrives(buckets, dataVersion) =>
      if buckets.Some? && buckets.value > req.bucketsVersion && req.bucketsVersion != 0 {
        return Stopped(Some(BucketVersionNotMatch(buckets.value)));
      }
      t.OnSnapshotFinished();
      if env.lateAfterSnapshot {
        return Stopped(Some(DeadlineExceeded));
      }
      var useCache := req.cacheMatchVersion.Some? && req.cacheMatchVersion == dataVersion;
      if (useCache && !buildsCached) || (!useCache && !builds) {
        return Stopped(Some(BuildFailed));
      }
      t.OnBeginAllItems();
      p := Ready(useCache, if buckets.Some? then buckets.value else 0);
  }

  /** The body of the future that handles a unary request. */
  method RunUnary(t: Tracker, req: Request, env: Surroundings, handler: Handler, cached: Handler)
      returns (r: UnaryResult)
    requires t.Valid() && t.log == [] && t.Contents() == NEW_FIELDS
    modifies t, t.clock
    ensures t.Valid() && UnaryDone(req, env, handler, cached, r, t.Contents(), t.log)
  {
    hide Perform, After, Ordered, Allowed, Polls;
    var p := Prepare(t, req, env, handler.Runs?, cached.Runs?);
    match p
    case Stopped(None) =>
      r := Dropped;
    case Stopped(Some(e)) =>
      r := Refused(e);
    case Ready(useCache, bucketsVersion) =>
      NoPolls(t.log);
      r := PollToEnd(t, if useCache then cached else handler, bucketsVersion);
  }

  /** The response is this handler's result, with this handler's statistics. */
  predicate AnsweredBy(h: Handler, response: Response) {
    h.Runs? && h.result == Some(response.payload) && response.details.stats == h.stats
  }

  /** A unary request from the moment it is scheduled until its tracker is gone. */
  method HandleUnary(t: Tracker, req: Request, env: Surroundings, handler: Handler, cached: Handler)
      returns (r: UnaryResult)
    requires t.Valid() && t.log == [] && t.Contents() == NEW_FIELDS
    modifies t, t.clock
    ensures t.Valid() && t.stage.Tracked? && t.totalStorageStats == NO_STATISTICS
    ensures r.Answered? <==> Completed(req, env, handler, cached).Some?
    ensures t.reported == [if r.Answered? then Completed(req, env, handler, cached).value.stats else NO_STATISTICS]
    ensures r.Answered? ==>
              && r.response.payload == Completed(req, env, handler, cached).value.result.value
              && r.response.details.stats == Completed(req, env, handler, cached).value.stats
              && Polls(t.log) == Completed(req, env, handler, cached).value.pending + 1
    ensures r.Answered? ==>
              r.latestBucketsVersion == if env.snapshot.buckets.Some? then env.snapshot.buckets.value else 0
    ensures r.Answered? ==>
              if req.cacheMatchVersion.Some? && env.snapshot.dataVersion == req.cacheMatchVersion
              then AnsweredBy(cached, r.response) else AnsweredBy(handler, r.response)
    ensures r.Answered? && env.snapshot.buckets.Some? && req.bucketsVersion > 0 ==>
              env.snapshot.buckets.value <= req.bucketsVersion
    ensures r.Refused? && r.error.BucketVersionNotMatch? ==>
              && env.snapshot.Arrives? && env.snapshot.buckets == Some(r.error.version)
              && 0 < req.bucketsVersion < r.error.version
    ensures r.Refused? <==> WillRefuse(req, env, handler, cached)
    ensures r.Refused? ==> r.error == if EarlyError(req, env).Some? then EarlyError(req, env).value else BuildFailed
    ensures r.Answered? ==>
              var d := r.response.details;
              && 0 <= d.process && 0 <= d.suspend && 0 <= d.wait
              && d.wait + t.handlerBuildTime + d.process + d.suspend <= t.reqLifetime
  {
    hide Perform, After, Ordered, Allowed, Polls;
    r := RunUnary(t, req, env, handler, cached);
    var _ := t.Drop(env.deadlineExceededAtDrop);
    TimesAddUp(t.requestBeginAt, t.log, t.Contents());
  }

  // ----- streaming requests

  datatype StepResult = Broke(error: Error) | Nothing | Gave(data: Data, finished: bool)

  /** One call of the streaming handler.  The call after the last one in a script never returns. */
  datatype StreamStep = StreamStep(result: StepResult, stats: Statistics)

  predicate Continues(r: StepResult) {
    r.Gave? && !r.finished
  }

  function Payload(r: StepResult): Result<Data, Error>
    requires !r.Nothing?
  {
    if r.Gave? then Ok(r.data) else Err(r.error)
  }

  ghost function TotalStats(steps: seq<StreamStep>): Statistics {
    if steps == [] then NO_STATISTICS
    else Add(TotalStats(steps[..|steps| - 1]), steps[|steps| - 1].stats)
  }

  lemma TotalMore(steps: seq<StreamStep>, i: nat)
    requires i < |steps|
    ensures TotalStats(steps[..i + 1]) == Add(TotalStats(steps[..i]), steps[i].stats)
  {
    assert steps[..i + 1][..i] == steps[..i];
  }

  /** `items` are the responses to the first `done` calls: all but the last call went on, and
      only a last call with nothing to say has no response. */
  ghost predicate Streams(steps: seq<StreamStep>, done: nat, items: seq<Response>) {
    && done <= |steps|
    && (forall i :: 0 <= i < done - 1 ==> Continues(steps[i].result))
    && |items| == (if done > 0 && steps[done - 1].result.Nothing? then done - 1 else done)
    && (forall i :: 0 <= i < |items| ==> !steps[i].result.Nothing? && items[i].payload == Payload(steps[i].result))
    && (forall i :: 0 <= i < |items| ==> items[i].details.stats == TotalStats(steps[..i + 1]))
  }

  /** The process times the items report, together. */
  ghost function Processing(items: seq<Response>): Duration {
    if items == [] then 0 else Processing(items[..|items| - 1]) + items[|items| - 1].details.process
  }

  /** The suspension times the items report, together. */
  ghost function Suspension(items: seq<Response>): Duration {
    if items == [] then 0 else Suspension(items[..|items| - 1]) + items[|items| - 1].details.suspend
  }

  lemma TimesMore(items: seq<Response>, r: Response)
    ensures Processing(items + [r]) == Processing(items) + r.details.process
    ensures Suspension(items + [r]) == Suspension(items) + r.details.suspend
  {
    assert (items + [r])[..|items|] == items;
  }

  /** Every call made so far has told its times in a response. */
  ghost predicate AllTold(items: seq<Response>, t: Tracker)
    reads t
  {
    Processing(items) == t.totalProcessTime && Suspension(items) == t.totalSuspendTime
  }

  /** What has been told does not exceed what was measured. */
  ghost predicate NotOvertold(items: seq<Response>, t: Tracker)
    reads t
  {
    && Processing(items) <= t.totalProcessTime && Suspension(items) <= t.totalSuspendTime
    && (forall i :: 0 <= i < |items| ==> items[i].details.wait == t.waitTime)
  }

  /** The last call made returned, had something to say, and no further one was made. */
  predicate LastCallAnswered(steps: seq<StreamStep>, done: nat, dropAt: Option<nat>)
    requires done <= |steps|
  {
    && done > 0 && !steps[done - 1].result.Nothing?
    && (!Continues(steps[done - 1].result) || dropAt == Some(done - 1))
  }

  lemma StreamsMore(steps: seq<StreamStep>, done: nat, items: seq<Response>, details: ExecDetails)
    requires Streams(steps, done, items) && |items| == done < |steps| && AllContinue(steps[..done])
    requires details.stats == TotalStats(steps[..done + 1])
    ensures steps[done].result.Nothing? ==> Streams(steps, done + 1, items)
    ensures !steps[done].result.Nothing? ==>
              Streams(steps, done + 1, items + [Response(Payload(steps[done].result), details)])
    ensures Continues(steps[done].result) ==> AllContinue(steps[..done + 1])
  {
    hide TotalStats, Payload;
    assert forall i :: 0 <= i < done ==> steps[..done][i] == steps[i];
    assert forall i :: 0 <= i < done ==> Continues(steps[i].result);
  }

  /** One call of the handler and what the tracker records of it. */
  method StreamOne(t: Tracker, stats: Statistics) returns (details: ExecDetails)
    requires t.Valid() && (t.stage == AllItemsBegan || t.stage.ItemFinished?)
    modifies t, t.clock
    ensures t.Valid() && t.stage.ItemFinished? && t.reported == old(t.reported)
    ensures t.totalStorageStats == Add(old(t.totalStorageStats), stats) == details.stats
    ensures t.totalProcessTime - old(t.totalProcessTime) == details.process >= 0
    ensures t.totalSuspendTime - old(t.totalSuspendTime) == details.suspend >= 0
    ensures details.wait == t.waitTime == old(t.waitTime)
  {
    hide Perform, After, Ordered, Allowed;
    t.OnBeginItem();
    t.OnFinishItem(Some(stats));
    details := t.GetItemExecDetails();
  }

  /** The state of the loop over the items after `done` calls. */
  ghost predicate Streaming(t: Tracker, steps: seq<StreamStep>, done: nat, items: seq<Response>, finished: bool)
    reads t, t.clock
  {
    && t.Valid() && (t.stage == AllItemsBegan || t.stage.ItemFinished?)
    && Streams(steps, done, items)
    && t.totalStorageStats == TotalStats(steps[..done]) && t.reported == []
    && (!finished ==> |items| == done && AllContinue(steps[..done]))
    && (finished ==> done > 0 && !Continues(steps[done - 1].result))
    && NotOvertold(items, t) && (|items| == done ==> AllTold(items, t))
  }

  /** One turn of the loop. */
  method StreamTurn(t: Tracker, steps: seq<StreamStep>, done: nat, before: seq<Response>)
      returns (items: seq<Response>, finished: bool)
    requires done < |steps| && Streaming(t, steps, done, before, false)
    modifies t, t.clock
    ensures Streaming(t, steps, done + 1, items, finished) && t.waitTime == old(t.waitTime)
    ensures |items| == done + 1 <==> !steps[done].result.Nothing?
  {
    hide Perform, After, Ordered, Allowed, Add, Streams, TotalStats, AllContinue, Processing, Suspension;
    var details := StreamOne(t, steps[done].stats);
    TotalMore(steps, done);
    StreamsMore(steps, done, before, details);
    match steps[done].result {
      case Nothing =>
        items, finished := before, true;
      case Broke(e) =>
        TimesMore(before, Response(Err(e), details));
        items, finished := before + [Response(Err(e), details)], true;
      case Gave(data, last) =>
        TimesMore(before, Response(Ok(data), details));
        items, finished := before + [Response(Ok(data), details)], last;
    }
  }

  /** The loop over the items.  The consumer may drop the stream at item `dropAt`. */
  method StreamItems(t: Tracker, steps: seq<StreamStep>, dropAt: Option<nat>)
      returns (items: seq<Response>, done: nat)
    requires t.Valid() && t.stage == AllItemsBegan && t.totalStorageStats == NO_STATISTICS && t.reported == []
    requires t.totalProcessTime == t.totalSuspendTime == 0
    modifies t, t.clock
    ensures t.Valid() && Streams(steps, done, items) && t.waitTime == old(t.waitTime)
    ensures t.stage.Tracked? ==> t.totalStorageStats == NO_STATISTICS && t.reported == [TotalStats(steps[..done])]
    ensures !t.stage.Tracked? ==> t.totalStorageStats == TotalStats(steps[..done]) && t.reported == []
    ensures t.stage.Tracked? ==> done > 0 && !Continues(steps[done - 1].result)
    ensures !t.stage.Tracked? ==> (done > 0 && dropAt == Some(done - 1)) || (done == |steps| && AllContinue(steps))
    ensures !t.stage.Initialized? && !t.stage.Scheduled? && NotOvertold(items, t)
    ensures LastCallAnswered(steps, done, dropAt) ==> AllTold(items, t) && !t.stage.ItemBegan?
    ensures !t.stage.Tracked? && !(done > 0 && dropAt == Some(done - 1)) ==> t.stage.ItemBegan?
  {
    hide Perform, After, Ordered, Allowed, Add;
    items, done := [], 0;
    var finished := false;
    while done < |steps| && !finished
      invariant Streaming(t, steps, done, items, finished) && t.waitTime == old(t.waitTime)
      invariant !finished && done > 0 ==> dropAt != Some(done - 1)
    {
      hide Streams, TotalStats, AllContinue, Processing, Suspension, Payload;
      items, finished := StreamTurn(t, steps, done, items);
      done := done + 1;
      if |items| == done && dropAt == Some(done - 1) {
        return;
      }
    }
    assert !finished ==> steps[..done] == steps;
    if finished {
      t.OnFinishAllItems();
    } else {
      t.OnBeginItem();
    }
  }

  ghost predicate AllContinue(steps: seq<StreamStep>) {
    forall i :: 0 <= i < |steps| ==> Continues(steps[i].result)
  }

  lemma TotalNone(steps: seq<StreamStep>)
    requires steps == []
    ensures TotalStats(steps) == NO_STATISTICS
  {
  }

  /** A streaming request from the moment its future is first polled until its tracker is gone.
      Without a `permit` the future is dropped while it waits for the semaphore. */
  method HandleStream(t: Tracker, permit: bool, env: Surroundings, builds: bool, steps: seq<StreamStep>,
                      dropAt: Option<nat>)
      returns (refusal: Option<Error>, items: seq<Response>, done: nat)
    requires t.Valid() && t.log == [] && t.Contents() == NEW_FIELDS
    modifies t, t.clock
    ensures t.Valid() && t.stage.Tracked? && t.totalStorageStats == NO_STATISTICS
    ensures Streams(steps, done, items) && t.reported == [TotalStats(steps[..done])]
    ensures refusal == (if !permit then None else
                          match Preparation(Request(0, None), env, builds, false)
                          case Stopped(e) => e
                          case Ready(_, _) => None)
    ensures !permit || Preparation(Request(0, None), env, builds, false).Stopped? ==> done == 0
    ensures permit && Preparation(Request(0, None), env, builds, false).Ready? ==>
              || (done > 0 && !Continues(steps[done - 1].result))
              || (done > 0 && dropAt == Some(done - 1))
              || (done == |steps| && AllContinue(steps))
    ensures NotOvertold(items, t)
    ensures LastCallAnswered(steps, done, dropAt) ==> AllTold(items, t)
    ensures 0 <= t.waitTime && 0 <= t.handlerBuildTime
    ensures t.waitTime + t.handlerBuildTime + Processing(items) + Suspension(items) <= t.reqLifetime
  {
    hide Perform, After, Ordered, Allowed, TotalStats, Preparation;
    items, done, refusal := [], 0, None;
    assert TotalStats(steps[..0]) == NO_STATISTICS by { TotalNone(steps[..0]); }
    if permit {
      // This driver neither compares bucket versions nor looks for a cached answer.
      var p := Prepare(t, Request(0, None), env, builds, false);
      match p {
        case Stopped(error) =>
          refusal := error;
        case Ready(_, _) =>
          items, done := StreamItems(t, steps, dropAt);
      }
    }
    var _ := t.Drop(env.deadlineExceededAtDrop);
    TimesAddUp(t.requestBeginAt, t.log, t.Contents());
  }
}
