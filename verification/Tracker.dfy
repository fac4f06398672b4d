/** The tracker object of a coprocessor request and its fast-forwarding destructor. */
module TrackerModel {
  import opened Wrappers
  import opened TrackerSpec
  import opened TrackerTheorems

  /** A monotonic clock that advances as scripted. */
  class Clock {
    var time: Instant
    var ticks: seq<nat>

    constructor (start: Instant, ticks: seq<nat>)
      ensures time == start && this.ticks == ticks
    {
      time := start;
      this.ticks := ticks;
    }

    method Now() returns (t: Instant)
      modifies this
      ensures t == time >= old(time)
      ensures old(ticks) != [] ==> time == old(time) + old(ticks)[0] && ticks == old(ticks)[1..]
    {
      if ticks != [] {
        time := time + ticks[0];
        ticks := ticks[1..];
      }
      t := time;
    }
  }

  datatype ExecDetails = ExecDetails(process: Duration, suspend: Duration, wait: Duration, stats: Statistics)

  class Tracker {
    const clock: Clock
    const requestBeginAt: Instant
    var stage: Stage
    var waitTime: Duration
    var scheduleWaitTime: Duration
    var snapshotWaitTime: Duration
    var handlerBuildTime: Duration
    var reqLifetime: Duration
    var itemSuspendTime: Duration
    var totalSuspendTime: Duration
    var itemProcessTime: Duration
    var totalProcessTime: Duration
    var totalStorageStats: Statistics
    var reported: seq<Statistics>
    ghost var log: seq<Event>

    ghost function Contents(): Fields
      reads this
    {
      Fields(stage, waitTime, scheduleWaitTime, snapshotWaitTime, handlerBuildTime, reqLifetime, itemSuspendTime,
             totalSuspendTime, itemProcessTime, totalProcessTime, totalStorageStats, reported)
    }

    /** The fields are what the log of all operations made them; between operations the tracker
        is never left with all items finished and nothing handed over. */
    ghost predicate Valid()
      reads this, clock
    {
      && After(requestBeginAt, log) == Some(Contents())
      && !stage.AllItemFinished? && (stage.ItemBegan? || stage.ItemFinished? ==> stage.at <= clock.time)
      && Ordered(requestBeginAt, log)
      && requestBeginAt <= clock.time
      && (forall i :: 0 <= i < |log| ==> log[i].now <= clock.time)
    }

    constructor (clock: Clock)
      modifies clock
      ensures Valid() && log == [] && Contents() == NEW_FIELDS && this.clock == clock
    {
      this.clock := clock;
      var now := clock.Now();
      requestBeginAt := now;
      stage := Initialized;
      waitTime, scheduleWaitTime, snapshotWaitTime, handlerBuildTime, reqLifetime := 0, 0, 0, 0, 0;
      itemSuspendTime, totalSuspendTime, itemProcessTime, totalProcessTime := 0, 0, 0, 0;
      totalStorageStats := NO_STATISTICS;
      reported := [];
      log := [];
    }

    /** Exactly this operation happened. */
    twostate predicate Did(op: Op)
      reads this, clock
    {
      && Valid()
      && log == old(log) + [Event(op, clock.time)]
      && Allowed(old(stage), op)
      && Contents() == Perform(requestBeginAt, old(Contents()), Event(op, clock.time))
    }

    ghost method Record(before: Fields, op: Op)
      requires After(requestBeginAt, log) == Some(before) && Allowed(before.stage, op)
      requires Ordered(requestBeginAt, log) && requestBeginAt <= clock.time
      requires forall i :: 0 <= i < |log| ==> log[i].now <= clock.time
      requires !stage.AllItemFinished? && (stage.ItemBegan? || stage.ItemFinished? ==> stage.at <= clock.time)
      requires Contents() == Perform(requestBeginAt, before, Event(op, clock.time))
      modifies this`log
      ensures Valid() && log == old(log) + [Event(op, clock.time)]
    {
      hide After, Ordered, Perform, Allowed;
      AfterMore(requestBeginAt, log, before, Event(op, clock.time));
      OrderedMore(requestBeginAt, log, Event(op, clock.time));
      log := log + [Event(op, clock.time)];
    }

    method OnScheduled()
      requires Valid() && stage == Initialized
      modifies this, clock
      ensures Did(Schedule) && stage == Scheduled(clock.time)
      ensures totalProcessTime == old(totalProcessTime) && totalSuspendTime == old(totalSuspendTime)
      ensures totalStorageStats == old(totalStorageStats) && reported == old(reported)
    {
      hide After, Ordered;
      var now := clock.Now();
      scheduleWaitTime := now - requestBeginAt;
      stage := Scheduled(now);
      Record(old(Contents()), Schedule);
    }

    method OnSnapshotFinished()
      requires Valid() && stage.Scheduled?
      modifies this, clock
      ensures Did(FinishSnapshot) && stage == SnapshotRetrieved(clock.time)
      ensures totalProcessTime == old(totalProcessTime) && totalSuspendTime == old(totalSuspendTime)
      ensures totalStorageStats == old(totalStorageStats) && reported == old(reported)
    {
      hide After, Ordered;
      var at := stage.at;
      var now := clock.Now();
      snapshotWaitTime := now - at;
      waitTime := now - requestBeginAt;
      stage := SnapshotRetrieved(now);
      Record(old(Contents()), FinishSnapshot);
    }

    method OnBeginAllItems()
      requires Valid() && stage.SnapshotRetrieved?
      modifies this, clock
      ensures Did(BeginAll) && stage == AllItemsBegan
      ensures waitTime == old(waitTime)
      ensures totalProcessTime == old(totalProcessTime) && totalSuspendTime == old(totalSuspendTime)
      ensures totalStorageStats == old(totalStorageStats) && reported == old(reported)
    {
      hide After, Ordered;
      var at := stage.at;
      var now := clock.Now();
      handlerBuildTime := now - at;
      stage := AllItemsBegan;
      Record(old(Contents()), BeginAll);
    }

    method OnBeginItem()
      requires Valid() && (stage == AllItemsBegan || stage.ItemFinished?)
      modifies this, clock
      ensures Did(BeginItem) && stage == ItemBegan(clock.time)
      ensures totalProcessTime == old(totalProcessTime) && waitTime == old(waitTime)
      ensures totalSuspendTime - old(totalSuspendTime) == itemSuspendTime >= 0
      ensures totalStorageStats == old(totalStorageStats) && reported == old(reported)
    {
      hide After, Ordered;
      ItemTimesAreExact(requestBeginAt, log, Contents());
      var now := clock.Now();
      match stage {
        case ItemFinished(at) =>
          itemSuspendTime := now - at;
          totalSuspendTime := totalSuspendTime + itemSuspendTime;
        case _ =>
      }
      stage := ItemBegan(now);
      Record(old(Contents()), BeginItem);
    }

    method OnFinishItem(some: Option<Statistics>)
      requires Valid() && stage.ItemBegan?
      modifies this, clock
      ensures Did(FinishItem(some)) && stage == ItemFinished(clock.time)
      ensures totalProcessTime - old(totalProcessTime) == itemProcessTime >= 0
      ensures totalSuspendTime == old(totalSuspendTime) && itemSuspendTime == old(itemSuspendTime)
      ensures waitTime == old(waitTime)
      ensures totalStorageStats == (if some.Some? then Add(old(totalStorageStats), some.value) else old(totalStorageStats))
      ensures reported == old(reported)
    {
      hide After, Ordered;
      var at := stage.at;
      var now := clock.Now();
      itemProcessTime := now - at;
      totalProcessTime := totalProcessTime + itemProcessTime;
      if some.Some? {
        totalStorageStats := Add(totalStorageStats, some.value);
      }
      stage := ItemFinished(now);
      Record(old(Contents()), FinishItem(some));
    }

    method CollectStorageStatistics(stats: Statistics)
      requires Valid()
      modifies this
      ensures Did(Collect(stats)) && stage == old(stage)
      ensures totalStorageStats == Add(old(totalStorageStats), stats) && reported == old(reported)
      ensures totalProcessTime == old(totalProcessTime) && totalSuspendTime == old(totalSuspendTime)
      ensures waitTime == old(waitTime)
    {
      hide After, Ordered;
      totalStorageStats := Add(totalStorageStats, stats);
      Record(old(Contents()), Collect(stats));
    }

    /** What the client is told about the latest item: the time inside it, the time between it
        and the item before, the time until the snapshot, and all statistics given so far. */
    method GetItemExecDetails() returns (d: ExecDetails)
      requires Valid() && stage.ItemFinished?
      ensures d == ExecDetails(InsideLatest(log), BeforeLatest(log), waitTime, Given(log))
      ensures LastTime(log, SnapshotEnd) == Some(requestBeginAt + d.wait)
      ensures d.process == itemProcessTime && d.suspend == itemSuspendTime && d.stats == totalStorageStats
    {
      d := ExecDetails(itemProcessTime, itemSuspendTime, waitTime, totalStorageStats);
      DetailsAreExact(requestBeginAt, log, Contents());
    }

    /** What the client is told about the whole request: the time inside all items, the time
        between them, the time until the snapshot, and all statistics given. */
    method GetExecDetails() returns (d: ExecDetails)
      requires Valid() && stage.ItemFinished?
      ensures d == ExecDetails(InsideItems(log), BetweenItems(log), waitTime, Given(log))
      ensures LastTime(log, SnapshotEnd) == Some(requestBeginAt + d.wait)
      ensures d.process == totalProcessTime && d.suspend == totalSuspendTime && d.stats == totalStorageStats
    {
      d := ExecDetails(totalProcessTime, totalSuspendTime, waitTime, totalStorageStats);
      DetailsAreExact(requestBeginAt, log, Contents());
    }

    method OnFinishAllItems()
      requires Valid() && (stage == AllItemsBegan || stage.ItemFinished?)
      modifies this, clock
      ensures Did(FinishAll) && stage == Tracked
      ensures totalStorageStats == NO_STATISTICS && reported == old(reported) + [old(totalStorageStats)]
      ensures totalProcessTime == old(totalProcessTime) && totalSuspendTime == old(totalSuspendTime)
      ensures waitTime == old(waitTime)
    {
      hide After, Ordered;
      var now := clock.Now();
      reqLifetime := now - requestBeginAt;
      stage := AllItemFinished;
      Track();
      Record(old(Contents()), FinishAll);
    }

    method Track()
      modifies this
      ensures Contents() == HandOver(old(Contents())) && log == old(log)
    {
      if stage != AllItemFinished {
        return;
      }
      var taken := totalStorageStats;
      totalStorageStats := NO_STATISTICS;
      reported := reported + [taken];
      stage := Tracked;
    }

    /** The first half of the destructor: goes through the stages before the items. */
    method SkipToItems()
      requires Valid()
      modifies this, clock
      ensures Valid() && !stage.Initialized? && !stage.Scheduled? && !stage.SnapshotRetrieved?
      ensures ExtendsSilently(old(log), log)
      ensures !old(stage).Initialized? && !old(stage).Scheduled? && !old(stage).SnapshotRetrieved? ==>
                log == old(log) && Contents() == old(Contents())
      ensures old(stage).Initialized? || old(stage).Scheduled? || old(stage).SnapshotRetrieved? ==>
                stage == AllItemsBegan
      ensures totalStorageStats == old(totalStorageStats) && reported == old(reported)
      ensures totalProcessTime == old(totalProcessTime) && totalSuspendTime == old(totalSuspendTime)
      ensures !old(stage).Initialized? && !old(stage).Scheduled? ==> waitTime == old(waitTime)
    {
      hide After, Ordered, Perform, Allowed;
      if stage == Initialized {
        OnScheduled();
      }
      if stage.Scheduled? {
        OnSnapshotFinished();
      }
      if stage.SnapshotRetrieved? {
        OnBeginAllItems();
      }
    }

    /** The destructor: fast-forwards through whatever is missing, then reports whether to log
        that the deadline had passed. */
    method Drop(deadlineExceeded: bool) returns (warned: bool)
      requires Valid()
      modifies this, clock
      ensures Valid() && stage.Tracked?
      ensures ExtendsSilently(old(log), log)
      ensures old(stage).Tracked? ==> log == old(log) && Contents() == old(Contents())
      ensures !old(stage).Tracked? ==> totalStorageStats == NO_STATISTICS
                                       && reported == old(reported) + [old(totalStorageStats)]
      ensures totalSuspendTime == old(totalSuspendTime) && totalProcessTime >= old(totalProcessTime)
      ensures !old(stage).ItemBegan? ==> totalProcessTime == old(totalProcessTime)
      ensures !old(stage).Initialized? && !old(stage).Scheduled? ==> waitTime == old(waitTime)
      ensures warned == deadlineExceeded
    {
      hide After, Ordered, Perform, Allowed;
      SkipToItems();
      if stage.ItemBegan? {
        OnFinishItem(None);
      }
      if stage == AllItemsBegan {
        OnFinishAllItems();
      }
      if stage.ItemFinished? {
        OnFinishAllItems();
      }
      warned := stage != AllItemFinished && deadlineExceeded;
    }
  }
}
