/** What every run of the tracker accounts for, however many items it processes and wherever
    its request is abandoned.  The reference points are read off the log of operations, not
    off the tracker's fields. */
module TrackerTheorems {
  import opened Wrappers
  import opened TrackerSpec

  /** The operations whose times the accounting refers to. */
  datatype Mark = Scheduling | SnapshotEnd | AllBegun | ItemStart | ItemEnd | AllEnded

  predicate IsMark(op: Op, m: Mark) {
    match m
    case Scheduling => op.Schedule?
    case SnapshotEnd => op.FinishSnapshot?
    case AllBegun => op.BeginAll?
    case ItemStart => op.BeginItem?
    case ItemEnd => op.FinishItem?
    case AllEnded => op.FinishAll?
  }

  /** When the last operation of the kind ran. */
  ghost function LastTime(log: seq<Event>, m: Mark): Option<Instant> {
    if log == [] then None
    else if IsMark(log[|log| - 1].op, m) then Some(log[|log| - 1].now)
    else LastTime(log[..|log| - 1], m)
  }

  /** When the first operation of the kind ran. */
  ghost function FirstTime(log: seq<Event>, m: Mark): Option<Instant> {
    if log == [] then None
    else if IsMark(log[0].op, m) then Some(log[0].now)
    else FirstTime(log[1..], m)
  }

  /** Every statistic given to the tracker. */
  ghost function Given(log: seq<Event>): Statistics {
    if log == [] then NO_STATISTICS
    else Add(Given(log[..|log| - 1]), GivenBy(log[|log| - 1].op))
  }

  function GivenBy(op: Op): Statistics {
    match op
    case FinishItem(Some(s)) => s
    case Collect(s) => s
    case _ => NO_STATISTICS
  }

  /** One figure of the statistics. */
  datatype Figure = ProcessedKeys | TotalOps | ProcessedSize

  function FigureOf(s: Statistics, x: Figure): nat {
    match x
    case ProcessedKeys => s.processedKeys
    case TotalOps => s.totalOps
    case ProcessedSize => s.processedSize
  }

  /** The sum of one figure over everything given. */
  ghost function FigureSum(log: seq<Event>, x: Figure): nat {
    if log == [] then 0 else FigureOf(GivenBy(log[0].op), x) + FigureSum(log[1..], x)
  }

  lemma {:induction false} FigureSumMore(log: seq<Event>, e: Event, x: Figure)
    ensures FigureSum(log + [e], x) == FigureSum(log, x) + FigureOf(GivenBy(e.op), x)
  {
    if log == [] {
      assert (log + [e])[1..] == [];
    } else {
      FigureSumMore(log[1..], e, x);
      assert (log + [e])[1..] == log[1..] + [e];
    }
  }

  /** Statistics add up figure by figure. */
  lemma {:induction false} GivenIsSum(log: seq<Event>, x: Figure)
    ensures FigureOf(Given(log), x) == FigureSum(log, x)
    decreases |log|
  {
    if log != [] {
      var init, e := log[..|log| - 1], log[|log| - 1];
      assert log == init + [e];
      GivenIsSum(init, x);
      FigureSumMore(init, e, x);
    }
  }

  lemma {:induction false} FirstTimeMore(log: seq<Event>, e: Event, m: Mark)
    ensures FirstTime(log + [e], m) ==
            (if FirstTime(log, m).Some? then FirstTime(log, m) else if IsMark(e.op, m) then Some(e.now) else None)
  {
    if log == [] {
      assert (log + [e])[1..] == [];
    } else {
      FirstTimeMore(log[1..], e, m);
      assert (log + [e])[1..] == log[1..] + [e];
    }
  }

  /** The moment the items' accounting has reached. */
  ghost function ItemsUntil(f: Fields, log: seq<Event>): Option<Instant> {
    if f.stage.ItemBegan? then Some(f.stage.at) else LastTime(log, ItemEnd)
  }

  ghost function LatestTime(begin: Instant, log: seq<Event>): Instant {
    if log == [] then begin else log[|log| - 1].now
  }

  /** The waiting part: each duration lies between two marks, and they follow each other. */
  ghost predicate WaitsAdd(begin: Instant, log: seq<Event>, f: Fields) {
    && 0 <= f.scheduleWait && 0 <= f.snapshotWait && 0 <= f.handlerBuild
    && f.scheduleWait + f.snapshotWait + f.handlerBuild <= LatestTime(begin, log) - begin
    && (if f.stage.Initialized? then f.scheduleWait == 0
        else LastTime(log, Scheduling) == Some(begin + f.scheduleWait))
    && (if f.stage.Initialized? || f.stage.Scheduled? then f.snapshotWait == f.wait == 0
        else f.wait == f.scheduleWait + f.snapshotWait && LastTime(log, SnapshotEnd) == Some(begin + f.wait))
    && (if f.stage.Initialized? || f.stage.Scheduled? || f.stage.SnapshotRetrieved? then f.handlerBuild == 0
        else LastTime(log, AllBegun) == Some(begin + f.wait + f.handlerBuild))
    && (f.stage.Scheduled? ==> f.stage.at == begin + f.scheduleWait)
    && (f.stage.SnapshotRetrieved? ==> f.stage.at == begin + f.wait)
  }

  /** The items' part: processing and suspension fill the time since the first item began. */
  ghost predicate ItemsAdd(begin: Instant, log: seq<Event>, f: Fields) {
    && 0 <= f.totalProcess && 0 <= f.totalSuspend
    && match FirstTime(log, ItemStart)
       case None =>
         && f.totalProcess == f.totalSuspend == 0 && !f.stage.ItemBegan? && !f.stage.ItemFinished?
         && LastTime(log, ItemEnd).None?
       case Some(first) =>
         && (f.stage.ItemBegan? || f.stage.ItemFinished? || f.stage.Tracked?)
         && begin + f.wait + f.handlerBuild <= first
         && (f.stage.ItemFinished? ==> LastTime(log, ItemEnd) == Some(f.stage.at))
         && ItemsUntil(f, log) == Some(first + f.totalProcess + f.totalSuspend)
         && ItemsUntil(f, log).value <= LatestTime(begin, log)
  }

  ghost predicate EndAdds(begin: Instant, log: seq<Event>, f: Fields) {
    && !f.stage.AllItemFinished?
    && match LastTime(log, AllEnded)
       case None => !f.stage.Tracked? && f.lifetime == 0 && f.reported == []
       case Some(end) =>
         && f.stage.Tracked? && f.lifetime == end - begin && |f.reported| == 1
         && begin + f.wait + f.handlerBuild <= end <= LatestTime(begin, log)
         && (LastTime(log, ItemEnd).Some? ==> LastTime(log, ItemEnd).value <= end)
  }

  lemma LatestGrows(begin: Instant, log: seq<Event>, e: Event)
    requires Ordered(begin, log + [e])
    ensures Ordered(begin, log)
    ensures begin <= LatestTime(begin, log) <= e.now == LatestTime(begin, log + [e])
  {
    assert forall i :: 0 <= i < |log| ==> (log + [e])[i] == log[i];
    assert (log + [e])[|log|] == e;
  }

  lemma LastTimeMore(log: seq<Event>, e: Event, m: Mark)
    ensures LastTime(log + [e], m) == if IsMark(e.op, m) then Some(e.now) else LastTime(log, m)
  {
    assert (log + [e])[..|log|] == log;
  }

  lemma StepKeepsWaits(begin: Instant, log: seq<Event>, f: Fields, e: Event)
    requires Ordered(begin, log + [e]) && Allowed(f.stage, e.op) && !f.stage.AllItemFinished?
    requires WaitsAdd(begin, log, f)
    ensures WaitsAdd(begin, log + [e], Perform(begin, f, e))
  {
    hide LastTime, Ordered, LatestTime;
    LatestGrows(begin, log, e);
    LastTimeMore(log, e, Scheduling);
    LastTimeMore(log, e, SnapshotEnd);
    LastTimeMore(log, e, AllBegun);
  }

  lemma StepKeepsItems(begin: Instant, log: seq<Event>, f: Fields, e: Event)
    requires Ordered(begin, log + [e]) && Allowed(f.stage, e.op)
    requires WaitsAdd(begin, log, f) && ItemsAdd(begin, log, f) && EndAdds(begin, log, f)
    ensures ItemsAdd(begin, log + [e], Perform(begin, f, e))
  {
    hide LastTime, FirstTime, Ordered, LatestTime;
    LatestGrows(begin, log, e);
    LastTimeMore(log, e, ItemEnd);
    FirstTimeMore(log, e, ItemStart);
  }

  lemma StepKeepsEnd(begin: Instant, log: seq<Event>, f: Fields, e: Event)
    requires Ordered(begin, log + [e]) && Allowed(f.stage, e.op)
    requires WaitsAdd(begin, log, f) && ItemsAdd(begin, log, f) && EndAdds(begin, log, f)
    ensures EndAdds(begin, log + [e], Perform(begin, f, e))
  {
    hide LastTime, FirstTime, Ordered, LatestTime;
    LatestGrows(begin, log, e);
    LastTimeMore(log, e, AllEnded);
    LastTimeMore(log, e, ItemEnd);
  }

  lemma {:induction false} RunAccounts(begin: Instant, log: seq<Event>, f: Fields)
    requires After(begin, log) == Some(f) && Ordered(begin, log)
    ensures WaitsAdd(begin, log, f) && ItemsAdd(begin, log, f) && EndAdds(begin, log, f)
  {
    if log != [] {
      hide WaitsAdd, ItemsAdd, EndAdds, Perform, LastTime, FirstTime;
      var init, e := log[..|log| - 1], log[|log| - 1];
      var g := After(begin, init).value;
      assert log == init + [e];
      LatestGrows(begin, init, e);
      RunAccounts(begin, init, g);
      assert !g.stage.AllItemFinished? by { Unfinished(begin, init, g); }
      StepKeepsWaits(begin, init, g, e);
      StepKeepsItems(begin, init, g, e);
      StepKeepsEnd(begin, init, g, e);
    }
  }

  lemma Unfinished(begin: Instant, log: seq<Event>, f: Fields)
    requires EndAdds(begin, log, f)
    ensures !f.stage.AllItemFinished?
  {
  }

  // ----- the main results

  /** The part of a finished request's life that no duration covers: between building the
      handler and the first item, and after the last item. */
  ghost function Idle(log: seq<Event>): Duration
    requires LastTime(log, AllBegun).Some? && LastTime(log, AllEnded).Some?
    requires FirstTime(log, ItemStart).Some? ==> LastTime(log, ItemEnd).Some?
  {
    var built, end := LastTime(log, AllBegun).value, LastTime(log, AllEnded).value;
    match FirstTime(log, ItemStart)
    case None => end - built
    case Some(first) => (first - built) + (end - LastTime(log, ItemEnd).value)
  }

  /** A finished request's durations are disjoint parts of its life: nothing is counted twice
      and only the idle time is not counted. */
  lemma TimesAddUp(begin: Instant, log: seq<Event>, f: Fields)
    requires After(begin, log) == Some(f) && Ordered(begin, log) && f.stage.Tracked?
    ensures LastTime(log, AllBegun).Some? && LastTime(log, AllEnded).Some?
    ensures FirstTime(log, ItemStart).Some? <==> LastTime(log, ItemEnd).Some?
    ensures f.scheduleWait + f.snapshotWait == f.wait
    ensures f.lifetime == f.wait + f.handlerBuild + f.totalProcess + f.totalSuspend + Idle(log)
    ensures 0 <= Idle(log)
    ensures 0 <= f.scheduleWait && 0 <= f.snapshotWait && 0 <= f.handlerBuild
    ensures 0 <= f.totalProcess && 0 <= f.totalSuspend
  {
    RunAccounts(begin, log, f);
  }

  /** While items are processed, processing and suspension fill the time between the start of
      the first item and the end of the latest one. */
  lemma ItemsTelescope(begin: Instant, log: seq<Event>, f: Fields)
    requires After(begin, log) == Some(f) && Ordered(begin, log) && f.stage.ItemFinished?
    ensures FirstTime(log, ItemStart).Some? && LastTime(log, ItemEnd).Some?
    ensures f.totalProcess + f.totalSuspend == LastTime(log, ItemEnd).value - FirstTime(log, ItemStart).value
  {
    RunAccounts(begin, log, f);
  }

  /** The three waits of a finished request, told apart. */
  lemma WaitsAreExact(begin: Instant, log: seq<Event>, f: Fields)
    requires After(begin, log) == Some(f) && Ordered(begin, log) && f.stage.Tracked?
    ensures LastTime(log, Scheduling) == Some(begin + f.scheduleWait)
    ensures LastTime(log, SnapshotEnd) == Some(begin + f.scheduleWait + f.snapshotWait)
    ensures LastTime(log, AllBegun) == Some(begin + f.scheduleWait + f.snapshotWait + f.handlerBuild)
  {
    RunAccounts(begin, log, f);
  }

  /** The time spent inside items: from each begin to the finish that follows it. */
  ghost function InsideItems(log: seq<Event>): Duration {
    if log == [] then 0
    else
      var init, e := log[..|log| - 1], log[|log| - 1];
      InsideItems(init) + if e.op.FinishItem? then Since(init, ItemStart, e.now) else 0
  }

  /** The time spent between items: from each finish to the begin that follows it. */
  ghost function BetweenItems(log: seq<Event>): Duration {
    if log == [] then 0
    else
      var init, e := log[..|log| - 1], log[|log| - 1];
      BetweenItems(init) + if e.op.BeginItem? then Since(init, ItemEnd, e.now) else 0
  }

  /** The time since the last operation of the kind, nothing if there was none. */
  ghost function Since(log: seq<Event>, m: Mark, now: Instant): Duration {
    match LastTime(log, m)
    case None => 0
    case Some(at) => now - at
  }

  /** The time inside the latest finished item. */
  ghost function InsideLatest(log: seq<Event>): Duration {
    if log == [] then 0
    else
      var init, e := log[..|log| - 1], log[|log| - 1];
      if e.op.FinishItem? then Since(init, ItemStart, e.now) else InsideLatest(init)
  }

  /** The time between the start of the latest item and the finish before it. */
  ghost function BeforeLatest(log: seq<Event>): Duration {
    if log == [] then 0
    else
      var init, e := log[..|log| - 1], log[|log| - 1];
      if e.op.BeginItem? then Since(init, ItemEnd, e.now) else BeforeLatest(init)
  }

  /** Processing is the time inside items and suspension the time between them, in total and
      for the latest item. */
  lemma {:induction false} ItemTimesAreExact(begin: Instant, log: seq<Event>, f: Fields)
    requires After(begin, log) == Some(f)
    ensures f.totalProcess == InsideItems(log) && f.totalSuspend == BetweenItems(log)
    ensures f.stage.ItemBegan? ==> LastTime(log, ItemStart) == Some(f.stage.at)
    ensures f.stage.ItemFinished? ==> LastTime(log, ItemEnd) == Some(f.stage.at)
    ensures f.itemProcess == InsideLatest(log) && f.itemSuspend == BeforeLatest(log)
    ensures match LastTime(log, ItemEnd)
            case None => f.itemSuspend == 0
            case Some(_) => f.stage.ItemBegan? || f.stage.ItemFinished? || f.stage.Tracked?
  {
    if log != [] {
      var init, e := log[..|log| - 1], log[|log| - 1];
      var g := After(begin, init).value;
      ItemTimesAreExact(begin, init, g);
      assert log == init + [e];
      LastTimeMore(init, e, ItemStart);
      LastTimeMore(init, e, ItemEnd);
    }
  }

  /** The statistics of a run are handed over exactly once, in full, when all items end. */
  lemma {:induction false} HandedOverOnce(begin: Instant, log: seq<Event>, f: Fields) returns (end: nat)
    requires After(begin, log) == Some(f)
    ensures !f.stage.AllItemFinished? && end <= |log|
    ensures f.stage.Tracked? <==> end < |log|
    ensures forall i :: 0 <= i < |log| ==> (log[i].op.FinishAll? <==> i == end)
    ensures !f.stage.Tracked? ==> f.reported == [] && f.stats == Given(log)
    ensures f.stage.Tracked? ==> f.reported == [Given(log[..end])] && Given(log) == Add(Given(log[..end]), f.stats)
  {
    if log == [] {
      end := 0;
    } else {
      var init, e := log[..|log| - 1], log[|log| - 1];
      var g := After(begin, init).value;
      end := HandedOverOnce(begin, init, g);
      if g.stage.Tracked? {
        assert init[..end] == log[..end];
        assert forall i :: 0 <= i < |init| ==> init[i] == log[i];
      } else {
        assert forall i :: 0 <= i < |init| ==> init[i] == log[i];
        end := if e.op.FinishAll? then |init| else |log|;
      }
    }
  }

  /** What a request between items can say of itself. */
  lemma DetailsAreExact(begin: Instant, log: seq<Event>, f: Fields)
    requires After(begin, log) == Some(f) && Ordered(begin, log) && f.stage.ItemFinished?
    ensures f.itemProcess == InsideLatest(log) && f.itemSuspend == BeforeLatest(log)
    ensures f.totalProcess == InsideItems(log) && f.totalSuspend == BetweenItems(log)
    ensures LastTime(log, SnapshotEnd) == Some(begin + f.wait) && f.stats == Given(log)
  {
    ItemTimesAreExact(begin, log, f);
    RunAccounts(begin, log, f);
    var _ := HandedOverOnce(begin, log, f);
  }
}
