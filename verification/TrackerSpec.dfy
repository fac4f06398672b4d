/** The coprocessor request tracker as a machine: eight stages, the operations each of them
    allows, and the times and scan statistics they accumulate.  Instants and durations are
    numbers of one common unit of time. */
module TrackerSpec {
  import opened Wrappers

  type Instant = int
  type Duration = int

  datatype Stage =
    | Initialized
    | Scheduled(at: Instant)
    | SnapshotRetrieved(at: Instant)
    | AllItemsBegan
    | ItemBegan(at: Instant)
    | ItemFinished(at: Instant)
    | AllItemFinished
    | Tracked

  datatype Statistics = Statistics(processedKeys: nat, totalOps: nat, processedSize: nat)

  const NO_STATISTICS := Statistics(0, 0, 0)

  function Add(a: Statistics, b: Statistics): Statistics {
    Statistics(a.processedKeys + b.processedKeys, a.totalOps + b.totalOps, a.processedSize + b.processedSize)
  }

  /** The tracker's fields; `reported` is what was handed over to the collectors, oldest first. */
  datatype Fields = Fields(stage: Stage, wait: Duration, scheduleWait: Duration, snapshotWait: Duration,
                           handlerBuild: Duration, lifetime: Duration,
                           itemSuspend: Duration, totalSuspend: Duration,
                           itemProcess: Duration, totalProcess: Duration,
                           stats: Statistics, reported: seq<Statistics>)

  const NEW_FIELDS := Fields(Initialized, 0, 0, 0, 0, 0, 0, 0, 0, 0, NO_STATISTICS, [])

  datatype Op =
    | Schedule
    | FinishSnapshot
    | BeginAll
    | BeginItem
    | FinishItem(some: Option<Statistics>)
    | Collect(stats: Statistics)
    | FinishAll

  /** An operation and the clock when it ran. */
  datatype Event = Event(op: Op, now: Instant)

  /** The stages in which the operation neither fails an assertion nor is unreachable. */
  predicate Allowed(stage: Stage, op: Op) {
    match op
    case Schedule => stage.Initialized?
    case FinishSnapshot => stage.Scheduled?
    case BeginAll => stage.SnapshotRetrieved?
    case BeginItem => stage.AllItemsBegan? || stage.ItemFinished?
    case FinishItem(_) => stage.ItemBegan?
    case Collect(_) => true
    case FinishAll => stage.AllItemsBegan? || stage.ItemFinished?
  }

  /** Hands the accumulated statistics over, once all items are finished. */
  function HandOver(f: Fields): Fields {
    if f.stage != AllItemFinished then f
    else f.(reported := f.reported + [f.stats], stats := NO_STATISTICS, stage := Tracked)
  }

  function Perform(begin: Instant, f: Fields, e: Event): Fields
    requires Allowed(f.stage, e.op)
  {
    match e.op
    case Schedule => f.(scheduleWait := e.now - begin, stage := Scheduled(e.now))
    case FinishSnapshot =>
      f.(snapshotWait := e.now - f.stage.at, wait := e.now - begin, stage := SnapshotRetrieved(e.now))
    case BeginAll => f.(handlerBuild := e.now - f.stage.at, stage := AllItemsBegan)
    case BeginItem =>
      if f.stage.ItemFinished?
      then f.(itemSuspend := e.now - f.stage.at, totalSuspend := f.totalSuspend + (e.now - f.stage.at),
              stage := ItemBegan(e.now))
      else f.(stage := ItemBegan(e.now))
    case FinishItem(some) =>
      f.(itemProcess := e.now - f.stage.at, totalProcess := f.totalProcess + (e.now - f.stage.at),
         stats := if some.Some? then Add(f.stats, some.value) else f.stats, stage := ItemFinished(e.now))
    case Collect(stats) => f.(stats := Add(f.stats, stats))
    case FinishAll => HandOver(f.(lifetime := e.now - begin, stage := AllItemFinished))
  }

  /** The fields after a log of operations on a new tracker; none if some operation panics. */
  ghost function After(begin: Instant, log: seq<Event>): Option<Fields> {
    if log == [] then Some(NEW_FIELDS)
    else
      match After(begin, log[..|log| - 1])
      case None => None
      case Some(f) =>
        var e := log[|log| - 1];
        if Allowed(f.stage, e.op) then Some(Perform(begin, f, e)) else None
  }

  /** The clock never goes back, and started at `begin`. */
  ghost predicate Ordered(begin: Instant, log: seq<Event>) {
    && (forall i :: 0 <= i < |log| ==> begin <= log[i].now)
    && (forall i, j :: 0 <= i < j < |log| ==> log[i].now <= log[j].now)
  }

  lemma AfterMore(begin: Instant, log: seq<Event>, f: Fields, e: Event)
    requires After(begin, log) == Some(f) && Allowed(f.stage, e.op)
    ensures After(begin, log + [e]) == Some(Perform(begin, f, e))
  {
    assert (log + [e])[..|log|] == log;
  }

  lemma OrderedMore(begin: Instant, log: seq<Event>, e: Event)
    requires Ordered(begin, log) && begin <= e.now && forall i :: 0 <= i < |log| ==> log[i].now <= e.now
    ensures Ordered(begin, log + [e])
  {
  }

  /** What the destructor adds to the log collects nothing. */
  ghost predicate ExtendsSilently(log: seq<Event>, log': seq<Event>) {
    && log <= log'
    && forall i :: |log| <= i < |log'| ==> Silent(log'[i].op)
  }

  predicate Silent(op: Op) {
    !op.Collect? && (op.FinishItem? ==> op.some.None?)
  }
}
