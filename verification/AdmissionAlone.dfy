/** One request's admission with nobody in between: the interleaved steps of `Admission`, taken
    by a single request, do what the endpoint's call does. */
module AdmissionAlone {
  import opened Admission

  datatype Outcome = Spawned | QuotaExceeded | PoolFull

  /** What the call promises, as one comparison for the quota and one for the gauge. */
  function OutcomeOf(capacity: int, inUse: int, running: int, limit: nat, bytes: nat): Outcome {
    if bytes > MAX_MEMORY_ALLOC_SIZE || bytes > capacity - inUse then QuotaExceeded
    else if AsUsize(running) >= limit then PoolFull
    else Spawned
  }

  ghost function OutcomeIn(s: State, id: TaskId, limit: nat): Outcome
    requires id in s.tasks && s.tasks[id].priority in s.gauges
  {
    OutcomeOf(s.capacity, s.inUse, s.gauges[s.tasks[id].priority], limit, s.tasks[id].bytes)
  }

  /** A step of request `id` that compares the gauge with `limit`. */
  predicate Own(t: Step, id: TaskId, limit: nat) {
    !t.SetCapacity? && t.id == id && (t.CheckGauge? ==> t.limit == limit)
  }

  ghost predicate AllOwn(steps: seq<Step>, id: TaskId, limit: nat) {
    forall i :: 0 <= i < |steps| ==> Own(steps[i], id, limit)
  }

  ghost predicate Starts(s: State, id: TaskId) {
    InPhase(s, id, New) && s.tasks[id].priority in s.gauges && s.inUse >= 0
  }

  /** How far request `id` has come since `s0`, and what it has taken so far. */
  ghost predicate Alone(s0: State, s: State, id: TaskId, limit: nat)
    requires Starts(s0, id)
  {
    && id in s.tasks && s == s0.(inUse := s.inUse, gauges := s.gauges, tasks := s.tasks)
    && s.tasks == s0.tasks[id := s0.tasks[id].(phase := s.tasks[id].phase)]
    && var Task(bytes, p, phase), outcome := s.tasks[id], OutcomeIn(s0, id, limit);
       && (phase.HasCapacity? || phase.Willing? ==> phase.capacity == s0.capacity)
       && (phase.Willing? ==> bytes <= MAX_MEMORY_ALLOC_SIZE)
       && (phase.Willing? && s0.inUse <= s0.capacity ==> bytes <= s0.capacity - s0.inUse)
       && (phase.Overdrawn? ==> outcome.QuotaExceeded? && s0.inUse > s0.capacity)
       && (phase.Granted? ==> !outcome.QuotaExceeded?)
       && (phase.Full? ==> outcome.PoolFull?)
       && (phase.Cleared? || phase.Running? || phase.Freed? || phase.Done? ==> outcome.Spawned?)
       && (phase.Refused? ==> !outcome.Spawned?)
       && s.inUse == s0.inUse + Charge(s.tasks[id])
       && s.gauges == s0.gauges[p := s0.gauges[p] + Counted(s.tasks[id], p)]
  }

  lemma AloneStart(s: State, id: TaskId, limit: nat)
    requires Starts(s, id)
    ensures Alone(s, s, id, limit)
  {
    assert s.tasks == s.tasks[id := s.tasks[id]];
    assert s.gauges == s.gauges[s.tasks[id].priority := s.gauges[s.tasks[id].priority]];
  }

  lemma AloneStep(s0: State, s: State, t: Step, id: TaskId, limit: nat)
    requires Starts(s0, id) && Alone(s0, s, id, limit) && Enabled(s, t) && Own(t, id, limit)
    ensures Alone(s0, Apply(s, t), id, limit)
  {
  }

  lemma {:induction false} AloneRun(s0: State, s: State, steps: seq<Step>, s': State, id: TaskId, limit: nat)
    requires Starts(s0, id) && Alone(s0, s, id, limit)
    requires Runs(s, steps, s') && AllOwn(steps, id, limit)
    ensures Alone(s0, s', id, limit)
    decreases |steps|
  {
    hide Alone, Enabled, Apply;
    if steps != [] {
      AloneStep(s0, s, steps[0], id, limit);
      AloneRun(s0, Apply(s, steps[0]), steps[1..], s', id, limit);
    }
  }

  /** Every undisturbed run: a spawned request holds its bytes and its place, a refused one
      nothing, a finished one nothing any more, and which of them it is is the call's outcome. */
  lemma {:induction false} UndisturbedSpawn(s: State, steps: seq<Step>, s': State, id: TaskId, limit: nat)
    requires Starts(s, id) && Runs(s, steps, s') && AllOwn(steps, id, limit)
    ensures id in s'.tasks
    ensures var phase := s'.tasks[id].phase;
            && (phase.Running? ==> && OutcomeIn(s, id, limit).Spawned? && s'.inUse == s.inUse + s.tasks[id].bytes
                                   && s'.gauges == s.gauges[s.tasks[id].priority := s.gauges[s.tasks[id].priority] + 1])
            && (phase.Refused? ==> !OutcomeIn(s, id, limit).Spawned? && s'.inUse == s.inUse && s'.gauges == s.gauges)
            && (phase.Done? ==> OutcomeIn(s, id, limit).Spawned? && s'.inUse == s.inUse && s'.gauges == s.gauges)
  {
    AloneStart(s, id, limit);
    AloneRun(s, s, steps, s', id, limit);
  }

  /** A request that does not fit is refused before it touches the quota: undisturbed, and unless
      the capacity was lowered below what is in use, the amount in use never moves. */
  lemma {:induction false} RefusalIsQuiet(s: State, steps: seq<Step>, s': State, id: TaskId, limit: nat)
    requires Starts(s, id) && Runs(s, steps, s') && AllOwn(steps, id, limit)
    requires s.inUse <= s.capacity && OutcomeIn(s, id, limit).QuotaExceeded?
    ensures s'.inUse == s.inUse && s'.gauges == s.gauges
  {
    AloneStart(s, id, limit);
    AloneRun(s, s, steps, s', id, limit);
  }

  function StepsToEnd(p: Phase): nat {
    match p
    case New => 6
    case HasCapacity(_) => 5
    case Willing(_) => 4
    case Overdrawn => 1
    case Granted => 3
    case Full => 1
    case Cleared => 1
    case _ => 0
  }

  function NextStep(p: Phase, id: TaskId, limit: nat): Step {
    match p
    case New => LoadCapacity(id)
    case HasCapacity(_) => LoadInUse(id)
    case Willing(_) => FetchAdd(id)
    case Overdrawn => TakeBack(id)
    case Granted => CheckGauge(id, limit)
    case Full => DropRefused(id)
    case _ => Increment(id)
  }

  /** And there is such a run: alone, every request gets to run or is refused. */
  lemma {:induction false} UndisturbedSpawnEnds(s0: State, s: State, id: TaskId, limit: nat)
      returns (steps: seq<Step>, s': State)
    requires Starts(s0, id) && Alone(s0, s, id, limit)
    ensures Runs(s, steps, s') && AllOwn(steps, id, limit)
    ensures id in s'.tasks && StepsToEnd(s'.tasks[id].phase) == 0
    decreases StepsToEnd(s.tasks[id].phase)
  {
    if StepsToEnd(s.tasks[id].phase) == 0 {
      steps, s' := [], s;
    } else {
      var t := NextStep(s.tasks[id].phase, id, limit);
      AloneStep(s0, s, t, id, limit);
      var rest;
      rest, s' := UndisturbedSpawnEnds(s0, Apply(s, t), id, limit);
      steps := [t] + rest;
      assert steps[1..] == rest;
    }
  }
}
