/** Admission of coprocessor requests: the memory quota and the read pool's running-task
    gauges, as interleaved atomic steps of any number of requests.

    A request reads the capacity, reads the amount in use, adds its bytes and, if the value it
    added to was too high, takes them back; with the quota granted it reads the gauge of its
    priority, compares it with the limit of the pool handle it uses, and increments the gauge
    in a later step.  A refused or completed request gives back what it took. */
module Admission {
  import opened Wrappers
  import opened Sums

  type TaskId = nat
  type Priority = nat

  const MAX_MEMORY_ALLOC_SIZE: nat := 0x1_0000_0000_0000
  const USIZE_RANGE: nat := 0x1_0000_0000_0000_0000

  /** A signed difference read as an unsigned word. */
  function AsUsize(x: int): int {
    if x < 0 then x + USIZE_RANGE else x
  }

  datatype Phase =
    | New
    | HasCapacity(capacity: int)     // capacity loaded
    | Willing(capacity: int)         // in-use amount loaded, first check passed
    | Overdrawn                      // bytes added, must be taken back
    | Granted                        // quota owned
    | Full                           // pool full, quota still owned
    | Cleared                        // gauge check passed, gauge not yet incremented
    | Running
    | Freed                          // completed, quota given back
    | Done
    | Refused

  datatype Task = Task(bytes: nat, priority: Priority, phase: Phase)

  /** `peak` is the largest capacity ever configured. */
  datatype State = State(capacity: int, peak: int, inUse: int, gauges: map<Priority, int>, tasks: map<TaskId, Task>)

  datatype Step =
    | SetCapacity(capacity: nat)
    | LoadCapacity(id: TaskId)
    | LoadInUse(id: TaskId)
    | FetchAdd(id: TaskId)
    | TakeBack(id: TaskId)
    | CheckGauge(id: TaskId, limit: nat)
    | DropRefused(id: TaskId)
    | Increment(id: TaskId)
    | Complete(id: TaskId)
    | Decrement(id: TaskId)

  /** A signed difference of a word's size becomes the word with the same bits. */
  lemma AsUsizeIsAWord(x: int)
    requires -0x1_0000_0000_0000_0000 <= x < 0x1_0000_0000_0000_0000
    ensures 0 <= AsUsize(x) < 0x1_0000_0000_0000_0000
    ensures AsUsize(x) == x || AsUsize(x) == x + 0x1_0000_0000_0000_0000
  {
  }

  /** `MemoryQuota::free`, with its correction for a negative amount. */
  function Free(inUse: int, bytes: nat): int {
    if bytes > MAX_MEMORY_ALLOC_SIZE then inUse
    else
      var left := inUse - bytes;
      if left < 0 then left + (if -left < bytes then -left else bytes) else left
  }

  ghost predicate InPhase(s: State, id: TaskId, p: Phase) {
    id in s.tasks && s.tasks[id].phase == p
  }

  ghost predicate Enabled(s: State, t: Step) {
    match t
    case SetCapacity(_) => true
    case LoadCapacity(id) => InPhase(s, id, New)
    case LoadInUse(id) => id in s.tasks && s.tasks[id].phase.HasCapacity?
    case FetchAdd(id) => id in s.tasks && s.tasks[id].phase.Willing?
    case TakeBack(id) => InPhase(s, id, Overdrawn)
    case CheckGauge(id, _) => InPhase(s, id, Granted) && s.tasks[id].priority in s.gauges
    case DropRefused(id) => InPhase(s, id, Full)
    case Increment(id) => InPhase(s, id, Cleared) && s.tasks[id].priority in s.gauges
    case Complete(id) => InPhase(s, id, Running)
    case Decrement(id) => InPhase(s, id, Freed) && s.tasks[id].priority in s.gauges
  }

  ghost function Set(s: State, id: TaskId, p: Phase): State
    requires id in s.tasks
  {
    s.(tasks := s.tasks[id := s.tasks[id].(phase := p)])
  }

  ghost function AddGauge(s: State, p: Priority, d: int): State
    requires p in s.gauges
  {
    s.(gauges := s.gauges[p := s.gauges[p] + d])
  }

  ghost function Apply(s: State, t: Step): State
    requires Enabled(s, t)
  {
    match t
    case SetCapacity(c) => s.(capacity := c, peak := if c > s.peak then c else s.peak)
    case LoadCapacity(id) => Set(s, id, HasCapacity(s.capacity))
    case LoadInUse(id) =>
      var Task(bytes, _, p) := s.tasks[id];
      if bytes > AsUsize(p.capacity - s.inUse) || bytes > MAX_MEMORY_ALLOC_SIZE then Set(s, id, Refused)
      else Set(s, id, Willing(p.capacity))
    case FetchAdd(id) =>
      var Task(bytes, _, p) := s.tasks[id];
      Set(s, id, if bytes > p.capacity - s.inUse then Overdrawn else Granted).(inUse := s.inUse + bytes)
    case TakeBack(id) => Set(s, id, Refused).(inUse := s.inUse - s.tasks[id].bytes)
    case CheckGauge(id, limit) =>
      Set(s, id, if AsUsize(s.gauges[s.tasks[id].priority]) >= limit then Full else Cleared)
    case DropRefused(id) => Set(s, id, Refused).(inUse := Free(s.inUse, s.tasks[id].bytes))
    case Increment(id) => AddGauge(Set(s, id, Running), s.tasks[id].priority, 1)
    case Complete(id) => Set(s, id, Freed).(inUse := Free(s.inUse, s.tasks[id].bytes))
    case Decrement(id) => AddGauge(Set(s, id, Done), s.tasks[id].priority, -1)
  }

  /** The capacity can be changed at any moment, whatever is in use, and nothing else changes. */
  lemma CapacityIsSet(s: State, c: nat)
    ensures Enabled(s, SetCapacity(c))
    ensures var s' := Apply(s, SetCapacity(c));
            s'.capacity == c <= s'.peak && s.peak <= s'.peak && s' == s.(capacity := c, peak := s'.peak)
  {
  }

  ghost predicate Init(s: State) {
    && s.inUse == 0 && 0 <= s.capacity == s.peak
    && (forall p :: p in s.gauges ==> s.gauges[p] == 0)
    && (forall id :: id in s.tasks ==> s.tasks[id].phase.New? && s.tasks[id].priority in s.gauges)
  }

  ghost predicate Runs(s: State, steps: seq<Step>, s': State)
    decreases |steps|
  {
    if steps == [] then s' == s
    else Enabled(s, steps[0]) && Runs(Apply(s, steps[0]), steps[1..], s')
  }

  // ----- the accounts

  /** The bytes a task has in the quota, as a grant or in passing. */
  function Charge(t: Task): int {
    if t.phase.Overdrawn? then t.bytes else Grant(t)
  }

  /** The bytes a task owns. */
  function Grant(t: Task): int {
    if t.phase.Granted? || t.phase.Full? || t.phase.Cleared? || t.phase.Running? then t.bytes else 0
  }

  /** Whether a task is counted in the gauge of `p`. */
  function Counted(t: Task, p: Priority): int {
    if t.priority == p && (t.phase.Running? || t.phase.Freed?) then 1 else 0
  }

  /** Whether a task of `p` has passed the gauge check and not yet incremented. */
  function Passed(t: Task, p: Priority): int {
    if t.priority == p && t.phase.Cleared? then 1 else 0
  }

  type Tasks = map<TaskId, Task>

  ghost function Charges(ts: Tasks): map<nat, int> {
    map id | id in ts :: Charge(ts[id])
  }

  ghost function Grants(ts: Tasks): map<nat, int> {
    map id | id in ts :: Grant(ts[id])
  }

  ghost function CountedIn(ts: Tasks, p: Priority): map<nat, int> {
    map id | id in ts :: Counted(ts[id], p)
  }

  ghost function PassedIn(ts: Tasks, p: Priority): map<nat, int> {
    map id | id in ts :: Passed(ts[id], p)
  }

  ghost predicate TaskInv(s: State, t: Task) {
    && t.priority in s.gauges
    && (Charge(t) > 0 || t.phase.Willing? ==> t.bytes <= MAX_MEMORY_ALLOC_SIZE)
    && (t.phase.HasCapacity? || t.phase.Willing? ==> t.phase.capacity <= s.peak)
  }

  ghost predicate Inv(s: State) {
    && s.inUse == Sum(Charges(s.tasks))
    && Sum(Grants(s.tasks)) <= s.peak && s.capacity <= s.peak
    && (forall p :: p in s.gauges ==> s.gauges[p] == Sum(CountedIn(s.tasks, p)))
    && (forall id :: id in s.tasks ==> TaskInv(s, s.tasks[id]))
  }

  // ----- moving one task updates every account by the difference of its own entries

  lemma ChargesMove(ts: Tasks, id: TaskId, t: Task)
    requires id in ts
    ensures Sum(Charges(ts[id := t])) == Sum(Charges(ts)) - Charge(ts[id]) + Charge(t)
    ensures Sum(Grants(ts[id := t])) == Sum(Grants(ts)) - Grant(ts[id]) + Grant(t)
  {
    assert Charges(ts[id := t]) == Charges(ts)[id := Charge(t)];
    SumUpdate(Charges(ts), id, Charge(t));
    assert Grants(ts[id := t]) == Grants(ts)[id := Grant(t)];
    SumUpdate(Grants(ts), id, Grant(t));
  }

  lemma CountedMove(ts: Tasks, id: TaskId, t: Task, p: Priority)
    requires id in ts
    ensures Sum(CountedIn(ts[id := t], p)) == Sum(CountedIn(ts, p)) - Counted(ts[id], p) + Counted(t, p)
  {
    assert CountedIn(ts[id := t], p) == CountedIn(ts, p)[id := Counted(t, p)];
    SumUpdate(CountedIn(ts, p), id, Counted(t, p));
  }

  lemma PassedMove(ts: Tasks, id: TaskId, t: Task, p: Priority)
    requires id in ts
    ensures Sum(PassedIn(ts[id := t], p)) == Sum(PassedIn(ts, p)) - Passed(ts[id], p) + Passed(t, p)
  {
    assert PassedIn(ts[id := t], p) == PassedIn(ts, p)[id := Passed(t, p)];
    SumUpdate(PassedIn(ts, p), id, Passed(t, p));
  }

  /** Grants are part of the charges, and no task is charged more than is in use. */
  lemma GrantsWithinUse(ts: Tasks)
    ensures Sum(Grants(ts)) <= Sum(Charges(ts))
    ensures forall id :: id in ts ==> 0 <= Charge(ts[id]) <= Sum(Charges(ts))
  {
    SumLeq(Grants(ts), Charges(ts));
    forall id | id in ts
      ensures Charge(ts[id]) <= Sum(Charges(ts))
    {
      SumAtLeast(Charges(ts), id);
    }
  }

  lemma CountsNonNegative(ts: Tasks, p: Priority)
    ensures Sum(CountedIn(ts, p)) >= 0 && Sum(PassedIn(ts, p)) >= 0
  {
    SumNonNegative(CountedIn(ts, p));
    SumNonNegative(PassedIn(ts, p));
  }

  // ----- every step keeps the accounts

  /** A step of task `id`, with the matching changes of the two shared counters. */
  ghost predicate Moves(s: State, id: TaskId, s': State) {
    && id in s.tasks && id in s'.tasks && s'.tasks == s.tasks[id := s'.tasks[id]]
    && s'.tasks[id] == s.tasks[id].(phase := s'.tasks[id].phase)
    && s'.capacity == s.capacity && s'.peak == s.peak
    && var was, now, p := s.tasks[id], s'.tasks[id], s.tasks[id].priority;
       && p in s.gauges && TaskInv(s, now)
       && s'.inUse == s.inUse - Charge(was) + Charge(now)
       && s'.gauges == s.gauges[p := s.gauges[p] - Counted(was, p) + Counted(now, p)]
       && (Grant(now) > Grant(was) ==> s'.inUse <= s.peak)
  }

  lemma StepMoves(s: State, t: Step)
    requires Enabled(s, t) && !t.SetCapacity? && TaskInv(s, s.tasks[t.id]) && s.capacity <= s.peak
    requires Charge(s.tasks[t.id]) <= s.inUse
    ensures Moves(s, t.id, Apply(s, t))
  {
  }

  lemma MoveKeeps(s: State, id: TaskId, s': State)
    requires Inv(s) && Moves(s, id, s')
    ensures Inv(s')
  {
    hide Sum, Charges, Grants, CountedIn;
    ChargesMove(s.tasks, id, s'.tasks[id]);
    GrantsWithinUse(s'.tasks);
    forall q | q in s'.gauges
      ensures s'.gauges[q] == Sum(CountedIn(s'.tasks, q))
    {
      CountedMove(s.tasks, id, s'.tasks[id], q);
    }
  }

  lemma {:induction false} StepKeepsInv(s: State, t: Step)
    requires Inv(s) && Enabled(s, t)
    ensures Inv(Apply(s, t))
  {
    hide Sum, Charges, Grants, CountedIn;
    if !t.SetCapacity? {
      GrantsWithinUse(s.tasks);
      StepMoves(s, t);
      MoveKeeps(s, t.id, Apply(s, t));
    }
  }

  lemma {:induction false} RunKeepsInv(s: State, steps: seq<Step>, s': State)
    requires Inv(s) && Runs(s, steps, s')
    ensures Inv(s')
    decreases |steps|
  {
    if steps != [] {
      StepKeepsInv(s, steps[0]);
      RunKeepsInv(Apply(s, steps[0]), steps[1..], s');
    }
  }

  lemma InitIsInv(s: State)
    requires Init(s)
    ensures Inv(s)
  {
    SumZero(Charges(s.tasks));
    SumZero(Grants(s.tasks));
    forall p | p in s.gauges
      ensures Sum(CountedIn(s.tasks, p)) == 0
    {
      SumZero(CountedIn(s.tasks, p));
    }
  }

  // ----- the theorems

  predicate Finished(t: Task) {
    t.phase.Done? || t.phase.Refused?
  }

  /** Joint conservation: in every state of every run the quota in use is the sum of the bytes
      of the requests that added them and have not given them back, each gauge is the number
      of its counted and unfinished tasks, neither is ever negative, what was granted never
      exceeds the largest capacity, and both are back at zero when all are finished. */
  lemma {:induction false} QuotaAndGaugesConserved(s: State, steps: seq<Step>, s': State)
    requires Init(s) && Runs(s, steps, s')
    ensures s'.inUse == Sum(Charges(s'.tasks)) >= 0
    ensures Sum(Grants(s'.tasks)) <= s'.peak
    ensures forall p :: p in s'.gauges ==> s'.gauges[p] == Sum(CountedIn(s'.tasks, p)) >= 0
    ensures (forall id :: id in s'.tasks ==> Finished(s'.tasks[id])) ==>
              s'.inUse == 0 && forall p :: p in s'.gauges ==> s'.gauges[p] == 0
  {
    hide Sum, Runs;
    InitIsInv(s);
    RunKeepsInv(s, steps, s');
    SumNonNegative(Charges(s'.tasks));
    forall p | p in s'.gauges
      ensures Sum(CountedIn(s'.tasks, p)) >= 0
    {
      CountsNonNegative(s'.tasks, p);
    }
    if forall id :: id in s'.tasks ==> Finished(s'.tasks[id]) {
      AllFinished(s'.tasks);
    }
  }

  lemma AllFinished(ts: Tasks)
    requires forall id :: id in ts ==> Finished(ts[id])
    ensures Sum(Charges(ts)) == 0 && forall p :: Sum(CountedIn(ts, p)) == 0
  {
    SumZero(Charges(ts));
    forall p
      ensures Sum(CountedIn(ts, p)) == 0
    {
      SumZero(CountedIn(ts, p));
    }
  }

  /** Giving quota back never needs the correction for a negative amount. */
  lemma {:induction false} FreeNeverUnderflows(s: State, steps: seq<Step>, s': State, id: TaskId)
    requires Init(s) && Runs(s, steps, s')
    requires Enabled(s', Complete(id)) || Enabled(s', DropRefused(id)) || Enabled(s', TakeBack(id))
    ensures s'.inUse >= s'.tasks[id].bytes && Free(s'.inUse, s'.tasks[id].bytes) == s'.inUse - s'.tasks[id].bytes
  {
    hide Sum, Runs, Charges, Grants, CountedIn;
    InitIsInv(s);
    RunKeepsInv(s, steps, s');
    GrantsWithinUse(s'.tasks);
  }

  // ----- the overshoot of the gauge

  /** A run in which, at priority `p`, checks use limits up to `limit` and at most `n` tasks at
      a time are between their check and their increment. */
  ghost predicate RunsWithin(s: State, steps: seq<Step>, s': State, p: Priority, limit: nat, n: nat)
    decreases |steps|
  {
    && Sum(PassedIn(s.tasks, p)) <= n
    && if steps == [] then s' == s
       else && Enabled(s, steps[0])
            && (steps[0].CheckGauge? && s.tasks[steps[0].id].priority == p ==> steps[0].limit <= limit)
            && RunsWithin(Apply(s, steps[0]), steps[1..], s', p, limit, n)
  }

  lemma StepKeepsOvershoot(s: State, t: Step, p: Priority, limit: nat, n: nat)
    requires Inv(s) && Enabled(s, t) && p in s.gauges && n >= 1
    requires t.CheckGauge? && s.tasks[t.id].priority == p ==> t.limit <= limit
    requires Sum(PassedIn(Apply(s, t).tasks, p)) <= n
    requires s.gauges[p] + Sum(PassedIn(s.tasks, p)) <= limit + n - 1
    ensures var s' := Apply(s, t);
            p in s'.gauges && s'.gauges[p] + Sum(PassedIn(s'.tasks, p)) <= limit + n - 1
  {
    hide Sum, Charges, Grants, CountedIn, PassedIn;
    var s' := Apply(s, t);
    CountsNonNegative(s.tasks, p);
    if !t.SetCapacity? {
      PassedMove(s.tasks, t.id, s'.tasks[t.id], p);
    }
  }

  /** Overshoot bound: with the check and the increment as separate steps, the gauge never
      exceeds the largest limit by more than the number of simultaneous spawners less one. */
  lemma {:induction false} GaugeOvershoot(s: State, steps: seq<Step>, s': State, p: Priority, limit: nat, n: nat)
    requires Inv(s) && RunsWithin(s, steps, s', p, limit, n) && p in s.gauges && n >= 1
    requires s.gauges[p] + Sum(PassedIn(s.tasks, p)) <= limit + n - 1
    ensures p in s'.gauges && s'.gauges[p] <= limit + n - 1
    decreases |steps|
  {
    if steps == [] {
      CountsNonNegative(s.tasks, p);
    } else {
      var s1 := Apply(s, steps[0]);
      StepKeepsInv(s, steps[0]);
      StepKeepsOvershoot(s, steps[0], p, limit, n);
      GaugeOvershoot(s1, steps[1..], s', p, limit, n);
    }
  }

  lemma {:induction false} GaugeOvershootFromInit(s: State, steps: seq<Step>, s': State, p: Priority, limit: nat, n: nat)
    requires Init(s) && RunsWithin(s, steps, s', p, limit, n) && p in s.gauges && n >= 1
    ensures p in s'.gauges && s'.gauges[p] <= limit + n - 1
  {
    InitIsInv(s);
    SumZero(PassedIn(s.tasks, p));
    GaugeOvershoot(s, steps, s', p, limit, n);
  }

  // ----- the bound is reached

  ghost predicate Reaches(s: State, s': State, p: Priority, limit: nat, n: nat) {
    exists steps :: RunsWithin(s, steps, s', p, limit, n)
  }

  lemma {:induction false} RunsWithinOn(s: State, a: seq<Step>, s1: State, b: seq<Step>, s2: State,
                                        p: Priority, limit: nat, n: nat)
    requires RunsWithin(s, a, s1, p, limit, n) && RunsWithin(s1, b, s2, p, limit, n)
    ensures RunsWithin(s, a + b, s2, p, limit, n)
    decreases |a|
  {
    if a == [] {
      assert a + b == b;
    } else {
      RunsWithinOn(Apply(s, a[0]), a[1..], s1, b, s2, p, limit, n);
      assert (a + b)[0] == a[0] && (a + b)[1..] == a[1..] + b;
    }
  }

  lemma ReachesOn(s: State, s1: State, s2: State, p: Priority, limit: nat, n: nat)
    requires Reaches(s, s1, p, limit, n) && Reaches(s1, s2, p, limit, n)
    ensures Reaches(s, s2, p, limit, n)
  {
    var a :| RunsWithin(s, a, s1, p, limit, n);
    var b :| RunsWithin(s1, b, s2, p, limit, n);
    RunsWithinOn(s, a, s1, b, s2, p, limit, n);
  }

  lemma ReachesStep(s: State, t: Step, p: Priority, limit: nat, n: nat)
    requires Enabled(s, t) && (t.CheckGauge? && s.tasks[t.id].priority == p ==> t.limit <= limit)
    requires Sum(PassedIn(s.tasks, p)) <= n && Sum(PassedIn(Apply(s, t).tasks, p)) <= n
    ensures Reaches(s, Apply(s, t), p, limit, n)
  {
    var s' := Apply(s, t);
    assert RunsWithin(s', [], s', p, limit, n);
    assert [t][1..] == [];
    assert RunsWithin(s, [t], s', p, limit, n);
  }

  /** `total` tasks of priority 0 without bytes: the first `r` run, the next `c` have passed
      the check, the next ones up to `g` own their quota and the others are new. */
  ghost function Crowd(total: nat, r: nat, c: nat, g: nat): State {
    State(0, 0, 0, map[0 := r], map i: nat | i < total :: Task(0, 0, CrowdPhase(i, r, c, g)))
  }

  function CrowdPhase(i: nat, r: nat, c: nat, g: nat): Phase {
    if i < r then Running else if i < r + c then Cleared else if i < g then Granted else New
  }

  lemma {:induction false} CrowdPassed(total: nat, r: nat, c: nat, g: nat)
    requires r + c <= total
    ensures Sum(PassedIn(Crowd(total, r, c, g).tasks, 0)) == c
    decreases c
  {
    hide Sum;
    var ts := Crowd(total, r, c, g).tasks;
    if c == 0 {
      SumZero(PassedIn(ts, 0));
    } else {
      var last := r + c - 1;
      var ts' := Crowd(total, r, c - 1, g).tasks;
      CrowdPassed(total, r, c - 1, g);
      PassedMove(ts', last, ts[last], 0);
      assert ts == ts'[last := ts[last]];
    }
  }

  lemma NonePassed(s: State)
    requires forall id :: id in s.tasks ==> !s.tasks[id].phase.Cleared?
    ensures Sum(PassedIn(s.tasks, 0)) == 0
  {
    SumZero(PassedIn(s.tasks, 0));
  }

  lemma CrowdGrants(total: nat, g: nat, limit: nat, n: nat)
    requires g < total
    ensures Reaches(Crowd(total, 0, 0, g), Crowd(total, 0, 0, g + 1), 0, limit, n)
  {
    hide Sum, PassedIn;
    var s := Crowd(total, 0, 0, g);
    var s1 := Set(s, g, HasCapacity(0));
    var s2 := Set(s, g, Willing(0));
    var s3 := Crowd(total, 0, 0, g + 1);
    assert s1.tasks[g := s1.tasks[g].(phase := Willing(0))] == s2.tasks;
    assert s2.tasks[g := s2.tasks[g].(phase := Granted)] == s3.tasks;
    NonePassed(s);
    NonePassed(s1);
    NonePassed(s2);
    NonePassed(s3);
    ReachesStep(s, LoadCapacity(g), 0, limit, n);
    ReachesStep(s1, LoadInUse(g), 0, limit, n);
    ReachesStep(s2, FetchAdd(g), 0, limit, n);
    hide Reaches, Crowd;
    ReachesOn(s, s1, s2, 0, limit, n);
    ReachesOn(s, s2, s3, 0, limit, n);
  }

  lemma CrowdClears(total: nat, r: nat, c: nat, limit: nat, n: nat)
    requires r + c < total && r < limit && c < n
    ensures Reaches(Crowd(total, r, c, total), Crowd(total, r, c + 1, total), 0, limit, n)
  {
    hide Sum;
    var s := Crowd(total, r, c, total);
    var s' := Apply(s, CheckGauge(r + c, limit));
    assert s'.tasks == Crowd(total, r, c + 1, total).tasks;
    CrowdPassed(total, r, c, total);
    CrowdPassed(total, r, c + 1, total);
    ReachesStep(s, CheckGauge(r + c, limit), 0, limit, n);
  }

  lemma CrowdIncrements(total: nat, r: nat, c: nat, limit: nat, n: nat)
    requires r + c < total && c < n
    ensures Reaches(Crowd(total, r, c + 1, total), Crowd(total, r + 1, c, total), 0, limit, n)
  {
    hide Sum;
    var s := Crowd(total, r, c + 1, total);
    var s' := Apply(s, Increment(r));
    assert s'.tasks == Crowd(total, r + 1, c, total).tasks;
    assert s'.gauges == map[0 := r + 1];
    CrowdPassed(total, r, c + 1, total);
    CrowdPassed(total, r + 1, c, total);
    ReachesStep(s, Increment(r), 0, limit, n);
  }

  lemma {:induction false} CrowdGrantedFrom(total: nat, g: nat, limit: nat, n: nat)
    requires g <= total && n >= 1
    ensures Reaches(Crowd(total, 0, 0, 0), Crowd(total, 0, 0, g), 0, limit, n)
    decreases g
  {
    hide Reaches, Crowd;
    if g == 0 {
      CrowdStays(total, 0, 0, 0, limit, n);
    } else {
      CrowdGrantedFrom(total, g - 1, limit, n);
      CrowdGrants(total, g - 1, limit, n);
      ReachesOn(Crowd(total, 0, 0, 0), Crowd(total, 0, 0, g - 1), Crowd(total, 0, 0, g), 0, limit, n);
    }
  }

  lemma CrowdStays(total: nat, r: nat, c: nat, g: nat, limit: nat, n: nat)
    requires r + c <= total && c <= n
    ensures Reaches(Crowd(total, r, c, g), Crowd(total, r, c, g), 0, limit, n)
  {
    CrowdPassed(total, r, c, g);
    assert RunsWithin(Crowd(total, r, c, g), [], Crowd(total, r, c, g), 0, limit, n);
  }

  /** One task after the other up to the limit less one. */
  lemma {:induction false} CrowdFills(total: nat, r: nat, limit: nat, n: nat)
    requires r < limit && r <= total && n >= 1
    ensures Reaches(Crowd(total, 0, 0, total), Crowd(total, r, 0, total), 0, limit, n)
    decreases r
  {
    hide Reaches, Crowd;
    if r == 0 {
      CrowdStays(total, 0, 0, total, limit, n);
    } else {
      CrowdFills(total, r - 1, limit, n);
      CrowdClears(total, r - 1, 0, limit, n);
      CrowdIncrements(total, r - 1, 0, limit, n);
      ReachesOn(Crowd(total, r - 1, 0, total), Crowd(total, r - 1, 1, total), Crowd(total, r, 0, total), 0, limit, n);
      ReachesOn(Crowd(total, 0, 0, total), Crowd(total, r - 1, 0, total), Crowd(total, r, 0, total), 0, limit, n);
    }
  }

  /** Then `c` tasks pass the check before any of them increments. */
  lemma {:induction false} CrowdWaits(total: nat, r: nat, c: nat, limit: nat, n: nat)
    requires r < limit && r + c <= total && c <= n
    ensures Reaches(Crowd(total, r, 0, total), Crowd(total, r, c, total), 0, limit, n)
    decreases c
  {
    hide Reaches, Crowd;
    if c == 0 {
      CrowdStays(total, r, 0, total, limit, n);
    } else {
      CrowdWaits(total, r, c - 1, limit, n);
      CrowdClears(total, r, c - 1, limit, n);
      ReachesOn(Crowd(total, r, 0, total), Crowd(total, r, c - 1, total), Crowd(total, r, c, total), 0, limit, n);
    }
  }

  /** And all of them increment. */
  lemma {:induction false} CrowdRushes(total: nat, r: nat, c: nat, limit: nat, n: nat)
    requires r + c <= total && c <= n
    ensures Reaches(Crowd(total, r, c, total), Crowd(total, r + c, 0, total), 0, limit, n)
    decreases c
  {
    hide Reaches, Crowd;
    if c == 0 {
      CrowdStays(total, r, 0, total, limit, n);
    } else {
      CrowdIncrements(total, r, c - 1, limit, n);
      CrowdRushes(total, r + 1, c - 1, limit, n);
      ReachesOn(Crowd(total, r, c, total), Crowd(total, r + 1, c - 1, total), Crowd(total, r + c, 0, total), 0, limit, n);
    }
  }

  /** For every positive limit and every number of spawners some run takes the gauge all the
      way to the bound. */
  lemma {:induction false} OvershootIsReached(limit: nat, n: nat)
    requires limit >= 1 && n >= 1
    ensures exists s, s' :: Init(s) && Reaches(s, s', 0, limit, n)
                            && 0 in s'.gauges && s'.gauges[0] == limit + n - 1
  {
    hide Reaches;
    var total, r := limit + n - 1, limit - 1;
    var s0, s1, s2, s3, s4 := Crowd(total, 0, 0, 0), Crowd(total, 0, 0, total), Crowd(total, r, 0, total),
                              Crowd(total, r, n, total), Crowd(total, r + n, 0, total);
    assert Init(s0) && s4.gauges[0] == limit + n - 1;
    CrowdGrantedFrom(total, total, limit, n);
    CrowdFills(total, r, limit, n);
    CrowdWaits(total, r, n, limit, n);
    CrowdRushes(total, r, n, limit, n);
    ReachesOn(s0, s1, s2, 0, limit, n);
    ReachesOn(s0, s2, s3, 0, limit, n);
    ReachesOn(s0, s3, s4, 0, limit, n);
  }
}
