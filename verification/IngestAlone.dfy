/** One ingest request with nobody in between: the interleaved steps of `IngestProtocol`, taken
    by a single request, do what the sequential call does. */
module IngestAlone {
  import opened Wrappers
  import opened IngestLatching
  import opened IngestProtocol

  /** The answers the outside world gives to the request. */
  datatype World = World(suspended: bool, stalls: nat -> bool)

  /** A step of request `id` in which the outside world answers as it would in `s`. */
  ghost predicate Own(s: State, t: Step, id: RequestId, w: World) {
    && t.id == id
    && (t.CheckSuspend? ==> t.suspended == w.suspended)
    && (t.CheckStall? && id in s.reqs && s.reqs[id].phase.Counted? ==>
          t.stalled == w.stalls(s.reqs[id].phase.inflight))
  }

  /** A run in which only request `id` takes steps. */
  ghost predicate RunsAlone(s: State, steps: seq<Step>, s': State, id: RequestId, w: World)
    decreases |steps|
  {
    if steps == [] then s' == s
    else Enabled(s, steps[0]) && Own(s, steps[0], id, w) && RunsAlone(Apply(s, steps[0]), steps[1..], s', id, w)
  }

  ghost predicate Starts(s: State, id: RequestId) {
    id in s.reqs && s.reqs[id].phase.New? && s.guard.None?
  }

  ghost function AnswerIn(s: State, id: RequestId, w: World): Answer
    requires id in s.reqs
  {
    AnswerTo(s.reqs[id].ssts, s.slots, w.suspended, w.stalls)
  }

  /** What the request has latched on top of what was latched before, each slot once. */
  ghost predicate Holds(slots0: set<Slot>, slots: set<Slot>, metas: seq<SstMeta>) {
    Distinct(metas) && SlotsOf(metas) !! slots0 && slots == slots0 + SlotsOf(metas)
  }

  /** The loop over the list has granted `metas` of the first `next` ssts. */
  ghost predicate Granting(ssts: seq<SstMeta>, slots0: set<Slot>, slots: set<Slot>, next: nat, metas: seq<SstMeta>) {
    next <= |ssts| && metas + Granted(ssts[next..], slots) == Granted(ssts, slots0)
  }

  ghost predicate PhaseAlone(ssts: seq<SstMeta>, slots0: set<Slot>, slots: set<Slot>, p: Phase, answer: Answer, w: World) {
    && Holds(slots0, slots, Held(p))
    && match p
       case New => true
       case Refused => !answer.Ran?
       case RollingBack(_) => answer.Conflict?
       case Ingesting(_) => answer.Ran?
       case Releasing(_) => answer.Ran?
       case Completed => answer.Ran?
       case Counted(n) => !answer.Suspended? && n == |InCf(slots0, CF_WRITE)|
       case Acquiring(_, next, metas) =>
         !answer.Suspended? && !answer.Stalled? && Granting(ssts, slots0, slots, next, metas)
       case _ => !answer.Suspended?
  }

  /** How far request `id` has come since `s0`. */
  ghost predicate Alone(s0: State, s: State, id: RequestId, w: World)
    requires id in s0.reqs
  {
    && id in s.reqs && s.reqs == s0.reqs[id := s0.reqs[id].(phase := s.reqs[id].phase)]
    && (s.guard == if HoldsGuard(s.reqs[id].phase) then Some(id) else None)
    && PhaseAlone(s.reqs[id].ssts, s0.slots, s.slots, s.reqs[id].phase, AnswerIn(s0, id, w), w)
  }

  lemma HoldsNothing(slots: set<Slot>)
    ensures Holds(slots, slots, [])
  {
    NoSlots();
  }

  lemma AloneStart(s: State, id: RequestId, w: World)
    requires Starts(s, id)
    ensures Alone(s, s, id, w)
  {
    HoldsNothing(s.slots);
    assert s.reqs == s.reqs[id := s.reqs[id]];
  }

  lemma HoldsNone(slots0: set<Slot>, slots: set<Slot>, metas: seq<SstMeta>)
    requires Holds(slots0, slots, metas) && metas == []
    ensures slots == slots0
  {
    NoSlots();
  }

  lemma HoldsOneMore(slots0: set<Slot>, slots: set<Slot>, metas: seq<SstMeta>, m: SstMeta)
    requires Holds(slots0, slots, metas) && HasSlot(m) && SlotOf(m) !in slots
    ensures Holds(slots0, slots + {SlotOf(m)}, metas + [m])
  {
    hide SlotsOf, Distinct;
    AppendDistinct(metas, m);
    SlotsOfAppend(metas, m);
  }

  lemma HoldsOneLess(slots0: set<Slot>, slots: set<Slot>, metas: seq<SstMeta>)
    requires Holds(slots0, slots, metas) && metas != [] && HasSlot(metas[0])
    ensures Holds(slots0, slots - {SlotOf(metas[0])}, metas[1..])
  {
    hide SlotsOf, Distinct;
    assert metas == [metas[0]] + metas[1..];
    DistinctTail(metas[0], metas[1..]);
    SlotsOfFirst(metas[0], metas[1..]);
  }

  /** At the end of the list, everything was granted exactly if the answer is that it runs. */
  lemma GrantedAtEnd(ssts: seq<SstMeta>, slots0: set<Slot>, slots: set<Slot>, next: nat, metas: seq<SstMeta>)
    requires Granting(ssts, slots0, slots, next, metas) && next >= |ssts|
    ensures |metas| == |ssts| <==> Distinct(ssts) && SlotsOf(ssts) !! slots0
    ensures |metas| <= |ssts|
  {
    hide Granted, Distinct, SlotsOf;
    NoneGranted(ssts[|ssts|..], slots);
    assert metas + [] == metas;
    GrantedAllIff(ssts, slots0);
    GrantedIsFree(ssts, slots0);
  }

  lemma StartGranting(ssts: seq<SstMeta>, slots: set<Slot>)
    ensures Granting(ssts, slots, slots, 0, [])
  {
    assert ssts[0..] == ssts;
  }

  /** The phase after an acquiring step. */
  lemma AcquireAlone(ssts: seq<SstMeta>, slots0: set<Slot>, slots: set<Slot>, p: Phase, answer: Answer, w: World)
    requires PhaseAlone(ssts, slots0, slots, p, answer, w) && p.Acquiring? && p.next < |ssts|
    ensures var m := ssts[p.next];
            if HasSlot(m) && SlotOf(m) !in slots
            then PhaseAlone(ssts, slots0, slots + {SlotOf(m)}, Acquiring(p.inflight, p.next + 1, p.metas + [m]), answer, w)
            else PhaseAlone(ssts, slots0, slots, Acquiring(p.inflight, p.next + 1, p.metas), answer, w)
  {
    hide Granted, Holds;
    var m := ssts[p.next];
    GrantOne(p.metas, ssts, p.next, slots);
    if HasSlot(m) && SlotOf(m) !in slots {
      HoldsOneMore(slots0, slots, p.metas, m);
    }
  }

  lemma AloneLatchStep(s0: State, s: State, t: Step, id: RequestId, w: World)
    requires id in s0.reqs && Alone(s0, s, id, w) && Enabled(s, t) && Own(s, t, id, w)
    requires t.AcquireNext? || t.ReleaseNext? || t.End?
    ensures Alone(s0, Apply(s, t), id, w)
  {
    hide Holds, Granting, AnswerTo;
    var Request(ssts, p) := s.reqs[id];
    if t.AcquireNext? {
      AcquireAlone(ssts, s0.slots, s.slots, p, AnswerIn(s0, id, w), w);
    } else if t.ReleaseNext? {
      HoldsOneLess(s0.slots, s.slots, p.rest);
    }
  }

  lemma AloneGuardStep(s0: State, s: State, t: Step, id: RequestId, w: World)
    requires id in s0.reqs && Alone(s0, s, id, w) && Enabled(s, t) && Own(s, t, id, w)
    requires t.CheckStall? || t.LeaveGuard? || t.Count?
    ensures Alone(s0, Apply(s, t), id, w)
  {
    hide Holds, Granting, Granted, Distinct, SlotsOf, InCf;
    var Request(ssts, p) := s.reqs[id];
    if t.LeaveGuard? {
      GrantedAtEnd(ssts, s0.slots, s.slots, p.next, p.metas);
    } else {
      StartGranting(ssts, s0.slots);
      HoldsNone(s0.slots, s.slots, []);
    }
  }

  lemma AloneStep(s0: State, s: State, t: Step, id: RequestId, w: World)
    requires id in s0.reqs && Alone(s0, s, id, w) && Enabled(s, t) && Own(s, t, id, w)
    ensures Alone(s0, Apply(s, t), id, w)
  {
    hide Holds, Granting, Distinct, SlotsOf, InCf;
    if t.AcquireNext? || t.ReleaseNext? || t.End? {
      AloneLatchStep(s0, s, t, id, w);
    } else if t.CheckStall? || t.LeaveGuard? || t.Count? {
      AloneGuardStep(s0, s, t, id, w);
    }
  }

  lemma {:induction false} AloneRun(s0: State, s: State, steps: seq<Step>, s': State, id: RequestId, w: World)
    requires id in s0.reqs && Alone(s0, s, id, w) && RunsAlone(s, steps, s', id, w)
    ensures Alone(s0, s', id, w)
    decreases |steps|
  {
    hide Alone, Enabled, Apply, Own;
    if steps != [] {
      AloneStep(s0, s, steps[0], id, w);
      AloneRun(s0, Apply(s, steps[0]), steps[1..], s', id, w);
    }
  }

  /** Every undisturbed run: once the request is finished the latch is as before, the guard is
      free, and it has run exactly if the sequential call answers so. */
  lemma {:induction false} UndisturbedIngest(s: State, steps: seq<Step>, s': State, id: RequestId, w: World)
    requires Starts(s, id) && RunsAlone(s, steps, s', id, w)
    ensures id in s'.reqs
    ensures Finished(s'.reqs[id].phase) ==>
              && s'.slots == s.slots && s'.guard.None?
              && (s'.reqs[id].phase.Completed? <==> AnswerIn(s, id, w).Ran?)
  {
    AloneStart(s, id, w);
    AloneRun(s, s, steps, s', id, w);
    if Finished(s'.reqs[id].phase) {
      HoldsNone(s.slots, s'.slots, []);
    }
  }

  ghost function NextStep(q: Request, id: RequestId, w: World): Step {
    match q.phase
    case New => CheckSuspend(id, w.suspended)
    case Waiting => TakeGuard(id)
    case Admitting => Count(id)
    case Counted(n) => CheckStall(id, w.stalls(n))
    case Acquiring(_, next, _) => if next < |q.ssts| then AcquireNext(id) else LeaveGuard(id)
    case Ingesting(_) => Finish(id)
    case RollingBack(rest) => if rest == [] then End(id) else ReleaseNext(id)
    case Releasing(rest) => if rest == [] then End(id) else ReleaseNext(id)
    case _ => End(id)
  }

  lemma NextIsEnabled(s0: State, s: State, id: RequestId, w: World)
    requires id in s0.reqs && Alone(s0, s, id, w) && !Finished(s.reqs[id].phase)
    ensures Enabled(s, NextStep(s.reqs[id], id, w)) && Own(s, NextStep(s.reqs[id], id, w), id, w)
  {
    hide Granted, SlotsOf, InCf;
  }


  function Rank(p: Phase): nat {
    match p
    case New => 7
    case Waiting => 6
    case Admitting => 5
    case Counted(_) => 4
    case Acquiring(_, _, _) => 3
    case Ingesting(_) => 2
    case RollingBack(_) => 1
    case Releasing(_) => 1
    case _ => 0
  }

  function Remaining(q: Request): int {
    match q.phase
    case Acquiring(_, next, _) => |q.ssts| - next
    case RollingBack(rest) => |rest|
    case Releasing(rest) => |rest|
    case _ => 0
  }

  lemma RemainingNonNegative(s0: State, s: State, id: RequestId, w: World)
    requires id in s0.reqs && Alone(s0, s, id, w)
    ensures Remaining(s.reqs[id]) >= 0
  {
  }

  lemma NextAdvances(s: State, id: RequestId, w: World)
    requires id in s.reqs && Enabled(s, NextStep(s.reqs[id], id, w)) && !Finished(s.reqs[id].phase)
    ensures var q, q' := s.reqs[id], Apply(s, NextStep(s.reqs[id], id, w)).reqs[id];
            Rank(q'.phase) < Rank(q.phase) || (Rank(q'.phase) == Rank(q.phase) && Remaining(q') < Remaining(q))
  {
    hide InCf;
  }

  /** And there is such a run: alone, every request finishes. */
  lemma {:induction false} UndisturbedIngestEnds(s0: State, s: State, id: RequestId, w: World)
      returns (steps: seq<Step>, s': State)
    requires id in s0.reqs && Alone(s0, s, id, w)
    ensures RunsAlone(s, steps, s', id, w) && id in s'.reqs && Finished(s'.reqs[id].phase)
    decreases Rank(s.reqs[id].phase), Remaining(s.reqs[id])
  {
    hide Alone, Enabled, Apply, Own, NextStep;
    AloneHasRequest(s0, s, id, w);
    if Finished(s.reqs[id].phase) {
      steps, s' := [], s;
    } else {
      var t := NextStep(s.reqs[id], id, w);
      NextIsEnabled(s0, s, id, w);
      AloneStep(s0, s, t, id, w);
      AloneHasRequest(s0, Apply(s, t), id, w);
      NextAdvances(s, id, w);
      RemainingNonNegative(s0, s, id, w);
      var rest;
      rest, s' := UndisturbedIngestEnds(s0, Apply(s, t), id, w);
      steps := [t] + rest;
      assert steps[1..] == rest;
    }
  }

  lemma AloneHasRequest(s0: State, s: State, id: RequestId, w: World)
    requires id in s0.reqs && Alone(s0, s, id, w)
    ensures id in s.reqs
  {
  }
}
