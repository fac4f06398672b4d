/** Any number of concurrent ingest requests over one latch and one admission guard, as
    interleaved atomic steps.  Counting and acquiring happen under the guard; conflict
    rollbacks and releases do not.  The suspend deadline and the write-stall check answer
    freely. */
module IngestProtocol {
  import opened Wrappers
  import opened IngestLatching
  import opened Sums

  type RequestId = nat

  datatype Phase =
    | New
    | Waiting                                             // not suspended; wants the guard
    | Admitting                                           // has the guard
    | Counted(inflight: nat)                              // has counted for the stall check
    | Acquiring(inflight: nat, next: nat, metas: seq<SstMeta>)
    | Ingesting(metas: seq<SstMeta>)                      // guard released, all latched
    | RollingBack(rest: seq<SstMeta>)                     // guard released, conflict
    | Releasing(rest: seq<SstMeta>)
    | Refused
    | Completed

  datatype Request = Request(ssts: seq<SstMeta>, phase: Phase)

  datatype State = State(slots: set<Slot>, guard: Option<RequestId>, reqs: map<RequestId, Request>)

  datatype Step =
    | CheckSuspend(id: RequestId, suspended: bool)
    | TakeGuard(id: RequestId)
    | Count(id: RequestId)
    | CheckStall(id: RequestId, stalled: bool)
    | AcquireNext(id: RequestId)
    | LeaveGuard(id: RequestId)
    | Finish(id: RequestId)
    | ReleaseNext(id: RequestId)
    | End(id: RequestId)

  predicate HoldsGuard(p: Phase) {
    p.Admitting? || p.Counted? || p.Acquiring?
  }

  /** What the request has latched and not yet released. */
  function Held(p: Phase): seq<SstMeta> {
    match p
    case Acquiring(_, _, metas) => metas
    case Ingesting(metas) => metas
    case RollingBack(rest) => rest
    case Releasing(rest) => rest
    case _ => []
  }

  ghost predicate Enabled(s: State, t: Step) {
    && t.id in s.reqs
    && var Request(ssts, p) := s.reqs[t.id];
       match t
       case CheckSuspend(_, _) => p.New?
       case TakeGuard(_) => p.Waiting? && s.guard.None?
       case Count(_) => p.Admitting?
       case CheckStall(_, _) => p.Counted?
       case AcquireNext(_) => p.Acquiring? && p.next < |ssts|
       case LeaveGuard(_) => p.Acquiring? && p.next >= |ssts|
       case Finish(_) => p.Ingesting?
       case ReleaseNext(_) => (p.RollingBack? || p.Releasing?) && p.rest != [] && HasSlot(p.rest[0])
       case End(_) => (p.RollingBack? || p.Releasing?) && p.rest == []
  }

  ghost function Set(s: State, id: RequestId, p: Phase): State
    requires id in s.reqs
  {
    s.(reqs := s.reqs[id := s.reqs[id].(phase := p)])
  }

  ghost function Apply(s: State, t: Step): State
    requires Enabled(s, t)
  {
    var id := t.id;
    var Request(ssts, p) := s.reqs[id];
    match t
    case CheckSuspend(_, suspended) => Set(s, id, if suspended then Refused else Waiting)
    case TakeGuard(_) => Set(s, id, Admitting).(guard := Some(id))
    case Count(_) => Set(s, id, Counted(|InCf(s.slots, CF_WRITE)|))
    case CheckStall(_, stalled) =>
      if stalled then Set(s, id, Refused).(guard := None) else Set(s, id, Acquiring(p.inflight, 0, []))
    case AcquireNext(_) =>
      var m := ssts[p.next];
      if HasSlot(m) && SlotOf(m) !in s.slots
      then Set(s, id, Acquiring(p.inflight, p.next + 1, p.metas + [m])).(slots := s.slots + {SlotOf(m)})
      else Set(s, id, Acquiring(p.inflight, p.next + 1, p.metas))
    case LeaveGuard(_) =>
      Set(s, id, if |p.metas| < |ssts| then RollingBack(p.metas) else Ingesting(p.metas)).(guard := None)
    case Finish(_) => Set(s, id, Releasing(p.metas))
    case ReleaseNext(_) =>
      Set(s, id, if p.RollingBack? then RollingBack(p.rest[1..]) else Releasing(p.rest[1..]))
        .(slots := s.slots - {SlotOf(p.rest[0])})
    case End(_) => Set(s, id, if p.RollingBack? then Refused else Completed)
  }

  ghost predicate Init(s: State) {
    s.slots == {} && s.guard.None? && forall id :: id in s.reqs ==> s.reqs[id].phase.New?
  }

  ghost predicate Runs(s: State, steps: seq<Step>, s': State)
    decreases |steps|
  {
    if steps == [] then s' == s
    else Enabled(s, steps[0]) && Runs(Apply(s, steps[0]), steps[1..], s')
  }

  // ----- the invariant

  /** The slots a request holds. */
  ghost function HeldBy(s: State, id: RequestId): set<Slot>
    requires id in s.reqs
  {
    SlotsOf(Held(s.reqs[id].phase))
  }

  ghost predicate RequestInv(ssts: seq<SstMeta>, p: Phase) {
    && Distinct(Held(p))
    && (p.Acquiring? ==> && p.next <= |ssts| && |p.metas| <= p.next
                         && (|p.metas| == p.next ==> p.metas == ssts[..p.next]))
    && (p.Ingesting? ==> p.metas == ssts)
    && (p.Ingesting? || p.Releasing? || p.Completed? ==> Distinct(ssts))
  }

  /** The latch is the disjoint union of what the requests hold. */
  ghost predicate LatchInv(s: State) {
    && (forall id, x :: id in s.reqs && x in HeldBy(s, id) ==> x in s.slots)
    && (forall x :: x in s.slots ==> exists id :: id in s.reqs && x in HeldBy(s, id))
    && (forall i, j :: i in s.reqs && j in s.reqs && i != j ==> HeldBy(s, i) !! HeldBy(s, j))
  }

  /** Exactly the guard's holder is in the guarded section. */
  ghost predicate GuardInv(s: State) {
    && (s.guard.Some? ==> s.guard.value in s.reqs)
    && forall id :: id in s.reqs ==> (HoldsGuard(s.reqs[id].phase) <==> s.guard == Some(id))
  }

  /** The count passed to the stall check is never below what the others hold. */
  ghost predicate CountInv(s: State, id: RequestId)
    requires id in s.reqs
  {
    var p := s.reqs[id].phase;
    p.Counted? || p.Acquiring? ==> |InCf(s.slots - HeldBy(s, id), CF_WRITE)| <= p.inflight
  }

  ghost predicate Inv(s: State) {
    && (forall id :: id in s.reqs ==> RequestInv(s.reqs[id].ssts, s.reqs[id].phase))
    && LatchInv(s) && GuardInv(s)
    && (forall id :: id in s.reqs ==> CountInv(s, id))
  }

  // ----- every step keeps it

  lemma CountShrinks(a: set<Slot>, b: set<Slot>)
    requires a <= b
    ensures |InCf(a, CF_WRITE)| <= |InCf(b, CF_WRITE)|
  {
    CardinalityMonotone(InCf(a, CF_WRITE), InCf(b, CF_WRITE));
  }

  lemma {:induction false} CardinalityMonotone<T>(a: set<T>, b: set<T>)
    requires a <= b
    ensures |a| <= |b|
  {
    if a != {} {
      var x :| x in a;
      CardinalityMonotone(a - {x}, b - {x});
    }
  }

  lemma LatchSame(s: State, s': State)
    requires LatchInv(s) && s'.slots == s.slots && s'.reqs.Keys == s.reqs.Keys
    requires forall j :: j in s.reqs ==> HeldBy(s', j) == HeldBy(s, j)
    ensures LatchInv(s')
  {
    forall x | x in s.slots
      ensures exists j :: j in s'.reqs && x in HeldBy(s', j)
    {
      var j :| j in s.reqs && x in HeldBy(s, j);
      assert x in HeldBy(s', j);
    }
  }

  /** Steps that change no latch and at most move what a request holds between phases. */
  lemma QuietKeeps(s: State, id: RequestId, p: Phase, s': State)
    requires Inv(s) && id in s.reqs
    requires s'.slots == s.slots && s'.reqs == s.reqs[id := s.reqs[id].(phase := p)]
    requires SlotsOf(Held(p)) == HeldBy(s, id) && RequestInv(s.reqs[id].ssts, p)
    requires GuardInv(s') && CountInv(s', id)
    ensures Inv(s')
  {
    forall j | j in s'.reqs
      ensures HeldBy(s', j) == HeldBy(s, j) && CountInv(s', j)
    {
      assert CountInv(s, j);
    }
    LatchSame(s, s');
  }

  lemma AcquireKeeps(s: State, id: RequestId)
    requires Inv(s) && Enabled(s, AcquireNext(id))
    ensures Inv(Apply(s, AcquireNext(id)))
  {
    hide Inv, LatchInv, RequestInv, GuardInv, CountInv, Distinct, SlotsOf;
    var s' := Apply(s, AcquireNext(id));
    var Request(ssts, p) := s.reqs[id];
    var m := ssts[p.next];
    if HasSlot(m) && SlotOf(m) !in s.slots {
      AcquiredKeeps(s, id, m, s');
    } else {
      TriedKeeps(s, id, s');
    }
  }

  /** An sst that is not granted is passed over. */
  lemma TriedKeeps(s: State, id: RequestId, s': State)
    requires Inv(s) && id in s.reqs && s.reqs[id].phase.Acquiring? && s.reqs[id].phase.next < |s.reqs[id].ssts|
    requires var p := s.reqs[id].phase;
             s' == Set(s, id, Acquiring(p.inflight, p.next + 1, p.metas))
    ensures Inv(s')
  {
    hide LatchInv, Distinct, InCf, SlotsOf;
    assert CountInv(s, id);
    QuietKeeps(s, id, s'.reqs[id].phase, s');
  }

  lemma AcquiredRequest(ssts: seq<SstMeta>, p: Phase, m: SstMeta)
    requires p.Acquiring? && RequestInv(ssts, p) && p.next < |ssts| && m == ssts[p.next]
    requires HasSlot(m) && SlotOf(m) !in SlotsOf(p.metas)
    ensures RequestInv(ssts, Acquiring(p.inflight, p.next + 1, p.metas + [m]))
  {
    AppendDistinct(p.metas, m);
    assert p.metas == ssts[..p.next] ==> p.metas + [m] == ssts[..p.next + 1];
  }

  lemma AcquiredKeeps(s: State, id: RequestId, m: SstMeta, s': State)
    requires Inv(s) && id in s.reqs && s.reqs[id].phase.Acquiring? && s.reqs[id].phase.next < |s.reqs[id].ssts|
    requires m == s.reqs[id].ssts[s.reqs[id].phase.next] && HasSlot(m) && SlotOf(m) !in s.slots
    requires var p := s.reqs[id].phase;
             s' == Set(s, id, Acquiring(p.inflight, p.next + 1, p.metas + [m])).(slots := s.slots + {SlotOf(m)})
    ensures Inv(s')
  {
    hide Inv, LatchInv, RequestInv, GuardInv, CountInv;
    var Request(ssts, p) := s.reqs[id];
    NotHeld(s, id, SlotOf(m));
    SlotsOfAppend(p.metas, m);
    AcquiredRequest(ssts, p, m);
    LatchGrows(s, id, s', SlotOf(m));
    GrownInv(s, id, s', SlotOf(m));
  }

  lemma GrownInv(s: State, id: RequestId, s': State, x: Slot)
    requires Inv(s) && id in s.reqs && s.reqs[id].phase.Acquiring? && x !in s.slots
    requires s'.guard == s.guard && s'.slots == s.slots + {x}
    requires id in s'.reqs && s'.reqs == s.reqs[id := s'.reqs[id]]
    requires s'.reqs[id].phase.Acquiring? && s'.reqs[id].phase.inflight == s.reqs[id].phase.inflight
    requires RequestInv(s'.reqs[id].ssts, s'.reqs[id].phase)
    requires LatchInv(s') && HeldBy(s', id) == HeldBy(s, id) + {x}
    ensures Inv(s')
  {
    hide LatchInv, RequestInv;
    assert CountInv(s, id);
    assert s'.slots - HeldBy(s', id) == s.slots - HeldBy(s, id);
  }

  lemma NotHeld(s: State, id: RequestId, x: Slot)
    requires Inv(s) && id in s.reqs && x !in s.slots
    ensures x !in HeldBy(s, id) && LatchInv(s) && RequestInv(s.reqs[id].ssts, s.reqs[id].phase)
  {
  }

  lemma AppendDistinct(ms: seq<SstMeta>, m: SstMeta)
    requires Distinct(ms) && HasSlot(m) && SlotOf(m) !in SlotsOf(ms)
    ensures Distinct(ms + [m])
  {
    forall i | 0 <= i < |ms|
      ensures SlotOf(ms[i]) != SlotOf(m)
    {
      assert ms[i] in ms;
    }
  }

  lemma LatchGrows(s: State, id: RequestId, s': State, x: Slot)
    requires LatchInv(s) && id in s.reqs && s'.reqs.Keys == s.reqs.Keys && x !in s.slots
    requires s'.slots == s.slots + {x} && HeldBy(s', id) == HeldBy(s, id) + {x}
    requires forall j :: j in s.reqs && j != id ==> s'.reqs[j] == s.reqs[j]
    ensures LatchInv(s')
  {
    forall j | j in s.reqs && j != id
      ensures HeldBy(s', j) == HeldBy(s, j)
    {
    }
    forall y | y in s'.slots
      ensures exists j :: j in s'.reqs && y in HeldBy(s', j)
    {
      if y == x {
        assert y in HeldBy(s', id);
      } else {
        var j :| j in s.reqs && y in HeldBy(s, j);
        assert y in HeldBy(s', j);
      }
    }
  }

  lemma ReleaseKeeps(s: State, id: RequestId)
    requires Inv(s) && Enabled(s, ReleaseNext(id))
    ensures Inv(Apply(s, ReleaseNext(id)))
  {
    hide Inv, LatchInv, RequestInv, GuardInv, CountInv, Distinct, SlotsOf;
    var s' := Apply(s, ReleaseNext(id));
    var Request(ssts, p) := s.reqs[id];
    var m := p.rest[0];
    InvParts(s, id);
    ReleasedRequest(ssts, p);
    LatchShrinks(s, id, s', SlotOf(m));
    ShrunkInv(s, id, s', SlotOf(m));
  }

  lemma InvParts(s: State, id: RequestId)
    requires Inv(s) && id in s.reqs
    ensures LatchInv(s) && RequestInv(s.reqs[id].ssts, s.reqs[id].phase)
  {
  }

  lemma ReleasedRequest(ssts: seq<SstMeta>, p: Phase)
    requires (p.RollingBack? || p.Releasing?) && RequestInv(ssts, p) && p.rest != [] && HasSlot(p.rest[0])
    ensures RequestInv(ssts, if p.RollingBack? then RollingBack(p.rest[1..]) else Releasing(p.rest[1..]))
    ensures SlotOf(p.rest[0]) in SlotsOf(p.rest)
    ensures SlotsOf(p.rest[1..]) == SlotsOf(p.rest) - {SlotOf(p.rest[0])}
  {
    hide Distinct, SlotsOf;
    assert p.rest == [p.rest[0]] + p.rest[1..];
    DistinctTail(p.rest[0], p.rest[1..]);
    SlotsOfFirst(p.rest[0], p.rest[1..]);
  }

  lemma ShrunkInv(s: State, id: RequestId, s': State, x: Slot)
    requires Inv(s) && id in s.reqs && (s.reqs[id].phase.RollingBack? || s.reqs[id].phase.Releasing?)
    requires s'.guard == s.guard && s'.slots == s.slots - {x}
    requires id in s'.reqs && s'.reqs == s.reqs[id := s'.reqs[id]]
    requires s'.reqs[id].phase.RollingBack? || s'.reqs[id].phase.Releasing?
    requires RequestInv(s'.reqs[id].ssts, s'.reqs[id].phase) && LatchInv(s')
    ensures Inv(s')
  {
    hide LatchInv, RequestInv, InCf, SlotsOf;
    forall j | j in s'.reqs
      ensures CountInv(s', j)
    {
      assert CountInv(s, j);
      if j != id {
        CountShrinks(s'.slots - HeldBy(s', j), s.slots - HeldBy(s, j));
      }
    }
  }

  lemma LatchShrinks(s: State, id: RequestId, s': State, x: Slot)
    requires LatchInv(s) && id in s.reqs && s'.reqs.Keys == s.reqs.Keys && x in HeldBy(s, id)
    requires s'.slots == s.slots - {x} && HeldBy(s', id) == HeldBy(s, id) - {x}
    requires forall j :: j in s.reqs && j != id ==> s'.reqs[j] == s.reqs[j]
    ensures LatchInv(s')
  {
    forall j | j in s.reqs && j != id
      ensures HeldBy(s', j) == HeldBy(s, j) && x !in HeldBy(s, j)
    {
    }
    forall y | y in s'.slots
      ensures exists j :: j in s'.reqs && y in HeldBy(s', j)
    {
      var j :| j in s.reqs && y in HeldBy(s, j);
      assert y in HeldBy(s', j);
    }
  }

  lemma EarlyStepKeeps(s: State, t: Step)
    requires Inv(s) && Enabled(s, t) && (t.CheckSuspend? || t.TakeGuard? || t.Count?)
    ensures Inv(Apply(s, t))
  {
    hide LatchInv, Distinct, InCf;
    var s' := Apply(s, t);
    assert CountInv(s, t.id);
    NoSlots();
    assert s.slots - {} == s.slots;
    assert GuardInv(s');
    QuietKeeps(s, t.id, s'.reqs[t.id].phase, s');
  }

  lemma LateStepKeeps(s: State, t: Step)
    requires Inv(s) && Enabled(s, t) && (t.CheckStall? || t.LeaveGuard? || t.Finish? || t.End?)
    ensures Inv(Apply(s, t))
  {
    hide LatchInv, Distinct, InCf;
    var s', ssts := Apply(s, t), s.reqs[t.id].ssts;
    assert CountInv(s, t.id);
    NoSlots();
    assert ssts[..|ssts|] == ssts;
    assert GuardInv(s');
    QuietKeeps(s, t.id, s'.reqs[t.id].phase, s');
  }

  lemma {:induction false} StepKeepsInv(s: State, t: Step)
    requires Inv(s) && Enabled(s, t)
    ensures Inv(Apply(s, t))
  {
    hide Inv, Enabled, Apply;
    match t
    case AcquireNext(id) => AcquireKeeps(s, id);
    case ReleaseNext(id) => ReleaseKeeps(s, id);
    case CheckSuspend(_, _) => EarlyStepKeeps(s, t);
    case TakeGuard(_) => EarlyStepKeeps(s, t);
    case Count(_) => EarlyStepKeeps(s, t);
    case _ => LateStepKeeps(s, t);
  }

  lemma {:induction false} RunKeepsInv(s: State, steps: seq<Step>, s': State)
    requires Inv(s) && Runs(s, steps, s')
    ensures Inv(s')
    decreases |steps|
  {
    if steps != [] {
      StepKeepsInv(s, steps[0]);
      RunKeepsInv(Apply(s, steps[0]), steps[1..], s');
    }
  }

  lemma InitIsInv(s: State)
    requires Init(s)
    ensures Inv(s)
  {
    forall id | id in s.reqs
      ensures HeldBy(s, id) == {}
    {
      assert SlotsOf([]) == {};
    }
  }

  // ----- the theorems

  predicate Finished(p: Phase) {
    p.Refused? || p.Completed?
  }

  /** Latch ownership: in every state of every run the latch is the disjoint union of what the
      unfinished requests hold; it is empty when all are finished. */
  lemma {:induction false} LatchOwnership(s: State, steps: seq<Step>, s': State)
    requires Init(s) && Runs(s, steps, s')
    ensures forall x :: x in s'.slots <==>
              exists id :: id in s'.reqs && !Finished(s'.reqs[id].phase) && x in HeldBy(s', id)
    ensures forall i, j :: i in s'.reqs && j in s'.reqs && i != j ==> HeldBy(s', i) !! HeldBy(s', j)
    ensures (forall id :: id in s'.reqs ==> Finished(s'.reqs[id].phase)) ==> s'.slots == {}
  {
    InitIsInv(s);
    RunKeepsInv(s, steps, s');
    forall x | x in s'.slots
      ensures exists id :: id in s'.reqs && !Finished(s'.reqs[id].phase) && x in HeldBy(s', id)
    {
      var id :| id in s'.reqs && x in HeldBy(s', id);
      assert !Finished(s'.reqs[id].phase);
    }
  }

  /** A request in the ingest phase has latched its whole list, each sst once; a request with a
      repeated or unreadable sst never gets there, whatever the others do. */
  lemma {:induction false} IngestsItsWholeList(s: State, steps: seq<Step>, s': State, id: RequestId)
    requires Init(s) && Runs(s, steps, s') && id in s'.reqs
    ensures s'.reqs[id].phase.Ingesting? ==> Distinct(s'.reqs[id].ssts) && SlotsOf(s'.reqs[id].ssts) <= s'.slots
    ensures !Distinct(s'.reqs[id].ssts) ==>
              var p := s'.reqs[id].phase;
              !p.Ingesting? && !p.Releasing? && !p.Completed?
  {
    hide Distinct;
    InitIsInv(s);
    RunKeepsInv(s, steps, s');
    assert s'.reqs[id].phase.Ingesting? ==> HeldBy(s', id) == SlotsOf(s'.reqs[id].ssts);
  }

  /** No two requests in the ingest phase share an sst. */
  lemma {:induction false} IngestsAreDisjoint(s: State, steps: seq<Step>, s': State, i: RequestId, j: RequestId)
    requires Init(s) && Runs(s, steps, s')
    requires i in s'.reqs && j in s'.reqs && i != j
    requires s'.reqs[i].phase.Ingesting? && s'.reqs[j].phase.Ingesting?
    ensures SlotsOf(s'.reqs[i].ssts) !! SlotsOf(s'.reqs[j].ssts)
  {
    hide Distinct;
    InitIsInv(s);
    RunKeepsInv(s, steps, s');
    assert HeldBy(s', i) == SlotsOf(s'.reqs[i].ssts) && HeldBy(s', j) == SlotsOf(s'.reqs[j].ssts);
  }

  /** How many write-column ssts each of the other requests holds. */
  ghost function OthersHold(s: State, id: RequestId): map<nat, int> {
    map j | j in s.reqs && j != id :: CountCf(Held(s.reqs[j].phase), CF_WRITE)
  }

  /** Holdings that share nothing. */
  ghost predicate Separate(hs: map<RequestId, seq<SstMeta>>) {
    && (forall j :: j in hs ==> Distinct(hs[j]))
    && (forall i, j :: i in hs && j in hs && i != j ==> SlotsOf(hs[i]) !! SlotsOf(hs[j]))
  }

  ghost function Union(hs: map<RequestId, seq<SstMeta>>): set<Slot> {
    set j, x | j in hs && x in SlotsOf(hs[j]) :: x
  }

  ghost function Counts(hs: map<RequestId, seq<SstMeta>>, cf: string): map<nat, int> {
    map j | j in hs :: CountCf(hs[j], cf)
  }

  lemma UnionPick(hs: map<RequestId, seq<SstMeta>>, j: RequestId)
    requires j in hs && Separate(hs)
    ensures Separate(hs - {j}) && Union(hs) == SlotsOf(hs[j]) + Union(hs - {j}) && SlotsOf(hs[j]) !! Union(hs - {j})
  {
    hide Distinct, SlotsOf;
    var rest := hs - {j};
    assert forall i :: i in rest ==> rest[i] == hs[i] && i != j;
  }

  /** The slots of separate holdings number as many as the ssts in them. */
  lemma {:induction false} UnionCounts(hs: map<RequestId, seq<SstMeta>>, cf: string)
    requires Separate(hs)
    ensures |InCf(Union(hs), cf)| == Sum(Counts(hs, cf))
    decreases |hs|
  {
    hide SlotsOf, Distinct, Union, Sum;
    if hs == map[] {
      NothingHeld(hs, cf);
    } else {
      var j :| j in hs;
      UnionPick(hs, j);
      UnionCounts(hs - {j}, cf);
      LatchCountsSsts(hs[j], cf);
      assert InCf(Union(hs), cf) == InCf(SlotsOf(hs[j]), cf) + InCf(Union(hs - {j}), cf);
      SumPick(Counts(hs, cf), j);
      assert Counts(hs, cf) - {j} == Counts(hs - {j}, cf);
    }
  }

  lemma NothingHeld(hs: map<RequestId, seq<SstMeta>>, cf: string)
    requires hs == map[]
    ensures |InCf(Union(hs), cf)| == Sum(Counts(hs, cf)) == 0
  {
    assert Union(hs) == {} && InCf({}, cf) == {} && Counts(hs, cf) == map[];
  }

  /** What is latched beside a request's own is what the others hold, sst by sst. */
  lemma OthersCounted(s: State, id: RequestId)
    requires Inv(s) && id in s.reqs
    ensures |InCf(s.slots - HeldBy(s, id), CF_WRITE)| == Sum(OthersHold(s, id))
  {
    hide Distinct, SlotsOf, Sum, InCf, GuardInv, CountInv;
    var hs := map j | j in s.reqs && j != id :: Held(s.reqs[j].phase);
    assert Separate(hs) by {
      forall j | j in hs
        ensures Distinct(hs[j])
      {
        assert RequestInv(s.reqs[j].ssts, s.reqs[j].phase);
      }
      assert forall i, j :: i in hs && j in hs && i != j ==> HeldBy(s, i) !! HeldBy(s, j);
    }
    OthersUnion(s, id, hs);
    assert Counts(hs, CF_WRITE) == OthersHold(s, id);
    UnionCounts(hs, CF_WRITE);
  }

  lemma OthersUnion(s: State, id: RequestId, hs: map<RequestId, seq<SstMeta>>)
    requires LatchInv(s) && id in s.reqs && hs == map j | j in s.reqs && j != id :: Held(s.reqs[j].phase)
    ensures s.slots - HeldBy(s, id) == Union(hs)
  {
    hide SlotsOf;
    forall x | x in s.slots - HeldBy(s, id)
      ensures x in Union(hs)
    {
      var j :| j in s.reqs && x in HeldBy(s, j);
      assert j in hs && x in SlotsOf(hs[j]);
    }
    forall x | x in Union(hs)
      ensures x in s.slots - HeldBy(s, id)
    {
      var j :| j in hs && x in SlotsOf(hs[j]);
      assert x in HeldBy(s, j) && HeldBy(s, j) !! HeldBy(s, id);
    }
  }

  /** Exact counting: the count a request takes for the stall check is the number of write-column
      ssts that all other requests hold at that moment. */
  lemma {:induction false} CountIsExact(s: State, steps: seq<Step>, s': State, id: RequestId)
    requires Init(s) && Runs(s, steps, s') && Enabled(s', Count(id))
    ensures var p := Apply(s', Count(id)).reqs[id].phase;
            p.Counted? && p.inflight == Sum(OthersHold(s', id))
  {
    hide Inv, Runs, Sum, OthersHold, InCf, SlotsOf;
    InitIsInv(s);
    RunKeepsInv(s, steps, s');
    NoSlots();
    assert s'.slots - {} == s'.slots;
    OthersCounted(s', id);
  }

  /** Conservative admission: throughout the guarded section of a request, the write-column ssts
      held by the others do not exceed the count it passed to the stall check, and nobody else is
      in that section. */
  lemma {:induction false} AdmissionIsConservative(s: State, steps: seq<Step>, s': State, id: RequestId)
    requires Init(s) && Runs(s, steps, s') && id in s'.reqs
    requires s'.reqs[id].phase.Counted? || s'.reqs[id].phase.Acquiring?
    ensures Sum(OthersHold(s', id)) <= s'.reqs[id].phase.inflight
    ensures forall j :: j in s'.reqs && j != id ==> !HoldsGuard(s'.reqs[j].phase)
  {
    hide Runs, Sum, OthersHold, InCf, SlotsOf, Distinct, LatchInv;
    InitIsInv(s);
    RunKeepsInv(s, steps, s');
    assert CountInv(s', id);
    OthersCounted(s', id);
  }

  /** No deadlock: while some request is unfinished, some request can take a step. */
  lemma {:induction false} SomeoneCanStep(s: State, steps: seq<Step>, s': State, id: RequestId)
    requires Init(s) && Runs(s, steps, s')
    requires id in s'.reqs && !Finished(s'.reqs[id].phase)
    ensures exists t :: Enabled(s', t)
  {
    InitIsInv(s);
    RunKeepsInv(s, steps, s');
    var who := if s'.guard.Some? then s'.guard.value else id;
    var Request(ssts, p) := s'.reqs[who];
    assert RequestInv(ssts, p);
    assert Enabled(s', match p
                       case New => CheckSuspend(who, false)
                       case Waiting => TakeGuard(who)
                       case Admitting => Count(who)
                       case Counted(_) => CheckStall(who, false)
                       case Acquiring(_, n, _) => if n < |ssts| then AcquireNext(who) else LeaveGuard(who)
                       case Ingesting(_) => Finish(who)
                       case RollingBack(rest) => if rest == [] then End(who) else ReleaseNext(who)
                       case Releasing(rest) => if rest == [] then End(who) else ReleaseNext(who)
                       case _ => CheckSuspend(who, true));
  }

  /** How many steps a request has ahead of it at most. */
  function Budget(q: Request): int {
    var n := |q.ssts|;
    match q.phase
    case New => 2 * n + 7
    case Waiting => 2 * n + 6
    case Admitting => 2 * n + 5
    case Counted(_) => 2 * n + 4
    case Acquiring(_, next, _) => (n - next) + n + 3
    case Ingesting(_) => n + 2
    case RollingBack(rest) => |rest| + 1
    case Releasing(rest) => |rest| + 1
    case _ => 0
  }

  ghost function Budgets(s: State): map<nat, int> {
    map id | id in s.reqs :: Budget(s.reqs[id])
  }

  lemma RequestSpendsBudget(s: State, t: Step)
    requires Enabled(s, t) && RequestInv(s.reqs[t.id].ssts, s.reqs[t.id].phase)
    ensures Budget(Apply(s, t).reqs[t.id]) < Budget(s.reqs[t.id])
  {
    hide Distinct, InCf;
  }

  lemma OnlyOwnBudget(s: State, t: Step)
    requires Enabled(s, t)
    ensures Budgets(Apply(s, t)) == Budgets(s)[t.id := Budget(Apply(s, t).reqs[t.id])]
  {
    hide Budget, InCf;
  }

  lemma StepSpendsBudget(s: State, t: Step)
    requires Inv(s) && Enabled(s, t)
    ensures Sum(Budgets(Apply(s, t))) < Sum(Budgets(s))
  {
    assert RequestInv(s.reqs[t.id].ssts, s.reqs[t.id].phase);
    hide Inv, RequestInv, Apply, Budget, Sum;
    RequestSpendsBudget(s, t);
    OnlyOwnBudget(s, t);
    SumUpdate(Budgets(s), t.id, Budget(Apply(s, t).reqs[t.id]));
  }

  lemma BudgetNonNegative(s: State)
    requires Inv(s)
    ensures Sum(Budgets(s)) >= 0
  {
    forall id | id in Budgets(s)
      ensures Budgets(s)[id] >= 0
    {
      assert RequestInv(s.reqs[id].ssts, s.reqs[id].phase);
    }
    SumNonNegative(Budgets(s));
  }

  lemma {:induction false} RunWithinBudget(s: State, steps: seq<Step>, s': State)
    requires Inv(s) && Runs(s, steps, s')
    ensures |steps| <= Sum(Budgets(s))
    decreases |steps|
  {
    if steps == [] {
      BudgetNonNegative(s);
    } else {
      StepKeepsInv(s, steps[0]);
      StepSpendsBudget(s, steps[0]);
      RunWithinBudget(Apply(s, steps[0]), steps[1..], s');
    }
  }

  /** Every run ends: it has at most twice as many steps as ssts were listed, plus seven for
      each request. */
  lemma {:induction false} EveryRunEnds(s: State, steps: seq<Step>, s': State)
    requires Init(s) && Runs(s, steps, s')
    ensures |steps| <= Sum(map id | id in s.reqs :: 2 * |s.reqs[id].ssts| + 7)
  {
    hide Inv, Runs, Sum;
    InitIsInv(s);
    RunWithinBudget(s, steps, s');
    assert Budgets(s) == map id | id in s.reqs :: 2 * |s.reqs[id].ssts| + 7;
  }
}
