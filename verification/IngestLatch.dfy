/** The ingest latch and the sequential admission, rollback and release loops over it. */
module IngestLatching {
  import opened Wrappers

  /** `path` is `None` for metadata whose identifier does not form a file name. */
  datatype SstMeta = SstMeta(cf: string, path: Option<string>)
  type Slot = (string, string)
  datatype PathError = PathError

  const CF_WRITE := "write"

  predicate HasSlot(m: SstMeta) {
    m.path.Some?
  }

  function SlotOf(m: SstMeta): Slot
    requires HasSlot(m)
  {
    (m.cf, m.path.value)
  }

  ghost predicate AllHaveSlots(ms: seq<SstMeta>) {
    forall i :: 0 <= i < |ms| ==> HasSlot(ms[i])
  }

  ghost function SlotsOf(ms: seq<SstMeta>): set<Slot> {
    set m | m in ms && HasSlot(m) :: SlotOf(m)
  }

  ghost function InCf(slots: set<Slot>, cf: string): set<Slot> {
    set s | s in slots && s.0 == cf
  }

  /** No two entries denote the same slot. */
  ghost predicate Distinct(ms: seq<SstMeta>) {
    && AllHaveSlots(ms)
    && forall i, j :: 0 <= i < j < |ms| ==> SlotOf(ms[i]) != SlotOf(ms[j])
  }

  /** Two ssts exclude each other exactly if they are the same file of the same column family. */
  lemma SlotIsIdentity(a: SstMeta, b: SstMeta)
    requires HasSlot(a) && HasSlot(b)
    ensures SlotOf(a) == SlotOf(b) <==> a.cf == b.cf && a.path == b.path
  {
  }

  /** How many of the ssts belong to the column family. */
  function CountCf(ms: seq<SstMeta>, cf: string): nat {
    if ms == [] then 0 else (if ms[0].cf == cf then 1 else 0) + CountCf(ms[1..], cf)
  }

  lemma OneMoreInCf(x: Slot, slots: set<Slot>, cf: string)
    requires x !in slots
    ensures |InCf({x} + slots, cf)| == |InCf(slots, cf)| + if x.0 == cf then 1 else 0
  {
    assert InCf({x} + slots, cf) == InCf(slots, cf) + if x.0 == cf then {x} else {};
  }

  /** Counting latched slots is counting the ssts that latched them. */
  lemma {:induction false} LatchCountsSsts(ms: seq<SstMeta>, cf: string)
    requires Distinct(ms)
    ensures |InCf(SlotsOf(ms), cf)| == CountCf(ms, cf)
    decreases |ms|
  {
    if ms == [] {
      NoSlots();
    } else {
      hide Distinct, SlotsOf, InCf;
      var m, tail := ms[0], ms[1..];
      assert ms == [m] + tail;
      DistinctHasSlots(ms);
      DistinctTail(m, tail);
      SlotsOfFirst(m, tail);
      LatchCountsSsts(tail, cf);
      OneMoreInCf(SlotOf(m), SlotsOf(tail), cf);
    }
  }

  /** The metas that the admission loop acquires when the latch holds `slots`. */
  function Granted(ssts: seq<SstMeta>, slots: set<Slot>): seq<SstMeta> {
    if ssts == [] then []
    else if HasSlot(ssts[0]) && SlotOf(ssts[0]) !in slots
    then [ssts[0]] + Granted(ssts[1..], slots + {SlotOf(ssts[0])})
    else Granted(ssts[1..], slots)
  }

  class IngestLatch {
    var slots: set<Slot>

    constructor ()
      ensures slots == {}
    {
      slots := {};
    }

    method AcquireLock(meta: SstMeta) returns (r: Result<bool, PathError>)
      modifies this
      ensures meta.path.None? ==> r.Err? && slots == old(slots)
      ensures meta.path.Some? ==>
                var slot := (meta.cf, meta.path.value);
                r == Ok(slot !in old(slots)) && slots == old(slots) + {slot}
    {
      if meta.path.None? {
        return Err(PathError);
      }
      r := Ok(SlotOf(meta) !in slots);
      slots := slots + {SlotOf(meta)};
    }

    method ReleaseLock(meta: SstMeta) returns (r: Result<bool, PathError>)
      modifies this
      ensures meta.path.None? ==> r.Err? && slots == old(slots)
      ensures meta.path.Some? ==>
                var slot := (meta.cf, meta.path.value);
                r == Ok(slot in old(slots)) && slots == old(slots) - {slot}
    {
      if meta.path.None? {
        return Err(PathError);
      }
      r := Ok(SlotOf(meta) in slots);
      slots := slots - {SlotOf(meta)};
    }

    method CountSstsInCf(cf: string) returns (n: nat)
      ensures n == |InCf(slots, cf)|
    {
      n := 0;
      var rest := slots;
      while rest != {}
        invariant rest <= slots && n == |InCf(slots - rest, cf)|
        decreases rest
      {
        var s :| s in rest;
        if s.0 == cf {
          n := n + 1;
          assert InCf(slots - (rest - {s}), cf) == InCf(slots - rest, cf) + {s};
        } else {
          assert InCf(slots - (rest - {s}), cf) == InCf(slots - rest, cf);
        }
        rest := rest - {s};
      }
      assert slots - rest == slots;
    }

    /** The admission loop: every sst is tried, failures are skipped. */
    method AcquireAll(ssts: seq<SstMeta>) returns (metas: seq<SstMeta>)
      modifies this
      ensures metas == Granted(ssts, old(slots))
      ensures slots == old(slots) + SlotsOf(metas)
    {
      hide Granted, SlotsOf;
      metas := [];
      NoSlots();
      assert ssts[0..] == ssts && metas + Granted(ssts, slots) == Granted(ssts, slots);
      for i := 0 to |ssts|
        invariant metas + Granted(ssts[i..], slots) == Granted(ssts, old(slots))
        invariant slots == old(slots) + SlotsOf(metas)
      {
        GrantOne(metas, ssts, i, slots);
        SlotsOfAppend(metas, ssts[i]);
        var r := AcquireLock(ssts[i]);
        if r.Ok? && r.value {
          metas := metas + [ssts[i]];
        }
      }
      NoneGranted(ssts[|ssts|..], slots);
      assert metas + [] == metas;
    }

    /** The rollback and release loops; an unreadable path would be a panic here. */
    method ReleaseAll(metas: seq<SstMeta>)
      requires AllHaveSlots(metas)
      modifies this
      ensures slots == old(slots) - SlotsOf(metas)
    {
      for i := 0 to |metas|
        invariant slots == old(slots) - SlotsOf(metas[..i])
      {
        var r := ReleaseLock(metas[i]);
        assert r.Ok?;
        assert metas[..i + 1] == metas[..i] + [metas[i]];
        SlotsOfAppend(metas[..i], metas[i]);
      }
      assert metas[..|metas|] == metas;
    }

    /** One whole request, undisturbed.  `suspended` is the answer of the suspend deadline and
        `stalls` the write-stall check as a function of the in-flight count it is given.
        Whatever the answer, the latch ends as it began. */
    method Ingest(ssts: seq<SstMeta>, suspended: bool, stalls: nat -> bool) returns (answer: Answer)
      modifies this
      ensures slots == old(slots)
      ensures answer == AnswerTo(ssts, old(slots), suspended, stalls)
    {
      hide Granted, SlotsOf, Distinct, InCf;
      if suspended {
        return Suspended;
      }
      var inflight := CountSstsInCf(CF_WRITE);
      if stalls(inflight) {
        return Stalled;
      }
      var metas := AcquireAll(ssts);
      GrantedIsFree(ssts, old(slots));
      GrantedAllIff(ssts, old(slots));
      assert AllHaveSlots(metas) by { DistinctHasSlots(metas); }
      answer := if |metas| < |ssts| then Conflict else Ran;
      ReleaseAll(metas);
    }
  }

  datatype Answer = Suspended | Stalled | Conflict | Ran

  /** The answer to a request that finds the latch holding `slots`: it runs exactly if nothing
      stops it before and its list is readable, free of repetitions and free of conflicts. */
  ghost function AnswerTo(ssts: seq<SstMeta>, slots: set<Slot>, suspended: bool, stalls: nat -> bool): Answer {
    if suspended then Suspended
    else if stalls(|InCf(slots, CF_WRITE)|) then Stalled
    else if Distinct(ssts) && SlotsOf(ssts) !! slots then Ran
    else Conflict
  }

  lemma NoSlots()
    ensures SlotsOf([]) == {}
  {
  }

  lemma NoneGranted(ssts: seq<SstMeta>, slots: set<Slot>)
    requires ssts == []
    ensures Granted(ssts, slots) == []
  {
  }

  /** One turn of the admission loop keeps what is granted in all. */
  lemma GrantOne(metas: seq<SstMeta>, ssts: seq<SstMeta>, i: nat, slots: set<Slot>)
    requires i < |ssts|
    ensures var m := ssts[i];
            if HasSlot(m) && SlotOf(m) !in slots
            then metas + Granted(ssts[i..], slots) == (metas + [m]) + Granted(ssts[i + 1..], slots + {SlotOf(m)})
            else metas + Granted(ssts[i..], slots) == metas + Granted(ssts[i + 1..], slots)
    ensures HasSlot(ssts[i]) && SlotOf(ssts[i]) in slots ==> slots + {SlotOf(ssts[i])} == slots
  {
    assert ssts[i..][0] == ssts[i] && ssts[i..][1..] == ssts[i + 1..];
  }

  lemma SlotsOfAppend(ms: seq<SstMeta>, m: SstMeta)
    ensures SlotsOf(ms + [m]) == SlotsOf(ms) + if HasSlot(m) then {SlotOf(m)} else {}
  {
    forall x | x in SlotsOf(ms)
      ensures x in SlotsOf(ms + [m])
    {
      var y :| y in ms && HasSlot(y) && SlotOf(y) == x;
      assert y in ms + [m];
    }
    assert m in ms + [m];
  }

  lemma SlotsOfFirst(m: SstMeta, ms: seq<SstMeta>)
    ensures SlotsOf([m] + ms) == (if HasSlot(m) then {SlotOf(m)} else {}) + SlotsOf(ms)
  {
    assert m in [m] + ms;
    forall x | x in ms
      ensures x in [m] + ms
    {
      var i :| 0 <= i < |ms| && ms[i] == x;
      assert ([m] + ms)[i + 1] == x;
    }
  }

  /** What is granted has paths, is free of repetitions and was not latched before. */
  lemma {:induction false} GrantedIsFree(ssts: seq<SstMeta>, slots: set<Slot>)
    ensures Distinct(Granted(ssts, slots)) && SlotsOf(Granted(ssts, slots)) !! slots
    ensures |Granted(ssts, slots)| <= |ssts|
    decreases |ssts|
  {
    if ssts != [] {
      if HasSlot(ssts[0]) && SlotOf(ssts[0]) !in slots {
        var rest := Granted(ssts[1..], slots + {SlotOf(ssts[0])});
        GrantedIsFree(ssts[1..], slots + {SlotOf(ssts[0])});
        SlotsOfFirst(ssts[0], rest);
        forall i | 0 <= i < |rest|
          ensures SlotOf(rest[i]) in SlotsOf(rest)
        {
          assert rest[i] in rest;
        }
      } else {
        GrantedIsFree(ssts[1..], slots);
      }
    }
  }

  /** Everything is granted exactly when the list has paths, no repetition and no conflict. */
  lemma {:induction false} GrantedAllIff(ssts: seq<SstMeta>, slots: set<Slot>)
    ensures |Granted(ssts, slots)| == |ssts| <==> Distinct(ssts) && SlotsOf(ssts) !! slots
    ensures |Granted(ssts, slots)| == |ssts| ==> Granted(ssts, slots) == ssts
    decreases |ssts|
  {
    if ssts != [] {
      var m, tail := ssts[0], ssts[1..];
      assert ssts == [m] + tail;
      SlotsOfFirst(m, tail);
      if HasSlot(m) && SlotOf(m) !in slots {
        GrantedIsFree(tail, slots + {SlotOf(m)});
        GrantedAllIff(tail, slots + {SlotOf(m)});
        DistinctFirst(m, tail);
      } else {
        GrantedIsFree(tail, slots);
      }
    }
  }

  lemma DistinctHasSlots(ms: seq<SstMeta>)
    requires Distinct(ms)
    ensures AllHaveSlots(ms)
  {
  }

  lemma DistinctFirst(m: SstMeta, ms: seq<SstMeta>)
    requires HasSlot(m)
    ensures Distinct([m] + ms) <==> Distinct(ms) && SlotOf(m) !in SlotsOf(ms)
  {
    if Distinct([m] + ms) {
      DistinctTail(m, ms);
    }
    if Distinct(ms) && SlotOf(m) !in SlotsOf(ms) {
      DistinctCons(m, ms);
    }
  }

  lemma DistinctTail(m: SstMeta, ms: seq<SstMeta>)
    requires HasSlot(m) && Distinct([m] + ms)
    ensures Distinct(ms) && SlotOf(m) !in SlotsOf(ms)
  {
    var all := [m] + ms;
    assert forall i :: 0 <= i < |ms| ==> ms[i] == all[i + 1];
    forall x | x in ms && HasSlot(x)
      ensures SlotOf(x) != SlotOf(m)
    {
      var i :| 0 <= i < |ms| && ms[i] == x;
      assert all[0] == m && all[i + 1] == x;
    }
  }

  lemma DistinctCons(m: SstMeta, ms: seq<SstMeta>)
    requires HasSlot(m) && Distinct(ms) && SlotOf(m) !in SlotsOf(ms)
    ensures Distinct([m] + ms)
  {
    var all := [m] + ms;
    forall i, j | 0 <= i < j < |all|
      ensures HasSlot(all[i]) && HasSlot(all[j]) && SlotOf(all[i]) != SlotOf(all[j])
    {
      assert all[j] == ms[j - 1] && ms[j - 1] in ms;
      assert i > 0 ==> all[i] == ms[i - 1];
    }
    assert forall i :: 0 <= i < |all| ==> all[i] == m || all[i] == ms[i - 1];
  }
}
