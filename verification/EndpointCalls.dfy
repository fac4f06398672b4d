/** Two calls of the coprocessor endpoint, each taken by itself: handing a future to the read
    pool under the memory quota, and checking the key ranges of a request for memory locks. */
module EndpointCalls {
  import opened Wrappers
  import Admission
  import AdmissionAlone
  import LockCheck

  // ----- the memory quota and the read pool

  class MemoryQuota {
    var capacity: nat
    var inUse: int

    constructor (capacity: nat)
      ensures this.capacity == capacity && inUse == 0
    {
      this.capacity := capacity;
      inUse := 0;
    }

    /** The unsigned first check and the signed second one together are one comparison. */
    method Alloc(bytes: nat) returns (granted: bool)
      modifies `inUse
      ensures granted <==> bytes <= 0x1_0000_0000_0000 && bytes <= capacity - old(inUse)
      ensures inUse == if granted then old(inUse) + bytes else old(inUse)
    {
      if bytes > Admission.AsUsize(capacity - inUse) || bytes > Admission.MAX_MEMORY_ALLOC_SIZE {
        return false;
      }
      var before := inUse;
      inUse := inUse + bytes;
      if bytes > capacity - before {
        inUse := inUse - bytes;
        return false;
      }
      return true;
    }

    method Free(bytes: nat)
      modifies `inUse
      ensures inUse == Admission.Free(old(inUse), bytes)
      ensures bytes <= old(inUse) && bytes <= Admission.MAX_MEMORY_ALLOC_SIZE ==> inUse == old(inUse) - bytes
    {
      if bytes > Admission.MAX_MEMORY_ALLOC_SIZE {
        return;
      }
      inUse := inUse - bytes;
      if inUse < 0 {
        inUse := inUse + (if -inUse < bytes then -inUse else bytes);
      }
    }
  }

  class ReadPool {
    const maxTasks: nat
    var running: map<Admission.Priority, int>

    constructor (maxTasks: nat, running: map<Admission.Priority, int>)
      ensures this.maxTasks == maxTasks && this.running == running
    {
      this.maxTasks := maxTasks;
      this.running := running;
    }

    method Spawn(p: Admission.Priority) returns (spawned: bool)
      requires p in running
      modifies this
      ensures spawned <==> Admission.AsUsize(old(running)[p]) < maxTasks
      ensures running == if spawned then old(running)[p := old(running)[p] + 1] else old(running)
    {
      if Admission.AsUsize(running[p]) >= maxTasks {
        return false;
      }
      running := running[p := running[p] + 1];
      return true;
    }
  }

  datatype SpawnError = MemoryQuotaExceeded | MaxPendingTasksExceeded

  /** Takes both the quota and a place in the pool, or neither: a future the pool refuses is
      dropped, and with it the quota it owned. */
  method SpawnWithMemoryQuotaCheck(quota: MemoryQuota, pool: ReadPool, heapBytes: nat, futureSize: nat,
                                   p: Admission.Priority) returns (r: Result<(), SpawnError>)
    requires quota.inUse >= 0 && p in pool.running
    modifies quota`inUse, pool
    ensures match AdmissionAlone.OutcomeOf(quota.capacity, old(quota.inUse), old(pool.running)[p], pool.maxTasks,
                                           heapBytes + futureSize)
            case Spawned =>
              && r == Ok(()) && quota.inUse == old(quota.inUse) + heapBytes + futureSize <= quota.capacity
              && pool.running == old(pool.running)[p := old(pool.running)[p] + 1]
            case QuotaExceeded =>
              r == Err(MemoryQuotaExceeded) && quota.inUse == old(quota.inUse) && pool.running == old(pool.running)
            case PoolFull =>
              r == Err(MaxPendingTasksExceeded) && quota.inUse == old(quota.inUse) && pool.running == old(pool.running)
  {
    var bytes := heapBytes + futureSize;
    var granted := quota.Alloc(bytes);
    if !granted {
      return Err(MemoryQuotaExceeded);
    }
    var spawned := pool.Spawn(p);
    if !spawned {
      quota.Free(bytes);
      return Err(MaxPendingTasksExceeded);
    }
    return Ok(());
  }

  /** The end of a spawned future: it gives its bytes back, exactly if they are in use, and then
      leaves the pool. */
  method Finish(quota: MemoryQuota, pool: ReadPool, bytes: nat, p: Admission.Priority)
    requires p in pool.running
    modifies quota`inUse, pool
    ensures quota.inUse == Admission.Free(old(quota.inUse), bytes)
    ensures bytes <= old(quota.inUse) && bytes <= Admission.MAX_MEMORY_ALLOC_SIZE ==>
              quota.inUse == old(quota.inUse) - bytes
    ensures pool.running == old(pool.running)[p := old(pool.running)[p] - 1]
  {
    quota.Free(bytes);
    pool.running := pool.running[p := pool.running[p] - 1];
  }

  /** A spawned future that ends leaves quota and pool as they were. */
  method SpawnAndFinish(quota: MemoryQuota, pool: ReadPool, heapBytes: nat, futureSize: nat, p: Admission.Priority)
    requires quota.inUse >= 0 && p in pool.running
    modifies quota`inUse, pool
    ensures quota.inUse == old(quota.inUse) && pool.running == old(pool.running)
  {
    var r := SpawnWithMemoryQuotaCheck(quota, pool, heapBytes, futureSize, p);
    if r.Ok? {
      Finish(quota, pool, heapBytes + futureSize, p);
    }
    assert pool.running == old(pool.running);
  }

  // ----- the memory-lock check

  /** A key handle and the lock in it, if there is one. */
  datatype Entry = Entry(key: LockCheck.Key, lock: Option<LockCheck.Lock>)

  /** A lock in the range that has to stop the read. */
  predicate Conflicts(e: Entry, range: LockCheck.Range, q: LockCheck.Query) {
    && LockCheck.InRange(e.key, range) && e.lock.Some?
    && LockCheck.Stops(e.lock.value, e.key, q)
  }

  ghost predicate Clear(entries: seq<Entry>, range: LockCheck.Range, q: LockCheck.Query) {
    forall i :: 0 <= i < |entries| ==> !Conflicts(entries[i], range, q)
  }

  ghost predicate Sorted(entries: seq<Entry>) {
    forall i, j :: 0 <= i < j < |entries| ==> entries[i].key < entries[j].key
  }

  datatype CheckError =
    | InvalidMaxTsUpdate
    | KeyIsLocked(key: LockCheck.Key, lock: LockCheck.Lock)
    | WriteConflict(startTs: LockCheck.Ts, conflictStartTs: LockCheck.Ts, key: LockCheck.Key, primary: LockCheck.Key)

  /** How a conflict is reported: at snapshot isolation the client is given the lock to resolve,
      under read committed with timestamp check it is told to retry. */
  function Report(e: Entry, q: LockCheck.Query): CheckError
    requires e.lock.Some?
  {
    if q.iso.RcCheckTs? then WriteConflict(q.startTs, e.lock.value.ts, e.key, e.lock.value.primary)
    else KeyIsLocked(e.key, e.lock.value)
  }

  /** The conflict with the smallest key of the first range that has one. */
  ghost predicate FirstConflict(entries: seq<Entry>, q: LockCheck.Query, i: nat, e: Entry) {
    && i < |q.ranges| && e in entries && e.lock.Some? && Conflicts(e, q.ranges[i], q)
    && (forall j :: 0 <= j < i ==> Clear(entries, q.ranges[j], q))
    && (forall x :: x in entries && Conflicts(x, q.ranges[i], q) ==> e.key <= x.key)
  }

  class ConcurrencyManager {
    var maxTs: LockCheck.Ts
    var table: seq<Entry>

    constructor (maxTs: LockCheck.Ts, table: seq<Entry>)
      ensures this.maxTs == maxTs && this.table == table
    {
      this.maxTs := maxTs;
      this.table := table;
    }

    /** `plausible` is what the comparison with the limit and the timestamp oracle says. */
    method UpdateMaxTs(ts: LockCheck.Ts, plausible: bool) returns (ok: bool)
      modifies `maxTs
      ensures ok <==> ts >= LockCheck.MAX_TS || plausible
      ensures maxTs == if ok then LockCheck.UpdateMaxTs(old(maxTs), ts) else old(maxTs)
    {
      if ts >= LockCheck.MAX_TS {
        return true;
      }
      if !plausible {
        return false;
      }
      if maxTs < ts {
        maxTs := ts;
      }
      return true;
    }

    /** The first handle of the range, in key order, that stops the read. */
    method ReadRangeCheck(range: LockCheck.Range, q: LockCheck.Query) returns (hit: Option<Entry>)
      requires Sorted(table)
      ensures hit.None? ==> Clear(table, range, q)
      ensures hit.Some? ==> hit.value in table && Conflicts(hit.value, range, q)
      ensures hit.Some? ==> forall x :: x in table && Conflicts(x, range, q) ==> hit.value.key <= x.key
    {
      var i := 0;
      while i < |table| && (range.lower.Some? && table[i].key < range.lower.value)
        invariant i <= |table| && Clear(table[..i], range, q)
      {
        i := i + 1;
      }
      while i < |table| && (range.upper.Some? ==> table[i].key < range.upper.value)
        invariant i <= |table| && Clear(table[..i], range, q)
        invariant i < |table| && range.lower.Some? ==> range.lower.value <= table[i].key
      {
        var lock := table[i].lock;
        if lock.Some? {
          LockCheck.BlocksIffStops(lock.value, table[i].key, q);
        }
        if lock.Some? && LockCheck.Blocks(lock.value, table[i].key, q.startTs, q.bypass, q.iso) {
          assert forall x :: x in table && Conflicts(x, range, q) ==> x !in table[..i];
          return Some(table[i]);
        }
        i := i + 1;
      }
      return None;
    }

    /** The check a coprocessor request passes before it may take its snapshot. */
    method CheckMemoryLocksForRanges(q: LockCheck.Query, plausible: bool) returns (r: Result<(), CheckError>)
      requires Sorted(table)
      modifies `maxTs
      ensures r == Err(InvalidMaxTsUpdate) <==> !q.stale && q.startTs < LockCheck.MAX_TS && !plausible
      ensures maxTs == if q.stale || r == Err(InvalidMaxTsUpdate) then old(maxTs)
                       else LockCheck.UpdateMaxTs(old(maxTs), q.startTs)
      ensures r.Ok? ==>
                LockCheck.NeedCheckLocks(q.iso) ==> forall i :: 0 <= i < |q.ranges| ==> Clear(table, q.ranges[i], q)
      ensures r.Err? && !r.error.InvalidMaxTsUpdate? ==>
                && LockCheck.NeedCheckLocks(q.iso) && (r.error.WriteConflict? <==> q.iso.RcCheckTs?)
                && exists i, e :: FirstConflict(table, q, i, e) && r.error == Report(e, q)
    {
      if !q.stale {
        var ok := UpdateMaxTs(q.startTs, plausible);
        if !ok {
          return Err(InvalidMaxTsUpdate);
        }
      }
      if LockCheck.NeedCheckLocks(q.iso) {
        ghost var raised := maxTs;
        for i := 0 to |q.ranges|
          invariant maxTs == raised
          invariant forall j :: 0 <= j < i ==> Clear(table, q.ranges[j], q)
        {
          var hit := ReadRangeCheck(q.ranges[i], q);
          if hit.Some? {
            assert FirstConflict(table, q, i, hit.value);
            var Entry(key, lock) := hit.value;
            if q.iso.RcCheckTs? {
              return Err(WriteConflict(q.startTs, lock.value.ts, key, lock.value.primary));
            }
            return Err(KeyIsLocked(key, lock.value));
          }
        }
      }
      return Ok(());
    }
  }
}
