/** The memory-lock check of a coprocessor read against concurrent async-commit writers, as
    interleaved atomic steps over the concurrency manager's `max_ts` and its lock table.

    A writer locks the handle of its key, then, inside the handle's store mutex, reads
    `max_ts` and publishes a lock; the lock leaves memory only when the guard is dropped,
    after the write reached the store.  A reader raises `max_ts`, walks the handles of its
    ranges in key order and looks at each one under the same mutex, and only then takes its
    snapshot.  Keys are represented by their rank in byte order.
 */
module LockCheck {
  import opened Wrappers

  type Key = nat
  type Ts = nat
  type WriterId = nat
  type ReaderId = nat

  /** `TimeStamp::max()`, the reading timestamp of an autocommit read. */
  const MAX_TS: Ts := 0xFFFF_FFFF_FFFF_FFFF

  datatype LockType = PutLock | DeleteLock | LockOnly | Pessimistic
  datatype Lock = Lock(kind: LockType, primary: Key, ts: Ts, minCommitTs: Ts, asyncCommit: bool, onePc: bool)
  datatype Isolation = Si | Rc | RcCheckTs
  datatype Range = Range(lower: Option<Key>, upper: Option<Key>)

  // ----- the check of one lock

  /** Whether `Lock::check_ts_conflict` reports the lock to a read of `key` at `ts`. */
  predicate Blocks(lock: Lock, key: Key, ts: Ts, bypass: set<Ts>, iso: Isolation) {
    match iso
    case Si =>
      if lock.ts > ts || lock.kind.LockOnly? || lock.kind.Pessimistic? then false
      else if lock.minCommitTs > ts then false
      else if lock.ts in bypass then false
      else if ts == MAX_TS && key == lock.primary && !lock.asyncCommit && !lock.onePc then false
      else true
    case RcCheckTs =>
      !(lock.kind.LockOnly? || lock.kind.Pessimistic?) && lock.ts !in bypass
    case Rc => false
  }

  /** The lock announces a change of the key's data. */
  predicate WritesData(kind: LockType) {
    kind == PutLock || kind == DeleteLock
  }

  /** The read may take the newest committed version without waiting: it reads at the maximum
      timestamp and the transaction's fate is decided by this very key. */
  predicate ReadsLatestPrimary(lock: Lock, k: Key, ts: Ts) {
    ts == MAX_TS && k == lock.primary && !lock.asyncCommit && !lock.onePc
  }

  /** What the write behind a lock means to a read: it changes data and may commit at or below
      the read's timestamp, and the client has not already settled the transaction. */
  predicate Matters(lock: Lock, k: Key, q: Query) {
    && NeedCheckLocks(q.iso) && WritesData(lock.kind)
    && lock.ts <= q.startTs && lock.minCommitTs <= q.startTs && lock.ts !in q.bypass
    && (q.iso.Si? ==> !ReadsLatestPrimary(lock, k, q.startTs))
  }

  /** What has to stop the read: at snapshot isolation a lock that matters; with timestamp-checked
      read committed any unsettled change of data; at read committed nothing. */
  predicate Stops(lock: Lock, k: Key, q: Query) {
    if q.iso.Si? then Matters(lock, k, q)
    else q.iso.RcCheckTs? && WritesData(lock.kind) && lock.ts !in q.bypass
  }

  /** The check reports a lock if and only if it has to stop the read, and it stops the read at
      every lock that matters. */
  lemma BlocksIffStops(lock: Lock, k: Key, q: Query)
    ensures Blocks(lock, k, q.startTs, q.bypass, q.iso) <==> Stops(lock, k, q)
    ensures Matters(lock, k, q) ==> Stops(lock, k, q)
    ensures Stops(lock, k, q) && q.iso.Si? ==> Matters(lock, k, q)
  {
  }

  predicate NeedCheckLocks(iso: Isolation) {
    iso.Si? || iso.RcCheckTs?
  }

  predicate InRange(k: Key, r: Range) {
    && (r.lower.Some? ==> r.lower.value <= k)
    && (r.upper.Some? ==> k < r.upper.value)
  }

  // ----- the parties

  /** A prewrite of one key in async-commit or one-phase-commit mode. */
  datatype Prewrite = Prewrite(key: Key, kind: LockType, primary: Key, startTs: Ts, forUpdateTs: Ts,
                               floor: Ts, maxCommitTs: Ts, asyncCommit: bool)

  datatype WriterPhase =
    | Idle
    | Holding                     // has the guard of its key's handle
    | Inside                      // has the handle's store mutex too
    | Read(maxTs: Ts)             // has read max_ts, still inside
    | Published(lock: Lock)       // lock visible in the handle
    | Persisted(lock: Lock)       // and written to the store
    | Done(lock: Lock)            // guard dropped after the write
    | FellBack                    // commit_ts too large: not in memory, normal 2PC
    | Aborted                     // guard dropped without a write

  datatype Writer = Writer(w: Prewrite, phase: WriterPhase)

  datatype Query = Query(startTs: Ts, stale: bool, iso: Isolation, bypass: set<Ts>, ranges: seq<Range>)

  datatype ReaderPhase =
    | Start
    | Scan(range: nat, cursor: Key)          // keys of the range below cursor are behind
    | At(range: nat, key: Key, handle: nat)  // holds a weak reference to this handle
    | Passed
    | Failed
    | Snapped(snapshot: set<WriterId>)       // the writes visible to the read

  datatype Reader = Reader(q: Query, phase: ReaderPhase)

  /** An entry of the lock table; `id` is the identity of the handle object. */
  datatype Handle = Handle(id: nat, holder: Option<WriterId>, lock: Option<Lock>)

  datatype State = State(maxTs: Ts, table: map<Key, Handle>, nextId: nat,
                         writers: map<WriterId, Writer>, readers: map<ReaderId, Reader>,
                         persisted: set<WriterId>)

  // ----- steps

  datatype Step =
    | Raise(ts: Ts)                          // any other update of max_ts
    | Acquire(w: WriterId)
    | Enter(w: WriterId)
    | ReadMaxTs(w: WriterId)
    | Publish(w: WriterId)
    | Persist(w: WriterId)
    | DropGuard(w: WriterId)
    | Forget(k: Key)                         // the last reference to an unheld handle goes
    | Begin(r: ReaderId)
    | Refuse(r: ReaderId)
    | Visit(r: ReaderId, k: Key)
    | Look(r: ReaderId)
    | EndRange(r: ReaderId)
    | Pass(r: ReaderId)
    | Snap(r: ReaderId)

  function Max(a: nat, b: nat): nat {
    if a < b then b else a
  }

  /** `update_max_ts`: the maximum timestamp is ignored. */
  function UpdateMaxTs(maxTs: Ts, ts: Ts): Ts {
    if ts >= MAX_TS then maxTs else Max(maxTs, ts)
  }

  function MinCommitTs(p: Prewrite, maxTs: Ts): Ts {
    Max(p.floor, Max(Max(maxTs, p.startTs), p.forUpdateTs) + 1)
  }

  function LockOf(p: Prewrite, maxTs: Ts): Lock {
    Lock(p.kind, p.primary, p.startTs, MinCommitTs(p, maxTs), p.asyncCommit, !p.asyncCommit)
  }

  predicate HoldsGuard(p: WriterPhase) {
    p.Holding? || p.Inside? || p.Read? || p.Published? || p.Persisted?
  }

  predicate InMutex(p: WriterPhase) {
    p.Inside? || p.Read?
  }

  predicate MutexFree(s: State, k: Key)
    requires k in s.table
  {
    match s.table[k].holder
    case None => true
    case Some(w) => w in s.writers ==> !InMutex(s.writers[w].phase)
  }

  predicate IsWriter(s: State, w: WriterId) {
    w in s.writers
  }

  predicate IsReader(s: State, r: ReaderId) {
    r in s.readers
  }

  /** A handle of the range at or behind the cursor's position. */
  predicate Ahead(s: State, q: Query, range: nat, cursor: Key, k: Key) {
    range < |q.ranges| && k in s.table && InRange(k, q.ranges[range]) && cursor <= k
  }

  ghost predicate Enabled(s: State, t: Step) {
    match t
    case Raise(ts) => ts <= MAX_TS
    case Acquire(w) => && IsWriter(s, w) && s.writers[w].phase.Idle?
                       && (s.writers[w].w.key in s.table ==> s.table[s.writers[w].w.key].holder.None?)
    case Enter(w) => IsWriter(s, w) && s.writers[w].phase.Holding?
    case ReadMaxTs(w) => IsWriter(s, w) && s.writers[w].phase.Inside?
    case Publish(w) => && IsWriter(s, w) && s.writers[w].phase.Read? && s.writers[w].w.key in s.table
                       && MinCommitTs(s.writers[w].w, s.writers[w].phase.maxTs) <= MAX_TS
    case Persist(w) => IsWriter(s, w) && s.writers[w].phase.Published?
    case DropGuard(w) => IsWriter(s, w) && HoldsGuard(s.writers[w].phase) && s.writers[w].w.key in s.table
    case Forget(k) => k in s.table && s.table[k].holder.None?
    case Begin(r) => IsReader(s, r) && s.readers[r].phase.Start?
    case Refuse(r) => IsReader(s, r) && s.readers[r].phase.Start? && !s.readers[r].q.stale
    case Visit(r, k) => && IsReader(s, r) && s.readers[r].phase.Scan?
                        && var Reader(q, p) := s.readers[r];
                           Ahead(s, q, p.range, p.cursor, k)
                           && forall k' :: Ahead(s, q, p.range, p.cursor, k') ==> k <= k'
    case Look(r) => && IsReader(s, r) && s.readers[r].phase.At?
                    && var p := s.readers[r].phase;
                       p.key in s.table && s.table[p.key].id == p.handle ==> MutexFree(s, p.key)
    case EndRange(r) => && IsReader(s, r) && s.readers[r].phase.Scan?
                        && var Reader(q, p) := s.readers[r];
                           p.range < |q.ranges| && forall k :: !Ahead(s, q, p.range, p.cursor, k)
    case Pass(r) => && IsReader(s, r) && s.readers[r].phase.Scan?
                    && s.readers[r].phase.range >= |s.readers[r].q.ranges|
    case Snap(r) => IsReader(s, r) && s.readers[r].phase.Passed?
  }

  ghost function SetWriter(s: State, w: WriterId, p: WriterPhase): State
    requires IsWriter(s, w)
  {
    s.(writers := s.writers[w := s.writers[w].(phase := p)])
  }

  ghost function SetReader(s: State, r: ReaderId, p: ReaderPhase): State
    requires IsReader(s, r)
  {
    s.(readers := s.readers[r := s.readers[r].(phase := p)])
  }

  /** The handle found under the reader's weak reference blocks it. */
  ghost predicate SeesConflict(s: State, r: ReaderId)
    requires IsReader(s, r) && s.readers[r].phase.At?
  {
    var Reader(q, p) := s.readers[r];
    && p.key in s.table && s.table[p.key].id == p.handle && s.table[p.key].lock.Some?
    && Blocks(s.table[p.key].lock.value, p.key, q.startTs, q.bypass, q.iso)
  }

  ghost function Apply(s: State, t: Step): State
    requires Enabled(s, t)
  {
    match t
    case Raise(ts) => s.(maxTs := UpdateMaxTs(s.maxTs, ts))
    case Acquire(w) =>
      var k := s.writers[w].w.key;
      var h := if k in s.table then s.table[k].(holder := Some(w)) else Handle(s.nextId, Some(w), None);
      SetWriter(s, w, Holding).(table := s.table[k := h], nextId := s.nextId + 1)
    case Enter(w) => SetWriter(s, w, Inside)
    case ReadMaxTs(w) => SetWriter(s, w, Read(s.maxTs))
    case Publish(w) =>
      var Writer(p, phase) := s.writers[w];
      var lock := LockOf(p, phase.maxTs);
      if p.maxCommitTs != 0 && lock.minCommitTs > p.maxCommitTs then Leave(s, w, FellBack)
      else SetWriter(s, w, Published(lock)).(table := s.table[p.key := s.table[p.key].(lock := Some(lock))])
    case Persist(w) =>
      SetWriter(s, w, Persisted(s.writers[w].phase.lock)).(persisted := s.persisted + {w})
    case DropGuard(w) =>
      Leave(s, w, if s.writers[w].phase.Persisted? then Done(s.writers[w].phase.lock) else Aborted)
    case Forget(k) => s.(table := s.table - {k})
    case Begin(r) =>
      var q := s.readers[r].q;
      SetReader(s, r, if NeedCheckLocks(q.iso) then Scan(0, 0) else Passed)
        .(maxTs := if q.stale then s.maxTs else UpdateMaxTs(s.maxTs, q.startTs))
    case Refuse(r) => SetReader(s, r, Failed)
    case Visit(r, k) => SetReader(s, r, At(s.readers[r].phase.range, k, s.table[k].id))
    case Look(r) =>
      var p := s.readers[r].phase;
      SetReader(s, r, if SeesConflict(s, r) then Failed else Scan(p.range, p.key + 1))
    case EndRange(r) => SetReader(s, r, Scan(s.readers[r].phase.range + 1, 0))
    case Pass(r) => SetReader(s, r, Passed)
    case Snap(r) => SetReader(s, r, Snapped(s.persisted))
  }

  /** The writer leaves its handle: the lock is cleared and the guard released. */
  ghost function Leave(s: State, w: WriterId, p: WriterPhase): State
    requires IsWriter(s, w)
  {
    var k := s.writers[w].w.key;
    var s' := SetWriter(s, w, p);
    if k in s.table then s'.(table := s.table[k := s.table[k].(holder := None, lock := None)]) else s'
  }

  ghost predicate Init(s: State) {
    && s.maxTs < MAX_TS && s.table == map[] && s.persisted == {}
    && (forall w :: w in s.writers ==> s.writers[w].phase.Idle?)
    && (forall r :: r in s.readers ==> s.readers[r].phase.Start?)
  }

  /** The state after a run of steps, if each one is enabled in turn. */
  ghost predicate Runs(s: State, steps: seq<Step>, s': State)
    decreases |steps|
  {
    if steps == [] then s' == s
    else Enabled(s, steps[0]) && Runs(Apply(s, steps[0]), steps[1..], s')
  }

  // ----- what the protocol guarantees

  /** The read raises `max_ts` and its isolation level looks at locks. */
  predicate Guarded(q: Query) {
    !q.stale && q.startTs < MAX_TS && NeedCheckLocks(q.iso)
  }

  ghost predicate InRanges(q: Query, n: nat, k: Key) {
    exists i :: 0 <= i < n && i < |q.ranges| && InRange(k, q.ranges[i])
  }

  /** The key's handles are behind the reader. */
  ghost predicate Behind(r: Reader, k: Key) {
    match r.phase
    case Scan(i, c) => InRanges(r.q, i, k) || (i < |r.q.ranges| && InRange(k, r.q.ranges[i]) && k < c)
    case At(i, k', _) => InRanges(r.q, i, k) || (i < |r.q.ranges| && InRange(k, r.q.ranges[i]) && k < k')
    case Passed => InRanges(r.q, |r.q.ranges|, k)
    case Snapped(_) => InRanges(r.q, |r.q.ranges|, k)
    case _ => false
  }

  /** The lock cannot make the read wrong: it commits above the read, or its check passes. */
  predicate Harmless(lock: Lock, k: Key, q: Query) {
    !Matters(lock, k, q)
  }

  function LockIn(p: WriterPhase): Option<Lock> {
    match p
    case Published(l) => Some(l)
    case Persisted(l) => Some(l)
    case Done(l) => Some(l)
    case _ => None
  }

  /** A writer on a key that is behind the reader. */
  ghost predicate SafeBehind(s: State, w: WriterId, q: Query)
    requires IsWriter(s, w)
  {
    var Writer(p, phase) := s.writers[w];
    && (phase.Read? ==> phase.maxTs >= q.startTs)
    && (LockIn(phase).Some? ==> Harmless(LockIn(phase).value, p.key, q) || w in s.persisted)
  }

  /** A writer on the key the reader is about to look at, on a later handle than the reader's. */
  ghost predicate SafeLater(s: State, w: WriterId, q: Query)
    requires IsWriter(s, w)
  {
    var phase := s.writers[w].phase;
    && (phase.Read? ==> phase.maxTs >= q.startTs)
    && (LockIn(phase).Some? ==> LockIn(phase).value.minCommitTs > q.startTs || w in s.persisted)
  }

  /** A handle shows the lock of the writer that holds it, and none if nobody does. */
  ghost predicate HandlesInv(s: State) {
    && (forall k :: k in s.table ==> s.table[k].id < s.nextId)
    && (forall k :: k in s.table ==>
          match s.table[k].holder
          case None => s.table[k].lock.None?
          case Some(w) => && w in s.writers && s.writers[w].w.key == k && HoldsGuard(s.writers[w].phase)
                          && s.table[k].lock == LockIn(s.writers[w].phase))
  }

  /** A writer with a guard is the holder of its key's handle. */
  ghost predicate GuardsInv(s: State) {
    forall w :: w in s.writers && HoldsGuard(s.writers[w].phase) ==>
      s.writers[w].w.key in s.table && s.table[s.writers[w].w.key].holder == Some(w)
  }

  ghost predicate LocksInv(s: State) {
    && (forall w :: w in s.writers && (s.writers[w].phase.Persisted? || s.writers[w].phase.Done?) ==> w in s.persisted)
    && (forall w :: w in s.writers && LockIn(s.writers[w].phase).Some? ==>
          LockIn(s.writers[w].phase).value.ts < LockIn(s.writers[w].phase).value.minCommitTs <= MAX_TS)
  }

  ghost predicate TableInv(s: State) {
    s.maxTs < MAX_TS && HandlesInv(s) && GuardsInv(s) && LocksInv(s)
  }

  /** The writer does not hold the handle that the reader is about to look at. */
  predicate Apart(s: State, w: WriterId, k: Key, handle: nat) {
    k in s.table ==> s.table[k].id != handle || s.table[k].holder != Some(w)
  }

  ghost predicate ReaderInv(s: State, r: Reader) {
    && (Guarded(r.q) && !r.phase.Start? && !r.phase.Failed? ==> s.maxTs >= r.q.startTs)
    && (Guarded(r.q) ==> forall w :: w in s.writers && Behind(r, s.writers[w].w.key) ==> SafeBehind(s, w, r.q))
    && (r.phase.At? ==> r.phase.range < |r.q.ranges| && r.phase.handle < s.nextId)
    && (r.phase.At? && Guarded(r.q) ==>
          forall w :: w in s.writers && s.writers[w].w.key == r.phase.key && Apart(s, w, r.phase.key, r.phase.handle) ==>
            SafeLater(s, w, r.q))
    && (r.phase.Snapped? && Guarded(r.q) ==>
          forall w :: w in s.writers && InRanges(r.q, |r.q.ranges|, s.writers[w].w.key)
                      && LockIn(s.writers[w].phase).Some? ==>
            Harmless(LockIn(s.writers[w].phase).value, s.writers[w].w.key, r.q) || w in r.phase.snapshot)
  }

  ghost predicate Inv(s: State) {
    TableInv(s) && forall r :: r in s.readers ==> ReaderInv(s, s.readers[r])
  }

  // ----- every step keeps the invariant

  /** Raising `max_ts` below the maximum timestamp, for whatever reason. */
  lemma RaiseKeeps(s: State, ts: Ts)
    requires Inv(s) && ts < MAX_TS
    ensures Inv(s.(maxTs := Max(s.maxTs, ts)))
  {
    var s' := s.(maxTs := Max(s.maxTs, ts));
    forall r | r in s.readers
      ensures ReaderInv(s', s.readers[r])
    {
      assert ReaderInv(s, s.readers[r]);
    }
  }

  /** What writer `w` may do without disturbing a reader: its prewrite stays, only the entry
      of its own key changes, a handle keeps its identity or is new, and if it has come to
      know a `max_ts` or a lock, that is safe for readers already past its key. */
  ghost predicate Moves(s: State, w: WriterId, s': State) {
    && IsWriter(s, w) && IsWriter(s', w) && s'.writers[w].w == s.writers[w].w
    && s'.writers == s.writers[w := s'.writers[w]] && s'.readers == s.readers
    && s'.maxTs == s.maxTs && s.nextId <= s'.nextId
    && s.persisted <= s'.persisted <= s.persisted + {w}
    && (var k := s.writers[w].w.key;
        && k in s'.table && s'.table == s.table[k := s'.table[k]]
        && s'.table[k].id == (if k in s.table then s.table[k].id else s.nextId) && s'.table[k].id < s'.nextId
        && (if HoldsGuard(s'.writers[w].phase) then s'.table[k].holder == Some(w) else s'.table[k].holder.None?)
        && s'.table[k].lock == (if HoldsGuard(s'.writers[w].phase) then LockIn(s'.writers[w].phase) else None)
        && (HoldsGuard(s.writers[w].phase) || k !in s.table || s.table[k].holder.None?))
  }

  /** The phase a writer may move to. */
  ghost predicate Follows(s: State, w: WriterId, s': State)
    requires IsWriter(s, w) && IsWriter(s', w)
  {
    var was, now := s.writers[w].phase, s'.writers[w].phase;
    match now
    case Holding => was.Idle?
    case Inside => was.Holding?
    case Read(t) => was.Inside? && t == s.maxTs
    case Published(l) => was.Read? && l.minCommitTs > was.maxTs && l.ts < l.minCommitTs <= MAX_TS
    case Persisted(l) => was == Published(l) && w in s'.persisted
    case Done(l) => was == Persisted(l)
    case FellBack => HoldsGuard(was) && !was.Persisted?
    case Aborted => HoldsGuard(was) && !was.Persisted?
    case Idle => false
  }

  lemma MoveKeepsHandles(s: State, w: WriterId, s': State)
    requires HandlesInv(s) && GuardsInv(s) && Moves(s, w, s')
    ensures HandlesInv(s')
  {
  }

  lemma MoveKeepsGuards(s: State, w: WriterId, s': State)
    requires HandlesInv(s) && GuardsInv(s) && Moves(s, w, s')
    ensures GuardsInv(s')
  {
  }

  lemma MoveKeepsLocks(s: State, w: WriterId, s': State)
    requires LocksInv(s) && Moves(s, w, s') && Follows(s, w, s')
    ensures LocksInv(s')
  {
  }

  lemma MoveKeepsTable(s: State, w: WriterId, s': State)
    requires TableInv(s) && Moves(s, w, s') && Follows(s, w, s')
    ensures TableInv(s')
  {
    hide HandlesInv, GuardsInv, LocksInv, Follows;
    MoveKeepsHandles(s, w, s');
    MoveKeepsGuards(s, w, s');
    MoveKeepsLocks(s, w, s');
  }

  /** The heart of the argument: a writer that reads `max_ts` now sees at least the timestamp of
      every reader that has begun, and a lock it publishes lies above that. */
  lemma MoverStaysSafe(s: State, w: WriterId, s': State, q: Query)
    requires TableInv(s) && Moves(s, w, s') && Follows(s, w, s') && s.maxTs >= q.startTs
    ensures SafeBehind(s, w, q) ==> SafeBehind(s', w, q)
    ensures SafeLater(s, w, q) ==> SafeLater(s', w, q)
    ensures !HoldsGuard(s'.writers[w].phase) ==> SafeLater(s', w, q)
    ensures SafeBehind(s, w, q) && LockIn(s'.writers[w].phase).Some? ==>
              || LockIn(s'.writers[w].phase) == LockIn(s.writers[w].phase)
              || LockIn(s'.writers[w].phase).value.minCommitTs > q.startTs
  {
  }

  lemma OtherStaysSafe(s: State, w: WriterId, s': State, x: WriterId, q: Query)
    requires Moves(s, w, s') && IsWriter(s, x) && x != w
    ensures SafeBehind(s, x, q) ==> SafeBehind(s', x, q)
    ensures SafeLater(s, x, q) ==> SafeLater(s', x, q)
  {
  }

  /** What a writer's move leaves alone. */
  lemma MoveFrame(s: State, w: WriterId, s': State)
    requires Moves(s, w, s')
    ensures s'.maxTs == s.maxTs && s.nextId <= s'.nextId && s'.readers == s.readers
    ensures IsWriter(s, w) && s'.writers.Keys == s.writers.Keys
    ensures forall x :: x in s.writers ==> s'.writers[x].w == s.writers[x].w
    ensures forall x :: x in s.writers && x != w ==> s'.writers[x] == s.writers[x]
  {
  }

  /** A writer apart from the handle after a move was so before, or has just left it. */
  lemma ApartBefore(s: State, w: WriterId, s': State, x: WriterId, handle: nat)
    requires TableInv(s) && Moves(s, w, s') && IsWriter(s, x) && IsWriter(s', x) && handle < s.nextId
    requires Apart(s', x, s.writers[x].w.key, handle)
    ensures Apart(s, x, s.writers[x].w.key, handle) || (x == w && !HoldsGuard(s'.writers[w].phase))
  {
  }

  lemma MoveKeepsReader(s: State, w: WriterId, s': State, r: Reader)
    requires TableInv(s) && Moves(s, w, s') && Follows(s, w, s') && ReaderInv(s, r)
    ensures ReaderInv(s', r)
  {
    hide TableInv, Moves, Follows, SafeBehind, SafeLater, Apart, Behind, InRanges;
    MoveFrame(s, w, s');
    if Guarded(r.q) && !r.phase.Start? && !r.phase.Failed? {
      MoverStaysSafe(s, w, s', r.q);
      forall x | x in s.writers && x != w
        ensures SafeBehind(s, x, r.q) ==> SafeBehind(s', x, r.q)
        ensures SafeLater(s, x, r.q) ==> SafeLater(s', x, r.q)
      {
        OtherStaysSafe(s, w, s', x, r.q);
      }
      if r.phase.At? {
        forall x | x in s.writers && s.writers[x].w.key == r.phase.key && Apart(s', x, r.phase.key, r.phase.handle)
          ensures SafeLater(s', x, r.q)
        {
          ApartBefore(s, w, s', x, r.phase.handle);
        }
      }
      if r.phase.Snapped? {
        BehindSnapshot(r, s.writers[w].w.key);
      }
    } else if r.phase.Start? || r.phase.Failed? {
      NotBehindStart(r);
    }
  }

  lemma BehindSnapshot(r: Reader, k: Key)
    requires r.phase.Snapped?
    ensures Behind(r, k) <==> InRanges(r.q, |r.q.ranges|, k)
  {
  }

  lemma NotBehindStart(r: Reader)
    requires r.phase.Start? || r.phase.Failed?
    ensures forall k :: !Behind(r, k)
  {
  }

  lemma MoveKeeps(s: State, w: WriterId, s': State)
    requires Inv(s) && Moves(s, w, s') && Follows(s, w, s')
    ensures Inv(s')
  {
    hide TableInv, ReaderInv, Moves, Follows;
    MoveKeepsTable(s, w, s');
    MoveFrame(s, w, s');
    forall r | r in s'.readers
      ensures ReaderInv(s', s'.readers[r])
    {
      MoveKeepsReader(s, w, s', s.readers[r]);
    }
  }

  // Every step of a writer is such a move.

  lemma AcquireMoves(s: State, w: WriterId)
    requires TableInv(s) && Enabled(s, Acquire(w))
    ensures Moves(s, w, Apply(s, Acquire(w))) && Follows(s, w, Apply(s, Acquire(w)))
  {
  }

  lemma EnterMoves(s: State, w: WriterId)
    requires TableInv(s) && Enabled(s, Enter(w))
    ensures Moves(s, w, Apply(s, Enter(w))) && Follows(s, w, Apply(s, Enter(w)))
  {
  }

  lemma ReadMaxTsMoves(s: State, w: WriterId)
    requires TableInv(s) && Enabled(s, ReadMaxTs(w))
    ensures Moves(s, w, Apply(s, ReadMaxTs(w))) && Follows(s, w, Apply(s, ReadMaxTs(w)))
  {
  }

  lemma PublishMoves(s: State, w: WriterId)
    requires TableInv(s) && Enabled(s, Publish(w))
    ensures Moves(s, w, Apply(s, Publish(w))) && Follows(s, w, Apply(s, Publish(w)))
  {
  }

  lemma PersistMoves(s: State, w: WriterId)
    requires TableInv(s) && Enabled(s, Persist(w))
    ensures Moves(s, w, Apply(s, Persist(w))) && Follows(s, w, Apply(s, Persist(w)))
  {
  }

  lemma DropGuardMoves(s: State, w: WriterId)
    requires TableInv(s) && Enabled(s, DropGuard(w))
    ensures Moves(s, w, Apply(s, DropGuard(w))) && Follows(s, w, Apply(s, DropGuard(w)))
  {
  }

  lemma WriterStepKeeps(s: State, w: WriterId, t: Step)
    requires Inv(s) && Enabled(s, t)
    requires t in {Acquire(w), Enter(w), ReadMaxTs(w), Publish(w), Persist(w), DropGuard(w)}
    ensures Inv(Apply(s, t))
  {
    hide Moves, Follows, ReaderInv, TableInv, Enabled, Apply;
    match t {
      case Acquire(_) => AcquireMoves(s, w);
      case Enter(_) => EnterMoves(s, w);
      case ReadMaxTs(_) => ReadMaxTsMoves(s, w);
      case Publish(_) => PublishMoves(s, w);
      case Persist(_) => PersistMoves(s, w);
      case _ => DropGuardMoves(s, w);
    }
    MoveKeeps(s, w, Apply(s, t));
  }

  lemma ForgetKeepsReader(s: State, k: Key, r: Reader)
    requires k in s.table && s.table[k].holder.None? && TableInv(s) && ReaderInv(s, r)
    ensures ReaderInv(s.(table := s.table - {k}), r)
  {
  }

  lemma ForgetKeeps(s: State, k: Key)
    requires Inv(s) && k in s.table && s.table[k].holder.None?
    ensures Inv(s.(table := s.table - {k}))
  {
    hide ReaderInv;
    forall r | r in s.readers
      ensures ReaderInv(s.(table := s.table - {k}), s.readers[r])
    {
      ForgetKeepsReader(s, k, s.readers[r]);
    }
  }

  lemma SameForReader(s: State, s': State, r: Reader)
    requires s' == s.(readers := s'.readers) && ReaderInv(s, r)
    ensures ReaderInv(s', r)
  {
  }

  lemma SameTable(s: State, s': State)
    requires s' == s.(readers := s'.readers) && TableInv(s)
    ensures TableInv(s')
  {
  }

  /** A reader's own steps change nothing the other readers depend on. */
  lemma ReaderMoves(s: State, r: ReaderId, p: ReaderPhase)
    requires Inv(s) && IsReader(s, r) && ReaderInv(s, s.readers[r].(phase := p))
    ensures Inv(SetReader(s, r, p))
  {
    hide TableInv, ReaderInv;
    var s' := SetReader(s, r, p);
    SameTable(s, s');
    forall q | q in s'.readers
      ensures ReaderInv(s', s'.readers[q])
    {
      SameForReader(s, s', s'.readers[q]);
    }
  }

  lemma BeginKeeps(s: State, r: ReaderId)
    requires Inv(s) && Enabled(s, Begin(r))
    ensures Inv(Apply(s, Begin(r)))
  {
    var q := s.readers[r].q;
    var s1 := s.(maxTs := if q.stale then s.maxTs else UpdateMaxTs(s.maxTs, q.startTs));
    if !q.stale && q.startTs < MAX_TS {
      RaiseKeeps(s, q.startTs);
    }
    var p := if NeedCheckLocks(q.iso) then Scan(0, 0) else Passed;
    assert ReaderInv(s1, Reader(q, p));
    ReaderMoves(s1, r, p);
  }

  /** Keys without a handle are behind the reader as soon as it moves over them: no writer of
      such a key holds anything. */
  lemma UnheldIsSafe(s: State, w: WriterId, q: Query)
    requires TableInv(s) && IsWriter(s, w)
    requires s.writers[w].w.key !in s.table || s.table[s.writers[w].w.key].holder != Some(w)
    ensures SafeBehind(s, w, q) && SafeLater(s, w, q)
  {
  }

  /** A reader moving from one position to the next stays safe if nothing unsafe comes behind. */
  lemma ReaderAdvances(s: State, r: ReaderId, p: ReaderPhase)
    requires Inv(s) && IsReader(s, r) && !s.readers[r].phase.Start? && !s.readers[r].phase.Failed?
    requires p.Scan? || p.At? || p.Passed?
    requires p.At? ==> p.range < |s.readers[r].q.ranges| && p.key in s.table && p.handle == s.table[p.key].id
    requires Guarded(s.readers[r].q) ==>
               forall w :: w in s.writers && Behind(Reader(s.readers[r].q, p), s.writers[w].w.key) ==>
                 SafeBehind(s, w, s.readers[r].q)
    ensures Inv(SetReader(s, r, p))
  {
    var q := s.readers[r].q;
    assert ReaderInv(s, s.readers[r]);
    if p.At? {
      forall w | w in s.writers && s.writers[w].w.key == p.key && s.table[p.key].holder != Some(w)
        ensures SafeLater(s, w, q)
      {
        UnheldIsSafe(s, w, q);
      }
    }
    assert ReaderInv(s, Reader(q, p));
    ReaderMoves(s, r, p);
  }

  /** Moving the cursor over keys without a handle. */
  lemma SkippedIsSafe(s: State, r: Reader, w: WriterId)
    requires TableInv(s) && ReaderInv(s, r) && Guarded(r.q) && IsWriter(s, w) && r.phase.Scan?
    requires || InRanges(r.q, r.phase.range, s.writers[w].w.key)
             || (&& r.phase.range < |r.q.ranges| && InRange(s.writers[w].w.key, r.q.ranges[r.phase.range])
                 && !Ahead(s, r.q, r.phase.range, r.phase.cursor, s.writers[w].w.key))
    ensures SafeBehind(s, w, r.q)
  {
    if !Behind(r, s.writers[w].w.key) {
      UnheldIsSafe(s, w, r.q);
    }
  }

  lemma VisitKeeps(s: State, r: ReaderId, k: Key)
    requires Inv(s) && Enabled(s, Visit(r, k))
    ensures Inv(SetReader(s, r, At(s.readers[r].phase.range, k, s.table[k].id)))
  {
    hide ReaderInv, TableInv, SafeBehind;
    var Reader(q, p) := s.readers[r];
    var next := At(p.range, k, s.table[k].id);
    forall w | w in s.writers && Behind(Reader(q, next), s.writers[w].w.key) && Guarded(q)
      ensures SafeBehind(s, w, q)
    {
      SkippedIsSafe(s, s.readers[r], w);
    }
    ReaderAdvances(s, r, next);
  }

  lemma EndRangeKeeps(s: State, r: ReaderId)
    requires Inv(s) && Enabled(s, EndRange(r))
    ensures Inv(SetReader(s, r, Scan(s.readers[r].phase.range + 1, 0)))
  {
    hide ReaderInv, TableInv, SafeBehind;
    var Reader(q, p) := s.readers[r];
    var next := Scan(p.range + 1, 0);
    forall w | w in s.writers && Behind(Reader(q, next), s.writers[w].w.key) && Guarded(q)
      ensures SafeBehind(s, w, q)
    {
      SkippedIsSafe(s, s.readers[r], w);
    }
    ReaderAdvances(s, r, next);
  }

  /** Looking at a handle whose mutex is free: its holder, if any, has not yet read `max_ts`
      or has published a lock that the reader just checked. */
  lemma LookedAtIsSafe(s: State, r: ReaderId, w: WriterId)
    requires TableInv(s) && Enabled(s, Look(r)) && ReaderInv(s, s.readers[r]) && !SeesConflict(s, r)
    requires Guarded(s.readers[r].q) && IsWriter(s, w)
    requires Behind(s.readers[r], s.writers[w].w.key) || s.writers[w].w.key == s.readers[r].phase.key
    ensures SafeBehind(s, w, s.readers[r].q)
  {
    var Reader(q, p) := s.readers[r];
    var k := s.writers[w].w.key;
    if !Behind(s.readers[r], k) {
      if k in s.table && s.table[k].id == p.handle && s.table[k].holder == Some(w) {
        assert MutexFree(s, k);
      } else {
        assert SafeLater(s, w, q);
      }
    }
  }

  lemma LookKeeps(s: State, r: ReaderId)
    requires Inv(s) && Enabled(s, Look(r)) && !SeesConflict(s, r)
    ensures Inv(SetReader(s, r, Scan(s.readers[r].phase.range, s.readers[r].phase.key + 1)))
  {
    hide ReaderInv, TableInv, SafeBehind, SeesConflict;
    var Reader(q, p) := s.readers[r];
    var next := Scan(p.range, p.key + 1);
    forall w | w in s.writers && Behind(Reader(q, next), s.writers[w].w.key) && Guarded(q)
      ensures SafeBehind(s, w, q)
    {
      LookedAtIsSafe(s, r, w);
    }
    ReaderAdvances(s, r, next);
  }

  lemma PassKeeps(s: State, r: ReaderId)
    requires Inv(s) && Enabled(s, Pass(r))
    ensures Inv(SetReader(s, r, Passed))
  {
    var q := s.readers[r].q;
    forall w | w in s.writers && Behind(Reader(q, Passed), s.writers[w].w.key) && Guarded(q)
      ensures SafeBehind(s, w, q)
    {
      assert Behind(s.readers[r], s.writers[w].w.key);
    }
    ReaderAdvances(s, r, Passed);
  }

  lemma SnapKeeps(s: State, r: ReaderId)
    requires Inv(s) && Enabled(s, Snap(r))
    ensures Inv(SetReader(s, r, Snapped(s.persisted)))
  {
    var was := s.readers[r];
    assert ReaderInv(s, was);
    assert ReaderInv(s, Reader(was.q, Snapped(s.persisted)));
    ReaderMoves(s, r, Snapped(s.persisted));
  }

  lemma FailKeeps(s: State, r: ReaderId)
    requires Inv(s) && IsReader(s, r)
    ensures Inv(SetReader(s, r, Failed))
  {
    assert ReaderInv(s, Reader(s.readers[r].q, Failed));
    ReaderMoves(s, r, Failed);
  }

  /** Every step of every party keeps the invariant. */
  lemma {:induction false} StepKeepsInv(s: State, t: Step)
    requires Inv(s) && Enabled(s, t)
    ensures Inv(Apply(s, t))
  {
    hide Inv;
    match t
    case Raise(ts) => if ts < MAX_TS { RaiseKeeps(s, ts); }
    case Acquire(w) => WriterStepKeeps(s, w, t);
    case Enter(w) => WriterStepKeeps(s, w, t);
    case ReadMaxTs(w) => WriterStepKeeps(s, w, t);
    case Publish(w) => WriterStepKeeps(s, w, t);
    case Persist(w) => WriterStepKeeps(s, w, t);
    case DropGuard(w) => WriterStepKeeps(s, w, t);
    case Forget(k) => ForgetKeeps(s, k);
    case Begin(r) => BeginKeeps(s, r);
    case Refuse(r) => FailKeeps(s, r);
    case Visit(r, k) => VisitKeeps(s, r, k);
    case Look(r) => if SeesConflict(s, r) { FailKeeps(s, r); } else { LookKeeps(s, r); }
    case EndRange(r) => EndRangeKeeps(s, r);
    case Pass(r) => PassKeeps(s, r);
    case Snap(r) => SnapKeeps(s, r);
  }

  lemma {:induction false} RunKeepsInv(s: State, steps: seq<Step>, s': State)
    requires Inv(s) && Runs(s, steps, s')
    ensures Inv(s')
    decreases |steps|
  {
    if steps != [] {
      StepKeepsInv(s, steps[0]);
      RunKeepsInv(Apply(s, steps[0]), steps[1..], s');
    }
  }

  lemma InitIsInv(s: State)
    requires Init(s)
    ensures Inv(s)
  {
  }

  // ----- the theorems

  /** No late lock: in every run, a lock published on a key that a guarded reader has put
      behind it commits above that reader's timestamp. */
  lemma {:induction false} NoLateLock(s: State, steps: seq<Step>, s': State, w: WriterId, r: ReaderId)
    requires Init(s) && Runs(s, steps, s')
    requires Enabled(s', Publish(w)) && IsReader(s', r)
    requires Guarded(s'.readers[r].q) && Behind(s'.readers[r], s'.writers[w].w.key)
    ensures LockIn(Apply(s', Publish(w)).writers[w].phase).Some? ==>
              LockIn(Apply(s', Publish(w)).writers[w].phase).value.minCommitTs > s'.readers[r].q.startTs
  {
    InitIsInv(s);
    RunKeepsInv(s, steps, s');
    assert SafeBehind(s', w, s'.readers[r].q);
  }

  /** The smallest commit timestamp above everything the prewrite must stay above. */
  lemma MinCommitTsIsLeast(p: Prewrite, maxTs: Ts, t: Ts)
    ensures var m := MinCommitTs(p, maxTs);
            m >= p.floor && m > maxTs && m > p.startTs && m > p.forUpdateTs
    ensures t >= p.floor && t > maxTs && t > p.startTs && t > p.forUpdateTs ==> MinCommitTs(p, maxTs) <= t
  {
  }

  /** The lock is the prewrite's own: its kind, primary, start and mode, above its lower bounds and
      within its upper bound, if it has one. */
  predicate OwnLock(p: Prewrite, l: Lock) {
    && l.kind == p.kind && l.primary == p.primary && l.ts == p.startTs
    && l.asyncCommit == p.asyncCommit && l.onePc == !p.asyncCommit
    && l.minCommitTs >= p.floor && l.minCommitTs > p.startTs && l.minCommitTs > p.forUpdateTs
    && (p.maxCommitTs == 0 || l.minCommitTs <= p.maxCommitTs)
  }

  ghost predicate LocksAreOwn(s: State) {
    forall w :: w in s.writers && LockIn(s.writers[w].phase).Some? ==>
      OwnLock(s.writers[w].w, LockIn(s.writers[w].phase).value)
  }

  lemma StepKeepsOwn(s: State, t: Step)
    requires LocksAreOwn(s) && Enabled(s, t)
    ensures LocksAreOwn(Apply(s, t))
  {
  }

  lemma {:induction false} RunKeepsOwn(s: State, steps: seq<Step>, s': State)
    requires LocksAreOwn(s) && Runs(s, steps, s')
    ensures LocksAreOwn(s')
    decreases |steps|
  {
    hide LocksAreOwn, Enabled, Apply;
    if steps != [] {
      StepKeepsOwn(s, steps[0]);
      RunKeepsOwn(Apply(s, steps[0]), steps[1..], s');
    }
  }

  /** In every run, every lock a writer publishes is its own, and whatever a reader finds in the
      lock table is the lock of a writer of that key. */
  lemma {:induction false} PublishedLocksAreOwn(s: State, steps: seq<Step>, s': State)
    requires Init(s) && Runs(s, steps, s')
    ensures forall w :: w in s'.writers && LockIn(s'.writers[w].phase).Some? ==>
              OwnLock(s'.writers[w].w, LockIn(s'.writers[w].phase).value)
    ensures forall k :: k in s'.table && s'.table[k].lock.Some? ==>
              exists w :: w in s'.writers && s'.writers[w].w.key == k && OwnLock(s'.writers[w].w, s'.table[k].lock.value)
  {
    hide Runs, ReaderInv, OwnLock;
    InitIsInv(s);
    RunKeepsInv(s, steps, s');
    RunKeepsOwn(s, steps, s');
    forall k | k in s'.table && s'.table[k].lock.Some?
      ensures exists w :: w in s'.writers && s'.writers[w].w.key == k && OwnLock(s'.writers[w].w, s'.table[k].lock.value)
    {
      var w := s'.table[k].holder.value;
      assert OwnLock(s'.writers[w].w, LockIn(s'.writers[w].phase).value);
    }
  }

  /** A prewrite falls back to ordinary two-phase commit exactly if its commit timestamp would
      exceed the limit it was given, and then leaves nothing in memory. */
  lemma FallsBackIff(s: State, w: WriterId)
    requires Enabled(s, Publish(w))
    ensures var s', p := Apply(s, Publish(w)), s.writers[w].w;
            && (s'.writers[w].phase.FellBack? <==>
                  p.maxCommitTs != 0 && MinCommitTs(p, s.writers[w].phase.maxTs) > p.maxCommitTs)
            && (s'.writers[w].phase.FellBack? ==> s'.table[p.key].lock.None? && s'.table[p.key].holder.None?)
            && (!s'.writers[w].phase.FellBack? ==> s'.table[p.key].lock == LockIn(s'.writers[w].phase))
  {
  }

  // ----- the reader's walk: no false alarm and no getting stuck

  /** A key of the range that has a handle and is not yet behind the cursor. */
  predicate InTheWay(s: State, range: Range, cursor: Key, k: Key) {
    && k in s.table && cursor <= k
    && (range.lower.None? || range.lower.value <= k) && (range.upper.None? || k < range.upper.value)
  }

  /** The walk goes through the handles of a range in key order, skipping none, and leaves the range
      when none is left. */
  lemma WalkIsOrdered(s: State, r: ReaderId, k: Key)
    requires IsReader(s, r) && s.readers[r].phase.Scan?
    ensures var Reader(q, p) := s.readers[r];
            && (Enabled(s, Visit(r, k)) <==>
                  && p.range < |q.ranges| && InTheWay(s, q.ranges[p.range], p.cursor, k)
                  && forall j :: InTheWay(s, q.ranges[p.range], p.cursor, j) ==> k <= j)
            && (Enabled(s, EndRange(r)) <==>
                  p.range < |q.ranges| && forall j :: !InTheWay(s, q.ranges[p.range], p.cursor, j))
            && (Enabled(s, Pass(r)) <==> p.range >= |q.ranges|)
  {
    var Reader(q, p) := s.readers[r];
    assert p.range < |q.ranges| ==> forall j :: Ahead(s, q, p.range, p.cursor, j) <==> InTheWay(s, q.ranges[p.range], p.cursor, j);
  }

  /** A read begins, and can be refused a timestamp, only once and only at its start. */
  lemma BeginsOnce(s: State, r: ReaderId)
    ensures Enabled(s, Begin(r)) <==> IsReader(s, r) && s.readers[r].phase.Start?
    ensures Enabled(s, Refuse(r)) <==> IsReader(s, r) && s.readers[r].phase.Start? && !s.readers[r].q.stale
  {
  }

  /** The least key in the way, if there is any. */
  lemma {:induction false} LeastInTheWay(s: State, range: Range, cursor: Key, bound: Key) returns (k: Key)
    requires exists j: Key :: InTheWay(s, range, cursor, j) && j <= bound
    ensures InTheWay(s, range, cursor, k) && forall j :: InTheWay(s, range, cursor, j) ==> k <= j
    decreases bound
  {
    if exists j: Key :: InTheWay(s, range, cursor, j) && j < bound {
      k := LeastInTheWay(s, range, cursor, bound - 1);
    } else {
      k :| InTheWay(s, range, cursor, k) && k <= bound;
      assert k == bound;
    }
  }

  predicate OfReader(t: Step, r: ReaderId) {
    (t.Begin? || t.Refuse? || t.Visit? || t.Look? || t.EndRange? || t.Pass? || t.Snap?) && t.r == r
  }

  /** A reader that is neither refused nor done can go on, unless the very handle it is looking at
      is held by a writer inside its critical section. */
  lemma {:induction false} ReaderGoesOn(s: State, r: ReaderId)
    requires IsReader(s, r) && !s.readers[r].phase.Failed? && !s.readers[r].phase.Snapped?
    ensures || (exists t :: OfReader(t, r) && Enabled(s, t))
            || (var p := s.readers[r].phase;
                && p.At? && p.key in s.table && s.table[p.key].id == p.handle && s.table[p.key].holder.Some?
                && var w := s.table[p.key].holder.value; w in s.writers && InMutex(s.writers[w].phase))
  {
    var Reader(q, p) := s.readers[r];
    match p
    case Start => assert OfReader(Begin(r), r) && Enabled(s, Begin(r));
    case Passed => assert OfReader(Snap(r), r) && Enabled(s, Snap(r));
    case At(_, _, _) =>
      if Enabled(s, Look(r)) {
        assert OfReader(Look(r), r);
      }
    case Scan(i, c) =>
      WalkIsOrdered(s, r, c);
      if i >= |q.ranges| {
        assert OfReader(Pass(r), r);
      } else if exists j :: InTheWay(s, q.ranges[i], c, j) {
        var j :| InTheWay(s, q.ranges[i], c, j);
        var k := LeastInTheWay(s, q.ranges[i], c, j);
        WalkIsOrdered(s, r, k);
        assert OfReader(Visit(r, k), r);
      } else {
        assert OfReader(EndRange(r), r);
      }
    case _ =>
  }

  /** And a writer inside its critical section can leave it. */
  lemma WriterGoesOn(s: State, w: WriterId)
    requires IsWriter(s, w) && InMutex(s.writers[w].phase) && s.writers[w].w.key in s.table
    ensures Enabled(s, DropGuard(w)) && !InMutex(Apply(s, DropGuard(w)).writers[w].phase)
    ensures s.writers[w].phase.Inside? ==> Enabled(s, ReadMaxTs(w))
    ensures s.writers[w].phase.Read? && MinCommitTs(s.writers[w].w, s.writers[w].phase.maxTs) <= MAX_TS ==>
              Enabled(s, Publish(w)) && !InMutex(Apply(s, Publish(w)).writers[w].phase)
  {
  }

  /** Readers look only at keys of their ranges. */
  ghost predicate WalkInv(s: State) {
    forall r :: r in s.readers && s.readers[r].phase.At? ==>
      var Reader(q, p) := s.readers[r];
      p.range < |q.ranges| && InRange(p.key, q.ranges[p.range])
  }

  lemma {:induction false} RunKeepsWalk(s: State, steps: seq<Step>, s': State)
    requires WalkInv(s) && Runs(s, steps, s')
    ensures WalkInv(s')
    decreases |steps|
  {
    if steps != [] {
      StepKeepsWalk(s, steps[0]);
      RunKeepsWalk(Apply(s, steps[0]), steps[1..], s');
    }
  }

  lemma StepKeepsWalk(s: State, t: Step)
    requires WalkInv(s) && Enabled(s, t)
    ensures WalkInv(Apply(s, t))
  {
  }

  /** No false alarm: in every run, a read is stopped only by being refused its timestamp at the
      start, or by a lock that has to stop it, found in the handle it looks at, on a key of its
      ranges. */
  lemma {:induction false} StoppedForAReason(s: State, steps: seq<Step>, s': State, t: Step, r: ReaderId)
    requires Init(s) && Runs(s, steps, s') && Enabled(s', t) && IsReader(s', r) && !s'.readers[r].phase.Failed?
    requires IsReader(Apply(s', t), r) && Apply(s', t).readers[r].phase.Failed?
    ensures var Reader(q, p) := s'.readers[r];
            || (p.Start? && !q.stale)
            || (&& p.At? && p.range < |q.ranges| && InRange(p.key, q.ranges[p.range])
                && p.key in s'.table && s'.table[p.key].id == p.handle && s'.table[p.key].lock.Some?
                && Stops(s'.table[p.key].lock.value, p.key, q))
  {
    hide Runs, Stops;
    RunKeepsWalk(s, steps, s');
    var Reader(q, p) := s'.readers[r];
    if p.At? && p.key in s'.table && s'.table[p.key].lock.Some? {
      BlocksIffStops(s'.table[p.key].lock.value, p.key, q);
    }
  }

  /** Reader `r` has its snapshot, and writer `w` published a lock in its ranges that matters
      to the read and is not in that snapshot. */
  ghost predicate Misses(s: State, w: WriterId, r: ReaderId) {
    && IsReader(s, r) && s.readers[r].phase.Snapped? && IsWriter(s, w) && LockIn(s.writers[w].phase).Some?
    && InRanges(s.readers[r].q, |s.readers[r].q.ranges|, s.writers[w].w.key)
    && !Harmless(LockIn(s.writers[w].phase).value, s.writers[w].w.key, s.readers[r].q)
    && w !in s.readers[r].phase.snapshot
  }

  /** No missed lock: in every run, once a guarded reader has taken its snapshot, every lock
      any writer ever published in its ranges either cannot concern the read or was written to
      the store before that snapshot. */
  lemma {:induction false} SnapshotMissesNothing(s: State, steps: seq<Step>, s': State, w: WriterId, r: ReaderId)
    requires Init(s) && Runs(s, steps, s')
    requires IsReader(s', r) && Guarded(s'.readers[r].q)
    ensures !Misses(s', w, r)
  {
    InitIsInv(s);
    RunKeepsInv(s, steps, s');
  }

  // ----- exactly which reads are protected

  /** No run whatsoever makes a read with this query miss a lock. */
  ghost predicate AlwaysSafe(q: Query) {
    forall s, steps, s', w, r :: Init(s) && Runs(s, steps, s') && IsReader(s', r) && s'.readers[r].q == q ==>
      !Misses(s', w, r)
  }

  /** The query looks at locks but does not raise `max_ts` (a stale read, or a read at the
      maximum timestamp), and some lock it is not told to bypass could matter to it. */
  ghost predicate Exposed(q: Query) {
    && NeedCheckLocks(q.iso) && (q.stale || q.startTs >= MAX_TS)
    && (exists k :: InRanges(q, |q.ranges|, k))
    && (exists t: Ts :: t < q.startTs && t < MAX_TS && t !in q.bypass)
  }

  lemma UnexposedIsHarmless(lock: Lock, k: Key, q: Query)
    requires !Guarded(q) && !Exposed(q) && InRanges(q, |q.ranges|, k)
    requires lock.ts < lock.minCommitTs <= MAX_TS
    ensures Harmless(lock, k, q)
  {
  }

  lemma {:induction false} RunsOn(s: State, a: seq<Step>, s1: State, b: seq<Step>, s2: State)
    requires Runs(s, a, s1) && Runs(s1, b, s2)
    ensures Runs(s, a + b, s2)
    decreases |a|
  {
    if a == [] {
      assert a + b == b;
    } else {
      RunsOn(Apply(s, a[0]), a[1..], s1, b, s2);
      assert (a + b)[0] == a[0] && (a + b)[1..] == a[1..] + b;
    }
  }

  /** With an empty table a reader walks through all its ranges. */
  lemma {:induction false} EmptyWalk(s: State, r: ReaderId, steps: seq<Step>)
    requires s.table == map[] && IsReader(s, r)
    requires s.readers[r].phase.Scan? && s.readers[r].phase.cursor == 0
    requires s.readers[r].phase.range + |steps| == |s.readers[r].q.ranges|
    requires forall i :: 0 <= i < |steps| ==> steps[i] == EndRange(r)
    ensures Runs(s, steps, SetReader(s, r, Scan(|s.readers[r].q.ranges|, 0)))
    decreases |steps|
  {
    var n := |s.readers[r].q.ranges|;
    if steps == [] {
      assert s.readers[r := s.readers[r].(phase := Scan(n, 0))] == s.readers;
    } else {
      var s1 := Apply(s, EndRange(r));
      EmptyWalk(s1, r, steps[1..]);
      assert SetReader(s1, r, Scan(n, 0)).readers == SetReader(s, r, Scan(n, 0)).readers;
    }
  }

  /** The run that defeats an exposed query: the read passes over an empty table and takes its
      snapshot, and only then a transaction started at `t` locks a key of its ranges. */
  ghost function Victim(q: Query, k: Key, t: Ts): State {
    State(0, map[], 0, map[0 := Writer(Prewrite(k, PutLock, k, t, 0, 0, 0, true), Idle)],
          map[0 := Reader(q, Start)], {})
  }

  lemma RunsFirst(s: State, t: Step, s1: State, rest: seq<Step>, s': State)
    requires Enabled(s, t) && s1 == Apply(s, t) && Runs(s1, rest, s')
    ensures Runs(s, [t] + rest, s')
  {
    assert ([t] + rest)[1..] == rest;
  }

  /** A reader at the end of its ranges passes and takes its snapshot. */
  lemma PassAndSnap(s: State, r: ReaderId)
    requires IsReader(s, r) && s.readers[r].phase.Scan? && s.readers[r].phase.range >= |s.readers[r].q.ranges|
    ensures Runs(s, [Pass(r), Snap(r)], SetReader(s, r, Snapped(s.persisted)))
  {
    var s1 := SetReader(s, r, Passed);
    var s2 := SetReader(s1, r, Snapped(s.persisted));
    Two(s, Pass(r), s1, Snap(r), s2);
    assert s2.readers == SetReader(s, r, Snapped(s.persisted)).readers;
  }

  lemma ReadFirst(q: Query, k: Key, t: Ts) returns (steps: seq<Step>)
    requires NeedCheckLocks(q.iso) && (q.stale || q.startTs >= MAX_TS)
    ensures Runs(Victim(q, k, t), steps, SetReader(Victim(q, k, t), 0, Snapped({})))
  {
    var s := Victim(q, k, t);
    var s1 := SetReader(s, 0, Scan(0, 0));
    assert Enabled(s, Begin(0)) && Apply(s, Begin(0)) == s1;
    hide Runs, Enabled, Apply;
    var walk := seq(|q.ranges|, i => EndRange(0));
    EmptyWalk(s1, 0, walk);
    var s2 := SetReader(s1, 0, Scan(|q.ranges|, 0));
    PassAndSnap(s2, 0);
    var s3 := SetReader(s2, 0, Snapped({}));
    RunsOn(s1, walk, s2, [Pass(0), Snap(0)], s3);
    RunsFirst(s, Begin(0), s1, walk + [Pass(0), Snap(0)], s3);
    steps := [Begin(0)] + (walk + [Pass(0), Snap(0)]);
    assert s3.readers == SetReader(s, 0, Snapped({})).readers;
  }

  lemma Two(s: State, a: Step, s1: State, b: Step, s2: State)
    requires Enabled(s, a) && Apply(s, a) == s1 && Enabled(s1, b) && Apply(s1, b) == s2
    ensures Runs(s, [a, b], s2)
  {
    assert [a, b][1..] == [b] && [b][1..] == [];
    assert Runs(s1, [b], s2);
  }

  lemma WriteThen(s: State, k: Key, t: Ts) returns (s': State)
    requires s.maxTs == 0 && s.table == map[] && 0 in s.writers && t < MAX_TS
    requires s.writers[0] == Writer(Prewrite(k, PutLock, k, t, 0, 0, 0, true), Idle)
    ensures Runs(s, [Acquire(0), Enter(0), ReadMaxTs(0), Publish(0)], s')
    ensures s'.readers == s.readers && 0 in s'.writers
    ensures s'.writers[0] == Writer(s.writers[0].w, Published(Lock(PutLock, k, t, t + 1, true, false)))
  {
    var s1 := Apply(s, Acquire(0));
    var s2 := Apply(s1, Enter(0));
    Two(s, Acquire(0), s1, Enter(0), s2);
    var s3 := Apply(s2, ReadMaxTs(0));
    s' := Apply(s3, Publish(0));
    Two(s2, ReadMaxTs(0), s3, Publish(0), s');
    RunsOn(s, [Acquire(0), Enter(0)], s2, [ReadMaxTs(0), Publish(0)], s');
    assert [Acquire(0), Enter(0)] + [ReadMaxTs(0), Publish(0)] == [Acquire(0), Enter(0), ReadMaxTs(0), Publish(0)];
  }

  /** Every exposed query has a run in which the read misses a lock that blocks it. */
  lemma {:induction false} ExposedCanMiss(q: Query)
    requires Exposed(q)
    ensures !AlwaysSafe(q)
  {
    hide Runs, Enabled, Apply;
    var k :| InRanges(q, |q.ranges|, k);
    var t: Ts :| t < q.startTs && t < MAX_TS && t !in q.bypass;
    var s := Victim(q, k, t);
    var read := ReadFirst(q, k, t);
    var s1 := SetReader(s, 0, Snapped({}));
    var s2 := WriteThen(s1, k, t);
    RunsOn(s, read, s1, [Acquire(0), Enter(0), ReadMaxTs(0), Publish(0)], s2);
    assert Misses(s2, 0, 0);
  }

  /** A read with this query is safe in every run if and only if it is not exposed. */
  lemma {:induction false} SafeIffNotExposed(q: Query)
    ensures AlwaysSafe(q) <==> !Exposed(q)
  {
    if Exposed(q) {
      ExposedCanMiss(q);
    } else {
      forall s, steps, s', w, r | Init(s) && Runs(s, steps, s') && IsReader(s', r) && s'.readers[r].q == q
        ensures !Misses(s', w, r)
      {
        if Guarded(q) {
          SnapshotMissesNothing(s, steps, s', w, r);
        } else if IsWriter(s', w) && LockIn(s'.writers[w].phase).Some? {
          InitIsInv(s);
          RunKeepsInv(s, steps, s');
          if InRanges(q, |q.ranges|, s'.writers[w].w.key) {
            UnexposedIsHarmless(LockIn(s'.writers[w].phase).value, s'.writers[w].w.key, q);
          }
        }
      }
    }
  }
}
