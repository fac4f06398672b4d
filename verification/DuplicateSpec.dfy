/** What duplicate detection computes over one range of the MVCC write column:
    the cursor walk as a function of positions, and the batches it is cut into.

    A slot is what the cursor shows at one position.  `Broken` stands for a position
    where asking the iterator for validity or splitting its key fails; a record whose
    `write` is `None` is one whose value does not parse.  Keys are represented by their
    rank in encoded byte order.
 */
module DuplicateSpec {
  import opened Wrappers

  type Key = nat
  type Ts = nat
  type Value = seq<bv8>

  datatype WriteType = Put | Delete | Lock | Rollback
  datatype Write = Write(kind: WriteType, startTs: Ts, shortValue: Option<Value>, gcFence: Option<Ts>)
  datatype Slot = Broken | Record(key: Key, commitTs: Ts, write: Option<Write>)
  datatype KvPair = KvPair(key: Key, commitTs: Ts, value: Option<Value>)
  datatype Error = Iteration | BadWrite | UnexpectedWrite | BadKey | MissingDefault

  /** One detection request: the slots in range, the default column, the keys whose
      encoding does not decode, the importer's watermark and the value mode. */
  datatype Job = Job(slots: seq<Slot>, defaults: map<(Key, Ts), Value>, undecodable: set<Key>,
                     minTs: Ts, keyOnly: bool)

  /** The groups of pairs in scan order (one per import key) and what stopped the scan. */
  datatype Outcome = Outcome(groups: seq<seq<KvPair>>, error: Option<Error>)

  datatype Response = Pairs(pairs: seq<KvPair>) | KeyError(error: Error)

  const MAX_SCAN_BATCH_COUNT: nat := 4096

  predicate GcFencePasses(w: Write, readTs: Ts) {
    !(w.gcFence.Some? && w.gcFence.value != 0 && w.gcFence.value <= readTs)
  }

  predicate OfKey(s: Slot, k: Key) {
    s.Record? && s.key == k
  }

  /** A lock or rollback record of the key. */
  predicate IsMark(s: Slot, k: Key) {
    OfKey(s, k) && s.write.Some? && (s.write.value.kind.Lock? || s.write.value.kind.Rollback?)
  }

  /** The first position from `i` on that does not hold a record of `k`. */
  function RunEnd(s: seq<Slot>, i: nat, k: Key): (e: nat)
    requires i <= |s|
    ensures i <= e <= |s|
    ensures forall p :: i <= p < e ==> OfKey(s[p], k)
    ensures e < |s| ==> !OfKey(s[e], k)
    decreases |s| - i
  {
    if i == |s| || !OfKey(s[i], k) then i else RunEnd(s, i + 1, k)
  }

  /** The first position from `i` on that does not hold a lock or rollback of `k`. */
  function SkipMarks(s: seq<Slot>, i: nat, k: Key): (e: nat)
    requires i <= |s|
    ensures i <= e <= |s|
    ensures forall p :: i <= p < e ==> IsMark(s[p], k)
    ensures e < |s| ==> !IsMark(s[e], k)
    decreases |s| - i
  {
    if i == |s| || !IsMark(s[i], k) then i else SkipMarks(s, i + 1, k)
  }

  lemma NextMark(s: seq<Slot>, i: nat, k: Key)
    requires i <= |s|
    ensures SkipMarks(s, i, k) == if i < |s| && IsMark(s[i], k) then SkipMarks(s, i + 1, k) else i
  {
  }

  /** The first position from `i` on that is broken or lies above the watermark. */
  function NextImport(s: seq<Slot>, i: nat, minTs: Ts): (e: nat)
    requires i <= |s|
    ensures i <= e <= |s|
    ensures forall p :: i <= p < e ==> s[p].Record? && s[p].commitTs <= minTs
    ensures e < |s| ==> s[e].Broken? || s[e].commitTs > minTs
    decreases |s| - i
  {
    if i == |s| || s[i].Broken? || s[i].commitTs > minTs then i else NextImport(s, i + 1, minTs)
  }

  /** The value of a pair: the short value if the write embeds one, else the default column. */
  function ValueOf(job: Job, k: Key, w: Write): Option<Value> {
    if w.shortValue.Some? then w.shortValue
    else if (k, w.startTs) in job.defaults then Some(job.defaults[(k, w.startTs)])
    else None
  }

  function MakePair(job: Job, k: Key, write: Option<Write>, ts: Ts): (r: Result<KvPair, Error>) {
    if k in job.undecodable then Err(BadKey)
    else if write.None? then Ok(KvPair(k, ts, None))
    else
      var v := ValueOf(job, k, write.value);
      if v.None? then Err(MissingDefault) else Ok(KvPair(k, ts, v))
  }

  /** The pairs pushed for one qualifying older version: the pending newest one first. */
  function PushVersion(job: Job, k: Key, pending: Option<(Write, Ts)>, w: Write, ts: Ts): Result<seq<KvPair>, Error> {
    var first :- if pending.None? then Ok([])
                 else var p :- MakePair(job, k, Some(pending.value.0), pending.value.1); Ok([p]);
    var second :- MakePair(job, k, if job.keyOnly then None else Some(w), ts);
    Ok(first + [second])
  }

  /** Leaving the key of position `i` with `pairs` collected. */
  function LeaveKey(job: Job, i: nat, k: Key, pairs: seq<KvPair>): (r: Result<(seq<KvPair>, nat), Error>)
    requires i < |job.slots|
    ensures r.Ok? ==> i < r.value.1 <= |job.slots|
  {
    var e := RunEnd(job.slots, i + 1, k);
    if e < |job.slots| && job.slots[e].Broken? then Err(Iteration) else Ok((pairs, e))
  }

  /** The walk over the older versions of `k` from position `n` on, which does not hold a
      lock or rollback of `k`: the pairs and the position it ends at. */
  function Older(job: Job, n: nat, k: Key, pending: Option<(Write, Ts)>): (r: Result<(seq<KvPair>, nat), Error>)
    requires n <= |job.slots| && (n < |job.slots| ==> !IsMark(job.slots[n], k))
    ensures r.Ok? ==> n <= r.value.1 <= |job.slots|
    decreases |job.slots| - n
  {
    var s := job.slots;
    if n == |s| then Ok(([], n))
    else if s[n].Broken? then Err(Iteration)
    else if s[n].key != k then Ok(([], n))
    else if s[n].write.None? then Err(BadWrite)
    else
      var w, ts := s[n].write.value, s[n].commitTs;
      if w.kind.Delete? || (ts <= job.minTs && !GcFencePasses(w, job.minTs)) then LeaveKey(job, n, k, [])
      else
        var pairs :- PushVersion(job, k, pending, w, ts);
        if ts <= job.minTs then LeaveKey(job, n, k, pairs)
        else
          var rest :- Older(job, SkipMarks(s, n + 1, k), k, None);
          Ok((pairs + rest.0, rest.1))
  }

  /** The walk over the key whose newest record, above the watermark, is at position `h`. */
  function CollectKey(job: Job, h: nat): (r: Result<(seq<KvPair>, nat), Error>)
    requires h < |job.slots| && job.slots[h].Record?
    ensures r.Ok? ==> h < r.value.1 <= |job.slots|
  {
    var s := job.slots[h];
    if s.write.None? then Err(BadWrite)
    else if !s.write.value.kind.Put? then Err(UnexpectedWrite)
    else Older(job, SkipMarks(job.slots, h + 1, s.key), s.key,
               if job.keyOnly then None else Some((s.write.value, s.commitTs)))
  }

  /** The scan from position `i` to the end of the range or to the first error. */
  function Scan(job: Job, i: nat): Outcome
    requires i <= |job.slots|
    decreases |job.slots| - i
  {
    var h := NextImport(job.slots, i, job.minTs);
    if h == |job.slots| then Outcome([], None)
    else if job.slots[h].Broken? then Outcome([], Some(Iteration))
    else
      var r := CollectKey(job, h);
      if r.Err? then Outcome([], Some(r.error))
      else
        var rest := Scan(job, r.value.1);
        Outcome([r.value.0] + rest.groups, rest.error)
  }

  /** Moving over records at or below the watermark does not change what is left to scan, and at
      the end or at an unreadable position nothing is. */
  lemma ScanSkips(job: Job, i: nat)
    requires i <= |job.slots|
    ensures var h := NextImport(job.slots, i, job.minTs);
            && Scan(job, h) == Scan(job, i)
            && (h == |job.slots| ==> Scan(job, h) == Outcome([], None))
            && (h < |job.slots| && job.slots[h].Broken? ==> Scan(job, h) == Outcome([], Some(Iteration)))
  {
  }

  /** From the newest record of an import key, the scan is the walk over the key and the rest. */
  lemma ScanHead(job: Job, h: nat)
    requires h < |job.slots| && job.slots[h].Record? && job.slots[h].commitTs > job.minTs
    ensures match CollectKey(job, h)
            case Err(e) => Scan(job, h) == Outcome([], Some(e))
            case Ok((g, n)) =>
              && Scan(job, h).groups != [] && Scan(job, h).groups[0] == g
              && Scan(job, n) == Outcome(Scan(job, h).groups[1..], Scan(job, h).error)
  {
    if CollectKey(job, h).Ok? {
      var rest := Scan(job, CollectKey(job, h).value.1);
      assert ([CollectKey(job, h).value.0] + rest.groups)[1..] == rest.groups;
    }
  }

  // ----- batches

  function Flatten<T>(groups: seq<seq<T>>): seq<T> {
    if groups == [] then [] else groups[0] + Flatten(groups[1..])
  }

  /** How many groups are taken before the pairs reach the batch limit. */
  function Cut(groups: seq<seq<KvPair>>, have: nat): (n: nat)
    ensures n <= |groups|
    ensures groups != [] ==> n >= 1
  {
    if groups == [] then 0
    else if have + |groups[0]| >= MAX_SCAN_BATCH_COUNT then 1
    else 1 + Cut(groups[1..], have + |groups[0]|)
  }

  /** Every response the detector yields for a scan. */
  function Responses(o: Outcome): seq<Response>
    decreases |o.groups|
  {
    var n := Cut(o.groups, 0);
    var batch := Flatten(o.groups[..n]);
    if |batch| >= MAX_SCAN_BATCH_COUNT then
      [Pairs(batch)] + Responses(Outcome(o.groups[n..], o.error))
    else if o.error.Some? then [KeyError(o.error.value)]
    else if batch == [] then []
    else [Pairs(batch)]
  }

  /** The pairs carried by the responses that are not errors. */
  function Delivered(rs: seq<Response>): seq<KvPair> {
    if rs == [] then []
    else (if rs[0].Pairs? then rs[0].pairs else []) + Delivered(rs[1..])
  }
}
