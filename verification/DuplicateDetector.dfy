/** The duplicate detector itself: four loops over one shared cursor. */
module DuplicateDetection {
  import opened Wrappers
  import opened DuplicateSpec

  class DuplicateDetector {
    const job: Job
    var pos: nat
    var valid: bool

    ghost predicate Valid()
      reads this
    {
      pos <= |job.slots|
    }

    /** What is still to be scanned from the cursor on. */
    ghost function Rest(): Outcome
      requires Valid()
      reads this
    {
      Scan(job, pos)
    }

    /** The responses still to be yielded. */
    ghost function Pending(): seq<Response>
      requires Valid()
      reads this
    {
      if valid then Responses(Rest()) else []
    }

    constructor (job: Job)
      ensures Valid() && this.job == job && pos == 0 && valid
    {
      this.job := job;
      pos := 0;
      valid := true;
    }

    /** Opens the iterator over the range and seeks to its start, either of which may fail. */
    static method Open(job: Job, failure: Option<Error>) returns (r: Result<DuplicateDetector, Error>)
      ensures failure.Some? ==> r == Err(failure.value)
      ensures failure.None? ==>
                && r.Ok? && fresh(r.value) && r.value.Valid() && r.value.job == job
                && r.value.Pending() == Responses(Scan(job, 0))
    {
      if failure.Some? {
        return Err(failure.value);
      }
      var d := new DuplicateDetector(job);
      return Ok(d);
    }

    /** The record under the cursor, nothing at the end of the range. */
    method Peek() returns (r: Result<Option<Slot>, Error>)
      requires Valid()
      ensures r == if pos == |job.slots| then Ok(None)
                   else if job.slots[pos].Broken? then Err(Iteration)
                   else Ok(Some(job.slots[pos]))
    {
      if pos == |job.slots| {
        return Ok(None);
      }
      if job.slots[pos].Broken? {
        return Err(Iteration);
      }
      return Ok(Some(job.slots[pos]));
    }

    /** The iterator may be advanced only while it is valid. */
    method Advance()
      requires pos < |job.slots|
      modifies this`pos
      ensures pos == old(pos) + 1
    {
      pos := pos + 1;
    }

    method MoveToNextImportKey() returns (r: Result<Option<(Key, Ts)>, Error>)
      requires Valid()
      modifies this`pos
      ensures Valid() && pos == NextImport(job.slots, old(pos), job.minTs)
      ensures r == if pos == |job.slots| then Ok(None)
                   else if job.slots[pos].Broken? then Err(Iteration)
                   else Ok(Some((job.slots[pos].key, job.slots[pos].commitTs)))
    {
      var cur :- Peek();
      while cur.Some?
        invariant Valid()
        invariant NextImport(job.slots, pos, job.minTs) == NextImport(job.slots, old(pos), job.minTs)
        invariant if cur.Some? then pos < |job.slots| && job.slots[pos].Record? && cur.value == job.slots[pos]
                  else pos == |job.slots|
        decreases |job.slots| - pos, cur.Some?
      {
        if cur.value.commitTs > job.minTs {
          return Ok(Some((cur.value.key, cur.value.commitTs)));
        }
        Advance();
        cur :- Peek();
      }
      return Ok(None);
    }

    method SkipLockAndRollback(k: Key) returns (r: Result<Option<Write>, Error>)
      requires pos < |job.slots|
      modifies this`pos
      ensures Valid() && pos == SkipMarks(job.slots, old(pos) + 1, k)
      ensures r == if pos == |job.slots| then Ok(None)
                   else if job.slots[pos].Broken? then Err(Iteration)
                   else if job.slots[pos].key != k then Ok(None)
                   else if job.slots[pos].write.None? then Err(BadWrite)
                   else Ok(Some(job.slots[pos].write.value))
    {
      hide SkipMarks;
      Advance();
      NextMark(job.slots, pos, k);
      var cur :- Peek();
      while cur.Some?
        invariant Valid()
        invariant SkipMarks(job.slots, pos, k) == SkipMarks(job.slots, old(pos) + 1, k)
        invariant !(pos < |job.slots| && IsMark(job.slots[pos], k)) ==> SkipMarks(job.slots, pos, k) == pos
        invariant if cur.Some? then pos < |job.slots| && job.slots[pos].Record? && cur.value == job.slots[pos]
                  else pos == |job.slots|
        decreases |job.slots| - pos, cur.Some?
      {
        if cur.value.key != k {
          return Ok(None);
        }
        if cur.value.write.None? {
          return Err(BadWrite);
        }
        match cur.value.write.value.kind {
          case Put | Delete =>
            return Ok(Some(cur.value.write.value));
          case Lock | Rollback =>
            NextMark(job.slots, pos, k);
            Advance();
            NextMark(job.slots, pos, k);
            cur :- Peek();
        }
      }
      return Ok(None);
    }

    method SkipAllVersion(k: Key) returns (r: Result<(), Error>)
      requires pos < |job.slots|
      modifies this`pos
      ensures Valid() && pos == RunEnd(job.slots, old(pos) + 1, k)
      ensures r == if pos < |job.slots| && job.slots[pos].Broken? then Err(Iteration) else Ok(())
    {
      Advance();
      var cur :- Peek();
      while cur.Some?
        invariant Valid()
        invariant RunEnd(job.slots, pos, k) == RunEnd(job.slots, old(pos) + 1, k)
        invariant if cur.Some? then pos < |job.slots| && job.slots[pos].Record? && cur.value == job.slots[pos]
                  else pos == |job.slots|
        decreases |job.slots| - pos, cur.Some?
      {
        if cur.value.key != k {
          break;
        }
        Advance();
        cur :- Peek();
      }
      return Ok(());
    }

    /** Appends the duplicates of the key under the cursor to `given` and leaves the key. */
    method CollectCurrentKeyDuplicate(startKey: Key, endCommitTs: Ts, given: seq<KvPair>)
      returns (r: Result<seq<KvPair>, Error>)
      requires pos < |job.slots| && job.slots[pos].Record?
      requires startKey == job.slots[pos].key && endCommitTs == job.slots[pos].commitTs
      modifies this`pos
      ensures Valid()
      ensures var c := Prepend(given, CollectKey(job, old(pos)));
              if c.Err? then r == Err(c.error) else r == Ok(c.value.0) && pos == c.value.1
    {
      var pairs := given;
      if job.slots[pos].write.None? {
        return Err(BadWrite);
      }
      var write := job.slots[pos].write.value;
      if !write.kind.Put? {
        return Err(UnexpectedWrite);
      }
      var writeInfo: Option<(Write, Ts)> := if job.keyOnly then None else Some((write, endCommitTs));
      ghost var goal := Prepend(given, CollectKey(job, pos));
      var current :- SkipLockAndRollback(startKey);
      while current.Some?
        invariant Valid() && (pos < |job.slots| ==> !IsMark(job.slots[pos], startKey))
        invariant if current.Some?
                  then && pos < |job.slots| && OfKey(job.slots[pos], startKey)
                       && job.slots[pos].write == Some(current.value)
                  else pos == |job.slots| || (job.slots[pos].Record? && job.slots[pos].key != startKey)
        invariant goal == Prepend(pairs, Older(job, pos, startKey, writeInfo))
        decreases |job.slots| - pos, current.Some?
      {
        var taken :- TakeVersion(startKey, writeInfo, current.value, pairs);
        pairs := taken.0;
        if taken.1 {
          return Ok(pairs);
        }
        writeInfo := None;
        current :- SkipLockAndRollback(startKey);
      }
      assert pairs + [] == pairs;
      return Ok(pairs);
    }

    /** One turn of the loop: push the version under the cursor, or leave the key. */
    method TakeVersion(k: Key, writeInfo: Option<(Write, Ts)>, w: Write, given: seq<KvPair>)
      returns (r: Result<(seq<KvPair>, bool), Error>)
      requires pos < |job.slots| && OfKey(job.slots[pos], k) && !IsMark(job.slots[pos], k)
      requires job.slots[pos].write == Some(w)
      modifies this`pos
      ensures Valid()
      ensures var o := Prepend(given, Older(job, old(pos), k, writeInfo));
              match r
              case Err(e) => o == Err(e)
              case Ok((pairs, true)) => o == Ok((pairs, pos))
              case Ok((pairs, false)) =>
                pos == old(pos) && o == Prepend(pairs, Older(job, SkipMarks(job.slots, pos + 1, k), k, None))
    {
      var commitTs := job.slots[pos].commitTs;
      if w.kind.Delete? || (commitTs <= job.minTs && !GcFencePasses(w, job.minTs)) {
        assert given + [] == given;
        var _ :- SkipAllVersion(k);
        return Ok((given, true));
      }
      var pairs :- PushPairs(k, writeInfo, w, commitTs, given);
      ghost var pushed := PushVersion(job, k, writeInfo, w, commitTs).value;
      if commitTs <= job.minTs {
        var _ :- SkipAllVersion(k);
        return Ok((pairs, true));
      }
      PrependSplit(given, pushed, Older(job, SkipMarks(job.slots, pos + 1, k), k, None));
      return Ok((pairs, false));
    }

    /** Pushes the pending newest version, if it is still pending, and the current one. */
    method PushPairs(k: Key, writeInfo: Option<(Write, Ts)>, w: Write, commitTs: Ts, given: seq<KvPair>)
      returns (r: Result<seq<KvPair>, Error>)
      ensures var p := PushVersion(job, k, writeInfo, w, commitTs);
              r == if p.Err? then Err(p.error) else Ok(given + p.value)
    {
      var pairs := given;
      if writeInfo.Some? {
        var newest :- MakePair(job, k, Some(writeInfo.value.0), writeInfo.value.1);
        pairs := pairs + [newest];
      }
      var older :- MakePair(job, k, if job.keyOnly then None else Some(w), commitTs);
      pairs := pairs + [older];
      assert pairs == given + PushVersion(job, k, writeInfo, w, commitTs).value;
      return Ok(pairs);
    }

    /** One batch: whole groups until the limit is reached or the range ends. */
    method TryNext() returns (r: Result<Option<seq<KvPair>>, Error>)
      requires Valid()
      modifies this`pos
      ensures Valid()
      ensures var o := old(Rest());
              var n := Cut(o.groups, 0);
              var batch := Flatten(o.groups[..n]);
              if |batch| >= MAX_SCAN_BATCH_COUNT then
                r == Ok(Some(batch)) && Rest() == Outcome(o.groups[n..], o.error) && pos > old(pos)
              else if o.error.Some? then r == Err(o.error.value)
              else r == Ok(if batch == [] then None else Some(batch)) && pos == |job.slots|
    {
      hide Scan, NextImport, CollectKey, Cut, Flatten, Taking;
      var ret: seq<KvPair> := [];
      ghost var o, taken: nat := Rest(), 0;
      StartTaking(o);
      ScanSkips(job, pos);
      TakingEnds(o, 0, ret, o);
      var key :- MoveToNextImportKey();
      while key.Some?
        invariant Valid() && pos >= old(pos)
        invariant Taking(o, taken, ret, Rest())
        invariant if key.Some?
                  then && pos < |job.slots| && job.slots[pos].Record? && job.slots[pos].commitTs > job.minTs
                       && key.value == (job.slots[pos].key, job.slots[pos].commitTs)
                  else pos == |job.slots| && Rest() == Outcome([], None)
        decreases |job.slots| - pos, key.Some?
      {
        ghost var left, have := Rest(), ret;
        ScanHead(job, pos);
        TakingEnds(o, taken, have, left);
        ret :- CollectCurrentKeyDuplicate(key.value.0, key.value.1, ret);
        TakeGroup(o, taken, have, left);
        taken := taken + 1;
        if |ret| >= MAX_SCAN_BATCH_COUNT {
          return Ok(Some(ret));
        }
        ScanSkips(job, pos);
        TakingEnds(o, taken, ret, Rest());
        key :- MoveToNextImportKey();
      }
      TakingEnds(o, taken, ret, Rest());
      if ret == [] {
        return Ok(None);
      }
      return Ok(Some(ret));
    }

    /** The iterator interface: an error is reported once and ends the iteration. */
    method Next() returns (r: Option<Response>)
      requires Valid()
      modifies this`pos, this`valid
      ensures Valid()
      ensures var rs := old(Pending());
              if rs == [] then r == None && Pending() == [] && valid == old(valid)
              else r == Some(rs[0]) && Pending() == rs[1..] && valid == rs[0].Pairs?
    {
      if !valid {
        return None;
      }
      var t := TryNext();
      match t {
        case Ok(Some(pairs)) =>
          r := Some(Pairs(pairs));
        case Err(e) =>
          r := Some(KeyError(e));
          valid := false;
        case Ok(None) =>
          r := None;
      }
    }

    /** A consumer that pulls responses until the iterator ends. */
    method Drain() returns (rs: seq<Response>)
      requires Valid()
      modifies this`pos, this`valid
      ensures Valid() && rs == old(Pending()) && Pending() == []
    {
      hide Scan, Responses;
      rs := [];
      ghost var all := Pending();
      ghost var left := all;
      var r := Next();
      while r.Some?
        invariant Valid() && all == rs + left
        invariant if r.Some? then left != [] && left[0] == r.value && left[1..] == Pending()
                  else left == [] && Pending() == []
        decreases |left|
      {
        MoveFirst(rs, left);
        rs := rs + [r.value];
        left := left[1..];
        r := Next();
      }
    }
  }

  lemma MoveFirst<T>(a: seq<T>, b: seq<T>)
    requires b != []
    ensures a + b == a + [b[0]] + b[1..]
  {
  }

  /** `r` with `pairs` in front of what it collected. */
  function Prepend(pairs: seq<KvPair>, r: Result<(seq<KvPair>, nat), Error>): Result<(seq<KvPair>, nat), Error> {
    if r.Err? then r else Ok((pairs + r.value.0, r.value.1))
  }

  lemma PrependSplit(a: seq<KvPair>, b: seq<KvPair>, r: Result<(seq<KvPair>, nat), Error>)
    ensures Prepend(a, Prepend(b, r)) == Prepend(a + b, r)
  {
    assert r.Ok? ==> a + (b + r.value.0) == (a + b) + r.value.0;
  }

  /** `n` whole groups of `o` are in `ret`, the batch is not full, and `left` remains. */
  ghost predicate Taking(o: Outcome, n: nat, ret: seq<KvPair>, left: Outcome) {
    && n <= |o.groups|
    && ret == Flatten(o.groups[..n]) && |ret| < MAX_SCAN_BATCH_COUNT
    && left == Outcome(o.groups[n..], o.error)
    && Cut(o.groups, 0) == n + Cut(left.groups, |ret|)
  }

  lemma StartTaking(o: Outcome)
    ensures Taking(o, 0, [], o)
  {
    assert o.groups[..0] == [] && o.groups[0..] == o.groups;
  }

  lemma TakeGroup(o: Outcome, n: nat, ret: seq<KvPair>, left: Outcome)
    requires Taking(o, n, ret, left)
    ensures left.groups == [] ==> n == |o.groups| == Cut(o.groups, 0)
    ensures left.groups != [] ==>
              var got := ret + left.groups[0];
              if |got| < MAX_SCAN_BATCH_COUNT then Taking(o, n + 1, got, Outcome(left.groups[1..], o.error))
              else && Cut(o.groups, 0) == n + 1 <= |o.groups| && got == Flatten(o.groups[..n + 1])
                   && left.groups[1..] == o.groups[n + 1..]
  {
    if left.groups != [] {
      FlattenTake(o.groups, n);
      assert left.groups[1..] == o.groups[n + 1..];
    }
  }

  /** When no group remains the batch is all that is left, and the rest of the scan its error. */
  lemma TakingEnds(o: Outcome, n: nat, ret: seq<KvPair>, left: Outcome)
    requires Taking(o, n, ret, left)
    ensures o.error == left.error && |ret| < MAX_SCAN_BATCH_COUNT
    ensures left.groups == [] ==> n == Cut(o.groups, 0) == |o.groups| && ret == Flatten(o.groups[..n])
  {
  }

  lemma FlattenTake(gs: seq<seq<KvPair>>, n: nat)
    requires n < |gs|
    ensures Flatten(gs[..n + 1]) == Flatten(gs[..n]) + gs[n]
  {
    if n > 0 {
      FlattenTake(gs[1..], n - 1);
      assert gs[..n + 1][1..] == gs[1..][..n] && gs[..n][1..] == gs[1..][..n - 1];
    }
  }
}
