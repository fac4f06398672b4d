/** A whole duplicate-detection request: the detector opened over a range and pulled until it
    ends, and the inputs on which it fails. */
module DuplicateRun {
  import opened Wrappers
  import opened DuplicateSpec
  import opened DuplicateDetection
  import opened DuplicateTheorems

  /** Over every sorted column: the responses deliver a prefix of the exact answer, in whole
      batches with any error last; and they deliver all of it, without an error, if and only if
      the data is clean. */
  method Detect(job: Job, failure: Option<Error>) returns (r: Result<seq<Response>, Error>)
    requires Sorted(job.slots)
    ensures r.Err? <==> failure.Some?
    ensures r.Ok? ==> Delivered(r.value) <= Report(job, 0, |job.slots|)
    ensures r.Ok? ==> (NoError(r.value) <==> Clean(job))
    ensures r.Ok? && Clean(job) ==> Delivered(r.value) == Report(job, 0, |job.slots|)
    ensures r.Ok? ==> forall i :: 0 <= i < |r.value| - 1 ==>
                        r.value[i].Pairs? && |r.value[i].pairs| >= 4096
  {
    hide Scan, Responses, Report, Clean, Sorted;
    var d :- DuplicateDetector.Open(job, failure);
    var rs := d.Drain();
    DeliveredIsExactPrefix(job);
    ErrorFreeIffClean(job);
    BatchSizes(Scan(job, 0));
    return Ok(rs);
  }

  ghost predicate NoError(rs: seq<Response>) {
    forall i :: 0 <= i < |rs| ==> rs[i].Pairs?
  }

  /** Which value a pair carries: the one embedded in the write record, or else the one stored in
      the default column under the write's start timestamp. */
  lemma ValueIsStored(job: Job, k: Key, w: Write, v: Value)
    ensures ValueOf(job, k, w) == Some(v) <==>
              || w.shortValue == Some(v)
              || (w.shortValue.None? && (k, w.startTs) in job.defaults && job.defaults[(k, w.startTs)] == v)
  {
  }

  /** What detection is for: a row imported above the watermark over a row that existed below it,
      with no fence, is reported together with the existing row; and over clean data both are
      delivered, the imported one only if values are wanted. */
  lemma {:induction false} ImportOverExistingRow(job: Job, h: nat)
    requires Sorted(job.slots) && Newest(job, h) && h + 1 < |job.slots| && OfKey(job.slots[h + 1], job.slots[h].key)
    requires IsPut(job.slots[h]) && job.slots[h].commitTs > job.minTs
    requires IsPut(job.slots[h + 1]) && job.slots[h + 1].commitTs <= job.minTs
    requires job.slots[h + 1].write.value.gcFence.None?
    ensures Reported(job, h + 1) && (Reported(job, h) <==> !job.keyOnly)
    ensures Clean(job) ==> PairAt(job, h + 1) in Delivered(Responses(Scan(job, 0)))
    ensures Clean(job) && !job.keyOnly ==> PairAt(job, h) in Delivered(Responses(Scan(job, 0)))
  {
    hide Scan, Responses, Report;
    assert Qualifies(job, h) && Qualifies(job, h + 1);
    if Clean(job) {
      ErrorFreeIffClean(job);
      DeliveredIsExactPrefix(job);
      ReportHas(job, 0, |job.slots|, PairAt(job, h));
      ReportHas(job, 0, |job.slots|, PairAt(job, h + 1));
    }
  }

  /** A put at or below the watermark that a fence supersedes is not taken for an existing row. */
  lemma FencedRowIsNotReported(job: Job, i: nat)
    requires i < |job.slots| && IsPut(job.slots[i]) && job.slots[i].commitTs <= job.minTs
    requires job.slots[i].write.value.gcFence.Some? && 0 < job.slots[i].write.value.gcFence.value <= job.minTs
    ensures !Reported(job, i)
  {
  }

  /** A key whose newest record above the watermark is a delete makes the run fail. */
  lemma DeletedKeyFails(k: Key, ts: Ts, startTs: Ts, minTs: Ts, keyOnly: bool)
    requires ts > minTs
    ensures var job := Job([Record(k, ts, Some(Write(Delete, startTs, None, None)))], map[], {}, minTs, keyOnly);
            Sorted(job.slots) && !Clean(job) && Scan(job, 0) == Outcome([], Some(UnexpectedWrite))
  {
    var job := Job([Record(k, ts, Some(Write(Delete, startTs, None, None)))], map[], {}, minTs, keyOnly);
    assert Newest(job, 0);
    assert NextImport(job.slots, 0, minTs) == 0;
  }

  /** A key with two live versions, followed by a deleted one. */
  function LossyJob(k: Key, ts: Ts, v: Value): Job
    requires ts >= 2
  {
    var put := Some(Write(Put, 0, Some(v), None));
    Job([Record(k, ts, put), Record(k, ts - 1, put), Record(k + 1, ts, Some(Write(Delete, 0, None, None)))],
        map[], {}, 0, false)
  }

  lemma LossyScan(k: Key, ts: Ts, v: Value)
    requires ts >= 2
    ensures Scan(LossyJob(k, ts, v), 0)
            == Outcome([[KvPair(k, ts, Some(v)), KvPair(k, ts - 1, Some(v))]], Some(UnexpectedWrite))
  {
    var job := LossyJob(k, ts, v);
    var s, w := job.slots, Write(Put, 0, Some(v), None);
    var newest, older := KvPair(k, ts, Some(v)), KvPair(k, ts - 1, Some(v));
    assert SkipMarks(s, 1, k) == 1 && SkipMarks(s, 2, k) == 2;
    assert Older(job, 2, k, None) == Ok(([], 2));
    assert PushVersion(job, k, Some((w, ts)), w, ts - 1) == Ok([newest] + [older]);
    assert [newest] + [older] + [] == [newest, older];
    assert Older(job, 1, k, Some((w, ts))) == Ok(([newest, older], 2));
    assert CollectKey(job, 0) == Ok(([newest, older], 2));
    assert CollectKey(job, 2) == Err(UnexpectedWrite);
    assert NextImport(s, 2, 0) == 2 && NextImport(s, 0, 0) == 0;
    assert Scan(job, 2) == Outcome([], Some(UnexpectedWrite));
  }

  /** A failure loses the pairs collected since the last full batch: here the exact answer has
      two pairs and none is delivered. */
  lemma FailureLosesTheBatch(k: Key, ts: Ts, v: Value)
    requires ts >= 2
    ensures var job := LossyJob(k, ts, v);
            && Sorted(job.slots) && !Clean(job)
            && |Report(job, 0, |job.slots|)| >= 2 && Delivered(Responses(Scan(job, 0))) == []
  {
    hide Scan, Clean, Report;
    var job := LossyJob(k, ts, v);
    LossyScan(k, ts, v);
    var g := [KvPair(k, ts, Some(v)), KvPair(k, ts - 1, Some(v))];
    assert Flatten([g]) == g by { assert [g][1..] == [] && g + [] == g; }
    ScanReportsExactly(job, 0);
    ErrorFreeIffClean(job);
    assert Cut([g], 0) == 1 by { assert [g][1..] == []; }
    assert [g][..1] == [g];
    assert Responses(Scan(job, 0)) == [KeyError(UnexpectedWrite)];
    assert [KeyError(UnexpectedWrite)][1..] == [];
  }
}
