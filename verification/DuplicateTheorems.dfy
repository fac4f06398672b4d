/** What duplicate detection promises: exactness of the reported records, the relation
    between the two value modes, and the lossless cutting into batches. */
module DuplicateTheorems {
  import opened Wrappers
  import opened DuplicateSpec

  // ----- the declarative meaning of a reported record

  /** Keys ascend; within a key, commit timestamps strictly descend. */
  ghost predicate Sorted(s: seq<Slot>) {
    forall i, j :: 0 <= i < j < |s| && s[i].Record? && s[j].Record? ==>
      s[i].key < s[j].key || (s[i].key == s[j].key && s[i].commitTs > s[j].commitTs)
  }

  predicate IsPut(s: Slot) {
    s.Record? && s.write.Some? && s.write.value.kind.Put?
  }

  predicate IsDelete(s: Slot) {
    s.Record? && s.write.Some? && s.write.value.kind.Delete?
  }

  /** A garbage collection fence at or below `ts` says that a newer version at the fence has been
      collected, so this one is no longer the version at `ts`; a zero fence points nowhere. */
  predicate Superseded(w: Write, ts: Ts) {
    match w.gcFence
    case None => false
    case Some(fence) => 0 < fence <= ts
  }

  /** The record is a live put: above the watermark, or the version visible at it. */
  ghost predicate Qualifies(job: Job, i: nat) {
    var s := job.slots;
    && i < |s| && IsPut(s[i])
    && (s[i].commitTs > job.minTs || !Superseded(s[i].write.value, job.minTs))
    && forall j :: 0 <= j < i && OfKey(s[j], s[i].key) && (IsPut(s[j]) || IsDelete(s[j])) ==>
         IsPut(s[j]) && s[j].commitTs > job.minTs
  }

  /** The record qualifies and so does another one of its key; in key-only mode the other
      one must be newer, so the newest record of a key is left out. */
  ghost predicate Reported(job: Job, i: nat) {
    && Qualifies(job, i)
    && exists j: nat :: j != i && (job.keyOnly ==> j < i) && Qualifies(job, j)
                        && job.slots[j].key == job.slots[i].key
  }

  function PairAt(job: Job, i: nat): KvPair
    requires i < |job.slots| && IsPut(job.slots[i])
  {
    var s := job.slots[i];
    KvPair(s.key, s.commitTs, if job.keyOnly then None else ValueOf(job, s.key, s.write.value))
  }

  /** The pairs of the qualifying records in `lo..hi`, in column order. */
  ghost function Live(job: Job, lo: nat, hi: nat): seq<KvPair>
    requires lo <= hi <= |job.slots|
    decreases hi - lo
  {
    if lo == hi then []
    else (if Qualifies(job, lo) then [PairAt(job, lo)] else []) + Live(job, lo + 1, hi)
  }

  /** The pairs of the reported records in `lo..hi`, in column order. */
  ghost function Report(job: Job, lo: nat, hi: nat): seq<KvPair>
    requires lo <= hi <= |job.slots|
    decreases hi - lo
  {
    if lo == hi then []
    else (if Reported(job, lo) then [PairAt(job, lo)] else []) + Report(job, lo + 1, hi)
  }

  // ----- one key

  lemma {:induction false} RunEndAfterMarks(s: seq<Slot>, i: nat, k: Key)
    requires i <= |s|
    ensures RunEnd(s, SkipMarks(s, i, k), k) == RunEnd(s, i, k)
    decreases |s| - i
  {
    if i < |s| && IsMark(s[i], k) {
      RunEndAfterMarks(s, i + 1, k);
    }
  }

  lemma ContinueLeaves(job: Job, n: nat, k: Key, pending: Option<(Write, Ts)>)
    requires n < |job.slots| && OfKey(job.slots[n], k) && job.slots[n].commitTs > job.minTs && IsPut(job.slots[n])
    requires Older(job, n, k, pending).Ok?
    ensures var rest := Older(job, SkipMarks(job.slots, n + 1, k), k, None);
            rest.Ok? && rest.value.1 == Older(job, n, k, pending).value.1
  {
    hide RunEnd;
  }

  lemma StopLeaves(job: Job, n: nat, k: Key, pending: Option<(Write, Ts)>)
    requires n <= |job.slots| && (n < |job.slots| ==> !IsMark(job.slots[n], k))
    requires n < |job.slots| && OfKey(job.slots[n], k) ==> !(job.slots[n].commitTs > job.minTs && IsPut(job.slots[n]))
    requires Older(job, n, k, pending).Ok?
    ensures var e := Older(job, n, k, pending).value.1;
            e == RunEnd(job.slots, n, k) && (e < |job.slots| ==> job.slots[e].Record?)
  {
  }

  /** A successful walk leaves the cursor on the first record of the next key. */
  lemma {:induction false} OlderLeavesKey(job: Job, n: nat, k: Key, pending: Option<(Write, Ts)>)
    requires n <= |job.slots| && (n < |job.slots| ==> !IsMark(job.slots[n], k))
    requires Older(job, n, k, pending).Ok?
    ensures var e := Older(job, n, k, pending).value.1;
            e == RunEnd(job.slots, n, k) && (e < |job.slots| ==> job.slots[e].Record?)
    decreases |job.slots| - n
  {
    hide Older;
    var s := job.slots;
    if n < |s| && OfKey(s[n], k) && s[n].commitTs > job.minTs && IsPut(s[n]) {
      RunEndAfterMarks(s, n + 1, k);
      ContinueLeaves(job, n, k, pending);
      OlderLeavesKey(job, SkipMarks(s, n + 1, k), k, None);
    } else {
      StopLeaves(job, n, k, pending);
    }
  }

  /** Every put or delete of key `k` before position `n` is a put above the watermark. */
  ghost predicate OpenKey(job: Job, n: nat, k: Key) {
    && n <= |job.slots|
    && forall j :: 0 <= j < n && OfKey(job.slots[j], k) && (IsPut(job.slots[j]) || IsDelete(job.slots[j])) ==>
         IsPut(job.slots[j]) && job.slots[j].commitTs > job.minTs
  }

  lemma {:induction false} LiveSplit(job: Job, lo: nat, mid: nat, hi: nat)
    requires lo <= mid <= hi <= |job.slots|
    ensures Live(job, lo, hi) == Live(job, lo, mid) + Live(job, mid, hi)
    decreases mid - lo
  {
    if lo < mid {
      LiveSplit(job, lo + 1, mid, hi);
    }
  }

  lemma LiveFirst(job: Job, lo: nat, hi: nat)
    requires lo < hi <= |job.slots|
    ensures Qualifies(job, lo) ==> Live(job, lo, hi) == [PairAt(job, lo)] + Live(job, lo + 1, hi)
    ensures !Qualifies(job, lo) ==> Live(job, lo, hi) == Live(job, lo + 1, hi)
  {
  }

  lemma {:induction false} NoneLive(job: Job, lo: nat, hi: nat)
    requires lo <= hi <= |job.slots|
    requires forall p :: lo <= p < hi ==> !Qualifies(job, p)
    ensures Live(job, lo, hi) == []
    decreases hi - lo
  {
    if lo < hi {
      NoneLive(job, lo + 1, hi);
    }
  }

  /** Live records preceded by the pending newest one, if there is any of them. */
  function WithPending(job: Job, k: Key, pending: Option<(Write, Ts)>, live: seq<KvPair>): seq<KvPair> {
    if pending.None? || live == [] then live
    else [KvPair(k, pending.value.1, ValueOf(job, k, pending.value.0))] + live
  }

  lemma PushIsPair(job: Job, n: nat, k: Key, pending: Option<(Write, Ts)>)
    requires n < |job.slots| && OfKey(job.slots[n], k) && IsPut(job.slots[n])
    requires PushVersion(job, k, pending, job.slots[n].write.value, job.slots[n].commitTs).Ok?
    ensures PushVersion(job, k, pending, job.slots[n].write.value, job.slots[n].commitTs).value
            == WithPending(job, k, pending, [PairAt(job, n)])
  {
  }

  lemma PutKeepsOpen(job: Job, n: nat, k: Key)
    requires n < |job.slots| && OfKey(job.slots[n], k) && IsPut(job.slots[n])
    requires job.slots[n].commitTs > job.minTs && OpenKey(job, n, k)
    ensures Qualifies(job, n) && OpenKey(job, SkipMarks(job.slots, n + 1, k), k)
  {
  }

  lemma OlderUnfolds(job: Job, n: nat, k: Key, pending: Option<(Write, Ts)>)
    requires n < |job.slots| && OfKey(job.slots[n], k) && IsPut(job.slots[n])
    requires job.slots[n].commitTs > job.minTs && Older(job, n, k, pending).Ok?
    ensures var pushed, rest := PushVersion(job, k, pending, job.slots[n].write.value, job.slots[n].commitTs),
                                Older(job, SkipMarks(job.slots, n + 1, k), k, None);
            pushed.Ok? && rest.Ok? && Older(job, n, k, pending).value.0 == pushed.value + rest.value.0
  {
    hide PushVersion;
  }

  lemma WithPendingMore(job: Job, k: Key, pending: Option<(Write, Ts)>, p: KvPair, rest: seq<KvPair>)
    ensures WithPending(job, k, pending, [p]) + rest == WithPending(job, k, pending, [p] + rest)
  {
  }

  /** A put above the watermark is pushed and the walk goes on. */
  lemma PushAndContinue(job: Job, n: nat, k: Key, pending: Option<(Write, Ts)>)
    requires n < |job.slots| && OfKey(job.slots[n], k) && IsPut(job.slots[n])
    requires job.slots[n].commitTs > job.minTs && OpenKey(job, n, k) && Older(job, n, k, pending).Ok?
    ensures Qualifies(job, n) && OpenKey(job, SkipMarks(job.slots, n + 1, k), k)
    ensures var rest := Older(job, SkipMarks(job.slots, n + 1, k), k, None);
            && rest.Ok?
            && Older(job, n, k, pending).value.0 == WithPending(job, k, pending, [PairAt(job, n)] + rest.value.0)
  {
    hide Older, PushVersion, WithPending, Qualifies, OpenKey;
    PutKeepsOpen(job, n, k);
    OlderUnfolds(job, n, k, pending);
    PushIsPair(job, n, k, pending);
    WithPendingMore(job, k, pending, PairAt(job, n), Older(job, SkipMarks(job.slots, n + 1, k), k, None).value.0);
  }

  /** A delete, or a version at or below the watermark, is the last one looked at. */
  lemma PushAndStop(job: Job, n: nat, k: Key, pending: Option<(Write, Ts)>)
    requires n < |job.slots| && OfKey(job.slots[n], k) && OpenKey(job, n, k) && !IsMark(job.slots[n], k)
    requires !(IsPut(job.slots[n]) && job.slots[n].commitTs > job.minTs)
    requires Older(job, n, k, pending).Ok?
    ensures IsDelete(job.slots[n]) || (IsPut(job.slots[n]) && job.slots[n].commitTs <= job.minTs)
    ensures Older(job, n, k, pending).value.0
            == WithPending(job, k, pending, if Qualifies(job, n) then [PairAt(job, n)] else [])
  {
    if Qualifies(job, n) {
      PushIsPair(job, n, k, pending);
    }
  }

  /** Where the key ends nothing is pushed and nothing is live. */
  lemma OlderAtEnd(job: Job, n: nat, k: Key, pending: Option<(Write, Ts)>)
    requires n <= |job.slots| && (n < |job.slots| ==> !OfKey(job.slots[n], k))
    requires Older(job, n, k, pending).Ok?
    ensures Older(job, n, k, pending).value.0 == [] == Live(job, n, n)
  {
  }

  /** The walk pushes the live records of the key, preceded by the pending newest one as
      soon as there is any. */
  lemma {:induction false} OlderPushesLive(job: Job, n: nat, k: Key, pending: Option<(Write, Ts)>, e: nat)
    requires n <= |job.slots| && (n < |job.slots| ==> !IsMark(job.slots[n], k))
    requires OpenKey(job, n, k) && e == RunEnd(job.slots, n, k)
    requires Older(job, n, k, pending).Ok?
    ensures Older(job, n, k, pending).value.0 == WithPending(job, k, pending, Live(job, n, e))
    decreases |job.slots| - n
  {
    hide Older, Live, Qualifies, OpenKey;
    var s := job.slots;
    if n == e {
      OlderAtEnd(job, n, k, pending);
    } else if IsPut(s[n]) && s[n].commitTs > job.minTs {
      var n' := SkipMarks(s, n + 1, k);
      RunEndAfterMarks(s, n + 1, k);
      PushAndContinue(job, n, k, pending);
      OlderPushesLive(job, n', k, None, e);
      MarksNotLive(job, n + 1, n', e, k);
      LiveFirst(job, n, e);
    } else {
      PushAndStop(job, n, k, pending);
      NothingAfterStop(job, n, e, k);
      LiveFirst(job, n, e);
    }
  }

  /** Locks and rollbacks contribute nothing. */
  lemma {:induction false} MarksNotLive(job: Job, i: nat, n: nat, e: nat, k: Key)
    requires i <= n <= e <= |job.slots|
    requires forall p :: i <= p < n ==> IsMark(job.slots[p], k)
    ensures Live(job, i, e) == Live(job, n, e)
  {
    NoneLive(job, i, n);
    LiveSplit(job, i, n, e);
  }

  /** Nothing below a delete, or below the first version at the watermark, is live. */
  lemma {:induction false} NothingAfterStop(job: Job, n: nat, e: nat, k: Key)
    requires n < e <= |job.slots| && forall p :: n <= p < e ==> OfKey(job.slots[p], k)
    requires IsDelete(job.slots[n]) || (IsPut(job.slots[n]) && job.slots[n].commitTs <= job.minTs)
    ensures Live(job, n + 1, e) == []
  {
    NoneLive(job, n + 1, e);
  }

  /** `i` is where a key begins (or the end of the range). */
  ghost predicate KeyStart(s: seq<Slot>, i: nat) {
    i <= |s| && forall j :: 0 <= j < i && i < |s| && s[j].Record? && s[i].Record? ==> s[j].key != s[i].key
  }

  /** Records passed over below the watermark are never reported. */
  lemma {:induction false} SkippedNotReported(job: Job, i: nat, h: nat)
    requires i <= h <= |job.slots|
    requires Sorted(job.slots) && KeyStart(job.slots, i)
    requires forall p :: i <= p < h ==> job.slots[p].Record? && job.slots[p].commitTs <= job.minTs
    ensures forall p :: i <= p < h ==> !Reported(job, p)
  {
  }

  lemma {:induction false} NoneReported(job: Job, lo: nat, hi: nat)
    requires lo <= hi <= |job.slots|
    requires forall p :: lo <= p < hi ==> !Reported(job, p)
    ensures Report(job, lo, hi) == []
    decreases hi - lo
  {
    if lo < hi {
      NoneReported(job, lo + 1, hi);
    }
  }

  lemma {:induction false} ReportSplit(job: Job, lo: nat, mid: nat, hi: nat)
    requires lo <= mid <= hi <= |job.slots|
    ensures Report(job, lo, hi) == Report(job, lo, mid) + Report(job, mid, hi)
    decreases mid - lo
  {
    if lo < mid {
      ReportSplit(job, lo + 1, mid, hi);
    }
  }

  lemma {:induction false} ReportIsLive(job: Job, lo: nat, hi: nat)
    requires lo <= hi <= |job.slots|
    requires forall p :: lo <= p < hi ==> Reported(job, p) == Qualifies(job, p)
    ensures Report(job, lo, hi) == Live(job, lo, hi)
    decreases hi - lo
  {
    if lo < hi {
      ReportIsLive(job, lo + 1, hi);
    }
  }

  lemma {:induction false} LiveWitness(job: Job, lo: nat, hi: nat) returns (p: nat)
    requires lo <= hi <= |job.slots|
    requires Live(job, lo, hi) != []
    ensures lo <= p < hi && Qualifies(job, p)
    decreases hi - lo
  {
    if Qualifies(job, lo) {
      p := lo;
    } else {
      p := LiveWitness(job, lo + 1, hi);
    }
  }

  lemma HeadOpens(job: Job, h: nat, n: nat)
    requires h < |job.slots| && IsPut(job.slots[h]) && job.slots[h].commitTs > job.minTs
    requires KeyStart(job.slots, h) && n == SkipMarks(job.slots, h + 1, job.slots[h].key)
    ensures OpenKey(job, n, job.slots[h].key)
  {
  }

  /** The group collected for a key is its live records, the newest one first. */
  lemma {:induction false} GroupIsLive(job: Job, h: nat)
    requires h < |job.slots| && job.slots[h].Record? && job.slots[h].commitTs > job.minTs
    requires KeyStart(job.slots, h) && CollectKey(job, h).Ok?
    ensures IsPut(job.slots[h])
    ensures var e := CollectKey(job, h).value.1;
            && e == RunEnd(job.slots, h + 1, job.slots[h].key) && (e < |job.slots| ==> job.slots[e].Record?)
            && CollectKey(job, h).value.0 == WithHead(job, h, Live(job, h + 1, e))
  {
    hide Older, Live, Qualifies, OpenKey, KeyStart;
    var s, k := job.slots, job.slots[h].key;
    var n, e := SkipMarks(s, h + 1, k), RunEnd(s, h + 1, k);
    RunEndAfterMarks(s, h + 1, k);
    HeadOpens(job, h, n);
    var pending := if job.keyOnly then None else Some((s[h].write.value, s[h].commitTs));
    OlderLeavesKey(job, n, k, pending);
    OlderPushesLive(job, n, k, pending, e);
    MarksNotLive(job, h + 1, n, e, k);
  }

  function WithHead(job: Job, h: nat, live: seq<KvPair>): seq<KvPair>
    requires h < |job.slots| && IsPut(job.slots[h])
  {
    if live == [] then [] else (if job.keyOnly then [] else [PairAt(job, h)]) + live
  }

  /** The group collected for a key is its reported records. */
  lemma {:induction false} GroupIsReport(job: Job, h: nat)
    requires h < |job.slots| && job.slots[h].Record? && job.slots[h].commitTs > job.minTs
    requires Sorted(job.slots) && KeyStart(job.slots, h)
    requires CollectKey(job, h).Ok?
    ensures var (g, e) := CollectKey(job, h).value;
            e == RunEnd(job.slots, h + 1, job.slots[h].key) && (e < |job.slots| ==> job.slots[e].Record?)
    ensures CollectKey(job, h).value.0 == Report(job, h, CollectKey(job, h).value.1)
  {
    GroupIsLive(job, h);
    var e := CollectKey(job, h).value.1;
    if Live(job, h + 1, e) == [] {
      forall p | h <= p < e
        ensures !Reported(job, p)
      {
        OnlyHeadQualifies(job, h, e, p);
      }
      NoneReported(job, h, e);
    } else {
      AllLiveReported(job, h, e);
    }
  }

  lemma {:induction false} AllLiveReported(job: Job, h: nat, e: nat)
    requires ImportRun(job, h, e) && Live(job, h + 1, e) != []
    ensures Report(job, h, e) == WithHead(job, h, Live(job, h + 1, e))
  {
    hide Live, Report, Qualifies, Reported, Sorted, KeyStart;
    var q := LiveWitness(job, h + 1, e);
    HeadReports(job, h, e);
    ReportFirst(job, h, e);
    forall p | h + 1 <= p < e
      ensures Reported(job, p) == Qualifies(job, p)
    {
      KeyReports(job, h, e, p);
    }
    ReportIsLive(job, h + 1, e);
  }

  lemma {:induction false} OnlyHeadQualifies(job: Job, h: nat, e: nat, p: nat)
    requires h < e <= |job.slots| && h <= p < e
    requires Sorted(job.slots) && KeyStart(job.slots, h) && job.slots[h].Record?
    requires e == RunEnd(job.slots, h + 1, job.slots[h].key)
    requires e < |job.slots| ==> job.slots[e].Record?
    requires Live(job, h + 1, e) == []
    ensures !Reported(job, p)
  {
    hide Live, Sorted, KeyStart;
    var s := job.slots;
    if Reported(job, p) {
      var j: nat :| j != p && (job.keyOnly ==> j < p) && Qualifies(job, j) && s[j].key == s[p].key;
      assert OfKey(s[p], s[h].key);
      SameKeyInRun(job, h, e, j);
      var q := if j > h then j else p;
      LiveHas(job, h + 1, q, e);
    }
  }

  lemma SameKeyInRun(job: Job, h: nat, e: nat, j: nat)
    requires h < e <= |job.slots| && job.slots[h].Record? && Sorted(job.slots) && KeyStart(job.slots, h)
    requires e == RunEnd(job.slots, h + 1, job.slots[h].key) && (e < |job.slots| ==> job.slots[e].Record?)
    requires j < |job.slots| && OfKey(job.slots[j], job.slots[h].key)
    ensures h <= j < e
  {
  }

  lemma {:induction false} LiveHas(job: Job, lo: nat, p: nat, hi: nat)
    requires lo <= p < hi <= |job.slots| && Qualifies(job, p)
    ensures Live(job, lo, hi) != []
    decreases p - lo
  {
    if lo < p {
      LiveHas(job, lo + 1, p, hi);
    }
  }

  // ----- the whole scan

  /** Over every sorted column, in either value mode, what a scan collects is a prefix of the
      pairs of the reported records in column order, and all of them if it meets no error. */
  lemma {:induction false} ScanReportsExactly(job: Job, i: nat)
    requires i <= |job.slots| && Sorted(job.slots) && KeyStart(job.slots, i)
    ensures Flatten(Scan(job, i).groups) <= Report(job, i, |job.slots|)
    ensures Scan(job, i).error.None? ==> Flatten(Scan(job, i).groups) == Report(job, i, |job.slots|)
    decreases |job.slots| - i
  {
    hide Scan, CollectKey, Report, Reported, Sorted, KeyStart;
    var s := job.slots;
    var h := NextImport(s, i, job.minTs);
    ScanSkips(job, i);
    SkippedNotReported(job, i, h);
    NoneReported(job, i, h);
    ReportSplit(job, i, h, |s|);
    if h == |s| {
      NoneReported(job, h, |s|);
    } else if s[h].Record? {
      HeadIsKeyStart(job, i, h);
      ScanHead(job, h);
      if CollectKey(job, h).Ok? {
        GroupIsReport(job, h);
        var e := CollectKey(job, h).value.1;
        NextKeyStart(job, h, e);
        ScanReportsExactly(job, e);
        ReportSplit(job, h, e, |s|);
      }
    }
  }

  lemma {:induction false} HeadIsKeyStart(job: Job, i: nat, h: nat)
    requires i <= h < |job.slots| && job.slots[h].Record? && job.slots[h].commitTs > job.minTs
    requires Sorted(job.slots) && KeyStart(job.slots, i)
    requires forall p :: i <= p < h ==> job.slots[p].Record? && job.slots[p].commitTs <= job.minTs
    ensures KeyStart(job.slots, h)
  {
    var s := job.slots;
    forall j | 0 <= j < h && s[j].Record?
      ensures s[j].key != s[h].key
    {
      assert j < i < h ==> s[j].key < s[i].key <= s[h].key;
    }
  }

  lemma {:induction false} ReportHas(job: Job, lo: nat, hi: nat, p: KvPair)
    requires lo <= hi <= |job.slots|
    ensures p in Report(job, lo, hi) <==> exists i: nat :: lo <= i < hi && Reported(job, i) && PairAt(job, i) == p
    decreases hi - lo
  {
    if lo < hi {
      ReportHas(job, lo + 1, hi, p);
    }
  }

  /** Key ascending, newest version first. */
  ghost predicate Before(p: KvPair, q: KvPair) {
    p.key < q.key || (p.key == q.key && p.commitTs > q.commitTs)
  }

  ghost predicate Ordered(out: seq<KvPair>) {
    forall a, b :: 0 <= a < b < |out| ==> Before(out[a], out[b])
  }

  lemma OrderedFirst(p: KvPair, out: seq<KvPair>)
    requires Ordered(out) && forall q :: q in out ==> Before(p, q)
    ensures Ordered([p] + out)
  {
  }

  lemma ReportFirst(job: Job, lo: nat, hi: nat)
    requires lo < hi <= |job.slots|
    ensures Reported(job, lo) ==> Report(job, lo, hi) == [PairAt(job, lo)] + Report(job, lo + 1, hi)
    ensures !Reported(job, lo) ==> Report(job, lo, hi) == Report(job, lo + 1, hi)
  {
  }

  lemma FirstIsBefore(job: Job, lo: nat, hi: nat, q: KvPair)
    requires lo < hi <= |job.slots| && Sorted(job.slots) && Reported(job, lo) && q in Report(job, lo + 1, hi)
    ensures Before(PairAt(job, lo), q)
  {
    hide Report;
    ReportHas(job, lo + 1, hi, q);
  }

  lemma NothingOrdered(job: Job, i: nat)
    requires i <= |job.slots|
    ensures Ordered(Report(job, i, i))
  {
    hide Reported;
  }

  lemma {:induction false} ReportOrdered(job: Job, lo: nat, hi: nat)
    requires lo <= hi <= |job.slots| && Sorted(job.slots)
    ensures Ordered(Report(job, lo, hi))
    decreases hi - lo
  {
    hide Report, Reported, Ordered, Sorted, Before, PairAt;
    if lo == hi {
      NothingOrdered(job, lo);
    } else {
      ReportOrdered(job, lo + 1, hi);
      ReportFirst(job, lo, hi);
      if Reported(job, lo) {
        ReportedIsPut(job, lo);
        forall q | q in Report(job, lo + 1, hi)
          ensures Before(PairAt(job, lo), q)
        {
          FirstIsBefore(job, lo, hi, q);
        }
        OrderedFirst(PairAt(job, lo), Report(job, lo + 1, hi));
      }
    }
  }

  lemma ReportedIsPut(job: Job, i: nat)
    requires Reported(job, i)
    ensures i < |job.slots| && IsPut(job.slots[i])
  {
  }

  /** Full statement of exactness: for every sorted column and either value mode, an
      error-free scan yields precisely the pairs of the reported records, each once, by key
      and from newest to oldest. */
  lemma {:induction false} DetectionIsExact(job: Job)
    requires Sorted(job.slots)
    requires Scan(job, 0).error.None?
    ensures var out := Flatten(Scan(job, 0).groups);
            && (forall p :: p in out <==> exists i: nat :: Reported(job, i) && PairAt(job, i) == p)
            && Ordered(out)
  {
    ScanReportsExactly(job, 0);
    ReportOrdered(job, 0, |job.slots|);
    var out := Flatten(Scan(job, 0).groups);
    forall p
      ensures p in out <==> exists i: nat :: Reported(job, i) && PairAt(job, i) == p
    {
      ReportHas(job, 0, |job.slots|, p);
    }
  }

  /** What the responses of a run deliver, whether or not it fails: a prefix of the exact
      answer, and the whole of it if no error is met. */
  lemma {:induction false} DeliveredIsExactPrefix(job: Job)
    requires Sorted(job.slots)
    ensures var delivered := Delivered(Responses(Scan(job, 0)));
            && delivered <= Report(job, 0, |job.slots|)
            && (Scan(job, 0).error.None? ==> delivered == Report(job, 0, |job.slots|))
  {
    var o := Scan(job, 0);
    ScanReportsExactly(job, 0);
    BatchingLosesNothing(o);
    var n: nat :| AllBut(o.groups, Delivered(Responses(o)), n);
    FlattenSplit(o.groups, n);
  }

  // ----- when a scan is error-free

  /** The first record of its key. */
  ghost predicate Newest(job: Job, i: nat) {
    i < |job.slots| && job.slots[i].Record? && forall j :: 0 <= j < i ==> !OfKey(job.slots[j], job.slots[i].key)
  }

  /** The walk over the record's key reads its value: the newest record of the key is above
      the watermark and everything newer is readable and a lock, a rollback or such a put. */
  ghost predicate Examined(job: Job, i: nat) {
    var s := job.slots;
    && i < |s| && s[i].Record? && !Newest(job, i)
    && (exists h: nat :: h < i && Newest(job, h) && s[h].key == s[i].key && s[h].commitTs > job.minTs)
    && forall j :: 0 <= j < i && OfKey(s[j], s[i].key) ==>
         s[j].write.Some? && (IsDelete(s[j]) || IsPut(s[j]) ==> IsPut(s[j]) && s[j].commitTs > job.minTs)
  }

  /** The pair of the record can be built. */
  ghost predicate Usable(job: Job, k: Key, w: Write) {
    k !in job.undecodable && (job.keyOnly || ValueOf(job, k, w).Some?)
  }

  /** What a caller can look up in the data: no broken slot, every key that reaches above the
      watermark starts with a put, every record read is well formed, and every reported
      record has a decodable key and, if values are wanted, a value. */
  ghost predicate Clean(job: Job) {
    && (forall i :: 0 <= i < |job.slots| ==> job.slots[i].Record?)
    && (forall i: nat :: Newest(job, i) && job.slots[i].commitTs > job.minTs ==> IsPut(job.slots[i]))
    && (forall i: nat :: Examined(job, i) ==> job.slots[i].write.Some?)
    && (forall i: nat :: Reported(job, i) ==> Usable(job, job.slots[i].key, job.slots[i].write.value))
  }

  /** `Clean` for the records in `lo..hi`. */
  ghost predicate CleanRange(job: Job, lo: nat, hi: nat)
    requires hi <= |job.slots|
  {
    && (forall i :: lo <= i < hi ==> job.slots[i].Record?)
    && (forall i: nat :: lo <= i < hi && Newest(job, i) && job.slots[i].commitTs > job.minTs ==> IsPut(job.slots[i]))
    && (forall i: nat :: lo <= i < hi && Examined(job, i) ==> job.slots[i].write.Some?)
    && (forall i: nat :: lo <= i < hi && Reported(job, i) ==>
          Usable(job, job.slots[i].key, job.slots[i].write.value))
  }

  /** What the walk over one key needs from position `n` on. */
  ghost predicate WalkClean(job: Job, n: nat, e: nat, k: Key, pending: Option<(Write, Ts)>)
    requires n <= e <= |job.slots|
  {
    && (e < |job.slots| ==> job.slots[e].Record?)
    && (forall i: nat :: n <= i < e && Examined(job, i) ==> job.slots[i].write.Some?)
    && (forall i: nat :: n <= i < e && Qualifies(job, i) ==> Usable(job, k, job.slots[i].write.value))
    && (pending.Some? && (exists i: nat :: n <= i < e && Qualifies(job, i)) ==> Usable(job, k, pending.value.0))
  }

  /** Position `n` is reached by the walk over key `k` that started at its newest record. */
  ghost predicate Reached(job: Job, h: nat, n: nat, k: Key) {
    && h < n <= |job.slots| && Newest(job, h) && job.slots[h].key == k && job.slots[h].commitTs > job.minTs
    && OpenKey(job, n, k)
    && (forall j :: h <= j < n ==> OfKey(job.slots[j], k) && job.slots[j].write.Some?)
  }

  lemma ReachedIsExamined(job: Job, h: nat, n: nat, k: Key)
    requires Reached(job, h, n, k) && n < |job.slots| && OfKey(job.slots[n], k)
    ensures Examined(job, n)
    ensures IsPut(job.slots[n]) && (job.slots[n].commitTs > job.minTs || GcFencePasses(job.slots[n].write.value, job.minTs))
            <==> Qualifies(job, n)
  {
    assert forall j :: 0 <= j < n && OfKey(job.slots[j], k) ==> h <= j;
  }

  lemma PushWorks(job: Job, k: Key, pending: Option<(Write, Ts)>, w: Write, ts: Ts)
    requires pending.Some? ==> !job.keyOnly
    ensures PushVersion(job, k, pending, w, ts).Ok? <==>
              Usable(job, k, w) && (pending.Some? ==> Usable(job, k, pending.value.0))
  {
  }

  lemma EndWorks(job: Job, n: nat, k: Key, pending: Option<(Write, Ts)>)
    requires n <= |job.slots| && (n < |job.slots| ==> !OfKey(job.slots[n], k))
    ensures Older(job, n, k, pending).Ok? <==> WalkClean(job, n, n, k, pending)
  {
  }

  lemma UnreadableFails(job: Job, n: nat, e: nat, k: Key, pending: Option<(Write, Ts)>)
    requires n < e <= |job.slots| && OfKey(job.slots[n], k) && job.slots[n].write.None? && Examined(job, n)
    ensures Older(job, n, k, pending).Err? && !WalkClean(job, n, e, k, pending)
  {
  }

  /** The walk over a key succeeds exactly when everything it needs is there. */
  lemma {:induction false} OlderSucceedsIff(job: Job, h: nat, n: nat, k: Key, pending: Option<(Write, Ts)>, e: nat)
    requires Reached(job, h, n, k) && (n < |job.slots| ==> !IsMark(job.slots[n], k))
    requires e == RunEnd(job.slots, n, k) && (pending.Some? ==> !job.keyOnly)
    ensures Older(job, n, k, pending).Ok? <==> WalkClean(job, n, e, k, pending)
    decreases |job.slots| - n
  {
    hide Older, WalkClean, Examined, Qualifies, Usable, Reached;
    var s := job.slots;
    if n == e {
      EndWorks(job, n, k, pending);
    } else {
      ReachedIsExamined(job, h, n, k);
      if s[n].write.None? {
        UnreadableFails(job, n, e, k, pending);
      } else if IsPut(s[n]) && s[n].commitTs > job.minTs {
        var n' := SkipMarks(s, n + 1, k);
        RunEndAfterMarks(s, n + 1, k);
        ReachesOn(job, h, n, n', k);
        OlderSucceedsIff(job, h, n', k, None, e);
        ContinueWorks(job, n, k, pending);
        WalkCleanContinues(job, n, n', e, k, pending);
      } else {
        StopWorks(job, n, k, pending, e);
        WalkCleanStops(job, n, e, k, pending);
      }
    }
  }

  lemma ReachesOn(job: Job, h: nat, n: nat, n': nat, k: Key)
    requires Reached(job, h, n, k) && n < |job.slots| && OfKey(job.slots[n], k) && IsPut(job.slots[n])
    requires job.slots[n].commitTs > job.minTs && n' == SkipMarks(job.slots, n + 1, k)
    ensures Reached(job, h, n', k)
  {
  }

  lemma ContinueWorks(job: Job, n: nat, k: Key, pending: Option<(Write, Ts)>)
    requires n < |job.slots| && OfKey(job.slots[n], k) && IsPut(job.slots[n])
    requires job.slots[n].commitTs > job.minTs && (pending.Some? ==> !job.keyOnly)
    ensures Older(job, n, k, pending).Ok? <==>
            && Older(job, SkipMarks(job.slots, n + 1, k), k, None).Ok?
            && Usable(job, k, job.slots[n].write.value) && (pending.Some? ==> Usable(job, k, pending.value.0))
  {
    PushWorks(job, k, pending, job.slots[n].write.value, job.slots[n].commitTs);
  }

  lemma StopWorks(job: Job, n: nat, k: Key, pending: Option<(Write, Ts)>, e: nat)
    requires n < e <= |job.slots| && e == RunEnd(job.slots, n, k) && !IsMark(job.slots[n], k)
    requires IsDelete(job.slots[n]) || (IsPut(job.slots[n]) && job.slots[n].commitTs <= job.minTs)
    requires pending.Some? ==> !job.keyOnly
    ensures Older(job, n, k, pending).Ok? <==>
            && (e < |job.slots| ==> job.slots[e].Record?)
            && (IsPut(job.slots[n]) && GcFencePasses(job.slots[n].write.value, job.minTs) ==>
                  Usable(job, k, job.slots[n].write.value) && (pending.Some? ==> Usable(job, k, pending.value.0)))
  {
    PushWorks(job, k, pending, job.slots[n].write.value, job.slots[n].commitTs);
  }

  lemma WalkCleanContinues(job: Job, n: nat, n': nat, e: nat, k: Key, pending: Option<(Write, Ts)>)
    requires n < n' <= e <= |job.slots| && Qualifies(job, n)
    requires forall p :: n < p < n' ==> IsMark(job.slots[p], k)
    ensures WalkClean(job, n, e, k, pending) <==>
            && WalkClean(job, n', e, k, None) && Usable(job, k, job.slots[n].write.value)
            && (pending.Some? ==> Usable(job, k, pending.value.0))
  {
  }

  lemma WalkCleanStops(job: Job, n: nat, e: nat, k: Key, pending: Option<(Write, Ts)>)
    requires n < e <= |job.slots| && job.slots[n].Record? && job.slots[n].write.Some?
    requires forall p :: n <= p < e ==> OfKey(job.slots[p], k)
    requires IsDelete(job.slots[n]) || (IsPut(job.slots[n]) && job.slots[n].commitTs <= job.minTs)
    ensures WalkClean(job, n, e, k, pending) <==>
            && (e < |job.slots| ==> job.slots[e].Record?)
            && (Qualifies(job, n) ==> Usable(job, k, job.slots[n].write.value)
                                      && (pending.Some? ==> Usable(job, k, pending.value.0)))
  {
  }

  /** `h..e` is the whole run of one key whose newest record is a put above the watermark. */
  ghost predicate ImportRun(job: Job, h: nat, e: nat) {
    && h < e <= |job.slots| && Sorted(job.slots) && KeyStart(job.slots, h)
    && IsPut(job.slots[h]) && job.slots[h].commitTs > job.minTs
    && e == RunEnd(job.slots, h + 1, job.slots[h].key) && (e < |job.slots| ==> job.slots[e].Record?)
  }

  /** Within one key, the newest record qualifies and the others are reported if they do. */
  lemma KeyReports(job: Job, h: nat, e: nat, i: nat)
    requires ImportRun(job, h, e) && h < i < e
    ensures OfKey(job.slots[i], job.slots[h].key) && !Newest(job, i)
    ensures Reported(job, i) == Qualifies(job, i)
  {
    assert OfKey(job.slots[i], job.slots[h].key);
    assert Qualifies(job, h);
  }

  lemma HeadReports(job: Job, h: nat, e: nat)
    requires ImportRun(job, h, e)
    ensures Newest(job, h)
    ensures Reported(job, h) <==> !job.keyOnly && exists j: nat :: h < j < e && Qualifies(job, j)
  {
    var s := job.slots;
    assert Qualifies(job, h);
    assert forall j :: h < j < e ==> OfKey(s[j], s[h].key);
  }

  lemma {:induction false} KeySucceedsIff(job: Job, h: nat, e: nat)
    requires h < |job.slots| && job.slots[h].Record? && job.slots[h].commitTs > job.minTs
    requires Sorted(job.slots) && KeyStart(job.slots, h)
    requires e == RunEnd(job.slots, h + 1, job.slots[h].key)
    ensures CollectKey(job, h).Ok? <==> CleanRange(job, h, e) && (e < |job.slots| ==> job.slots[e].Record?)
  {
    var s, k := job.slots, job.slots[h].key;
    assert Newest(job, h);
    if IsPut(s[h]) {
      var n := SkipMarks(s, h + 1, k);
      RunEndAfterMarks(s, h + 1, k);
      var pending := if job.keyOnly then None else Some((s[h].write.value, s[h].commitTs));
      HeadReaches(job, h, n);
      OlderSucceedsIff(job, h, n, k, pending, e);
      if e < |s| ==> s[e].Record? {
        if WalkClean(job, n, e, k, pending) {
          WalkToRange(job, h, n, e, pending);
        }
        if CleanRange(job, h, e) {
          RangeToWalk(job, h, n, e, pending);
        }
      }
    }
  }

  lemma HeadReaches(job: Job, h: nat, n: nat)
    requires h < |job.slots| && IsPut(job.slots[h]) && job.slots[h].commitTs > job.minTs
    requires KeyStart(job.slots, h) && n == SkipMarks(job.slots, h + 1, job.slots[h].key)
    ensures Reached(job, h, n, job.slots[h].key)
  {
  }

  lemma WalkToRange(job: Job, h: nat, n: nat, e: nat, pending: Option<(Write, Ts)>)
    requires ImportRun(job, h, e) && h < n <= e
    requires forall p :: h < p < n ==> IsMark(job.slots[p], job.slots[h].key)
    requires pending == if job.keyOnly then None else Some((job.slots[h].write.value, job.slots[h].commitTs))
    requires WalkClean(job, n, e, job.slots[h].key, pending)
    ensures CleanRange(job, h, e)
  {
    HeadReports(job, h, e);
    forall i: nat | h < i < e
      ensures job.slots[i].Record? && !Newest(job, i)
      ensures Examined(job, i) ==> job.slots[i].write.Some?
      ensures Reported(job, i) ==> Usable(job, job.slots[i].key, job.slots[i].write.value)
    {
      KeyReports(job, h, e, i);
      assert i < n ==> IsMark(job.slots[i], job.slots[h].key);
    }
    if Reported(job, h) {
      var j: nat :| h < j < e && Qualifies(job, j);
      assert n <= j < e;
    }
  }

  lemma RangeToWalk(job: Job, h: nat, n: nat, e: nat, pending: Option<(Write, Ts)>)
    requires ImportRun(job, h, e) && h < n <= e
    requires pending == if job.keyOnly then None else Some((job.slots[h].write.value, job.slots[h].commitTs))
    requires CleanRange(job, h, e)
    ensures WalkClean(job, n, e, job.slots[h].key, pending)
  {
    HeadReports(job, h, e);
    forall i: nat | n <= i < e && Qualifies(job, i)
      ensures Usable(job, job.slots[h].key, job.slots[i].write.value)
    {
      KeyReports(job, h, e, i);
    }
  }

  /** Records passed over below the watermark ask for nothing. */
  lemma SkippedIsClean(job: Job, i: nat, h: nat)
    requires i <= h <= |job.slots| && Sorted(job.slots) && KeyStart(job.slots, i)
    requires forall p :: i <= p < h ==> job.slots[p].Record? && job.slots[p].commitTs <= job.minTs
    ensures CleanRange(job, i, h)
  {
    SkippedNotReported(job, i, h);
    forall p: nat | i <= p < h
      ensures !Examined(job, p)
    {
    }
  }

  /** The error-free scans are exactly those over clean data. */
  lemma {:induction false} ScanSucceedsIff(job: Job, i: nat)
    requires i <= |job.slots| && Sorted(job.slots) && KeyStart(job.slots, i)
    ensures Scan(job, i).error.None? <==> CleanRange(job, i, |job.slots|)
    decreases |job.slots| - i
  {
    hide Scan, CollectKey, CleanRange, Report, Sorted, KeyStart;
    var s := job.slots;
    var h := NextImport(s, i, job.minTs);
    ScanSkips(job, i);
    SkippedIsClean(job, i, h);
    if h < |s| && s[h].Record? {
      HeadIsKeyStart(job, i, h);
      ScanHead(job, h);
      var e := RunEnd(s, h + 1, s[h].key);
      KeySucceedsIff(job, h, e);
      CleanJoin(job, i, h, e);
      if CollectKey(job, h).Ok? {
        GroupIsReport(job, h);
        NextKeyStart(job, h, e);
        ScanSucceedsIff(job, e);
      } else if e < |s| && s[e].Broken? {
        BrokenIsNotClean(job, e, |s|, e);
      }
    } else if h < |s| {
      BrokenIsNotClean(job, i, |s|, h);
    }
  }

  lemma BrokenIsNotClean(job: Job, lo: nat, hi: nat, p: nat)
    requires lo <= p < hi <= |job.slots| && job.slots[p].Broken?
    ensures !CleanRange(job, lo, hi)
  {
  }

  lemma NextKeyStart(job: Job, h: nat, e: nat)
    requires h < e <= |job.slots| && job.slots[h].Record? && Sorted(job.slots) && KeyStart(job.slots, h)
    requires e == RunEnd(job.slots, h + 1, job.slots[h].key)
    ensures KeyStart(job.slots, e)
  {
    var s := job.slots;
    forall j | 0 <= j < e && e < |s| && s[j].Record? && s[e].Record?
      ensures s[j].key != s[e].key
    {
      assert h < j ==> OfKey(s[j], s[h].key);
    }
  }

  lemma CleanJoin(job: Job, i: nat, h: nat, e: nat)
    requires i <= h <= e <= |job.slots|
    ensures CleanRange(job, i, |job.slots|) <==>
            CleanRange(job, i, h) && CleanRange(job, h, e) && CleanRange(job, e, |job.slots|)
  {
  }

  /** A run is error-free if and only if the data is clean, in either value mode. */
  lemma {:induction false} ErrorFreeIffClean(job: Job)
    requires Sorted(job.slots)
    ensures Scan(job, 0).error.None? <==> Clean(job)
  {
    hide Scan, Clean, CleanRange, Sorted;
    ScanSucceedsIff(job, 0);
    CleanIsRange(job);
  }

  lemma CleanIsRange(job: Job)
    ensures Clean(job) <==> CleanRange(job, 0, |job.slots|)
  {
  }

  // ----- the two value modes

  /** A group without its newest pair and without values. */
  function Blank(g: seq<KvPair>): seq<KvPair> {
    if g == [] then [] else Unvalued(g[1..])
  }

  /** The pairs with their values removed. */
  function Unvalued(g: seq<KvPair>): seq<KvPair> {
    seq(|g|, i requires 0 <= i < |g| => g[i].(value := None))
  }

  function Full(job: Job): Job {
    job.(keyOnly := false)
  }

  function KeysOf(job: Job): Job {
    job.(keyOnly := true)
  }

  /** Where the full-value walk succeeds, the key-only walk pushes the same pairs without
      values, and without the pending newest one. */
  lemma {:induction false} OlderInBothModes(job: Job, n: nat, k: Key, pending: Option<(Write, Ts)>)
    requires n <= |job.slots| && (n < |job.slots| ==> !IsMark(job.slots[n], k))
    requires Older(Full(job), n, k, pending).Ok?
    ensures var full, keys := Older(Full(job), n, k, pending).value, Older(KeysOf(job), n, k, None);
            && keys.Ok? && keys.value.1 == full.1
            && keys.value.0 == if pending.None? then Unvalued(full.0) else Blank(full.0)
    decreases |job.slots| - n
  {
    var s := job.slots;
    if n < |s| && OfKey(s[n], k) && IsPut(s[n]) && s[n].commitTs > job.minTs {
      OlderInBothModes(job, SkipMarks(s, n + 1, k), k, None);
      var rest := Older(Full(job), SkipMarks(s, n + 1, k), k, None).value.0;
      PushInBothModes(job, k, pending, s[n].write.value, s[n].commitTs, rest);
    } else if n < |s| && OfKey(s[n], k) && s[n].write.Some? {
      if IsPut(s[n]) && GcFencePasses(s[n].write.value, job.minTs) {
        PushInBothModes(job, k, pending, s[n].write.value, s[n].commitTs, []);
        var g := PushVersion(Full(job), k, pending, s[n].write.value, s[n].commitTs).value;
        assert g + [] == g;
      }
    }
  }

  lemma PushInBothModes(job: Job, k: Key, pending: Option<(Write, Ts)>, w: Write, ts: Ts, rest: seq<KvPair>)
    requires PushVersion(Full(job), k, pending, w, ts).Ok?
    ensures PushVersion(KeysOf(job), k, None, w, ts) == Ok([KvPair(k, ts, None)])
    ensures var g := PushVersion(Full(job), k, pending, w, ts).value;
            [KvPair(k, ts, None)] + Unvalued(rest) == if pending.None? then Unvalued(g + rest) else Blank(g + rest)
  {
    assert [] + [KvPair(k, ts, None)] == [KvPair(k, ts, None)];
    var g := PushVersion(Full(job), k, pending, w, ts).value;
    var last := g[|g| - 1];
    assert last.(value := None) == KvPair(k, ts, None);
    assert g == if pending.None? then [last] else [g[0], last];
    BlankPush(last, rest);
    assert pending.Some? ==> (g + rest)[1..] == [last] + rest;
  }

  lemma BlankPush(p: KvPair, rest: seq<KvPair>)
    ensures Unvalued([p] + rest) == [p.(value := None)] + Unvalued(rest)
  {
  }

  lemma CollectInBothModes(job: Job, h: nat)
    requires h < |job.slots| && job.slots[h].Record? && CollectKey(Full(job), h).Ok?
    ensures var full, keys := CollectKey(Full(job), h).value, CollectKey(KeysOf(job), h);
            keys == Ok((Blank(full.0), full.1))
  {
    hide Older, Blank;
    var Record(k, ts, w) := job.slots[h];
    OlderInBothModes(job, SkipMarks(job.slots, h + 1, k), k, Some((w.value, ts)));
  }

  /** Two-run relation: whenever the full-value scan is error-free, so is the key-only scan
      of the same data, and its groups are the same pairs in the same order, minus the newest
      pair of each group and with all values absent. */
  lemma {:induction false} KeyOnlyDropsNewest(job: Job, i: nat)
    requires i <= |job.slots|
    requires Scan(Full(job), i).error.None?
    ensures var full, keys := Scan(Full(job), i), Scan(KeysOf(job), i);
            && keys.error.None? && |keys.groups| == |full.groups|
            && forall g :: 0 <= g < |full.groups| ==> keys.groups[g] == Blank(full.groups[g])
    decreases |job.slots| - i
  {
    hide Scan, CollectKey, Blank;
    var s := job.slots;
    var h := NextImport(s, i, job.minTs);
    ScanSkips(Full(job), i);
    ScanSkips(KeysOf(job), i);
    if h < |s| && s[h].Record? {
      ScanHead(Full(job), h);
      ScanHead(KeysOf(job), h);
      CollectInBothModes(job, h);
      KeyOnlyDropsNewest(job, CollectKey(Full(job), h).value.1);
    }
  }

  // ----- batches

  /** Response `i` carries exactly the groups `cuts[i]..cuts[i + 1]`; the groups behind the
      last cut hold less than a batch, and no pair at all unless an error follows. */
  ghost predicate CutInto(o: Outcome, rs: seq<Response>, cuts: seq<nat>) {
    && |cuts| >= 1 && cuts[0] == 0 && cuts[|cuts| - 1] <= |o.groups|
    && (forall i, j :: 0 <= i < j < |cuts| ==> cuts[i] < cuts[j])
    && |rs| == |cuts| - 1 + (if o.error.Some? then 1 else 0)
    && (forall i :: 0 <= i < |cuts| - 1 ==> rs[i] == Pairs(Flatten(o.groups[cuts[i]..cuts[i + 1]])))
    && (o.error.Some? ==> rs[|rs| - 1] == KeyError(o.error.value))
    && |Flatten(o.groups[cuts[|cuts| - 1]..])| < MAX_SCAN_BATCH_COUNT
    && (o.error.None? ==> Flatten(o.groups[cuts[|cuts| - 1]..]) == [])
  }

  lemma {:induction false} FlattenSplit<T>(gs: seq<seq<T>>, n: nat)
    requires n <= |gs|
    ensures Flatten(gs) == Flatten(gs[..n]) + Flatten(gs[n..])
  {
    if n > 0 {
      FlattenSplit(gs[1..], n - 1);
      assert gs[..n][1..] == gs[1..][..n - 1];
      assert gs[1..][n - 1..] == gs[n..];
    } else {
      assert gs[..0] == [] && gs[0..] == gs;
    }
  }

  lemma {:induction false} CutStopsEarly(gs: seq<seq<KvPair>>, have: nat)
    ensures have + |Flatten(gs[..Cut(gs, have)])| < MAX_SCAN_BATCH_COUNT ==> Cut(gs, have) == |gs|
    decreases gs
  {
    if gs != [] && have + |gs[0]| < MAX_SCAN_BATCH_COUNT {
      var n := Cut(gs[1..], have + |gs[0]|);
      CutStopsEarly(gs[1..], have + |gs[0]|);
      assert gs[..n + 1][1..] == gs[1..][..n];
    } else if gs != [] {
      assert gs[..1][1..] == [];
    }
  }

  /** No key's group is ever split across responses, on any scan, failed or not. */
  lemma {:induction false} BatchesAreWholeGroups(o: Outcome)
    ensures exists cuts :: CutInto(o, Responses(o), cuts)
    decreases |o.groups|
  {
    var gs, n := o.groups, Cut(o.groups, 0);
    CutStopsEarly(gs, 0);
    if |Flatten(gs[..n])| >= MAX_SCAN_BATCH_COUNT {
      var rest := Outcome(gs[n..], o.error);
      BatchesAreWholeGroups(rest);
      var cuts :| CutInto(rest, Responses(rest), cuts);
      PrefixCut(o, n, Responses(rest), cuts);
      assert CutInto(o, Responses(o), [0] + Moved(cuts, n));
    } else {
      assert gs[..n] == gs;
      LastResponses(o);
      LastCut(o, Responses(o));
    }
  }

  lemma LastCut(o: Outcome, rs: seq<Response>)
    requires |Flatten(o.groups)| < MAX_SCAN_BATCH_COUNT
    requires rs == if o.error.Some? then [KeyError(o.error.value)]
                   else if Flatten(o.groups) == [] then [] else [Pairs(Flatten(o.groups))]
    ensures exists cuts :: CutInto(o, rs, cuts)
  {
    var gs := o.groups;
    assert gs[0..] == gs;
    if o.error.Some? || Flatten(gs) == [] {
      assert CutInto(o, rs, [0]);
    } else {
      assert gs[0..|gs|] == gs && gs[|gs|..] == [];
      assert CutInto(o, rs, [0, |gs|]);
    }
  }

  /** Putting one more batch, of the first `n` groups, in front moves every cut by `n`. */
  lemma PrefixCut(o: Outcome, n: nat, rs: seq<Response>, cuts: seq<nat>)
    requires 0 < n <= |o.groups|
    requires CutInto(Outcome(o.groups[n..], o.error), rs, cuts)
    ensures CutInto(o, [Pairs(Flatten(o.groups[..n]))] + rs, [0] + Moved(cuts, n))
  {
    hide Flatten;
    var gs, all, moved := o.groups, [Pairs(Flatten(o.groups[..n]))] + rs, [0] + Moved(cuts, n);
    forall i | 0 <= i < |moved| - 1
      ensures all[i] == Pairs(Flatten(gs[moved[i]..moved[i + 1]]))
    {
      if i == 0 {
        assert gs[0..n] == gs[..n];
      } else {
        assert gs[n..][cuts[i - 1]..cuts[i]] == gs[moved[i]..moved[i + 1]];
      }
    }
    assert gs[n..][cuts[|cuts| - 1]..] == gs[moved[|moved| - 1]..];
  }

  function Moved(cuts: seq<nat>, n: nat): (r: seq<nat>)
    ensures |r| == |cuts| && forall i :: 0 <= i < |r| ==> r[i] == cuts[i] + n
  {
    seq(|cuts|, i requires 0 <= i < |cuts| => cuts[i] + n)
  }

  /** `d` is the pairs of the first `n` groups, and less than one batch is left. */
  ghost predicate AllBut(gs: seq<seq<KvPair>>, d: seq<KvPair>, n: nat) {
    n <= |gs| && d == Flatten(gs[..n]) && |Flatten(gs[n..])| < MAX_SCAN_BATCH_COUNT
  }

  lemma AllButPrefix(gs: seq<seq<KvPair>>, n: nat, d: seq<KvPair>, m: nat)
    requires n <= |gs| && AllBut(gs[n..], d, m)
    ensures AllBut(gs, Flatten(gs[..n]) + d, n + m)
  {
    FlattenSplit(gs[..n + m], n);
    assert gs[..n + m][..n] == gs[..n] && gs[..n + m][n..] == gs[n..][..m];
    assert gs[n..][m..] == gs[n + m..];
  }

  /** Batching loses nothing: the pairs delivered are a prefix of the scan's pairs made of
      whole groups; without an error they are all of them, and with an error fewer than one
      batch of pairs is dropped. */
  lemma {:induction false} BatchingLosesNothing(o: Outcome)
    ensures exists n: nat :: AllBut(o.groups, Delivered(Responses(o)), n)
    ensures o.error.None? ==> Delivered(Responses(o)) == Flatten(o.groups)
    decreases |o.groups|
  {
    var gs, n := o.groups, Cut(o.groups, 0);
    CutStopsEarly(gs, 0);
    FlattenSplit(gs, n);
    if |Flatten(gs[..n])| >= MAX_SCAN_BATCH_COUNT {
      var rest := Outcome(gs[n..], o.error);
      BatchingLosesNothing(rest);
      var m: nat :| AllBut(rest.groups, Delivered(Responses(rest)), m);
      AllButPrefix(gs, n, Delivered(Responses(rest)), m);
      assert Responses(o)[1..] == Responses(rest);
      assert AllBut(gs, Delivered(Responses(o)), n + m);
    } else {
      LastBatch(o);
    }
  }

  lemma LastResponses(o: Outcome)
    requires Cut(o.groups, 0) == |o.groups| && |Flatten(o.groups)| < MAX_SCAN_BATCH_COUNT
    ensures Responses(o) == if o.error.Some? then [KeyError(o.error.value)]
                            else if Flatten(o.groups) == [] then [] else [Pairs(Flatten(o.groups))]
  {
    assert o.groups[..|o.groups|] == o.groups;
  }

  lemma LastBatch(o: Outcome)
    requires Cut(o.groups, 0) == |o.groups| && |Flatten(o.groups)| < MAX_SCAN_BATCH_COUNT
    ensures Delivered(Responses(o)) == if o.error.Some? then [] else Flatten(o.groups)
    ensures AllBut(o.groups, Delivered(Responses(o)), if o.error.Some? then 0 else |o.groups|)
  {
    var gs := o.groups;
    assert gs[..|gs|] == gs && gs[0..] == gs && gs[..0] == [] && gs[|gs|..] == [];
    LastResponses(o);
  }

  /** Every response but the last is a full batch, an error is always the last response, and
      no batch is empty. */
  lemma {:induction false} BatchSizes(o: Outcome)
    ensures var rs := Responses(o);
            && (forall i :: 0 <= i < |rs| - 1 ==> rs[i].Pairs? && |rs[i].pairs| >= MAX_SCAN_BATCH_COUNT)
            && (forall i :: 0 <= i < |rs| && rs[i].Pairs? ==> rs[i].pairs != [])
            && (o.error.Some? <==> rs != [] && rs[|rs| - 1].KeyError?)
    decreases |o.groups|
  {
    var n := Cut(o.groups, 0);
    if |Flatten(o.groups[..n])| >= MAX_SCAN_BATCH_COUNT {
      BatchSizes(Outcome(o.groups[n..], o.error));
    }
  }
}
