/** The time-slice inspector: an exponentially weighted moving average over windows of poll
    durations.  Durations are real numbers of seconds. */
module TimeSlice {
  import opened Wrappers

  const WEIGHT: real := 0.3
  const DECAY: real := 0.7
  const MIN_TIME_DIFF: real := 0.1
  const U32_RANGE: nat := 0x1_0000_0000

  /** The total of the three per-level histograms at one moment. */
  datatype Sample = Sample(sum: real, count: nat)

  datatype Inspector = Inspector(ewma: real, lastSum: real, lastCount: nat)

  /** An accepted window: its duration, its number of polls and the value taken from it. */
  datatype Window = Window(time: real, count: nat, value: real)

  datatype Outcome = Skipped | Panics | Updated(i: Inspector, w: Window)

  function SaturatingSub(a: real, b: real): real {
    if a < b then 0.0 else a - b
  }

  function SaturatingSubCount(a: nat, b: nat): nat {
    if a < b then 0 else a - b
  }

  /** The update: the divisor is the window's count truncated to 32 bits, and a zero divisor is
      a panic. */
  function Update(i: Inspector, s: Sample): Outcome {
    var time := SaturatingSub(s.sum, i.lastSum);
    var count := SaturatingSubCount(s.count, i.lastCount);
    if time < MIN_TIME_DIFF || count == 0 then Skipped
    else if count % U32_RANGE == 0 then Panics
    else
      var v := time / (count % U32_RANGE) as real;
      Updated(Inspector(v * WEIGHT + i.ewma * DECAY, s.sum, s.count), Window(time, count, v))
  }

  class TimeSliceInspector {
    var ewma: real
    var lastSum: real
    var lastCount: nat
    var mirror: real   // the atomic copy read by the gRPC threads

    ghost function View(): Inspector
      reads this
    {
      Inspector(ewma, lastSum, lastCount)
    }

    ghost predicate Valid()
      reads this
    {
      mirror == ewma
    }

    constructor ()
      ensures Valid() && View() == Inspector(0.0, 0.0, 0)
    {
      ewma, lastSum, lastCount, mirror := 0.0, 0.0, 0, 0.0;
    }

    /** `false` stands for the panic of a division by zero. */
    method Refresh(hists: seq<Sample>) returns (ok: bool)
      requires Valid()
      modifies this
      ensures Valid()
      ensures match Update(old(View()), Total(hists))
              case Skipped => ok && View() == old(View())
              case Panics => !ok && View() == old(View())
              case Updated(i, _) => ok && View() == i
    {
      var newSum, newCount := SumHistograms(hists);
      var timeDiff := SaturatingSub(newSum, lastSum);
      var countDiff := SaturatingSubCount(newCount, lastCount);
      if timeDiff < MIN_TIME_DIFF || countDiff == 0 {
        return true;
      }
      var divisor := (newCount - lastCount) % U32_RANGE;
      if divisor == 0 {
        return false;
      }
      var newVal := timeDiff / divisor as real;
      ewma := newVal * WEIGHT + ewma * DECAY;
      lastSum := newSum;
      lastCount := newCount;
      mirror := ewma;
      return true;
    }

    /** What other threads read without taking the lock is the current average. */
    method GetEwmaTimeSlice() returns (t: real)
      requires Valid()
      ensures t == View().ewma
    {
      t := mirror;
    }
  }

  method SumHistograms(hists: seq<Sample>) returns (sum: real, count: nat)
    ensures Sample(sum, count) == Total(hists)
  {
    sum, count := 0.0, 0;
    for k := 0 to |hists|
      invariant Sample(sum, count) == Total(hists[..k])
    {
      TotalAppend(hists[..k], hists[k]);
      assert hists[..k + 1] == hists[..k] + [hists[k]];
      sum := sum + hists[k].sum;
      count := count + hists[k].count;
    }
    assert hists[..|hists|] == hists;
  }

  function Total(hists: seq<Sample>): Sample {
    if hists == [] then Sample(0.0, 0)
    else
      var t, h := Total(hists[..|hists| - 1]), hists[|hists| - 1];
      Sample(t.sum + h.sum, t.count + h.count)
  }

  lemma TotalAppend(hists: seq<Sample>, h: Sample)
    ensures Total(hists + [h]) == Sample(Total(hists).sum + h.sum, Total(hists).count + h.count)
  {
    assert (hists + [h])[..|hists|] == hists;
  }

  // ----- whole runs

  /** The windows accepted by a run of updates, and the final state; `None` after a panic. */
  ghost function Windows(i: Inspector, ss: seq<Sample>): Option<(Inspector, seq<Window>)>
    decreases |ss|
  {
    if ss == [] then Some((i, []))
    else
      match Update(i, ss[0])
      case Panics => None
      case Skipped => Windows(i, ss[1..])
      case Updated(i', w) =>
        var rest := Windows(i', ss[1..]);
        if rest.None? then None else Some((rest.value.0, [w] + rest.value.1))
  }

  ghost function TimeOf(ws: seq<Window>): real {
    if ws == [] then 0.0 else ws[0].time + TimeOf(ws[1..])
  }

  ghost function CountOf(ws: seq<Window>): nat {
    if ws == [] then 0 else ws[0].count + CountOf(ws[1..])
  }

  /** The accepted windows partition all samples up to the last accepted one: skipped updates
      lose nothing. */
  lemma {:induction false} WindowsPartition(i: Inspector, ss: seq<Sample>)
    requires Windows(i, ss).Some?
    ensures var (end, ws) := Windows(i, ss).value;
            TimeOf(ws) == end.lastSum - i.lastSum && CountOf(ws) == end.lastCount - i.lastCount
    decreases |ss|
  {
    if ss != [] {
      match Update(i, ss[0])
      case Skipped => WindowsPartition(i, ss[1..]);
      case Updated(i', w) =>
        WindowsPartition(i', ss[1..]);
        var rest := Windows(i', ss[1..]).value.1;
        assert ([w] + rest)[1..] == rest;
    }
  }

  function Pow(b: real, n: nat): real {
    if n == 0 then 1.0 else b * Pow(b, n - 1)
  }

  /** The closed form of the weighted sum. */
  ghost function Weighted(ws: seq<Window>): real {
    if ws == [] then 0.0 else WEIGHT * Pow(DECAY, |ws| - 1) * ws[0].value + Weighted(ws[1..])
  }

  /** Closed form: after the windows `ws` the average is the old one decayed once per window
      plus the weighted sum of the window values. */
  lemma {:induction false} EwmaClosedForm(i: Inspector, ss: seq<Sample>)
    requires Windows(i, ss).Some?
    ensures var (end, ws) := Windows(i, ss).value;
            end.ewma == Pow(DECAY, |ws|) * i.ewma + Weighted(ws)
    decreases |ss|
  {
    hide Pow, Weighted;
    if ss == [] {
      NoWindows(i.ewma);
    } else {
      match Update(i, ss[0])
      case Skipped => EwmaClosedForm(i, ss[1..]);
      case Updated(i', w) =>
        EwmaClosedForm(i', ss[1..]);
        var (end, rest) := Windows(i', ss[1..]).value;
        WeightedFirst(w, rest);
        Distribute(Pow(DECAY, |rest|), w.value, i.ewma);
    }
  }

  lemma NoWindows(e: real)
    ensures e == Pow(DECAY, 0) * e + Weighted([])
  {
  }

  lemma WeightedFirst(w: Window, rest: seq<Window>)
    ensures Weighted([w] + rest) == WEIGHT * Pow(DECAY, |rest|) * w.value + Weighted(rest)
    ensures Pow(DECAY, |[w] + rest|) == DECAY * Pow(DECAY, |rest|)
  {
    assert ([w] + rest)[1..] == rest;
  }

  lemma Distribute(p: real, v: real, e: real)
    ensures p * (v * WEIGHT + e * DECAY) == (DECAY * p) * e + WEIGHT * p * v
  {
  }

  lemma {:induction false} PowBounds(n: nat)
    ensures 0.0 < Pow(DECAY, n) <= 1.0
  {
    if n > 0 {
      PowBounds(n - 1);
    }
  }

  /** The weights of `n` windows sum to one less the decay of the start. */
  lemma {:induction false} WeightedBelow(ws: seq<Window>, bound: real)
    requires forall k :: 0 <= k < |ws| ==> ws[k].value <= bound
    ensures Weighted(ws) <= (1.0 - Pow(DECAY, |ws|)) * bound
    decreases |ws|
  {
    if ws != [] {
      WeightedBelow(ws[1..], bound);
      var p, v := Pow(DECAY, |ws| - 1), ws[0].value;
      PowBounds(|ws| - 1);
      ScaledLeq(WEIGHT * p, v, bound);
      assert Weighted(ws) <= WEIGHT * p * bound + (1.0 - p) * bound;
      assert Pow(DECAY, |ws|) == DECAY * p;
      assert WEIGHT * p * bound + (1.0 - p) * bound == (1.0 - DECAY * p) * bound;
    }
  }

  lemma ScaledLeq(c: real, a: real, b: real)
    requires c >= 0.0 && a <= b
    ensures c * a <= c * b
  {
  }

  /** In numbers: a new window weighs three tenths and everything before it seven. */
  lemma NewWindowWeighsThreeTenths(i: Inspector, s: Sample)
    ensures var u := Update(i, s);
            u.Updated? ==> 10.0 * u.i.ewma == 3.0 * u.w.value + 7.0 * i.ewma
    ensures Update(i, s).Skipped? <==> s.sum - i.lastSum < 0.1 || s.count <= i.lastCount
  {
  }

  /** From a fresh inspector, the average never exceeds the largest window value. */
  lemma {:induction false} EwmaBelowLargestWindow(ss: seq<Sample>, bound: real)
    requires Windows(Inspector(0.0, 0.0, 0), ss).Some? && bound >= 0.0
    requires var ws := Windows(Inspector(0.0, 0.0, 0), ss).value.1;
             forall k :: 0 <= k < |ws| ==> ws[k].value <= bound
    ensures Windows(Inspector(0.0, 0.0, 0), ss).value.0.ewma <= bound
  {
    hide Windows, Pow, Weighted;
    var (end, ws) := Windows(Inspector(0.0, 0.0, 0), ss).value;
    EwmaClosedForm(Inspector(0.0, 0.0, 0), ss);
    WeightedBelow(ws, bound);
    PowBounds(|ws|);
    ScaledLeq(bound, 1.0 - Pow(DECAY, |ws|), 1.0);
  }

  lemma {:induction false} WeightedConstant(ws: seq<Window>, v: real)
    requires forall k :: 0 <= k < |ws| ==> ws[k].value == v
    ensures Weighted(ws) == (1.0 - Pow(DECAY, |ws|)) * v
    decreases |ws|
  {
    if ws != [] {
      WeightedConstant(ws[1..], v);
      var p := Pow(DECAY, |ws| - 1);
      assert Pow(DECAY, |ws|) == DECAY * p;
      assert WEIGHT * p * v + (1.0 - p) * v == (1.0 - DECAY * p) * v;
    }
  }

  /** Under windows of constant value the error decays by exactly the factor 0.7 per window. */
  lemma {:induction false} EwmaConverges(i: Inspector, ss: seq<Sample>, v: real)
    requires Windows(i, ss).Some?
    requires var ws := Windows(i, ss).value.1; forall k :: 0 <= k < |ws| ==> ws[k].value == v
    ensures var (end, ws) := Windows(i, ss).value;
            end.ewma - v == Pow(DECAY, |ws|) * (i.ewma - v)
  {
    var (end, ws) := Windows(i, ss).value;
    EwmaClosedForm(i, ss);
    WeightedConstant(ws, v);
    var p := Pow(DECAY, |ws|);
    assert p * i.ewma + (1.0 - p) * v - v == p * (i.ewma - v);
  }

  /** The value of a window is its average poll time if and only if it holds fewer than 2^32
      polls; an update panics exactly on a positive multiple of 2^32. */
  lemma {:induction false} WindowIsAverageIff(i: Inspector, s: Sample)
    ensures var u := Update(i, s);
            && (u.Updated? ==> (u.w.value == u.w.time / u.w.count as real <==> u.w.count < U32_RANGE))
            && (u.Panics? <==> && SaturatingSub(s.sum, i.lastSum) >= MIN_TIME_DIFF
                               && s.count > i.lastCount && (s.count - i.lastCount) % U32_RANGE == 0)
  {
    hide Update;
    PanicsIff(i, s);
    AverageIff(i, s);
  }

  lemma PanicsIff(i: Inspector, s: Sample)
    ensures Update(i, s).Panics? <==>
              && SaturatingSub(s.sum, i.lastSum) >= MIN_TIME_DIFF
              && s.count > i.lastCount && (s.count - i.lastCount) % U32_RANGE == 0
  {
  }

  lemma AverageIff(i: Inspector, s: Sample)
    ensures var u := Update(i, s);
            u.Updated? ==> (u.w.value == u.w.time / u.w.count as real <==> u.w.count < U32_RANGE)
  {
    var u := Update(i, s);
    if u.Updated? {
      var n, d := u.w.count, u.w.count % U32_RANGE;
      assert u.w.value == u.w.time / d as real && u.w.time > 0.0 && 0 < d <= n;
      hide Update;
      if n < U32_RANGE {
        assert d == n;
      } else {
        assert d < n;
        QuotientShrinks(u.w.time, d as real, n as real);
      }
    }
  }

  /** A window that is not averaged: one second in 2^32 + 1 polls counts as one poll of one
      second.  With exactly 2^32 polls the update panics. */
  lemma TruncatedWindow()
    ensures var u := Update(Inspector(0.0, 0.0, 0), Sample(1.0, U32_RANGE + 1));
            && u == Updated(Inspector(WEIGHT, 1.0, U32_RANGE + 1), Window(1.0, U32_RANGE + 1, 1.0))
            && u.w.value != u.w.time / u.w.count as real
    ensures Update(Inspector(0.0, 0.0, 0), Sample(1.0, 0x1_0000_0000)) == Panics
  {
    WindowIsAverageIff(Inspector(0.0, 0.0, 0), Sample(1.0, U32_RANGE + 1));
    assert (U32_RANGE + 1) % U32_RANGE == 1 && U32_RANGE % U32_RANGE == 0;
  }

  lemma QuotientShrinks(t: real, d: real, n: real)
    requires t > 0.0 && 0.0 < d < n
    ensures t / n < t / d
  {
    var a, b := t / n, t / d;
    assert a * n == t && b * d == t;
    Positive(t, d);
    assert b * (n - d) > 0.0;
    assert (b - a) * n == b * (n - d);
    PositiveFactor(b - a, n);
  }

  lemma Positive(t: real, d: real)
    requires t > 0.0 && d > 0.0
    ensures t / d > 0.0
  {
  }

  lemma PositiveFactor(x: real, n: real)
    requires x * n > 0.0 && n > 0.0
    ensures x > 0.0
  {
  }
}
