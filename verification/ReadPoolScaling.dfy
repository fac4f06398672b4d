/** The unified read pool's handle and its configuration runner: resizing, saturating limit
    arithmetic and the autoscaler.  CPU readings and thresholds are real numbers. */
module ReadPoolScaling {
  const USIZE_MAX: nat := 0xFFFF_FFFF_FFFF_FFFF
  const I64_RANGE: nat := 0x1_0000_0000_0000_0000
  const I64_MAX: nat := 0x7FFF_FFFF_FFFF_FFFF

  const READ_POOL_THREAD_HIGH_THRESHOLD: real := 0.8
  const READ_POOL_THREAD_LOW_THRESHOLD: real := 0.7
  const RUNNING_TASKS_PER_THREAD_THRESHOLD: int := 3

  /** A word reinterpreted as a signed gauge value. */
  function AsI64(n: nat): int {
    if n % I64_RANGE > I64_MAX then n % I64_RANGE - I64_RANGE else n % I64_RANGE
  }

  function SaturatingMul(a: nat, b: nat): nat {
    if a * b > USIZE_MAX then USIZE_MAX else a * b
  }

  /** What one handle knows, with the shared thread gauge. */
  datatype Pool = Pool(maxTasks: nat, poolSize: nat, threads: int) {
    function Scale(n: nat): Pool
      requires poolSize > 0
    {
      Pool(SaturatingMul(maxTasks / poolSize, n), n, AsI64(n))
    }

    function SetPerWorker(k: nat): Pool {
      this.(maxTasks := SaturatingMul(k, poolSize))
    }
  }

  datatype Task = PoolSize(size: nat) | AutoAdjust(on: bool) | MaxTasksPerWorker(tasks: nat)

  /** What the runner measures on a tick; `failed` when the process statistics are missing. */
  datatype Reading = Reading(poolCpu: real, runningTasks: int, processCpu: real, cpuQuota: real, failed: bool)

  datatype Runner = Runner(pool: Pool, core: nat, max: nat, cur: nat, auto: bool) {
    /** The handle can be resized: it has at least one thread. */
    predicate Sized() {
      pool.poolSize > 0 && cur > 0
    }

    function Run(t: Task): Runner
      requires Sized()
    {
      match t
      case PoolSize(s) =>
        if s != core then this.(pool := pool.Scale(s), core := s, cur := s) else this
      case AutoAdjust(on) =>
        if !on && cur != core then this.(auto := on, pool := pool.Scale(core), cur := core) else this.(auto := on)
      case MaxTasksPerWorker(k) => this.(pool := pool.SetPerWorker(k))
    }

    function Adjust(r: Reading): Runner
      requires Sized()
    {
      if !auto || (cur == max && core == max) || r.failed then this
      else
        var n := NextCount(core, max, cur, r);
        if n != cur then this.(pool := pool.Scale(n), cur := n) else this
    }
  }

  /** The process's CPU usage if it grew in proportion to one more thread. */
  function Projected(cpu: real, n: nat): real
    requires n > 0
  {
    cpu * (n as real + 1.0) / n as real
  }

  predicate ScaleOut(max: nat, cur: nat, r: Reading)
    requires cur > 0
  {
    && cur < max
    && Projected(r.processCpu, cur) < r.cpuQuota
    && r.poolCpu > cur as real * READ_POOL_THREAD_HIGH_THRESHOLD
    && r.runningTasks > cur * RUNNING_TASKS_PER_THREAD_THRESHOLD
  }

  predicate ScaleIn(core: nat, cur: nat, r: Reading) {
    && cur > core
    && r.poolCpu < (cur - 1) as real * READ_POOL_THREAD_LOW_THRESHOLD
    && r.runningTasks < cur * RUNNING_TASKS_PER_THREAD_THRESHOLD
  }

  function NextCount(core: nat, max: nat, cur: nat, r: Reading): nat
    requires cur > 0
  {
    if ScaleOut(max, cur, r) then cur + 1 else if ScaleIn(core, cur, r) then cur - 1 else cur
  }

  // ----- the objects

  class Gauge {
    var value: int

    constructor (v: int)
      ensures value == v
    {
      value := v;
    }
  }

  /** A handle: its limits are its own fields, the thread gauge is shared by all copies. */
  class ReadPoolHandle {
    var maxTasks: nat
    var poolSize: nat
    const runningThreads: Gauge

    ghost function View(): Pool
      reads this, runningThreads
    {
      Pool(maxTasks, poolSize, runningThreads.value)
    }

    constructor (perWorker: nat, threads: nat)
      ensures View() == Pool(SaturatingMul(perWorker, threads), threads, AsI64(threads)) && fresh(runningThreads)
    {
      maxTasks := SaturatingMul(perWorker, threads);
      poolSize := threads;
      runningThreads := new Gauge(AsI64(threads));
    }

    constructor Clone(h: ReadPoolHandle)
      ensures View() == h.View() && runningThreads == h.runningThreads
    {
      maxTasks := h.maxTasks;
      poolSize := h.poolSize;
      runningThreads := h.runningThreads;
    }

    method ScalePoolSize(n: nat)
      requires poolSize > 0
      modifies this, runningThreads
      ensures View() == old(View()).Scale(n)
    {
      maxTasks := SaturatingMul(maxTasks / poolSize, n);
      runningThreads.value := AsI64(n);
      poolSize := n;
    }

    method SetMaxTasksPerWorker(k: nat)
      modifies this
      ensures View() == old(View()).SetPerWorker(k)
    {
      maxTasks := SaturatingMul(k, poolSize);
    }
  }

  class ReadPoolConfigRunner {
    const handle: ReadPoolHandle
    var core: nat
    var max: nat
    var cur: nat
    var auto: bool

    ghost function View(): Runner
      reads this, handle, handle.runningThreads
    {
      Runner(handle.View(), core, max, cur, auto)
    }

    constructor (handle: ReadPoolHandle, threads: nat, max: nat, auto: bool)
      ensures View() == Runner(handle.View(), threads, max, threads, auto) && this.handle == handle
    {
      this.handle := handle;
      core, cur := threads, threads;
      this.max := max;
      this.auto := auto;
    }

    method Run(task: Task)
      requires View().Sized()
      modifies this, handle, handle.runningThreads
      ensures View() == old(View()).Run(task)
    {
      match task
      case PoolSize(s) =>
        if s != core {
          handle.ScalePoolSize(s);
          core := s;
          cur := s;
        }
      case AutoAdjust(on) =>
        auto := on;
        if !on && cur != core {
          handle.ScalePoolSize(core);
          cur := core;
        }
      case MaxTasksPerWorker(k) =>
        handle.SetMaxTasksPerWorker(k);
    }

    method AdjustPoolSize(r: Reading)
      requires View().Sized()
      modifies this, handle, handle.runningThreads
      ensures View() == old(View()).Adjust(r)
    {
      hide Projected;
      if !auto || (cur == max && core == max) {
        return;
      }
      if r.failed {
        return;
      }
      var newCount :=
        if && cur < max
           && Projected(r.processCpu, cur) < r.cpuQuota
           && r.poolCpu > cur as real * READ_POOL_THREAD_HIGH_THRESHOLD
           && r.runningTasks > cur * RUNNING_TASKS_PER_THREAD_THRESHOLD
        then cur + 1
        else if && cur > core
                && r.poolCpu < (cur - 1) as real * READ_POOL_THREAD_LOW_THRESHOLD
                && r.runningTasks < cur * RUNNING_TASKS_PER_THREAD_THRESHOLD
        then cur - 1
        else cur;
      if newCount != cur {
        handle.ScalePoolSize(newCount);
        cur := newCount;
      }
    }
  }

  /** Resizing through one copy of a handle leaves the limits of every other copy alone and
      moves only the shared thread gauge. */
  method ScaleOneCopy(a: ReadPoolHandle, b: ReadPoolHandle, n: nat)
    requires a != b && a.runningThreads == b.runningThreads && a.poolSize > 0
    modifies a, a.runningThreads
    ensures a.View() == old(a.View()).Scale(n)
    ensures b.View() == old(b.View()).(threads := AsI64(n))
  {
    a.ScalePoolSize(n);
  }

  // ----- whole runs of configuration tasks and timer ticks

  datatype Event = Config(task: Task) | Tick(reading: Reading)

  /** Sizes that the configuration accepts are positive. */
  predicate Acceptable(e: Event) {
    e.Config? && e.task.PoolSize? ==> e.task.size > 0
  }

  function Max(a: nat, b: nat): nat {
    if a < b then b else a
  }

  /** A runner with its history: the last per-worker limit and whether a multiplication has
      saturated since it was set. */
  datatype History = History(r: Runner, perWorker: nat, saturated: bool)

  ghost function Step(h: History, e: Event): History
    requires h.r.Sized()
  {
    var r' := match e case Config(t) => h.r.Run(t) case Tick(x) => h.r.Adjust(x);
    if e.Config? && e.task.MaxTasksPerWorker? then
      History(r', e.task.tasks, e.task.tasks * h.r.pool.poolSize > USIZE_MAX)
    else
      History(r', h.perWorker,
              h.saturated || (h.r.pool.maxTasks / h.r.pool.poolSize) * r'.pool.poolSize > USIZE_MAX)
  }

  /** Handle size, thread count and gauge agree; the count stays between the configured one and
      the larger of that and the maximum, and at the configured one without auto-adjustment. */
  predicate SizeInv(r: Runner) {
    && r.Sized() && r.core > 0
    && r.pool.poolSize == r.cur && r.pool.threads == AsI64(r.cur)
    && r.core <= r.cur <= Max(r.core, r.max)
    && (!r.auto ==> r.cur == r.core)
  }

  /** The task limit is the per-worker limit times the size exactly if nothing saturated since
      the limit was set, and strictly below otherwise. */
  ghost predicate LimitInv(h: History)
    requires h.r.pool.poolSize > 0
  {
    && h.r.pool.maxTasks <= USIZE_MAX
    && if h.saturated then h.r.pool.maxTasks < h.perWorker * h.r.pool.poolSize
       else h.r.pool.maxTasks == h.perWorker * h.r.pool.poolSize
  }

  ghost predicate Inv(h: History) {
    SizeInv(h.r) && LimitInv(h)
  }

  lemma MulAtLeast(d: int, n: nat)
    requires d >= 1
    ensures d * n >= n
  {
  }

  /** A quotient is determined by the interval its dividend lies in. */
  lemma DivUnique(m: nat, k: int, n: nat)
    requires n > 0 && k * n <= m < k * n + n
    ensures m / n == k
  {
    var q := m / n;
    assert m == q * n + m % n;
    if k > q {
      MulAtLeast(k - q, n);
    } else if q > k {
      MulAtLeast(q - k, n);
    }
  }

  lemma DivOfProduct(k: nat, n: nat)
    requires n > 0
    ensures (k * n) / n == k
  {
    DivUnique(k * n, k, n);
  }

  lemma DivBelow(m: nat, k: nat, n: nat)
    requires n > 0 && m < k * n
    ensures m / n < k
  {
  }

  lemma MulMonotone(a: nat, b: nat, n: nat)
    requires a <= b
    ensures a * n <= b * n
  {
    assert b * n - a * n == (b - a) * n;
  }

  /** Resizing keeps the limit at the product, or strictly below it for good. */
  lemma ScaleKeepsLimit(p: Pool, k: nat, sat: bool, n: nat)
    requires p.poolSize > 0 && n > 0
    requires if sat then p.maxTasks < k * p.poolSize else p.maxTasks == k * p.poolSize
    ensures var e := p.maxTasks / p.poolSize;
            if sat || e * n > USIZE_MAX then p.Scale(n).maxTasks < k * n else p.Scale(n).maxTasks == k * n
  {
    var e := p.maxTasks / p.poolSize;
    if sat {
      DivBelow(p.maxTasks, k, p.poolSize);
      assert e * n < k * n;
    } else {
      DivOfProduct(k, p.poolSize);
    }
  }

  lemma SameSizeSameLimit(h: History)
    requires Inv(h)
    ensures (h.r.pool.maxTasks / h.r.pool.poolSize) * h.r.pool.poolSize <= USIZE_MAX
  {
  }

  lemma StepKeepsSize(h: History, e: Event)
    requires SizeInv(h.r) && Acceptable(e)
    ensures SizeInv(Step(h, e).r)
  {
  }

  lemma StepKeepsLimit(h: History, e: Event)
    requires Inv(h) && Acceptable(e)
    ensures Inv(Step(h, e))
  {
    StepKeepsSize(h, e);
    SameSizeSameLimit(h);
    var h' := Step(h, e);
    if h'.r.pool != h.r.pool && !(e.Config? && e.task.MaxTasksPerWorker?) {
      ScaleKeepsLimit(h.r.pool, h.perWorker, h.saturated, h'.r.pool.poolSize);
    }
  }

  ghost function RunAll(h: History, es: seq<Event>): History
    requires Inv(h) && forall i :: 0 <= i < |es| ==> Acceptable(es[i])
    decreases |es|
  {
    if es == [] then h
    else
      StepKeepsLimit(h, es[0]);
      RunAll(Step(h, es[0]), es[1..])
  }

  /** Scaling invariants: from a handle built with the configured size, every sequence of
      configuration tasks and timer ticks keeps sizes, gauge, bounds and task limit in order. */
  lemma {:induction false} RunKeepsScaling(h: History, es: seq<Event>)
    requires Inv(h) && forall i :: 0 <= i < |es| ==> Acceptable(es[i])
    ensures Inv(RunAll(h, es))
    decreases |es|
  {
    if es != [] {
      StepKeepsLimit(h, es[0]);
      RunKeepsScaling(Step(h, es[0]), es[1..]);
    }
  }

  lemma BuiltPoolIsScaled(perWorker: nat, threads: nat, max: nat, auto: bool)
    requires threads > 0
    ensures Inv(History(Runner(Pool(SaturatingMul(perWorker, threads), threads, AsI64(threads)),
                               threads, max, threads, auto),
                        perWorker, perWorker * threads > USIZE_MAX))
  {
  }

  /** Resizing and resizing back restores the task limit if and only if the limit is a multiple
      of the size and the intermediate product does not saturate. */
  lemma {:induction false} ResizeRoundTrip(p: Pool, n: nat)
    requires p.poolSize > 0 && n > 0 && p.maxTasks <= USIZE_MAX
    ensures p.Scale(n).Scale(p.poolSize).maxTasks == p.maxTasks <==>
            p.maxTasks % p.poolSize == 0 && (p.maxTasks / p.poolSize) * n <= USIZE_MAX
  {
    var e, z := p.maxTasks / p.poolSize, p.poolSize;
    assert p.maxTasks == e * z + p.maxTasks % z;
    if e * n <= USIZE_MAX {
      DivOfProduct(e, n);
      assert p.Scale(n).Scale(z).maxTasks == e * z;
    } else {
      DivBelow(USIZE_MAX, e, n);
      MulMonotone(USIZE_MAX / n, e - 1, z);
      assert (e - 1) * z == e * z - z;
      assert p.Scale(n).Scale(z).maxTasks < p.maxTasks;
    }
  }

  /** Both ways of losing the limit: a pool built with a saturated limit, which is odd, going to
      one thread and back to two; and an even limit whose product for three threads saturates. */
  lemma LimitCanBeLost()
    ensures var p := Pool(SaturatingMul(I64_MAX + 1, 2), 2, 2);
            p.maxTasks == USIZE_MAX && p.Scale(1).Scale(2).maxTasks == USIZE_MAX - 1
    ensures var p := Pool(SaturatingMul(I64_MAX, 2), 2, 2);
            p.maxTasks == USIZE_MAX - 1 && p.Scale(3).Scale(2).maxTasks == USIZE_MAX / 3 * 2 < p.maxTasks
  {
  }

  // ----- what a configuration task brings about

  /** A saturating product is the product, capped. */
  lemma SaturatingMulIsCapped(a: nat, b: nat)
    ensures SaturatingMul(a, b) == if a * b <= USIZE_MAX then a * b else USIZE_MAX
  {
  }

  /** The thread gauge shows the number of threads as long as it fits a signed word. */
  lemma GaugeShowsThreads(n: nat)
    ensures n <= I64_MAX ==> AsI64(n) == n
    ensures I64_MAX < n < I64_RANGE ==> AsI64(n) == n - I64_RANGE < 0
  {
  }

  /** A new pool size takes effect at once, unless it is the configured one already; then not
      even a size reached by auto-adjustment is given up. */
  lemma PoolSizeTakesEffect(r: Runner, s: nat)
    requires SizeInv(r) && s > 0
    ensures var r' := r.Run(PoolSize(s));
            && r'.core == s && r'.max == r.max && r'.auto == r.auto
            && (s != r.core ==> r'.cur == r'.pool.poolSize == s)
            && (s == r.core ==> r' == r)
  {
  }

  /** Switching auto-adjustment off returns to the configured size; switching it on moves nothing. */
  lemma AutoAdjustTakesEffect(r: Runner, on: bool)
    requires SizeInv(r)
    ensures var r' := r.Run(AutoAdjust(on));
            && r'.auto == on && r'.core == r.core && r'.max == r.max
            && (on ==> r'.cur == r.cur && r'.pool == r.pool)
            && (!on ==> r'.cur == r'.pool.poolSize == r.core)
  {
  }

  /** A new per-worker limit changes the task limit and nothing else. */
  lemma MaxTasksTakesEffect(r: Runner, k: nat)
    requires SizeInv(r)
    ensures var r' := r.Run(MaxTasksPerWorker(k));
            && r' == r.(pool := r.pool.(maxTasks := r'.pool.maxTasks))
            && r'.pool.maxTasks == if k * r.cur <= USIZE_MAX then k * r.cur else USIZE_MAX
  {
  }

  // ----- when the autoscaler moves

  lemma QuotaByMultiplying(cpu: real, n: nat, quota: real)
    requires n > 0
    ensures Projected(cpu, n) < quota <==> cpu * (n + 1) as real < quota * n as real
  {
    var a, b := cpu * (n as real + 1.0), n as real;
    assert (a / b) * b == a;
    if a / b < quota {
      assert (quota - a / b) * b > 0.0;
    } else {
      assert (a / b - quota) * b >= 0.0;
    }
  }

  /** A tick moves by at most one thread.  It adds one if and only if the maximum allows it, the
      process would stay within its quota if its load grew in proportion, the pool's threads are
      more than 80% busy and more than three tasks per thread are running; it removes one if and
      only if the configured size allows it, the remaining threads would be less than 70% busy
      and fewer than three tasks per thread are running. */
  lemma MovesIff(core: nat, max: nat, cur: nat, r: Reading)
    requires cur > 0
    ensures cur - 1 <= NextCount(core, max, cur, r) <= cur + 1
    ensures NextCount(core, max, cur, r) > cur <==>
              && cur + 1 <= max && r.processCpu * (cur + 1) as real < r.cpuQuota * cur as real
              && r.poolCpu > 0.8 * cur as real && r.runningTasks > 3 * cur
    ensures NextCount(core, max, cur, r) < cur <==>
              && core + 1 <= cur && r.poolCpu < 0.7 * (cur - 1) as real && r.runningTasks < 3 * cur
  {
    hide Projected;
    QuotaByMultiplying(r.processCpu, cur, r.cpuQuota);
    if ScaleIn(core, cur, r) {
      InExcludesOut(core, max, cur, cur, r);
    }
  }

  /** There is room in the process's quota for one more thread than `n`. */
  predicate RoomAt(x: Reading, n: nat) {
    x.processCpu * (n + 1) as real < x.cpuQuota * n as real
  }

  /** With one thread less than `n` the rest would be less than 70% busy. */
  predicate SlackAt(x: Reading, n: nat) {
    x.poolCpu < 0.7 * (n - 1) as real
  }

  /** The pool is busy at every size below the maximum, and there is room for all of them. */
  ghost predicate Busy(core: nat, max: nat, x: Reading) {
    && !x.failed && x.poolCpu > 0.8 * max as real && x.runningTasks > 3 * max
    && forall n: nat :: core <= n < max ==> RoomAt(x, n)
  }

  lemma BusyAsksForMore(core: nat, max: nat, n: nat, x: Reading)
    requires 0 < core <= n < max && Busy(core, max, x)
    ensures NextCount(core, max, n, x) > n
  {
    hide NextCount;
    MovesIff(core, max, n, x);
    RealMonotone(n, max, 0.8);
    assert RoomAt(x, n);
  }

  /** A busy pool grows to its maximum within as many ticks as sizes lie in between, and stays. */
  lemma {:induction false} BusyPoolGrows(r: Runner, x: Reading, k: nat)
    requires SizeInv(r) && r.auto && Busy(r.core, r.max, x) && k >= Max(r.core, r.max) - r.core
    ensures AdjustMany(r, x, k).cur == AdjustMany(r, x, k).pool.poolSize == Max(r.core, r.max)
  {
    assert !x.failed;
    hide NextCount, Ticks, Busy, AdjustMany;
    var n := Ticks(r.core, r.max, r.cur, x, k);
    TicksSettle(r.core, r.max, r.cur, x, k);
    if n < r.max {
      BusyAsksForMore(r.core, r.max, n, x);
    }
  }

  /** From the first tick on, everything between the count and where it started asked to shrink. */
  lemma {:induction false} IdleTicks(core: nat, max: nat, cur: nat, x: Reading, k: nat)
    requires 0 < core <= cur && x.runningTasks <= 3 * core
    ensures Ticks(core, max, cur, x, k) <= cur
    ensures forall m :: Ticks(core, max, cur, x, k) < m <= cur ==> SlackAt(x, m)
    decreases k
  {
    if k > 0 {
      IdleTicks(core, max, cur, x, k - 1);
      MovesIff(core, max, Ticks(core, max, cur, x, k - 1), x);
    }
  }

  /** With at most three tasks per configured thread the pool shrinks to the least size, not below
      the configured one, at which one thread less would be at least 70% busy. */
  lemma {:induction false} IdlePoolShrinks(r: Runner, x: Reading, k: nat)
    requires SizeInv(r) && r.auto && !x.failed && x.runningTasks <= 3 * r.core && k >= Max(r.core, r.max) - r.core
    ensures var n := AdjustMany(r, x, k).cur;
            && r.core <= n <= r.cur && n == AdjustMany(r, x, k).pool.poolSize
            && (n == r.core || !SlackAt(x, n))
            && forall m :: n < m <= r.cur ==> SlackAt(x, m)
  {
    var n := Ticks(r.core, r.max, r.cur, x, k);
    IdleTicks(r.core, r.max, r.cur, x, k);
    TicksSettle(r.core, r.max, r.cur, x, k);
    MovesIff(r.core, r.max, n, x);
  }

  /** With at most three tasks per thread a pool never gets larger, however long the reading lasts. */
  lemma {:induction false} NoQueueNoGrowth(r: Runner, x: Reading, k: nat)
    requires SizeInv(r) && x.runningTasks <= 3 * r.cur
    ensures AdjustMany(r, x, k).cur <= r.cur
    decreases k
  {
    hide NextCount;
    if k > 0 && r.auto && !x.failed {
      NoQueueNoGrowth(r, x, k - 1);
      MovesIff(r.core, r.max, r.cur, x);
      TicksGoOneWay(r.core, r.max, r.cur, x, k - 1);
    }
  }

  // ----- stability of the autoscaler

  lemma RealMonotone(a: nat, b: nat, c: real)
    requires a <= b && c >= 0.0
    ensures a as real * c <= b as real * c
  {
  }

  /** Where a reading asks for one more thread, it asks nowhere below for one less. */
  lemma OutExcludesIn(core: nat, max: nat, n: nat, m: nat, r: Reading)
    requires n > 0 && m > 0 && m <= n + 1 && ScaleOut(max, n, r)
    ensures !ScaleIn(core, m, r)
  {
    RealMonotone(m - 1, n, READ_POOL_THREAD_LOW_THRESHOLD);
  }

  lemma InExcludesOut(core: nat, max: nat, n: nat, m: nat, r: Reading)
    requires n > 0 && m > 0 && m >= n - 1 && ScaleIn(core, n, r)
    ensures !ScaleOut(max, m, r)
  {
    RealMonotone(n - 1, m, READ_POOL_THREAD_LOW_THRESHOLD);
  }

  /** The thread count after `k` ticks under a constant reading. */
  function Ticks(core: nat, max: nat, cur: nat, r: Reading, k: nat): (n: nat)
    requires 0 < core <= cur
    ensures core <= n <= Max(cur, max)
    decreases k
  {
    if k == 0 then cur else NextCount(core, max, Ticks(core, max, cur, r, k - 1), r)
  }

  /** Under a constant reading every tick moves the same way as the first, or not at all, and
      once the count rests it rests for good. */
  lemma {:induction false} TicksGoOneWay(core: nat, max: nat, cur: nat, r: Reading, k: nat)
    requires 0 < core <= cur
    ensures var first, n := NextCount(core, max, cur, r), Ticks(core, max, cur, r, k);
            var next := NextCount(core, max, n, r);
            && (first > cur ==> n == cur + k || next == n)
            && (first > cur ==> next >= n)
            && (first < cur ==> n == cur - k || next == n)
            && (first < cur ==> next <= n)
            && (first == cur ==> n == next == cur)
    decreases k
  {
    var first := NextCount(core, max, cur, r);
    if k > 0 {
      var m := Ticks(core, max, cur, r, k - 1);
      TicksGoOneWay(core, max, cur, r, k - 1);
      if first > cur && NextCount(core, max, m, r) == m + 1 {
        OutExcludesIn(core, max, m, m + 1, r);
      }
      if first < cur && NextCount(core, max, m, r) == m - 1 {
        InExcludesOut(core, max, m, m - 1, r);
      }
    }
  }

  /** Stability: under constant readings the thread count reaches a permanent resting point
      within as many ticks as there are sizes between the configured and the maximum one. */
  lemma {:induction false} TicksSettle(core: nat, max: nat, cur: nat, r: Reading, k: nat)
    requires 0 < core <= cur <= Max(core, max) && k >= Max(core, max) - core
    ensures NextCount(core, max, Ticks(core, max, cur, r, k), r) == Ticks(core, max, cur, r, k)
  {
    TicksGoOneWay(core, max, cur, r, k);
  }

  /** The runner's ticks under a constant reading are the ticks above. */
  ghost function AdjustMany(r: Runner, x: Reading, k: nat): (r': Runner)
    requires SizeInv(r)
    ensures SizeInv(r') && r'.core == r.core && r'.max == r.max && r'.auto == r.auto
    ensures r'.cur == if r.auto && !x.failed then Ticks(r.core, r.max, r.cur, x, k) else r.cur
    decreases k
  {
    if k == 0 then r else AdjustMany(r, x, k - 1).Adjust(x)
  }

  /** So a runner that ticks under a constant reading settles: after that many ticks no further
      tick changes anything. */
  lemma {:induction false} RunnerSettles(r: Runner, x: Reading, k: nat)
    requires SizeInv(r) && k >= Max(r.core, r.max) - r.core
    ensures AdjustMany(r, x, k).Adjust(x) == AdjustMany(r, x, k)
  {
    TicksSettle(r.core, r.max, r.cur, x, k);
  }

  /** Without auto-adjustment, or without process statistics, ticks change nothing. */
  lemma {:induction false} NoAutoNoMove(r: Runner, x: Reading, k: nat)
    requires SizeInv(r) && (!r.auto || x.failed)
    ensures AdjustMany(r, x, k) == r
    decreases k
  {
    if k > 0 {
      NoAutoNoMove(r, x, k - 1);
    }
  }

  /** Hysteresis for readings that change: growing to `n + 1` threads and shrinking back on a
      later reading takes a drop of the pool's CPU usage of more than a tenth of `n`. */
  lemma FlappingNeedsADrop(core: nat, max: nat, n: nat, r: Reading, r': Reading)
    requires n > 0 && ScaleOut(max, n, r) && ScaleIn(core, n + 1, r')
    ensures r.poolCpu - r'.poolCpu > n as real * 0.1
  {
  }
}
