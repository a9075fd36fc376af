/**
 * Alert detection of server/src/services/telemetry.service.ts: a test over the last few samples
 * that should behave like a run detector over the whole history.
 */
module Telemetry {
  import opened Options

  const CPU_WARN_PCT: real := 90.0
  const CPU_TICKS: nat := 5
  const TEMP_WARN: real := 85.0
  const DISK_WARN_PCT_FREE: real := 10.0
  const DISK_CRIT_PCT_FREE: real := 5.0
  const WINDOW: nat := CPU_TICKS + 2

  datatype Disk = Disk(mount: string, used: int, total: int)

  /** `mpv`: whether the player was alive, if reported. */
  datatype Row = Row(cpuPct: real, temps: seq<real>, mpv: Option<bool>, disks: seq<Disk>)

  datatype Alert = DiskCrit(mount: string) | DiskWarn(mount: string) | CpuHigh | TempHigh | MpvDead

  // ---------------------------------------------------------------- measurements

  function DiskPctFree(d: Disk): real {
    if d.total == 0 then 100.0 else (d.total - d.used) as real / d.total as real * 100.0
  }

  method MaxTempCelsius(temps: seq<real>) returns (max: Option<real>)
    ensures max.None? <==> temps == []
    ensures max.Some? ==> max.value in temps && forall t | t in temps :: t <= max.value
  {
    if temps == [] {
      return None;
    }
    var best := temps[0];
    for i := 1 to |temps|
      invariant best in temps && forall j | 0 <= j < i :: temps[j] <= best
    {
      if temps[i] > best {
        best := temps[i];
      }
    }
    max := Some(best);
  }

  function DiskAt(disks: seq<Disk>, mount: string): (r: Option<Disk>)
    ensures r.Some? ==> r.value in disks && r.value.mount == mount
    ensures r.None? <==> forall d | d in disks :: d.mount != mount
  {
    if disks == [] then None
    else if disks[0].mount == mount then Some(disks[0])
    else DiskAt(disks[1..], mount)
  }

  predicate CpuOver(r: Row) { r.cpuPct >= CPU_WARN_PCT }

  predicate Hot(r: Row) { exists t | t in r.temps :: t >= TEMP_WARN }

  predicate Dead(r: Row) { r.mpv == Some(false) }

  /** The mount is reported and at or below `pct` percent free. */
  predicate Low(r: Row, mount: string, pct: real) {
    DiskAt(r.disks, mount).Some? && DiskPctFree(DiskAt(r.disks, mount).value) <= pct
  }

  // ---------------------------------------------------------------- the service

  function LastN<T>(s: seq<T>, n: nat): seq<T> { if |s| <= n then s else s[|s| - n..] }

  function ButLast<T>(s: seq<T>): seq<T> { if s == [] then [] else s[..|s| - 1] }

  function CpuAlert(previous: seq<Row>, input: Row): bool {
    var last := LastN(previous, CPU_TICKS - 1);
    && CpuOver(input)
    && |last| == CPU_TICKS - 1 && (forall r | r in last :: CpuOver(r))
    && (|previous| < CPU_TICKS || !CpuOver(previous[|previous| - CPU_TICKS]))
  }

  function TempAlert(previous: seq<Row>, input: Row): bool {
    Hot(input) && (previous == [] || !Hot(previous[|previous| - 1]))
  }

  function MpvAlert(previous: seq<Row>, input: Row): bool {
    Dead(input) && (previous == [] || !Dead(previous[|previous| - 1]))
  }

  /** Some earlier sample in the window did not have the mount this low. */
  predicate WasBetter(previous: seq<Row>, mount: string, pct: real) {
    exists r | r in previous :: !Low(r, mount, pct)
  }

  function DiskAlert(previous: seq<Row>, d: Disk): seq<Alert> {
    if DiskPctFree(d) <= DISK_CRIT_PCT_FREE && WasBetter(previous, d.mount, DISK_CRIT_PCT_FREE) then [DiskCrit(d.mount)]
    else if DISK_CRIT_PCT_FREE < DiskPctFree(d) <= DISK_WARN_PCT_FREE
            && WasBetter(previous, d.mount, DISK_WARN_PCT_FREE) then [DiskWarn(d.mount)]
    else []
  }

  function DiskAlerts(previous: seq<Row>, disks: seq<Disk>): seq<Alert> {
    if disks == [] then []
    else DiskAlerts(previous, disks[..|disks| - 1]) + DiskAlert(previous, disks[|disks| - 1])
  }

  function When(b: bool, a: Alert): seq<Alert> { if b then [a] else [] }

  function Alerts(previous: seq<Row>, input: Row): seq<Alert> {
    DiskAlerts(previous, input.disks) + When(CpuAlert(previous, input), CpuHigh)
    + When(TempAlert(previous, input), TempHigh) + When(MpvAlert(previous, input), MpvDead)
  }

  method MaxIsHot(r: Row) returns (max: Option<real>)
    ensures (max.Some? && max.value >= TEMP_WARN) <==> Hot(r)
  {
    max := MaxTempCelsius(r.temps);
  }

  method EvaluateDisks(disks: seq<Disk>, previous: seq<Row>) returns (fired: seq<Alert>)
    ensures fired == DiskAlerts(previous, disks)
  {
    fired := [];
    for i := 0 to |disks|
      invariant fired == DiskAlerts(previous, disks[..i])
    {
      assert disks[..i + 1][..i] == disks[..i];
      var disk := disks[i];
      var pctFree := DiskPctFree(disk);
      var wasUnderCrit := exists r | r in previous :: !Low(r, disk.mount, DISK_CRIT_PCT_FREE);
      var wasUnderWarn := exists r | r in previous :: !Low(r, disk.mount, DISK_WARN_PCT_FREE);
      if pctFree <= DISK_CRIT_PCT_FREE && wasUnderCrit {
        fired := fired + [DiskCrit(disk.mount)];
      } else if pctFree <= DISK_WARN_PCT_FREE && pctFree > DISK_CRIT_PCT_FREE && wasUnderWarn {
        fired := fired + [DiskWarn(disk.mount)];
      }
    }
    assert disks[..|disks|] == disks;
  }

  method EvaluateCpu(input: Row, previous: seq<Row>) returns (fire: bool)
    ensures fire == CpuAlert(previous, input)
  {
    fire := false;
    if input.cpuPct >= CPU_WARN_PCT {
      var lastTicks := LastN(previous, CPU_TICKS - 1);
      var allOver := |lastTicks| == CPU_TICKS - 1 && forall r | r in lastTicks :: r.cpuPct >= CPU_WARN_PCT;
      var risingEdge := |previous| < CPU_TICKS || previous[|previous| - CPU_TICKS].cpuPct < CPU_WARN_PCT;
      fire := allOver && risingEdge;
    }
  }

  method EvaluateTemp(input: Row, previous: seq<Row>) returns (fire: bool)
    ensures fire == TempAlert(previous, input)
  {
    fire := false;
    var maxTemp := MaxIsHot(input);
    if maxTemp.Some? && maxTemp.value >= TEMP_WARN {
      var prevTemp := None;
      if previous != [] {
        prevTemp := MaxIsHot(previous[|previous| - 1]);
      }
      fire := prevTemp.None? || prevTemp.value < TEMP_WARN;
    }
  }

  /** `recent` is what the database returned, oldest first. */
  method EvaluateThresholds(input: Row, recent: seq<Row>) returns (fired: seq<Alert>)
    ensures fired == Alerts(ButLast(recent), input)
  {
    var previous := ButLast(recent);
    fired := EvaluateDisks(input.disks, previous);
    var cpuHigh := EvaluateCpu(input, previous);
    if cpuHigh {
      fired := fired + [CpuHigh];
    }
    var tempHigh := EvaluateTemp(input, previous);
    if tempHigh {
      fired := fired + [TempHigh];
    }
    if input.mpv == Some(false) {
      var prevMpv := if previous != [] then previous[|previous| - 1].mpv else None;
      if prevMpv.None? || prevMpv.value {
        fired := fired + [MpvDead];
      }
    }
  }

  // ---------------------------------------------------------------- runs

  /** The flags of a history: which samples are over a threshold. */
  function Flags(h: seq<Row>, over: Row -> bool): seq<bool> { seq(|h|, i requires 0 <= i < |h| => over(h[i])) }

  /** Length of the stretch of true flags that ends `f`. */
  function RunLength(f: seq<bool>): nat {
    if f == [] || !f[|f| - 1] then 0 else RunLength(f[..|f| - 1]) + 1
  }

  lemma {:induction false} RunLengthMeaning(f: seq<bool>)
    ensures RunLength(f) <= |f|
    ensures forall j | |f| - RunLength(f) <= j < |f| :: f[j]
    ensures RunLength(f) < |f| ==> !f[|f| - RunLength(f) - 1]
  {
    if f != [] && f[|f| - 1] { RunLengthMeaning(f[..|f| - 1]); }
  }

  /** [a, b) is a maximal run of true flags. */
  ghost predicate MaximalRun(f: seq<bool>, a: nat, b: nat) {
    && a < b <= |f|
    && (forall j | a <= j < b :: f[j])
    && (a > 0 ==> !f[a - 1])
    && (b < |f| ==> !f[b])
  }

  ghost predicate StartsLongRun(f: seq<bool>, a: nat, n: nat) {
    exists b: nat :: MaximalRun(f, a, b) && b - a >= n
  }

  predicate Reaches(f: seq<bool>, i: nat, n: nat) { i < |f| && RunLength(f[..i + 1]) == n }

  /** Starts of the maximal runs of length at least `n`. */
  ghost function LongRuns(f: seq<bool>, n: nat): set<nat> {
    set a: nat | a < |f| && StartsLongRun(f, a, n)
  }

  /** Samples at which the run reaches length `n`: what a counter that fires at `n` detects. */
  ghost function Firings(f: seq<bool>, n: nat): set<nat> {
    set i: nat | i < |f| && Reaches(f, i, n)
  }

  lemma {:induction false} RunLengthIs(f: seq<bool>, n: nat)
    requires n <= |f| && (forall j | |f| - n <= j < |f| :: f[j]) && (n < |f| ==> !f[|f| - n - 1])
    ensures RunLength(f) == n
  {
    if n > 0 { RunLengthIs(f[..|f| - 1], n - 1); }
  }

  lemma RunEnds(f: seq<bool>, a: nat) returns (b: nat)
    requires a < |f| && f[a]
    ensures a < b <= |f| && (forall j | a <= j < b :: f[j]) && (b < |f| ==> !f[b])
  {
    b := a + 1;
    while b < |f| && f[b]
      invariant a < b <= |f| && forall j | a <= j < b :: f[j]
    {
      b := b + 1;
    }
  }

  /** A run reaches length `n` at `i` exactly when it is a long run that started at `i + 1 - n`. */
  lemma ReachesIffLongRun(f: seq<bool>, n: nat, i: nat)
    requires n > 0 && i < |f|
    ensures Reaches(f, i, n) <==> i + 1 >= n && StartsLongRun(f, i + 1 - n, n)
  {
    var g := f[..i + 1];
    if RunLength(g) == n {
      RunLengthMeaning(g);
      var a := i + 1 - n;
      assert forall j | a <= j < i + 1 :: f[j] == g[j];
      if a > 0 { assert f[a - 1] == g[a - 1]; }
      var b := RunEnds(f, i);
      assert MaximalRun(f, a, b);
    }
    if i + 1 >= n && StartsLongRun(f, i + 1 - n, n) {
      var a := i + 1 - n;
      var b: nat :| MaximalRun(f, a, b) && b - a >= n;
      RunLengthIs(g, n);
    }
  }

  lemma {:induction false} ShiftedSameSize(s: set<nat>, t: set<nat>, d: nat)
    requires forall x: nat :: x in s <==> x >= d && (x - d) in t
    ensures |s| == |t|
  {
    if t == {} {
      assert s == {};
    } else {
      var y :| y in t;
      assert (y + d) in s;
      ShiftedSameSize(s - {y + d}, t - {y}, d);
    }
  }

  lemma LongRunsFit(f: seq<bool>, n: nat, a: nat)
    requires StartsLongRun(f, a, n)
    ensures a + n <= |f|
  {
    var b: nat :| MaximalRun(f, a, b) && b - a >= n;
  }

  /** As many firings as maximal runs of length at least `n`. */
  lemma FiringsCountLongRuns(f: seq<bool>, n: nat)
    requires n > 0
    ensures |Firings(f, n)| == |LongRuns(f, n)|
  {
    forall x: nat ensures x in Firings(f, n) <==> x >= n - 1 && (x - (n - 1)) in LongRuns(f, n) {
      if x < |f| {
        ReachesIffLongRun(f, n, x);
      }
      if x >= n - 1 && StartsLongRun(f, x - (n - 1), n) {
        LongRunsFit(f, n, x - (n - 1));
      }
    }
    ShiftedSameSize(Firings(f, n), LongRuns(f, n), n - 1);
  }

  // ---------------------------------------------------------------- a history of samples

  /** `ORDER BY recorded_at ASC LIMIT n` over the rows of the ten-minute range, oldest first. */
  function Query(inRange: seq<Row>, limit: nat): seq<Row> {
    if |inRange| <= limit then inRange else inRange[..limit]
  }

  /**
   * What the service sees as earlier rows at sample `i` when `k` samples fall into the range: the
   * oldest rows of the range without the last of them.
   */
  function Fed(h: seq<Row>, i: nat, k: nat): seq<Row>
    requires i < |h|
  {
    ButLast(Query(LastN(h[..i + 1], k), WINDOW))
  }

  /** The first sample of the range. */
  function RangeStart(i: nat, k: nat): nat { if i + 1 <= k then 0 else i + 1 - k }

  lemma FedIsSlice(h: seq<Row>, i: nat, k: nat)
    requires i < |h| && k > 0
    ensures var start := RangeStart(i, k);
            Fed(h, i, k) == if i + 1 - start <= WINDOW then h[start..i] else h[start..start + WINDOW - 1]
  {
    var start := RangeStart(i, k);
    var w := h[start..i + 1];
    assert LastN(h[..i + 1], k) == w;
    if |w| <= WINDOW {
      assert w[..|w| - 1] == h[start..i];
    } else {
      assert w[..WINDOW][..WINDOW - 1] == w[..WINDOW - 1];
      assert w[..WINDOW - 1] == h[start..start + (WINDOW - 1)];
    }
  }

  /** With at most seven samples in the range, a slice of the newest rows. */
  lemma ShortRangeIsNewest(h: seq<Row>, i: nat, k: nat)
    requires i < |h| && 1 <= k <= WINDOW
    ensures Fed(h, i, k) == h[RangeStart(i, k)..i]
  {
    FedIsSlice(h, i, k);
  }

  // ---------------------------------------------------------------- what is fired

  /** A mount is reported at or below `crit`, or between it and `warn`, and was better in some earlier row. */
  ghost predicate MeetsCrit(previous: seq<Row>, disks: seq<Disk>, mount: string) {
    exists d | d in disks :: d.mount == mount && DiskPctFree(d) <= DISK_CRIT_PCT_FREE
                             && WasBetter(previous, mount, DISK_CRIT_PCT_FREE)
  }

  ghost predicate MeetsWarn(previous: seq<Row>, disks: seq<Disk>, mount: string) {
    exists d | d in disks :: d.mount == mount && DISK_CRIT_PCT_FREE < DiskPctFree(d) <= DISK_WARN_PCT_FREE
                             && WasBetter(previous, mount, DISK_WARN_PCT_FREE)
  }

  lemma {:induction false} DiskAlertsMeaning(previous: seq<Row>, disks: seq<Disk>)
    ensures forall m: string :: DiskCrit(m) in DiskAlerts(previous, disks) <==> MeetsCrit(previous, disks, m)
    ensures forall m: string :: DiskWarn(m) in DiskAlerts(previous, disks) <==> MeetsWarn(previous, disks, m)
    ensures forall a: Alert | a in DiskAlerts(previous, disks) :: a.DiskCrit? || a.DiskWarn?
  {
    if disks != [] {
      var front, last := disks[..|disks| - 1], disks[|disks| - 1];
      DiskAlertsMeaning(previous, front);
      assert disks == front + [last];
      assert forall d :: d in disks <==> d in front || d == last;
    }
  }

  /** Which alert stands for which test: exactly these are fired, whatever came before. */
  lemma AlertsMeaning(previous: seq<Row>, input: Row)
    ensures var fired := Alerts(previous, input);
            && (CpuHigh in fired <==>
                  && CpuOver(input) && |previous| >= CPU_TICKS - 1
                  && (forall j | |previous| - (CPU_TICKS - 1) <= j < |previous| :: CpuOver(previous[j]))
                  && (|previous| >= CPU_TICKS ==> !CpuOver(previous[|previous| - CPU_TICKS])))
            && (TempHigh in fired <==>
                  && (exists t | t in input.temps :: t >= TEMP_WARN)
                  && (previous == [] || !Hot(previous[|previous| - 1])))
            && (MpvDead in fired <==>
                  input.mpv == Some(false) && (previous == [] || previous[|previous| - 1].mpv != Some(false)))
            && (forall m: string :: DiskCrit(m) in fired <==> MeetsCrit(previous, input.disks, m))
            && (forall m: string :: DiskWarn(m) in fired <==> MeetsWarn(previous, input.disks, m))
  {
    DiskAlertsMeaning(previous, input.disks);
    CpuAlertByRows(previous, input);
    FiredByTest(previous, input);
  }

  lemma FiredByTest(previous: seq<Row>, input: Row)
    ensures var fired := Alerts(previous, input);
            && (CpuHigh in fired <==> CpuAlert(previous, input))
            && (TempHigh in fired <==> RisingEdge(previous, input, Hot))
            && (MpvDead in fired <==> RisingEdge(previous, input, Dead))
            && forall a: Alert | a.DiskCrit? || a.DiskWarn? :: a in fired <==> a in DiskAlerts(previous, input.disks)
  {
    DiskAlertsMeaning(previous, input.disks);
  }

  /** Free space below a percentage, without the division. */
  lemma LowMeans(d: Disk, pct: real)
    requires d.total > 0
    ensures DiskPctFree(d) <= pct <==> (d.total - d.used) as real * 100.0 <= pct * d.total as real
  {
    var free, total := (d.total - d.used) as real, d.total as real;
    var q := free / total;
    assert q * total == free;
    Scaled(q * 100.0, pct, total);
    assert q * 100.0 * total == free * 100.0;
  }

  lemma Scaled(a: real, b: real, t: real)
    requires t > 0.0
    ensures a <= b <==> a * t <= b * t
  {
    if a <= b { assert (b - a) * t >= 0.0; } else { assert (a - b) * t > 0.0; }
  }

  /** The samples of a history at which `alert` is fired, when `k` samples fall into the range. */
  ghost function FiredOver(h: seq<Row>, k: nat, alert: Alert): set<nat> {
    set i: nat | i < |h| && alert in Alerts(Fed(h, i, k), h[i])
  }

  /** The processor test, row by row. */
  lemma CpuAlertByRows(p: seq<Row>, input: Row)
    ensures CpuAlert(p, input) <==>
            && CpuOver(input) && |p| >= CPU_TICKS - 1
            && (forall j | |p| - (CPU_TICKS - 1) <= j < |p| :: CpuOver(p[j]))
            && (|p| >= CPU_TICKS ==> !CpuOver(p[|p| - CPU_TICKS]))
  {
    if |p| >= CPU_TICKS - 1 {
      var from := |p| - (CPU_TICKS - 1);
      var last := LastN(p, CPU_TICKS - 1);
      assert last == p[from..];
      assert forall j | from <= j < |p| :: p[j] == last[j - from];
    }
  }

  lemma CpuAlertOnSlice(h: seq<Row>, start: nat, stop: nat, input: Row)
    requires start <= stop <= |h|
    ensures CpuAlert(h[start..stop], input) <==>
            && CpuOver(input) && stop - start >= CPU_TICKS - 1
            && (forall j | stop - (CPU_TICKS - 1) <= j < stop :: CpuOver(h[j]))
            && (stop - start >= CPU_TICKS ==> !CpuOver(h[stop - CPU_TICKS]))
  {
    var p := h[start..stop];
    CpuAlertByRows(p, input);
    assert forall j | start <= j < stop :: h[j] == p[j - start];
    assert forall j | 0 <= j < |p| :: p[j] == h[start + j];
  }

  lemma CpuAlertInFlags(h: seq<Row>, i: nat, k: nat)
    requires i < |h| && 1 <= k <= WINDOW
    ensures CpuAlert(Fed(h, i, k), h[i]) <==>
            && i + 1 >= CPU_TICKS && k >= CPU_TICKS
            && (forall j | i + 1 - CPU_TICKS <= j <= i :: CpuOver(h[j]))
            && (i >= CPU_TICKS && k > CPU_TICKS ==> !CpuOver(h[i - CPU_TICKS]))
  {
    ShortRangeIsNewest(h, i, k);
    CpuAlertOnSlice(h, RangeStart(i, k), i, h[i]);
  }

  /** What the counter that fires on reaching five says, sample by sample. */
  lemma ReachesFive(h: seq<Row>, i: nat)
    requires i < |h|
    ensures Reaches(Flags(h, CpuOver), i, CPU_TICKS) <==>
            && i + 1 >= CPU_TICKS
            && (forall j | i + 1 - CPU_TICKS <= j <= i :: CpuOver(h[j]))
            && (i >= CPU_TICKS ==> !CpuOver(h[i - CPU_TICKS]))
  {
    var g := Flags(h, CpuOver)[..i + 1];
    RunLengthMeaning(g);
    assert forall j | 0 <= j <= i :: g[j] == CpuOver(h[j]);
    if i + 1 >= CPU_TICKS && (forall j | i + 1 - CPU_TICKS <= j <= i :: CpuOver(h[j]))
       && (i >= CPU_TICKS ==> !CpuOver(h[i - CPU_TICKS])) {
      RunLengthIs(g, CPU_TICKS);
    }
  }

  /** The processor test over the rows it is fed says what the counter over the history says. */
  ghost predicate CpuDetects(h: seq<Row>, i: nat, k: nat)
    requires i < |h|
  {
    CpuAlert(Fed(h, i, k), h[i]) <==> Reaches(Flags(h, CpuOver), i, CPU_TICKS)
  }

  /** With six or seven samples in the range it does. */
  lemma CpuAlertIsCounter(h: seq<Row>, i: nat, k: nat)
    requires i < |h| && CPU_TICKS < k <= WINDOW
    ensures CpuDetects(h, i, k)
  {
    CpuAlertInFlags(h, i, k);
    ReachesFive(h, i);
  }

  /** `over` now, and not in the row before. */
  predicate RisingEdge(previous: seq<Row>, input: Row, over: Row -> bool) {
    over(input) && (previous == [] || !over(previous[|previous| - 1]))
  }

  ghost predicate EdgeDetects(h: seq<Row>, over: Row -> bool, i: nat, k: nat)
    requires i < |h|
  {
    RisingEdge(Fed(h, i, k), h[i], over) <==> Reaches(Flags(h, over), i, 1)
  }

  /** With two to seven samples in the range an edge test is the counter that fires on reaching one. */
  lemma EdgeIsCounter(h: seq<Row>, over: Row -> bool, i: nat, k: nat)
    requires i < |h| && 2 <= k <= WINDOW
    ensures EdgeDetects(h, over, i, k)
  {
    var g := Flags(h, over)[..i + 1];
    ShortRangeIsNewest(h, i, k);
    RunLengthMeaning(g);
    assert g[i] == over(h[i]);
    if i > 0 { assert g[i - 1] == over(h[i - 1]); }
  }

  /**
   * Over any history, fed as the service feeds itself: with six or seven samples in the range,
   * `cpu_high` is fired as often as there are maximal runs of at least five samples over the
   * threshold; with two to seven, `temp_high` and `mpv_dead` once per maximal run.
   */
  lemma AlertsCountRuns(h: seq<Row>, k: nat)
    ensures CPU_TICKS < k <= WINDOW ==> |FiredOver(h, k, CpuHigh)| == |LongRuns(Flags(h, CpuOver), CPU_TICKS)|
    ensures 2 <= k <= WINDOW ==> |FiredOver(h, k, TempHigh)| == |LongRuns(Flags(h, Hot), 1)|
    ensures 2 <= k <= WINDOW ==> |FiredOver(h, k, MpvDead)| == |LongRuns(Flags(h, Dead), 1)|
  {
    if CPU_TICKS < k <= WINDOW {
      forall i: nat | i < |h| ensures i in FiredOver(h, k, CpuHigh) <==> i in Firings(Flags(h, CpuOver), CPU_TICKS) {
        CpuAlertIsCounter(h, i, k);
        FiredByTest(Fed(h, i, k), h[i]);
      }
      assert FiredOver(h, k, CpuHigh) == Firings(Flags(h, CpuOver), CPU_TICKS);
      FiringsCountLongRuns(Flags(h, CpuOver), CPU_TICKS);
    }
    if 2 <= k <= WINDOW {
      EdgesCountRuns(h, k, TempHigh, Hot);
      EdgesCountRuns(h, k, MpvDead, Dead);
    }
  }

  lemma EdgesCountRuns(h: seq<Row>, k: nat, alert: Alert, over: Row -> bool)
    requires 2 <= k <= WINDOW && ((alert == TempHigh && over == Hot) || (alert == MpvDead && over == Dead))
    ensures |FiredOver(h, k, alert)| == |LongRuns(Flags(h, over), 1)|
  {
    forall i: nat | i < |h| ensures i in FiredOver(h, k, alert) <==> i in Firings(Flags(h, over), 1) {
      EdgeIsCounter(h, over, i, k);
      FiredByTest(Fed(h, i, k), h[i]);
    }
    assert FiredOver(h, k, alert) == Firings(Flags(h, over), 1);
    FiringsCountLongRuns(Flags(h, over), 1);
  }

  function LowFlags(h: seq<Row>, mount: string, pct: real): seq<bool> {
    seq(|h|, i requires 0 <= i < |h| => Low(h[i], mount, pct))
  }

  /** Rows that show the mount better, among the rows fed: those from the start of the range on. */
  lemma BetterInRange(h: seq<Row>, mount: string, pct: real, i: nat, k: nat)
    requires i < |h| && k > 0
    ensures var start := RangeStart(i, k);
            var stop := if i + 1 - start <= WINDOW then i else start + WINDOW - 1;
            WasBetter(Fed(h, i, k), mount, pct) <==> exists j | start <= j < stop :: !LowFlags(h, mount, pct)[j]
  {
    var p, start := Fed(h, i, k), RangeStart(i, k);
    var stop := if i + 1 - start <= WINDOW then i else start + WINDOW - 1;
    FedIsSlice(h, i, k);
    assert p == h[start..stop];
    BetterInSlice(h, mount, pct, start, stop);
  }

  lemma BetterInSlice(h: seq<Row>, mount: string, pct: real, start: nat, stop: nat)
    requires start <= stop <= |h|
    ensures WasBetter(h[start..stop], mount, pct) <==> exists j | start <= j < stop :: !LowFlags(h, mount, pct)[j]
  {
    var p := h[start..stop];
    if j :| start <= j < stop && !LowFlags(h, mount, pct)[j] {
      assert p[j - start] == h[j];
    }
    if WasBetter(p, mount, pct) {
      var r :| r in p && !Low(r, mount, pct);
      var j :| 0 <= j < |p| && p[j] == r;
      assert !LowFlags(h, mount, pct)[start + j];
    }
  }

  lemma ShortRunHasGap(f: seq<bool>, i: nat, k: nat)
    requires i < |f| && f[i] && k > 0
    ensures (exists j | RangeStart(i, k) <= j < i :: !f[j]) <==>
            RunLength(f[..i + 1]) < k && RunLength(f[..i + 1]) <= i
  {
    var g := f[..i + 1];
    var n := RunLength(g);
    RunLengthMeaning(g);
    assert forall j | 0 <= j <= i :: g[j] == f[j];
    if n < k && n <= i {
      assert !f[i - n];
    }
  }

  /** A better sample is in sight exactly when the low run is short and not the first thing seen. */
  lemma BetterIffShortRun(h: seq<Row>, mount: string, pct: real, i: nat, k: nat)
    requires i < |h| && Low(h[i], mount, pct) && 1 <= k <= WINDOW
    ensures var n := RunLength(LowFlags(h, mount, pct)[..i + 1]);
            WasBetter(Fed(h, i, k), mount, pct) <==> n < k && n <= i
  {
    BetterInRange(h, mount, pct, i, k);
    ShortRunHasGap(LowFlags(h, mount, pct), i, k);
  }

  /**
   * Disk alerts are not rising edges: with `k` samples in the range, at most seven, they fire on
   * each of the first k - 1 samples of a low run, and never in a run that starts the history. `n`
   * counts how long the mount has been low.
   */
  lemma DiskAlertsRepeat(h: seq<Row>, mount: string, i: nat, k: nat)
    requires i < |h| && DiskAt(h[i].disks, mount).Some? && 1 <= k <= WINDOW
    ensures var d := DiskAt(h[i].disks, mount).value;
            var n := RunLength(LowFlags(h, mount, DISK_CRIT_PCT_FREE)[..i + 1]);
            DiskAlert(Fed(h, i, k), d) == [DiskCrit(mount)] <==>
            DiskPctFree(d) <= DISK_CRIT_PCT_FREE && n < k && n <= i
    ensures var d := DiskAt(h[i].disks, mount).value;
            var n := RunLength(LowFlags(h, mount, DISK_WARN_PCT_FREE)[..i + 1]);
            DiskAlert(Fed(h, i, k), d) == [DiskWarn(mount)] <==>
            DISK_CRIT_PCT_FREE < DiskPctFree(d) <= DISK_WARN_PCT_FREE && n < k && n <= i
  {
    var d := DiskAt(h[i].disks, mount).value;
    if DiskPctFree(d) <= DISK_CRIT_PCT_FREE {
      BetterIffShortRun(h, mount, DISK_CRIT_PCT_FREE, i, k);
    } else if DiskPctFree(d) <= DISK_WARN_PCT_FREE {
      BetterIffShortRun(h, mount, DISK_WARN_PCT_FREE, i, k);
    }
  }

  /** With more than seven samples in the range, what decides is the six oldest of it. */
  lemma DiskAlertsLookBack(h: seq<Row>, mount: string, i: nat, k: nat)
    requires i < |h| && DiskAt(h[i].disks, mount).Some? && i + 1 >= k > WINDOW
    ensures var d := DiskAt(h[i].disks, mount).value;
            DiskAlert(Fed(h, i, k), d) == [DiskCrit(mount)] <==>
            DiskPctFree(d) <= DISK_CRIT_PCT_FREE
            && exists j | i + 1 - k <= j < i + 1 - k + (WINDOW - 1) :: !LowFlags(h, mount, DISK_CRIT_PCT_FREE)[j]
  {
    BetterInRange(h, mount, DISK_CRIT_PCT_FREE, i, k);
  }

  // ---------------------------------------------------------------- the query

  function Calm(): Row { Row(0.0, [], None, []) }

  function Busy(): Row { Row(100.0, [], None, []) }

  function Repeat(r: Row, n: nat): seq<Row> { seq(n, _ => r) }

  /** `k` samples in the range, the last five over the threshold, the ones before it calm. */
  function LateBurst(k: nat): seq<Row>
    requires k >= CPU_TICKS
  {
    Repeat(Calm(), k - CPU_TICKS) + Repeat(Busy(), CPU_TICKS)
  }

  /** The newest seven rows see the burst; the seven the query returns do not. */
  lemma LateBurstIsMissed(k: nat)
    requires k > WINDOW
    ensures var w := LateBurst(k);
            && CpuAlert(ButLast(LastN(w, WINDOW)), w[k - 1])
            && !CpuAlert(ButLast(Query(w, WINDOW)), w[k - 1])
  {
    var w := LateBurst(k);
    var newest := ButLast(LastN(w, WINDOW));
    assert |newest| == 6 && newest[1] == Calm();
    var p := ButLast(Query(w, WINDOW));
    assert |p| == 6 && p[2] == Calm();
    assert p[2] in LastN(p, CPU_TICKS - 1) by {
      assert LastN(p, CPU_TICKS - 1)[0] == p[2];
    }
  }

  /**
   * The query returns the oldest rows of the range, the service takes them for the newest. The
   * two agree on every content of `k` rows if and only if the range holds at most seven rows.
   */
  lemma QueryFeedsServiceIff(k: nat)
    requires k > 0
    ensures (forall w: seq<Row> | |w| == k ::
               Alerts(ButLast(Query(w, WINDOW)), w[k - 1]) == Alerts(ButLast(LastN(w, WINDOW)), w[k - 1]))
            <==> k <= WINDOW
  {
    if k > WINDOW {
      var w := LateBurst(k);
      LateBurstIsMissed(k);
      assert w[k - 1] == Busy();
      AlertsOfBusy(ButLast(Query(w, WINDOW)));
      AlertsOfBusy(ButLast(LastN(w, WINDOW)));
      assert |w| == k;
    }
  }

  lemma AlertsOfBusy(previous: seq<Row>)
    ensures Alerts(previous, Busy()) == When(CpuAlert(previous, Busy()), CpuHigh)
  {
  }

  // ---------------------------------------------------------------- when the feed serves the tests

  lemma BusyFlags(h: seq<Row>, n: nat)
    requires |h| >= n > 0 && (forall j | |h| - n <= j < |h| :: h[j] == Busy())
    requires |h| > n ==> h[|h| - n - 1] == Calm()
    ensures RunLength(Flags(h, CpuOver)) == n
    ensures Reaches(Flags(h, CpuOver), |h| - 1, CPU_TICKS) <==> n == CPU_TICKS
  {
    var f := Flags(h, CpuOver);
    assert f[..|h| - 1 + 1] == f;
    assert |h| > n ==> f[|h| - n - 1] == CpuOver(Calm());
    assert forall j | |f| - n <= j < |f| :: f[j] by {
      assert forall j | |f| - n <= j < |f| :: h[j] == Busy() && f[j] == CpuOver(Busy());
    }
    RunLengthIs(f, n);
  }

  /** A history of which the processor test, fed with `k` samples in range, gets the last sample wrong. */
  function CpuMisled(k: nat): seq<Row> {
    if k > WINDOW then LateBurst(k)
    else if k == CPU_TICKS then Repeat(Busy(), CPU_TICKS + 1)
    else Repeat(Busy(), CPU_TICKS)
  }

  lemma CpuIsMisled(k: nat)
    requires k > 0 && !(CPU_TICKS < k <= WINDOW)
    ensures !CpuDetects(CpuMisled(k), |CpuMisled(k)| - 1, k)
  {
    var h := CpuMisled(k);
    var i := |h| - 1;
    if k > WINDOW {
      LateBurstIsMissed(k);
      assert LastN(h[..i + 1], k) == h;
      BusyFlags(h, CPU_TICKS);
    } else {
      CpuAlertInFlags(h, i, k);
      BusyFlags(h, |h|);
    }
  }

  /**
   * The processor test over the rows the code feeds it is the five-sample counter over the
   * history, for every history, if and only if six or seven samples fall into the range.
   */
  lemma CpuDetectsIff(k: nat)
    requires k > 0
    ensures (forall h: seq<Row>, i: nat | i < |h| :: CpuDetects(h, i, k)) <==> CPU_TICKS < k <= WINDOW
  {
    if CPU_TICKS < k <= WINDOW {
      forall h: seq<Row>, i: nat | i < |h| ensures CpuDetects(h, i, k) {
        CpuAlertIsCounter(h, i, k);
      }
    } else {
      CpuIsMisled(k);
    }
  }

  /** Whatever an edge test watches, given one row over and one not. */
  lemma EdgeIsMisled(over: Row -> bool, yes: Row, no: Row, k: nat)
    requires over(yes) && !over(no) && k > 0 && !(2 <= k <= WINDOW)
    ensures var h := Repeat(no, if k == 1 then 0 else k - 2) + [yes, yes]; !EdgeDetects(h, over, |h| - 1, k)
  {
    var h := Repeat(no, if k == 1 then 0 else k - 2) + [yes, yes];
    var i, f := |h| - 1, Flags(h, over);
    FedIsSlice(h, i, k);
    assert f[..i + 1] == f && f[i] && f[i - 1];
    assert RunLength(f) >= 2 by {
      assert f[..|f| - 1][|f| - 2];
    }
  }

  /**
   * An edge test over the rows the code feeds it fires once per maximal run, for every history,
   * if and only if two to seven samples fall into the range.
   */
  lemma EdgeDetectsIff(over: Row -> bool, yes: Row, no: Row, k: nat)
    requires over(yes) && !over(no) && k > 0
    ensures (forall h: seq<Row>, i: nat | i < |h| :: EdgeDetects(h, over, i, k)) <==> 2 <= k <= WINDOW
  {
    if 2 <= k <= WINDOW {
      forall h: seq<Row>, i: nat | i < |h| ensures EdgeDetects(h, over, i, k) {
        EdgeIsCounter(h, over, i, k);
      }
    } else {
      EdgeIsMisled(over, yes, no, k);
    }
  }

  lemma CalmIsNeither()
    ensures !Hot(Calm()) && !Dead(Calm())
    ensures Hot(Row(0.0, [TEMP_WARN], None, [])) && Dead(Row(0.0, [], Some(false), []))
  {
    var calm, hot := Calm(), Row(0.0, [TEMP_WARN], None, []);
    assert calm.temps == [] && calm.mpv == None;
    assert hot.temps[0] == TEMP_WARN && hot.temps[0] in hot.temps;
  }

  /** The temperature and the player test are such tests. */
  lemma TempAndMpvDetectIff(k: nat)
    requires k > 0
    ensures forall p, r :: (TempAlert(p, r) <==> RisingEdge(p, r, Hot)) && (MpvAlert(p, r) <==> RisingEdge(p, r, Dead))
    ensures (forall h: seq<Row>, i: nat | i < |h| :: EdgeDetects(h, Hot, i, k)) <==> 2 <= k <= WINDOW
    ensures (forall h: seq<Row>, i: nat | i < |h| :: EdgeDetects(h, Dead, i, k)) <==> 2 <= k <= WINDOW
  {
    CalmIsNeither();
    EdgeDetectsIff(Hot, Row(0.0, [TEMP_WARN], None, []), Calm(), k);
    EdgeDetectsIff(Dead, Row(0.0, [], Some(false), []), Calm(), k);
  }

  /**
   * With more than seven samples in the range, what fires is something else: a sample over the
   * threshold, when a run of at least four started two samples after the range did.
   */
  lemma CpuAlertLooksBack(h: seq<Row>, i: nat, k: nat)
    requires i < |h| && k > WINDOW && i + 1 > WINDOW
    ensures CpuAlert(Fed(h, i, k), h[i]) <==>
            CpuOver(h[i]) && StartsLongRun(Flags(h, CpuOver), RangeStart(i, k) + 2, CPU_TICKS - 1)
  {
    var start, f := RangeStart(i, k), Flags(h, CpuOver);
    FedIsSlice(h, i, k);
    CpuAlertOnSlice(h, start, start + (WINDOW - 1), h[i]);
    assert forall j | start < j < start + (WINDOW - 1) :: f[j] == CpuOver(h[j]);
    StartsIff(f, start + 2, CPU_TICKS - 1);
  }

  lemma StartsIff(f: seq<bool>, a: nat, n: nat)
    requires 0 < a && a + n <= |f| && n > 0
    ensures StartsLongRun(f, a, n) <==> !f[a - 1] && forall j | a <= j < a + n :: f[j]
  {
    if !f[a - 1] && forall j | a <= j < a + n :: f[j] {
      var b := RunEnds(f, a + n - 1);
      assert MaximalRun(f, a, b);
    }
  }
}
