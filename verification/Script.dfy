/** What an arbitrary environment can do to a logger, turn by turn, and what a run must then record (`logger.rs`). */
module Script {
  import opened Prelude
  import opened Process
  import opened Gpu
  import opened Cpu
  import opened Summary
  import opened Totals
  import opened NodeProtocol

  /** Give up after this many failures in a row. */
  const MAX_CONSECUTIVE_ERRORS: nat := 20

  /** The longest the output may sit unflushed, in seconds. */
  const MAX_FLUSH_LAG: real := 2.0

  // ---------------------------------------------------------------------
  // The environment
  // ---------------------------------------------------------------------

  /** One scan of the job's processes and the time when it was over. */
  datatype Scan = Scan(stats: TreeStats, now: real)

  datatype CgroupMemory = CgroupMemory(currentBytes: nat, peakBytes: Option<nat>, swapBytes: Option<nat>)

  /** What the four file-system calls of one write answer. */
  datatype Calls = Calls(create: bool, write: bool, sync: bool, rename: bool) {
    predicate AllOk() {
      create && write && sync && rename
    }
  }

  /** Everything one turn of the loop learns from outside. */
  datatype Tick = Tick(
    running: bool,
    statusExists: bool,
    start: real,
    scans: seq<Scan>,
    cpu: Result<CpuUsage>,
    mem: Option<CgroupMemory>,
    io: Option<CgroupIo>,
    readAt: real,
    net: Option<NetworkStats>,
    gpu: GpuStats,
    lineWritten: bool,
    now: Now,
    calls: Calls)

  /** What the end of a run meets: the status file, clocks and write outcomes of both attempts. */
  datatype Finish = Finish(
    view: StatusView,
    endLineWritten: bool,
    now: Now,
    lateView: StatusView,
    calls: Calls,
    dropNow: Now,
    dropView: StatusView,
    dropCalls: Calls)

  /** A line of the NDJSON stream. */
  datatype Event = JobStart | JobLog(sample: TelemetrySample) | JobEnd(samples: nat, coreSeconds: real, outcome: Outcome)

  datatype StopReason = Signalled | WorkloadFinished | SamplingGaveUp | WritingGaveUp

  // ---------------------------------------------------------------------
  // When the loop stops
  // ---------------------------------------------------------------------

  /** How many readings in a row failed just before turn `i`. */
  function FailedReads(script: seq<Tick>, i: nat): nat
    requires i <= |script|
  {
    if i == 0 || script[i - 1].cpu.Ok? then 0 else FailedReads(script, i - 1) + 1
  }

  /** How many lines in a row could not be written just before turn `i`; failed readings do not interrupt the row. */
  function FailedLines(script: seq<Tick>, i: nat): nat
    requires i <= |script|
  {
    if i == 0 then 0
    else if script[i - 1].cpu.Err? then FailedLines(script, i - 1)
    else if script[i - 1].lineWritten then 0
    else FailedLines(script, i - 1) + 1
  }

  /** Why the loop stops at turn `i`, if it does. */
  function StopsAt(script: seq<Tick>, flushEvery: nat, i: nat): Option<StopReason>
    requires i <= |script| && flushEvery > 0
  {
    if i == |script| || !script[i].running then Some(Signalled)
    else if (i + 1) % flushEvery == 0 && script[i].statusExists then Some(WorkloadFinished)
    else if script[i].cpu.Err? then
      if FailedReads(script, i) + 1 >= MAX_CONSECUTIVE_ERRORS then Some(SamplingGaveUp) else None
    else if !script[i].lineWritten && FailedLines(script, i) + 1 >= MAX_CONSECUTIVE_ERRORS then Some(WritingGaveUp)
    else None
  }

  /** The loop's three local counters. */
  datatype Counters = Counters(errors: nat, writeErrors: nat, ticksSinceStopCheck: nat)

  function CountersAt(script: seq<Tick>, flushEvery: nat, i: nat): Counters
    requires i <= |script| && flushEvery > 0
  {
    Counters(FailedReads(script, i), FailedLines(script, i), i % flushEvery)
  }

  /** Whether a turn ends the loop, judged by the counters. */
  predicate TurnStops(c: Counters, tick: Tick, flushEvery: nat) {
    || (c.ticksSinceStopCheck + 1 >= flushEvery && tick.statusExists)
    || (tick.cpu.Err? && c.errors + 1 >= MAX_CONSECUTIVE_ERRORS)
    || (tick.cpu.Ok? && !tick.lineWritten && c.writeErrors + 1 >= MAX_CONSECUTIVE_ERRORS)
  }

  function Turned(c: Counters, tick: Tick, flushEvery: nat): Counters {
    Counters(
      if tick.cpu.Ok? then 0 else c.errors + 1,
      if tick.cpu.Err? then c.writeErrors else if tick.lineWritten then 0 else c.writeErrors + 1,
      if c.ticksSinceStopCheck + 1 >= flushEvery then 0 else c.ticksSinceStopCheck + 1)
  }

  /** The counters say exactly what the script's history says. */
  lemma TurnCounts(script: seq<Tick>, flushEvery: nat, i: nat)
    requires i < |script| && flushEvery > 0
    ensures StopsAt(script, flushEvery, i).Some?
            <==> !script[i].running || TurnStops(CountersAt(script, flushEvery, i), script[i], flushEvery)
    ensures CountersAt(script, flushEvery, i + 1) == Turned(CountersAt(script, flushEvery, i), script[i], flushEvery)
  {
    NextRemainder(i, flushEvery);
  }

  /**
   * The workload's end is noticed in time: once the status file exists and stays, from turn
   * `i` on, the loop stops within one flush period of turns, whatever else goes wrong.
   */
  lemma StopsWithinFlushPeriod(script: seq<Tick>, flushEvery: nat, i: nat, ticks: nat)
    requires flushEvery > 0 && i <= ticks <= |script| && NeverStops(script, flushEvery, ticks)
    requires forall j :: i <= j < |script| ==> script[j].statusExists
    ensures ticks < i + flushEvery
  {
    var j := NextPoll(i, flushEvery);
    assert j < ticks ==> StopsAt(script, flushEvery, j).Some?;
  }

  /** The first turn from `i` on at which the status file is looked for. */
  lemma NextPoll(i: nat, flushEvery: nat) returns (j: nat)
    requires flushEvery > 0
    ensures i <= j < i + flushEvery && (j + 1) % flushEvery == 0
  {
    var q, r := i / flushEvery, i % flushEvery;
    j := i + (flushEvery - 1 - r);
    assert i == q * flushEvery + r;
    assert j + 1 == (q + 1) * flushEvery + 0;
    RemainderIs(j + 1, flushEvery, q + 1, 0);
  }

  /** Whether every checkpoint before turn `i` gets all its file-system calls answered well. */
  predicate ChecksSucceed(script: seq<Tick>, i: nat)
    requires i <= |script|
  {
    forall j :: 0 <= j < i ==> script[j].calls.AllOk()
  }

  /** No turn before `i` stops the loop. */
  predicate NeverStops(script: seq<Tick>, flushEvery: nat, i: nat)
    requires i <= |script| && flushEvery > 0
  {
    forall j :: 0 <= j < i ==> StopsAt(script, flushEvery, j).None?
  }

  /** How many readings succeeded before turn `i`. */
  function GoodReads(script: seq<Tick>, i: nat): nat
    requires i <= |script|
  {
    if i == 0 then 0 else GoodReads(script, i - 1) + (if script[i - 1].cpu.Ok? then 1 else 0)
  }

  // ---------------------------------------------------------------------
  // Samples
  // ---------------------------------------------------------------------

  /** The element-wise maximum of the scans up to the first one past the deadline. */
  function PeakOfScans(sofar: TreeStats, scans: seq<Scan>, deadline: real): TreeStats
    decreases |scans|
  {
    if scans == [] then sofar else
    var next := MaxWith(sofar, scans[0].stats);
    if scans[0].now >= deadline then next else PeakOfScans(next, scans[1..], deadline)
  }

  /** A scan below some bound stays below it: the peak of a tick is the least bound of its scans. */
  lemma {:induction false} PeakOfScansIsBound(sofar: TreeStats, scans: seq<Scan>, deadline: real, bound: TreeStats)
    ensures StatsLe(sofar, PeakOfScans(sofar, scans, deadline))
    ensures scans != [] ==> StatsLe(scans[0].stats, PeakOfScans(sofar, scans, deadline))
    ensures StatsLe(sofar, bound) && (forall i :: 0 <= i < |scans| ==> StatsLe(scans[i].stats, bound)) ==>
              StatsLe(PeakOfScans(sofar, scans, deadline), bound)
    decreases |scans|
  {
    MaxWithIsLeastUpperBound(sofar, sofar, sofar);
    if scans != [] {
      var next := MaxWith(sofar, scans[0].stats);
      MaxWithIsLeastUpperBound(sofar, scans[0].stats, bound);
      MaxWithIsLeastUpperBound(sofar, scans[0].stats, next);
      if scans[0].now < deadline {
        PeakOfScansIsBound(next, scans[1..], deadline, bound);
        MaxWithIsLeastUpperBound(sofar, scans[0].stats, PeakOfScans(next, scans[1..], deadline));
      } else {
        MaxWithIsLeastUpperBound(next, next, next);
      }
    }
  }

  /** The reading a window starts from: the carried one, or nothing at the start of the tick. */
  function WindowOf(prev: Option<(CpuUsage, real)>, tick: Tick): Window
    requires tick.cpu.Ok?
  {
    var (usage, at) := prev.GetOr((NO_USAGE, tick.start));
    Window(usage, at, tick.cpu.value, tick.readAt)
  }

  /** What a tick's sample must hold, given the two baselines carried into it. */
  ghost predicate IsSampleOf(
    sample: TelemetrySample, tick: Tick, prevCpu: Option<(CpuUsage, real)>, prevNet: Option<NetworkStats>, info: NodeInfo)
    requires tick.cpu.Ok?
  {
    var tree := PeakOfScans(NO_STATS, tick.scans, tick.start + info.interval);
    && Measures(sample, WindowOf(prevCpu, tick))
    && sample.cpuEfficiencyPct == CpuEfficiencyPct(sample.cpuPctSum, |info.allowedCpus|)
    && sample.net == NetworkDelta(prevNet, tick.net)
    && sample.gpu == tick.gpu
    && sample.cgroupIo == tick.io
    && (match tick.mem
        case None =>
          sample.cgroupMem.None? && sample.cgroupMemPeak.None? && sample.cgroupSwap.None? && sample.tree == tree
        case Some(mem) =>
          && sample.cgroupMem == Some(mem.currentBytes)
          && sample.cgroupMemPeak == mem.peakBytes
          && sample.cgroupSwap == mem.swapBytes
          && sample.tree == tree.(swapBytes := mem.swapBytes.GetOr(tree.swapBytes)))
  }

  // ---------------------------------------------------------------------
  // What a run's samples and lines are
  // ---------------------------------------------------------------------

  /** The CPU baseline carried into turn `i`: the last good reading, however many failed since. */
  function CpuBaseline(primed: Option<(CpuUsage, real)>, script: seq<Tick>, i: nat): Option<(CpuUsage, real)>
    requires i <= |script|
  {
    if i == 0 then primed
    else if script[i - 1].cpu.Err? then CpuBaseline(primed, script, i - 1)
    else Some((script[i - 1].cpu.value, script[i - 1].readAt))
  }

  /** The measuring windows of the good turns before `i`. */
  function WindowsOf(primed: Option<(CpuUsage, real)>, script: seq<Tick>, i: nat): seq<Window>
    requires i <= |script|
  {
    if i == 0 then []
    else if script[i - 1].cpu.Err? then WindowsOf(primed, script, i - 1)
    else WindowsOf(primed, script, i - 1) + [WindowOf(CpuBaseline(primed, script, i - 1), script[i - 1])]
  }

  /** The network readings of the good turns before `i`; a failed CPU reading comes first and skips them. */
  function NetReadings(script: seq<Tick>, i: nat): seq<Option<NetworkStats>>
    requires i <= |script|
  {
    if i == 0 then []
    else if script[i - 1].cpu.Err? then NetReadings(script, i - 1)
    else NetReadings(script, i - 1) + [script[i - 1].net]
  }

  function NetBaseline(start: Option<NetworkStats>, script: seq<Tick>, i: nat): Option<NetworkStats>
    requires i <= |script|
  {
    BaselineAfter(start, NetReadings(script, i))
  }

  /** What the environment was when the logger started. */
  datatype Start = Start(info: NodeInfo, primed: Option<(CpuUsage, real)>, net: Option<NetworkStats>)

  /** `seen` holds the sample of every good turn before `i`, in order, and nothing else. */
  ghost predicate SamplesOf(seen: seq<TelemetrySample>, start: Start, script: seq<Tick>, i: nat)
    requires i <= |script|
  {
    if i == 0 then seen == []
    else if script[i - 1].cpu.Err? then SamplesOf(seen, start, script, i - 1)
    else
      && seen != []
      && SamplesOf(seen[..|seen| - 1], start, script, i - 1)
      && IsSampleOf(seen[|seen| - 1], script[i - 1], CpuBaseline(start.primed, script, i - 1),
                    NetBaseline(start.net, script, i - 1), start.info)
  }

  /** The lines of the good turns before `i` whose write succeeded. */
  function LinesOf(seen: seq<TelemetrySample>, script: seq<Tick>, i: nat): seq<Event>
    requires i <= |script| && |seen| == GoodReads(script, i)
  {
    if i == 0 then []
    else if script[i - 1].cpu.Err? then LinesOf(seen, script, i - 1)
    else
      LinesOf(seen[..|seen| - 1], script, i - 1)
      + (if script[i - 1].lineWritten then [JobLog(seen[|seen| - 1])] else [])
  }

  /** What one more turn adds. */
  lemma TurnSamples(seen: seq<TelemetrySample>, more: seq<TelemetrySample>, start: Start, script: seq<Tick>, i: nat)
    requires i < |script| && SamplesOf(seen, start, script, i) && |seen| == GoodReads(script, i)
    requires script[i].cpu.Err? ==> more == seen
    requires script[i].cpu.Ok? ==>
               && |more| == |seen| + 1 && more[..|seen|] == seen
               && IsSampleOf(more[|seen|], script[i], CpuBaseline(start.primed, script, i),
                             NetBaseline(start.net, script, i), start.info)
    ensures SamplesOf(more, start, script, i + 1) && |more| == GoodReads(script, i + 1)
    ensures LinesOf(more, script, i + 1) == LinesOf(seen, script, i)
              + (if script[i].cpu.Ok? && script[i].lineWritten then [JobLog(more[|seen|])] else [])
    ensures NetBaseline(start.net, script, i + 1)
              == if script[i].cpu.Ok? then NextBaseline(NetBaseline(start.net, script, i), script[i].net)
                 else NetBaseline(start.net, script, i)
  {
    if script[i].cpu.Ok? {
      var readings := NetReadings(script, i + 1);
      assert readings[..|readings| - 1] == NetReadings(script, i);
    }
  }

  /** No line of a good turn before `i` failed to be written. */
  predicate AllWritten(script: seq<Tick>, i: nat)
    requires i <= |script|
  {
    forall j :: 0 <= j < i && script[j].cpu.Ok? ==> script[j].lineWritten
  }

  /** Then there is one line per sample, in order. */
  lemma {:induction false} CleanLines(seen: seq<TelemetrySample>, script: seq<Tick>, i: nat)
    requires i <= |script| && |seen| == GoodReads(script, i) && AllWritten(script, i)
    ensures |LinesOf(seen, script, i)| == |seen|
    ensures forall k :: 0 <= k < |seen| ==> LinesOf(seen, script, i)[k] == JobLog(seen[k])
  {
    if i > 0 {
      var before := if script[i - 1].cpu.Ok? then seen[..|seen| - 1] else seen;
      CleanLines(before, script, i - 1);
      assert forall k :: 0 <= k < |before| ==> before[k] == seen[k];
    }
  }

  /** Every window starts where the one before it ended, failed turns in between or not. */
  lemma {:induction false} WindowsAreContiguous(primed: Option<(CpuUsage, real)>, script: seq<Tick>, i: nat)
    requires i <= |script|
    ensures var windows := WindowsOf(primed, script, i);
            && Contiguous(windows)
            && (windows == [] ==> CpuBaseline(primed, script, i) == primed)
            && (windows != [] ==>
                  && CpuBaseline(primed, script, i)
                     == Some((windows[|windows| - 1].curr, windows[|windows| - 1].currAt))
                  && (primed.Some? ==> windows[0].prev == primed.value.0 && windows[0].prevAt == primed.value.1))
  {
    if i > 0 {
      WindowsAreContiguous(primed, script, i - 1);
    }
  }

  lemma {:induction false} SamplesAreMeasured(seen: seq<TelemetrySample>, start: Start, script: seq<Tick>, i: nat)
    requires i <= |script| && SamplesOf(seen, start, script, i)
    ensures AllMeasured(seen, WindowsOf(start.primed, script, i))
  {
    if i > 0 {
      var before := if script[i - 1].cpu.Ok? then seen[..|seen| - 1] else seen;
      SamplesAreMeasured(before, start, script, i - 1);
      assert forall k :: 0 <= k < |before| ==> before[k] == seen[k];
    }
  }

  lemma {:induction false} SamplesCountTraffic(seen: seq<TelemetrySample>, start: Start, script: seq<Tick>, i: nat)
    requires i <= |script| && SamplesOf(seen, start, script, i)
    ensures Fold(seen, start.info.interval).net == TrafficOver(start.net, NetReadings(script, i))
  {
    if i > 0 {
      if script[i - 1].cpu.Ok? {
        var before := seen[..|seen| - 1];
        SamplesCountTraffic(before, start, script, i - 1);
        var readings := NetReadings(script, i);
        assert readings[..|readings| - 1] == NetReadings(script, i - 1);
      } else {
        SamplesCountTraffic(seen, start, script, i - 1);
      }
    }
  }

  // ---------------------------------------------------------------------
  // Time
  // ---------------------------------------------------------------------

  /**
   * One turn on a real clock: the scanning loop is left only by a scan past the deadline,
   * and the counters are read after that.
   */
  ghost predicate TickTimed(tick: Tick, interval: real) {
    tick.cpu.Ok? ==> exists k :: 0 <= k < |tick.scans| && tick.start + interval <= tick.scans[k].now <= tick.readAt
  }

  /** A run on a real clock: turns follow one another, and the baseline was primed before the first. */
  ghost predicate Timed(start: Start, script: seq<Tick>) {
    && (forall j :: 0 <= j < |script| ==> TickTimed(script[j], start.info.interval))
    && (forall j :: 0 <= j < |script| && start.primed.Some? ==> start.primed.value.1 <= script[j].start)
    && (forall j, k :: 0 <= j < k < |script| && script[j].cpu.Ok? ==> script[j].readAt <= script[k].start)
  }

  lemma {:induction false} BaselinePrecedes(start: Start, script: seq<Tick>, i: nat, k: nat)
    requires i <= k < |script| && Timed(start, script)
    ensures CpuBaseline(start.primed, script, i).Some? ==> CpuBaseline(start.primed, script, i).value.1 <= script[k].start
  {
    if i > 0 && script[i - 1].cpu.Err? {
      BaselinePrecedes(start, script, i - 1, k);
    }
  }

  /** Every sample's window is at least one interval long, primed or not, however many turns failed before it. */
  lemma {:induction false} WindowsAreLong(start: Start, script: seq<Tick>, i: nat)
    requires i <= |script| && Timed(start, script) && start.info.interval >= 0.0
    ensures ForwardInTime(WindowsOf(start.primed, script, i))
    ensures forall j :: 0 <= j < |WindowsOf(start.primed, script, i)| ==>
              WindowsOf(start.primed, script, i)[j].Length() >= start.info.interval
  {
    if i > 0 {
      WindowsAreLong(start, script, i - 1);
      if script[i - 1].cpu.Ok? {
        LastWindowIsLong(start, script, i - 1);
      }
    }
  }

  lemma {:induction false} LastWindowIsLong(start: Start, script: seq<Tick>, i: nat)
    requires i < |script| && script[i].cpu.Ok? && Timed(start, script) && start.info.interval >= 0.0
    ensures var w := WindowOf(CpuBaseline(start.primed, script, i), script[i]);
            w.prevAt <= w.currAt && w.Length() >= start.info.interval
  {
    BaselinePrecedes(start, script, i, i);
    assert TickTimed(script[i], start.info.interval);
    assert WindowOf(CpuBaseline(start.primed, script, i), script[i]).prevAt <= script[i].start;
  }

  // ---------------------------------------------------------------------
  // What whole runs conserve
  // ---------------------------------------------------------------------

  /** No good reading of the total counter before turn `i` is below the one before it. */
  ghost predicate NeverFalls(start: Start, script: seq<Tick>, i: nat)
    requires i <= |script|
  {
    var windows := WindowsOf(start.primed, script, i);
    forall j :: 0 <= j < |windows| ==> windows[j].prev.totalNs <= windows[j].curr.totalNs
  }

  /**
   * On any clock whatever, a stopped one included: with a primed baseline and a counter that
   * never goes backwards, the core-seconds are the last good reading minus the baseline,
   * exactly when no window without length saw the counter move.
   */
  lemma RunConservesOnAnyClock(seen: seq<TelemetrySample>, start: Start, script: seq<Tick>, i: nat)
    requires i <= |script| && SamplesOf(seen, start, script, i) && start.primed.Some? && NeverFalls(start, script, i)
    ensures var windows := WindowsOf(start.primed, script, i);
            var last := CpuBaseline(start.primed, script, i);
            && last.Some?
            && (Fold(seen, start.info.interval).coreSeconds * NS_PER_SEC
                  == (last.value.0.totalNs - start.primed.value.0.totalNs) as real
                <==> forall j :: 0 <= j < |windows| ==> windows[j].Length() > 0.0 || windows[j].Growth() == 0)
  {
    var windows := WindowsOf(start.primed, script, i);
    SamplesAreMeasured(seen, start, script, i);
    WindowsAreContiguous(start.primed, script, i);
    if windows != [] {
      CpuTimeIsConserved(seen, windows, start.info.interval);
    }
  }

  /**
   * No CPU time is lost or counted twice over a whole run, whatever the tick lengths and
   * however many turns failed in between: with a primed baseline and a counter that never
   * goes backwards, the core-seconds are the last good reading minus the baseline.
   */
  lemma RunConservesCpuTime(seen: seq<TelemetrySample>, start: Start, script: seq<Tick>, i: nat)
    requires i <= |script| && SamplesOf(seen, start, script, i) && start.primed.Some? && NeverFalls(start, script, i)
    requires Timed(start, script) && start.info.interval > 0.0
    ensures CpuBaseline(start.primed, script, i).Some?
    ensures Fold(seen, start.info.interval).coreSeconds * NS_PER_SEC
            == (CpuBaseline(start.primed, script, i).value.0.totalNs - start.primed.value.0.totalNs) as real
  {
    RunConservesOnAnyClock(seen, start, script, i);
    WindowsAreLong(start, script, i);
  }

  ghost predicate ForwardInTime(windows: seq<Window>) {
    forall j :: 0 <= j < |windows| ==> windows[j].prevAt <= windows[j].currAt
  }

  ghost predicate CpuNeverReset(windows: seq<Window>, cpu: nat) {
    forall j :: 0 <= j < |windows| ==> At(windows[j].prev.percpuNs, cpu, 0) <= At(windows[j].curr.percpuNs, cpu, 0)
  }

  /** What bounds a CPU's share over contiguous windows, from where they begin and end. */
  lemma ShareIsBounded(windows: seq<Window>, cpu: nat, first: CpuUsage, firstAt: real, last: CpuUsage, lastAt: real)
    requires Contiguous(windows) && CappedSum(windows, cpu) <= GrowthSum(windows, cpu)
    requires if windows == [] then last == first && lastAt == firstAt
             else && windows[0].prev == first && windows[0].prevAt == firstAt
                  && windows[|windows| - 1].curr == last && windows[|windows| - 1].currAt == lastAt
    ensures ForwardInTime(windows) ==> CappedSum(windows, cpu) <= lastAt - firstAt
    ensures CpuNeverReset(windows, cpu) ==>
              CappedSum(windows, cpu) <= GrowthSec(At(first.percpuNs, cpu, 0), At(last.percpuNs, cpu, 0))
  {
    if windows != [] && ForwardInTime(windows) {
      CpuShareIsBounded(windows, cpu);
    }
    if windows != [] && CpuNeverReset(windows, cpu) {
      CpuGrowthTelescopes(windows, cpu);
    }
  }

  /**
   * Nor does any CPU get more than it ran: resets or not, its core-seconds are at most the
   * growth of its counter in all windows, which without resets is the counter's own growth;
   * and at most the time that passed, as long as the clock does not run backwards.
   */
  lemma RunBoundsCpuShares(seen: seq<TelemetrySample>, start: Start, script: seq<Tick>, i: nat, cpu: nat)
    requires i <= |script| && SamplesOf(seen, start, script, i) && start.primed.Some?
    ensures var windows := WindowsOf(start.primed, script, i);
            var share := At(Fold(seen, start.info.interval).coreSecondsByCpu, cpu, 0.0);
            var last := CpuBaseline(start.primed, script, i);
            && last.Some?
            && 0.0 <= share <= GrowthSum(windows, cpu)
            && (ForwardInTime(windows) ==> share <= last.value.1 - start.primed.value.1)
            && (CpuNeverReset(windows, cpu) ==>
                  share <= GrowthSec(At(start.primed.value.0.percpuNs, cpu, 0), At(last.value.0.percpuNs, cpu, 0)))
  {
    var windows, last := WindowsOf(start.primed, script, i), CpuBaseline(start.primed, script, i);
    SamplesAreMeasured(seen, start, script, i);
    WindowsAreContiguous(start.primed, script, i);
    CpuShareIsCappedGrowth(seen, windows, start.info.interval, cpu);
    ShareIsBounded(windows, cpu, start.primed.value.0, start.primed.value.1, last.value.0, last.value.1);
  }

  /** The network totals of a run without counter resets are the last good reading minus the first. */
  lemma RunTelescopesTraffic(seen: seq<TelemetrySample>, start: Start, script: seq<Tick>, i: nat)
    requires i <= |script| && SamplesOf(seen, start, script, i) && start.net.Some?
    requires NeverReset(start.net, NetReadings(script, i))
    ensures NetBaseline(start.net, script, i).Some?
    ensures NetAdd(start.net.value, Fold(seen, start.info.interval).net)
            == NetBaseline(start.net, script, i).value
  {
    SamplesCountTraffic(seen, start, script, i);
    TrafficTelescopes(start.net.value, NetReadings(script, i));
  }

  /** Clocks do not go back. */
  ghost predicate InOrder(script: seq<Tick>, finish: Finish) {
    && (forall i, j :: 0 <= i <= j < |script| ==> script[i].now.elapsed <= script[j].now.elapsed)
    && (forall i :: 0 <= i < |script| ==> 0.0 <= script[i].now.elapsed <= finish.now.elapsed)
    && 0.0 <= finish.now.elapsed <= finish.dropNow.elapsed
  }

  /** A moment that turn `i` and everything after it come after. */
  predicate IsPast(clock: real, script: seq<Tick>, i: nat, finish: Finish)
    requires i <= |script|
  {
    clock <= finish.now.elapsed && forall j :: i <= j < |script| ==> clock <= script[j].now.elapsed
  }

  lemma TimeGoesOn(clock: real, script: seq<Tick>, i: nat, finish: Finish)
    requires i < |script| && InOrder(script, finish) && clock <= script[i].now.elapsed
    ensures IsPast(clock, script, i + 1, finish)
  {
  }

  function StartLine(written: bool): seq<Event> {
    if written then [JobStart] else []
  }

  function EndLine(finish: Finish, seen: seq<TelemetrySample>, interval: real): seq<Event> {
    if finish.endLineWritten
    then [JobEnd(|seen|, Fold(seen, interval).coreSeconds, ReadExitStatus(finish.view))]
    else []
  }

  /** How many sample lines a stream holds. */
  function LogLines(lines: seq<Event>): nat {
    if lines == [] then 0
    else LogLines(lines[..|lines| - 1]) + (if lines[|lines| - 1].JobLog? then 1 else 0)
  }

  lemma {:induction false} LogLinesOfConcat(a: seq<Event>, b: seq<Event>)
    ensures LogLines(a + b) == LogLines(a) + LogLines(b)
  {
    if b == [] {
      assert a + b == a;
    } else {
      LogLinesOfConcat(a, b[..|b| - 1]);
      assert (a + b)[..|a + b| - 1] == a + b[..|b| - 1];
    }
  }

  /** How many good turns before `i` failed to write their line. */
  function LostLines(script: seq<Tick>, i: nat): nat
    requires i <= |script|
  {
    if i == 0 then 0
    else LostLines(script, i - 1) + (if script[i - 1].cpu.Ok? && !script[i - 1].lineWritten then 1 else 0)
  }

  lemma {:induction false} LinesAreCounted(seen: seq<TelemetrySample>, script: seq<Tick>, i: nat)
    requires i <= |script| && |seen| == GoodReads(script, i)
    ensures LogLines(LinesOf(seen, script, i)) + LostLines(script, i) == |seen|
  {
    if i > 0 {
      var before := if script[i - 1].cpu.Ok? then seen[..|seen| - 1] else seen;
      LinesAreCounted(before, script, i - 1);
      if script[i - 1].cpu.Ok? {
        var line := if script[i - 1].lineWritten then [JobLog(seen[|seen| - 1])] else [];
        LogLinesOfConcat(LinesOf(before, script, i - 1), line);
        assert line == [] || line[..0] == [];
      }
    }
  }

  /**
   * The three counts of a run: the sample lines in the stream and the lines that could not
   * be written add up to the sample count of the closing line, which is the final summary's.
   */
  lemma CountsAgree(seen: seq<TelemetrySample>, script: seq<Tick>, i: nat, started: bool, finish: Finish, info: NodeInfo)
    requires i <= |script| && |seen| == GoodReads(script, i) && finish.endLineWritten
    ensures var lines := StartLine(started) + LinesOf(seen, script, i) + EndLine(finish, seen, info.interval);
            && lines[|lines| - 1].JobEnd?
            && LogLines(lines) + LostLines(script, i) == lines[|lines| - 1].samples
            && lines[|lines| - 1].samples == FinalDoc(info, seen, finish.now, ReadExitStatus(finish.view)).derived.samples
  {
    var first, last := StartLine(started), EndLine(finish, seen, info.interval);
    LinesAreCounted(seen, script, i);
    LogLinesOfConcat(first, LinesOf(seen, script, i));
    LogLinesOfConcat(first + LinesOf(seen, script, i), last);
    assert first == [] || first[..0] == [];
    assert last[..0] == [];
  }

  lemma {:induction false} NothingLost(script: seq<Tick>, i: nat)
    requires i <= |script|
    ensures LostLines(script, i) == 0 <==> AllWritten(script, i)
  {
    if i > 0 {
      NothingLost(script, i - 1);
    }
  }

  /**
   * A clean run: the stream is the opening line, one line for every sample in order, and the
   * closing line, so its three counts are equal: the sample lines, the closing line's count,
   * and the final summary's.
   */
  lemma CleanRunCounts(seen: seq<TelemetrySample>, script: seq<Tick>, i: nat, finish: Finish, info: NodeInfo)
    requires i <= |script| && |seen| == GoodReads(script, i) && AllWritten(script, i) && finish.endLineWritten
    ensures var lines := StartLine(true) + LinesOf(seen, script, i) + EndLine(finish, seen, info.interval);
            && |lines| == |seen| + 2 && lines[0] == JobStart
            && (forall k :: 0 <= k < |seen| ==> lines[1 + k] == JobLog(seen[k]))
            && lines[|seen| + 1].JobEnd?
            && LogLines(lines) == |seen|
            && lines[|seen| + 1].samples == |seen|
            && FinalDoc(info, seen, finish.now, ReadExitStatus(finish.view)).derived.samples == |seen|
  {
    CleanLines(seen, script, i);
    NothingLost(script, i);
    CountsAgree(seen, script, i, true, finish, info);
  }
}
