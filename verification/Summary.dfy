/** The sample and summary types, and how a summary accumulates samples (`types.rs`, `logger.rs`). */
module Summary {
  import opened Prelude
  import opened Process
  import opened Gpu

  const BYTES_PER_GB: real := 1_073_741_824.0

  /** `NetworkStats`: counters, or a difference of two readings. */
  datatype NetworkStats = NetworkStats(recvBytes: nat, sentBytes: nat, recvPackets: nat, sentPackets: nat)

  const NO_TRAFFIC: NetworkStats := NetworkStats(0, 0, 0, 0)

  function NetAdd(a: NetworkStats, b: NetworkStats): NetworkStats {
    NetworkStats(a.recvBytes + b.recvBytes, a.sentBytes + b.sentBytes,
                 a.recvPackets + b.recvPackets, a.sentPackets + b.sentPackets)
  }

  /** Each counter's growth, a counter that went backwards having been reset. */
  function NetGrowth(prev: NetworkStats, curr: NetworkStats): NetworkStats {
    NetworkStats(SatSub(curr.recvBytes, prev.recvBytes), SatSub(curr.sentBytes, prev.sentBytes),
                 SatSub(curr.recvPackets, prev.recvPackets), SatSub(curr.sentPackets, prev.sentPackets))
  }

  predicate NetLe(a: NetworkStats, b: NetworkStats) {
    && a.recvBytes <= b.recvBytes && a.sentBytes <= b.sentBytes
    && a.recvPackets <= b.recvPackets && a.sentPackets <= b.sentPackets
  }

  /** `CgroupIo`. */
  datatype CgroupIo = CgroupIo(readBytes: nat, writeBytes: nat, readOps: nat, writeOps: nat)

  /** The measurements of one `TelemetrySample`; `tree.swapBytes` is already the preferred figure. */
  datatype TelemetrySample = TelemetrySample(
    dt: real,
    cpuPctSum: real,
    cpuEfficiencyPct: real,
    percpuPct: seq<real>,
    tree: TreeStats,
    cgroupMem: Option<nat>,
    cgroupMemPeak: Option<nat>,
    cgroupSwap: Option<nat>,
    cgroupIo: Option<CgroupIo>,
    net: NetworkStats,
    gpu: GpuStats)

  /** The part of a `TelemetrySummary` that `update_summary` maintains. */
  datatype Accumulators = Accumulators(
    peaks: TreeStats,
    rssGbPeak: real,
    cpuPctSumPeak: real,
    cpuEfficiencyPctPeak: real,
    percpuPctPeak: seq<real>,
    cgroupMemPeak: Option<nat>,
    cgroupMemPeakGb: Option<real>,
    cgroupSwapPeak: Option<nat>,
    cgroupIo: Option<CgroupIo>,
    net: NetworkStats,
    gpu: GpuPeaks,
    coreSeconds: real,
    coreSecondsByCpu: seq<real>)

  datatype GpuPeaks = GpuPeaks(
    utilization: seq<real>,
    memoryUsed: seq<nat>,
    memoryTotal: seq<nat>,
    temperature: seq<real>,
    power: seq<real>,
    powerAvailable: seq<bool>,
    indices: seq<nat>,
    nodeScoped: bool)

  const EMPTY: Accumulators := Accumulators(
    NO_STATS, 0.0, 0.0, 0.0, [], None, None, None, None, NO_TRAFFIC,
    GpuPeaks([], [], [], [], [], [], [], true), 0.0, [])

  // ---------------------------------------------------------------------
  // Vectors that grow
  // ---------------------------------------------------------------------

  /** Element-wise maximum; missing elements of `dst` read as zero, and its tail stays. */
  function MaxReals(dst: seq<real>, src: seq<real>): (out: seq<real>)
    ensures |out| == Max(|dst|, |src|)
  {
    seq(Max(|dst|, |src|), i requires 0 <= i < Max(|dst|, |src|) =>
      if i < |src| then MaxReal(At(dst, i, 0.0), src[i]) else dst[i])
  }

  function MaxNats(dst: seq<nat>, src: seq<nat>): (out: seq<nat>)
    ensures |out| == Max(|dst|, |src|)
  {
    seq(Max(|dst|, |src|), i requires 0 <= i < Max(|dst|, |src|) =>
      if i < |src| then Max(At(dst, i, 0), src[i]) else dst[i])
  }

  function OrBools(dst: seq<bool>, src: seq<bool>): (out: seq<bool>)
    ensures |out| == Max(|dst|, |src|)
  {
    seq(Max(|dst|, |src|), i requires 0 <= i < Max(|dst|, |src|) =>
      if i < |src| then At(dst, i, false) || src[i] else dst[i])
  }

  function AddScaled(dst: seq<real>, src: seq<real>, scale: real): (out: seq<real>)
    ensures |out| == Max(|dst|, |src|)
  {
    seq(Max(|dst|, |src|), i requires 0 <= i < Max(|dst|, |src|) =>
      if i < |src| then At(dst, i, 0.0) + src[i] * scale else dst[i])
  }

  /** `Vec::resize`, growing only. */
  function Resized<T>(v: seq<T>, n: nat, fill: T): (out: seq<T>)
    ensures |out| == Max(|v|, n)
    ensures forall i :: 0 <= i < |out| ==> out[i] == At(v, i, fill)
  {
    seq(Max(|v|, n), i requires 0 <= i < Max(|v|, n) => At(v, i, fill))
  }

  /** `max_into_f64`. */
  method MaxIntoReals(dst: seq<real>, src: seq<real>) returns (out: seq<real>)
    ensures out == MaxReals(dst, src)
  {
    out := Resized(dst, |src|, 0.0);
    for i := 0 to |src|
      invariant |out| == Max(|dst|, |src|)
      invariant forall k :: 0 <= k < |out| ==> out[k] == if k < i then MaxReals(dst, src)[k] else At(dst, k, 0.0)
    {
      out := out[i := MaxReal(out[i], src[i])];
    }
  }

  /** `max_into_u64`. */
  method MaxIntoNats(dst: seq<nat>, src: seq<nat>) returns (out: seq<nat>)
    ensures out == MaxNats(dst, src)
  {
    out := Resized(dst, |src|, 0);
    for i := 0 to |src|
      invariant |out| == Max(|dst|, |src|)
      invariant forall k :: 0 <= k < |out| ==> out[k] == if k < i then MaxNats(dst, src)[k] else At(dst, k, 0)
    {
      out := out[i := Max(out[i], src[i])];
    }
  }

  /** `add_scaled_into`. */
  method AddScaledInto(dst: seq<real>, src: seq<real>, scale: real) returns (out: seq<real>)
    ensures out == AddScaled(dst, src, scale)
  {
    out := Resized(dst, |src|, 0.0);
    for i := 0 to |src|
      invariant |out| == Max(|dst|, |src|)
      invariant forall k :: 0 <= k < |out| ==> out[k] == if k < i then AddScaled(dst, src, scale)[k] else At(dst, k, 0.0)
    {
      out := out[i := out[i] + src[i] * scale];
    }
  }

  /** The loop over power availability, which grows the vector one element at a time. */
  method OrInto(dst: seq<bool>, src: seq<bool>) returns (out: seq<bool>)
    ensures out == OrBools(dst, src)
  {
    out := dst;
    for i := 0 to |src|
      invariant |out| == Max(|dst|, i)
      invariant forall k :: 0 <= k < |out| ==> out[k] == if k < i then OrBools(dst, src)[k] else dst[k]
    {
      out := Resized(out, i + 1, false);
      out := out[i := out[i] || src[i]];
    }
  }

  // ---------------------------------------------------------------------
  // One sample
  // ---------------------------------------------------------------------

  /** The maximum of an optional running peak and an optional reading. */
  function PeakWith(peak: Option<nat>, reading: Option<nat>): Option<nat> {
    match reading
    case None => peak
    case Some(v) => Some(Max(peak.GetOr(0), v))
  }

  function GpuWith(peaks: GpuPeaks, gpu: GpuStats): GpuPeaks {
    GpuPeaks(
      MaxReals(peaks.utilization, gpu.utilization),
      MaxNats(peaks.memoryUsed, gpu.memoryUsed),
      MaxNats(peaks.memoryTotal, gpu.memoryTotal),
      MaxReals(peaks.temperature, gpu.temperature),
      MaxReals(peaks.power, gpu.power),
      OrBools(peaks.powerAvailable, gpu.powerAvailable),
      if gpu.indices != [] then gpu.indices else peaks.indices,
      !gpu.jobScoped)
  }

  function InGb(bytes: nat): real {
    bytes as real / BYTES_PER_GB
  }

  /** The window a sample is charged for: its own, or the nominal interval when it measured none. */
  function ChargedWindow(sample: TelemetrySample, interval: real): real {
    if sample.dt > 0.0 then sample.dt else interval
  }

  /** The core-seconds a sample adds. */
  function Charge(sample: TelemetrySample, interval: real): real {
    sample.cpuPctSum * ChargedWindow(sample, interval) / 100.0
  }

  /** The factor from a CPU's percentage to its core-seconds. */
  function ChargeScale(sample: TelemetrySample, interval: real): real {
    ChargedWindow(sample, interval) / 100.0
  }

  /** The accumulators after one more sample. */
  function Accumulate(acc: Accumulators, sample: TelemetrySample, interval: real): Accumulators {
    var peaks := MaxWith(acc.peaks, sample.tree);
    var mem := PeakWith(PeakWith(acc.cgroupMemPeak, sample.cgroupMem), sample.cgroupMemPeak);
    Accumulators(
      peaks,
      InGb(peaks.rssBytes),
      MaxReal(acc.cpuPctSumPeak, sample.cpuPctSum),
      MaxReal(acc.cpuEfficiencyPctPeak, sample.cpuEfficiencyPct),
      MaxReals(acc.percpuPctPeak, sample.percpuPct),
      mem,
      if mem.Some? then Some(InGb(mem.value)) else acc.cgroupMemPeakGb,
      PeakWith(acc.cgroupSwapPeak, sample.cgroupSwap),
      if sample.cgroupIo.Some? then sample.cgroupIo else acc.cgroupIo,
      NetAdd(acc.net, sample.net),
      GpuWith(acc.gpu, sample.gpu),
      acc.coreSeconds + Charge(sample, interval),
      AddScaled(acc.coreSecondsByCpu, sample.percpuPct, ChargeScale(sample, interval)))
  }

  /** The accumulators of a whole run. */
  function Fold(samples: seq<TelemetrySample>, interval: real): Accumulators {
    if samples == [] then EMPTY
    else Accumulate(Fold(samples[..|samples| - 1], interval), samples[|samples| - 1], interval)
  }

  lemma FoldStep(samples: seq<TelemetrySample>, sample: TelemetrySample, interval: real)
    ensures Fold(samples + [sample], interval) == Accumulate(Fold(samples, interval), sample, interval)
  {
    assert (samples + [sample])[..|samples|] == samples;
  }

  // ---------------------------------------------------------------------
  // The document
  // ---------------------------------------------------------------------

  /** What is known about a node before its first sample. */
  datatype NodeInfo = NodeInfo(
    jobId: string,
    hostname: string,
    nodeRank: Option<nat>,
    numNodesAllocated: Option<nat>,
    tStart: string,
    interval: real,
    allowedCpus: seq<nat>,
    bookedWalltimeSec: nat,
    bookedMemBytes: nat)

  /** The fields that `recompute_derived_fields` overwrites. */
  datatype Derived = Derived(
    samples: nat,
    durationSec: real,
    tEnd: string,
    cpuCoreHours: real,
    avgCpuPercent: real,
    cpuEfficiencyPctAvg: real,
    avgCpuPercentByCpu: seq<real>,
    treePercpuPctPeak: seq<real>,
    walltimeEfficiencyPct: real,
    memEfficiencyPct: real)

  const NOTHING_DERIVED: Derived := Derived(0, 0.0, "", 0.0, 0.0, 0.0, [], [], 0.0, 0.0)

  datatype Outcome = Outcome(status: Option<int>, reason: string)

  const UNKNOWN: Outcome := Outcome(None, "unknown")

  /** `TelemetrySummary`: the document a node publishes. */
  datatype TelemetrySummary = TelemetrySummary(
    info: NodeInfo,
    acc: Accumulators,
    derived: Derived,
    outcome: Outcome,
    partial: bool)

  /** `effective_peak_mem_bytes`: the cgroup's figure when there is one. */
  function EffectiveMem(acc: Accumulators): nat {
    acc.cgroupMemPeak.GetOr(acc.peaks.rssBytes)
  }

  function NewSummary(info: NodeInfo): TelemetrySummary {
    TelemetrySummary(info, EMPTY, NOTHING_DERIVED, UNKNOWN, false)
  }

  /** One reading of the clocks: seconds since the logger started, and the wall clock's text. */
  datatype Now = Now(elapsed: real, wallClock: string)
}
