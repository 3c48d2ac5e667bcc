/** What the accumulators of a run mean: peaks are least upper bounds, totals telescope, prefixes are lower bounds. */
module Totals {
  import opened Prelude
  import opened Process
  import opened Gpu
  import opened Cpu
  import opened Summary

  // ---------------------------------------------------------------------
  // Peaks
  // ---------------------------------------------------------------------

  /** The process-tree peaks are exactly the least upper bound of what the samples saw. */
  lemma {:induction false} PeaksAreLeastUpperBounds(samples: seq<TelemetrySample>, interval: real, bound: TreeStats)
    ensures forall i :: 0 <= i < |samples| ==> StatsLe(samples[i].tree, Fold(samples, interval).peaks)
    ensures (forall i :: 0 <= i < |samples| ==> StatsLe(samples[i].tree, bound))
            <==> StatsLe(Fold(samples, interval).peaks, bound)
  {
    if samples != [] {
      var init, last := samples[..|samples| - 1], samples[|samples| - 1];
      PeaksAreLeastUpperBounds(init, interval, bound);
      MaxWithIsLeastUpperBound(Fold(init, interval).peaks, last.tree, bound);
      assert forall i :: 0 <= i < |init| ==> samples[i] == init[i];
    }
  }

  /** The CPU peak is reached by some sample (or is the initial zero) and exceeded by none. */
  lemma {:induction false} CpuPeakIsReached(samples: seq<TelemetrySample>, interval: real)
    ensures var peak := Fold(samples, interval).cpuPctSumPeak;
            && peak >= 0.0
            && (forall i :: 0 <= i < |samples| ==> samples[i].cpuPctSum <= peak)
            && (peak == 0.0 || exists i :: 0 <= i < |samples| && samples[i].cpuPctSum == peak)
  {
    if samples != [] {
      var init, last := samples[..|samples| - 1], samples[|samples| - 1];
      CpuPeakIsReached(init, interval);
      assert forall i :: 0 <= i < |init| ==> samples[i] == init[i];
    }
  }

  predicate ReportsMemory(sample: TelemetrySample) {
    sample.cgroupMem.Some? || sample.cgroupMemPeak.Some?
  }

  /** The cgroup peak appears with the first sample that reports one, and the display figures follow the peaks. */
  lemma {:induction false} MemoryPeakAppears(samples: seq<TelemetrySample>, interval: real)
    ensures var acc := Fold(samples, interval);
            && (acc.cgroupMemPeak.Some? <==> exists i :: 0 <= i < |samples| && ReportsMemory(samples[i]))
            && acc.cgroupMemPeakGb == (match acc.cgroupMemPeak case None => None case Some(b) => Some(InGb(b)))
            && acc.rssGbPeak == InGb(acc.peaks.rssBytes)
  {
    if samples != [] {
      var init, last := samples[..|samples| - 1], samples[|samples| - 1];
      MemoryPeakAppears(init, interval);
      assert samples == init + [last];
      assert (exists i :: 0 <= i < |samples| && ReportsMemory(samples[i]))
        <==> ReportsMemory(last) || exists i :: 0 <= i < |init| && ReportsMemory(init[i]) by {
        if i :| 0 <= i < |init| && ReportsMemory(init[i]) {
          assert ReportsMemory(samples[i]);
        }
        assert ReportsMemory(last) ==> ReportsMemory(samples[|init|]);
      }
    } else {
      assert InGb(0) == 0.0;
    }
  }

  predicate Covers(peak: Option<nat>, sample: TelemetrySample) {
    && sample.cgroupMem.GetOr(0) <= peak.GetOr(0)
    && sample.cgroupMemPeak.GetOr(0) <= peak.GetOr(0)
  }

  lemma PeakStep(peak: Option<nat>, sample: TelemetrySample)
    ensures var next := PeakWith(PeakWith(peak, sample.cgroupMem), sample.cgroupMemPeak);
            Covers(next, sample) && peak.GetOr(0) <= next.GetOr(0)
  {
  }

  /** And it covers everything the samples reported, the kernel's own high-water mark included. */
  lemma {:induction false} MemoryPeakCoversReports(samples: seq<TelemetrySample>, interval: real)
    ensures forall i :: 0 <= i < |samples| ==> Covers(Fold(samples, interval).cgroupMemPeak, samples[i])
  {
    if samples != [] {
      var init, last := samples[..|samples| - 1], samples[|samples| - 1];
      MemoryPeakCoversReports(init, interval);
      PeakStep(Fold(init, interval).cgroupMemPeak, last);
      forall i | 0 <= i < |samples|
        ensures Covers(Fold(samples, interval).cgroupMemPeak, samples[i])
      {
        assert i < |init| ==> samples[i] == init[i];
      }
    }
  }

  lemma ElementOfMaximum(dst: seq<real>, src: seq<real>, k: nat)
    requires At(dst, k, 0.0) >= 0.0
    ensures At(MaxReals(dst, src), k, 0.0) == MaxReal(At(dst, k, 0.0), At(src, k, 0.0))
  {
  }

  /** Each CPU's peak is reached by some sample (or is zero) and exceeded by none. */
  lemma {:induction false} CpuPeaksAreReached(samples: seq<TelemetrySample>, interval: real, k: nat)
    ensures var peak := At(Fold(samples, interval).percpuPctPeak, k, 0.0);
            && peak >= 0.0
            && (forall i :: 0 <= i < |samples| ==> At(samples[i].percpuPct, k, 0.0) <= peak)
            && (peak == 0.0 || exists i :: 0 <= i < |samples| && At(samples[i].percpuPct, k, 0.0) == peak)
  {
    if samples != [] {
      var init, last := samples[..|samples| - 1], samples[|samples| - 1];
      CpuPeaksAreReached(init, interval, k);
      var before := Fold(init, interval).percpuPctPeak;
      ElementOfMaximum(before, last.percpuPct, k);
      assert Fold(samples, interval).percpuPctPeak == MaxReals(before, last.percpuPct);
      assert forall i :: 0 <= i < |init| ==> samples[i] == init[i];
    }
  }

  lemma ElementOfOr(dst: seq<bool>, src: seq<bool>, k: nat)
    ensures At(OrBools(dst, src), k, false) == (At(dst, k, false) || At(src, k, false))
  {
  }

  /** A GPU's power counts as available exactly when some sample really measured it. */
  lemma {:induction false} PowerAvailableIfEverMeasured(samples: seq<TelemetrySample>, interval: real, k: nat)
    ensures At(Fold(samples, interval).gpu.powerAvailable, k, false)
            <==> exists i :: 0 <= i < |samples| && At(samples[i].gpu.powerAvailable, k, false)
  {
    if samples != [] {
      var init, last := samples[..|samples| - 1], samples[|samples| - 1];
      PowerAvailableIfEverMeasured(init, interval, k);
      var before := Fold(init, interval).gpu.powerAvailable;
      ElementOfOr(before, last.gpu.powerAvailable, k);
      assert Fold(samples, interval).gpu.powerAvailable == OrBools(before, last.gpu.powerAvailable);
      assert forall i :: 0 <= i < |init| ==> samples[i] == init[i];
    }
  }

  // ---------------------------------------------------------------------
  // Prefixes are lower bounds
  // ---------------------------------------------------------------------

  /** Readings that the CPU calculations produce. */
  predicate NonNegative(sample: TelemetrySample) {
    && sample.cpuPctSum >= 0.0
    && (forall k :: 0 <= k < |sample.percpuPct| ==> sample.percpuPct[k] >= 0.0)
  }

  predicate RealsLe(a: seq<real>, b: seq<real>) {
    |a| <= |b| && forall k :: 0 <= k < |a| ==> a[k] <= b[k]
  }

  predicate OptionLe(a: Option<nat>, b: Option<nat>) {
    a.None? || (b.Some? && a.value <= b.value)
  }

  /** Everything the merge adds up or takes the maximum of, apart from memory by its effective source. */
  predicate AccLe(a: Accumulators, b: Accumulators) {
    && StatsLe(a.peaks, b.peaks)
    && a.cpuPctSumPeak <= b.cpuPctSumPeak
    && a.cpuEfficiencyPctPeak <= b.cpuEfficiencyPctPeak
    && RealsLe(a.percpuPctPeak, b.percpuPctPeak)
    && OptionLe(a.cgroupMemPeak, b.cgroupMemPeak)
    && OptionLe(a.cgroupSwapPeak, b.cgroupSwapPeak)
    && NetLe(a.net, b.net)
    && a.coreSeconds <= b.coreSeconds
    && RealsLe(a.coreSecondsByCpu, b.coreSecondsByCpu)
  }

  lemma NonNegativeProduct(x: real, y: real)
    requires x >= 0.0 && y >= 0.0
    ensures x * y >= 0.0
  {
  }

  lemma AccumulateGrows(acc: Accumulators, sample: TelemetrySample, interval: real)
    requires NonNegative(sample) && interval >= 0.0
    ensures AccLe(acc, Accumulate(acc, sample, interval))
  {
    var dt := ChargedWindow(sample, interval);
    NonNegativeProduct(sample.cpuPctSum, dt);
    var next := AddScaled(acc.coreSecondsByCpu, sample.percpuPct, dt / 100.0);
    forall k | 0 <= k < |acc.coreSecondsByCpu|
      ensures acc.coreSecondsByCpu[k] <= next[k]
    {
      if k < |sample.percpuPct| {
        NonNegativeProduct(sample.percpuPct[k], dt / 100.0);
      }
    }
    MaxWithIsLeastUpperBound(acc.peaks, sample.tree, acc.peaks);
  }

  lemma AccLeIsTransitive(a: Accumulators, b: Accumulators, c: Accumulators)
    requires AccLe(a, b) && AccLe(b, c)
    ensures AccLe(a, c)
  {
  }

  /** The accumulators of any prefix of a run are a lower bound for those of the run. */
  lemma {:induction false} PrefixIsLowerBound(samples: seq<TelemetrySample>, k: nat, interval: real)
    requires k <= |samples| && interval >= 0.0
    requires forall i :: 0 <= i < |samples| ==> NonNegative(samples[i])
    ensures AccLe(Fold(samples[..k], interval), Fold(samples, interval))
    decreases |samples|
  {
    if k == |samples| {
      assert samples[..k] == samples;
    } else {
      var init := samples[..|samples| - 1];
      PrefixIsLowerBound(init, k, interval);
      assert init[..k] == samples[..k];
      AccumulateGrows(Fold(init, interval), samples[|samples| - 1], interval);
      AccLeIsTransitive(Fold(samples[..k], interval), Fold(init, interval), Fold(samples, interval));
    }
  }

  ghost predicate MemoryIsLowerBound(samples: seq<TelemetrySample>, interval: real) {
    forall rest :: EffectiveMem(Fold(samples, interval)) <= EffectiveMem(Fold(samples + rest, interval))
  }

  /** A sample that reports an almost empty cgroup. */
  function FirstCgroupReport(): TelemetrySample {
    TelemetrySample(1.0, 0.0, 0.0, [], NO_STATS, Some(0), None, None, None, NO_TRAFFIC, NoGpus(false))
  }

  /**
   * The memory figure of a checkpoint is a lower bound for every way the run can go on
   * exactly when its source is already the cgroup, or it is zero: otherwise the first
   * cgroup report switches the source and may bring the figure down.
   */
  lemma MemoryBoundIsExact(samples: seq<TelemetrySample>, interval: real)
    ensures MemoryIsLowerBound(samples, interval)
            <==> Fold(samples, interval).cgroupMemPeak.Some? || Fold(samples, interval).peaks.rssBytes == 0
  {
    var acc := Fold(samples, interval);
    if acc.cgroupMemPeak.None? && acc.peaks.rssBytes > 0 {
      var rest := [FirstCgroupReport()];
      FoldStep(samples, FirstCgroupReport(), interval);
      assert EffectiveMem(Fold(samples + rest, interval)) == 0;
    } else {
      forall rest
        ensures EffectiveMem(acc) <= EffectiveMem(Fold(samples + rest, interval))
      {
        if acc.cgroupMemPeak.Some? {
          CgroupPeakGrows(samples, rest, interval);
        }
      }
    }
  }

  lemma PeakOnlyGrows(peak: Option<nat>, samples: seq<TelemetrySample>, last: TelemetrySample, interval: real)
    requires OptionLe(peak, Fold(samples, interval).cgroupMemPeak)
    ensures OptionLe(peak, Fold(samples + [last], interval).cgroupMemPeak)
  {
    FoldStep(samples, last, interval);
  }

  lemma {:induction false} CgroupPeakGrows(samples: seq<TelemetrySample>, rest: seq<TelemetrySample>, interval: real)
    ensures OptionLe(Fold(samples, interval).cgroupMemPeak, Fold(samples + rest, interval).cgroupMemPeak)
  {
    if rest == [] {
      assert samples + rest == samples;
    } else {
      var init, last := rest[..|rest| - 1], rest[|rest| - 1];
      CgroupPeakGrows(samples, init, interval);
      PeakOnlyGrows(Fold(samples, interval).cgroupMemPeak, samples + init, last, interval);
      assert samples + rest == samples + init + [last];
    }
  }

  /** With the source fixed over the run, a prefix's memory figure is a lower bound too. */
  lemma MemoryPrefixIsLowerBound(samples: seq<TelemetrySample>, k: nat, interval: real)
    requires k <= |samples| && interval >= 0.0
    requires forall i :: 0 <= i < |samples| ==> NonNegative(samples[i])
    requires Fold(samples[..k], interval).cgroupMemPeak.Some? || Fold(samples, interval).cgroupMemPeak.None?
    ensures EffectiveMem(Fold(samples[..k], interval)) <= EffectiveMem(Fold(samples, interval))
  {
    PrefixIsLowerBound(samples, k, interval);
  }

  // ---------------------------------------------------------------------
  // CPU time
  // ---------------------------------------------------------------------

  /** What one sample's CPU figures were computed from: two readings and when they were taken. */
  datatype Window = Window(prev: CpuUsage, prevAt: real, curr: CpuUsage, currAt: real) {
    /** `duration_since`, which never goes below zero. */
    function Length(): real {
      MaxReal(currAt - prevAt, 0.0)
    }

    function Growth(): nat {
      SatSub(curr.totalNs, prev.totalNs)
    }

    function GrowthOf(cpu: nat): real {
      GrowthSec(At(prev.percpuNs, cpu, 0), At(curr.percpuNs, cpu, 0))
    }
  }

  ghost predicate Measures(sample: TelemetrySample, w: Window) {
    && sample.dt == w.Length()
    && sample.cpuPctSum == TotalCpuPct(w.prev.totalNs, w.curr.totalNs, w.Length())
    && |sample.percpuPct| == Max(|w.prev.percpuNs|, |w.curr.percpuNs|)
    && (forall k :: 0 <= k < |sample.percpuPct| ==>
          sample.percpuPct[k] == BusyPct(At(w.prev.percpuNs, k, 0), At(w.curr.percpuNs, k, 0), w.Length()))
  }

  /** Every window starts where the one before it ended. */
  predicate Contiguous(windows: seq<Window>) {
    forall i :: 0 < i < |windows| ==>
      windows[i].prev == windows[i - 1].curr && windows[i].prevAt == windows[i - 1].currAt
  }

  ghost predicate AllMeasured(samples: seq<TelemetrySample>, windows: seq<Window>) {
    |samples| == |windows| && forall i :: 0 <= i < |samples| ==> Measures(samples[i], windows[i])
  }

  /** Nanoseconds of counter growth seen in windows of positive length. */
  function ChargedGrowth(windows: seq<Window>): nat {
    if windows == [] then 0 else
    var w := windows[|windows| - 1];
    ChargedGrowth(windows[..|windows| - 1]) + (if w.Length() > 0.0 then w.Growth() else 0)
  }

  /** Growth that fell into windows of no length, which no percentage can express. */
  function MissedGrowth(windows: seq<Window>): nat {
    if windows == [] then 0 else
    var w := windows[|windows| - 1];
    MissedGrowth(windows[..|windows| - 1]) + (if w.Length() > 0.0 then 0 else w.Growth())
  }

  lemma MeasuredSample(sample: TelemetrySample, w: Window, interval: real)
    requires Measures(sample, w)
    ensures Charge(sample, interval)
            == (if w.Length() > 0.0 then w.Growth() else 0) as real / NS_PER_SEC
    ensures NonNegative(sample)
  {
    TotalSeconds(w.prev.totalNs, w.curr.totalNs, w.Length());
    forall k | 0 <= k < |sample.percpuPct|
      ensures sample.percpuPct[k] >= 0.0
    {
      BusySeconds(At(w.prev.percpuNs, k, 0), At(w.curr.percpuNs, k, 0), w.Length());
    }
  }

  /**
   * Over any run, with any counters, resets and tick lengths whatever, the core-seconds
   * are exactly the non-negative counter growth of the windows that had any length.
   */
  lemma {:induction false} CpuTimeIsCounterGrowth(samples: seq<TelemetrySample>, windows: seq<Window>, interval: real)
    requires AllMeasured(samples, windows)
    ensures Fold(samples, interval).coreSeconds == ChargedGrowth(windows) as real / NS_PER_SEC
    ensures forall i :: 0 <= i < |samples| ==> NonNegative(samples[i])
  {
    if samples != [] {
      var n := |samples| - 1;
      var init, last, w := samples[..n], samples[n], windows[n];
      CpuTimeIsCounterGrowth(init, windows[..n], interval);
      MeasuredSample(last, w, interval);
      var before := Fold(init, interval).coreSeconds;
      assert Fold(samples, interval).coreSeconds == before + Charge(last, interval);
      SumOfQuotients(ChargedGrowth(windows[..n]), if w.Length() > 0.0 then w.Growth() else 0);
      forall i | 0 <= i < |samples|
        ensures NonNegative(samples[i])
      {
        assert i < n ==> samples[i] == init[i];
      }
    }
  }

  lemma SumOfQuotients(a: nat, b: nat)
    ensures a as real / NS_PER_SEC + b as real / NS_PER_SEC == (a + b) as real / NS_PER_SEC
  {
  }

  lemma {:induction false} GrowthTelescopes(windows: seq<Window>)
    requires windows != [] && Contiguous(windows)
    requires forall i :: 0 <= i < |windows| ==> windows[i].prev.totalNs <= windows[i].curr.totalNs
    ensures ChargedGrowth(windows) + MissedGrowth(windows)
            == windows[|windows| - 1].curr.totalNs - windows[0].prev.totalNs
  {
    var n := |windows| - 1;
    if n > 0 {
      GrowthTelescopes(windows[..n]);
      assert windows[n].prev == windows[n - 1].curr;
    }
  }

  lemma {:induction false} NothingMissed(windows: seq<Window>)
    ensures MissedGrowth(windows) == 0
            <==> forall i :: 0 <= i < |windows| ==> windows[i].Length() > 0.0 || windows[i].Growth() == 0
  {
    if windows != [] {
      var n := |windows| - 1;
      NothingMissed(windows[..n]);
      assert forall i :: 0 <= i < n ==> windows[..n][i] == windows[i];
    }
  }

  /**
   * CPU time is conserved: for contiguous windows over a counter that never goes backwards,
   * the core-seconds are the counter at the last sample minus the baseline, whatever the
   * tick lengths, exactly when no window without length saw the counter move.
   */
  lemma CpuTimeIsConserved(samples: seq<TelemetrySample>, windows: seq<Window>, interval: real)
    requires AllMeasured(samples, windows) && windows != [] && Contiguous(windows)
    requires forall i :: 0 <= i < |windows| ==> windows[i].prev.totalNs <= windows[i].curr.totalNs
    ensures Fold(samples, interval).coreSeconds * NS_PER_SEC
              == (windows[|windows| - 1].curr.totalNs - windows[0].prev.totalNs) as real
            <==> forall i :: 0 <= i < |windows| ==> windows[i].Length() > 0.0 || windows[i].Growth() == 0
  {
    CpuTimeIsCounterGrowth(samples, windows, interval);
    GrowthTelescopes(windows);
    NothingMissed(windows);
  }

  /** Growth of one CPU's counter over all windows. */
  function GrowthSum(windows: seq<Window>, cpu: nat): real {
    if windows == [] then 0.0
    else GrowthSum(windows[..|windows| - 1], cpu) + windows[|windows| - 1].GrowthOf(cpu)
  }

  /** The same, with every window's share capped at its own length. */
  function CappedSum(windows: seq<Window>, cpu: nat): real {
    if windows == [] then 0.0
    else
      CappedSum(windows[..|windows| - 1], cpu)
      + MinReal(windows[|windows| - 1].GrowthOf(cpu), windows[|windows| - 1].Length())
  }

  lemma MeasuredCpu(sample: TelemetrySample, w: Window, interval: real, cpu: nat)
    requires Measures(sample, w)
    ensures At(sample.percpuPct, cpu, 0.0) * ChargeScale(sample, interval)
            == MinReal(w.GrowthOf(cpu), w.Length())
    ensures w.GrowthOf(cpu) >= 0.0
  {
    BusySeconds(At(w.prev.percpuNs, cpu, 0), At(w.curr.percpuNs, cpu, 0), w.Length());
  }

  /** What one sample adds to one CPU's core-seconds. */
  lemma CpuShareStep(dst: seq<real>, sample: TelemetrySample, w: Window, interval: real, cpu: nat)
    requires Measures(sample, w)
    ensures At(AddScaled(dst, sample.percpuPct, ChargeScale(sample, interval)), cpu, 0.0)
            == At(dst, cpu, 0.0) + MinReal(w.GrowthOf(cpu), w.Length())
    ensures 0.0 <= MinReal(w.GrowthOf(cpu), w.Length()) <= w.GrowthOf(cpu)
  {
    MeasuredCpu(sample, w, interval, cpu);
    ElementOfSum(dst, sample.percpuPct, ChargeScale(sample, interval), cpu);
  }

  lemma ElementOfSum(dst: seq<real>, src: seq<real>, scale: real, k: nat)
    ensures At(AddScaled(dst, src, scale), k, 0.0) == At(dst, k, 0.0) + At(src, k, 0.0) * scale
  {
  }

  /** A CPU's core-seconds are its capped growth, summed; so no more than its growth. */
  lemma {:induction false} CpuShareIsCappedGrowth(
    samples: seq<TelemetrySample>, windows: seq<Window>, interval: real, cpu: nat)
    requires AllMeasured(samples, windows)
    ensures At(Fold(samples, interval).coreSecondsByCpu, cpu, 0.0) == CappedSum(windows, cpu)
    ensures 0.0 <= CappedSum(windows, cpu) <= GrowthSum(windows, cpu)
  {
    if samples != [] {
      var n := |samples| - 1;
      var init, last := samples[..n], samples[n];
      CpuShareIsCappedGrowth(init, windows[..n], interval, cpu);
      var before := Fold(init, interval).coreSecondsByCpu;
      assert Fold(samples, interval).coreSecondsByCpu
          == AddScaled(before, last.percpuPct, ChargeScale(last, interval));
      CpuShareStep(before, last, windows[n], interval, cpu);
    }
  }

  /** Nor, over contiguous windows, any more than the time that passed. */
  lemma {:induction false} CpuShareIsBounded(windows: seq<Window>, cpu: nat)
    requires windows != [] && Contiguous(windows)
    requires forall i :: 0 <= i < |windows| ==> windows[i].prevAt <= windows[i].currAt
    ensures CappedSum(windows, cpu) <= windows[|windows| - 1].currAt - windows[0].prevAt
  {
    var n := |windows| - 1;
    if n > 0 {
      CpuShareIsBounded(windows[..n], cpu);
    } else {
      assert windows[..0] == [];
    }
  }

  /** Without resets, the growth of all windows is the counter's own. */
  lemma {:induction false} CpuGrowthTelescopes(windows: seq<Window>, cpu: nat)
    requires windows != [] && Contiguous(windows)
    requires forall i :: 0 <= i < |windows| ==>
               At(windows[i].prev.percpuNs, cpu, 0) <= At(windows[i].curr.percpuNs, cpu, 0)
    ensures GrowthSum(windows, cpu)
              == GrowthSec(At(windows[0].prev.percpuNs, cpu, 0), At(windows[|windows| - 1].curr.percpuNs, cpu, 0))
    ensures At(windows[0].prev.percpuNs, cpu, 0) <= At(windows[|windows| - 1].curr.percpuNs, cpu, 0)
  {
    var n := |windows| - 1;
    if n > 0 {
      CpuGrowthTelescopes(windows[..n], cpu);
      assert windows[n].prev == windows[n - 1].curr;
    } else {
      assert windows[..0] == [];
    }
  }

  // ---------------------------------------------------------------------
  // Network traffic
  // ---------------------------------------------------------------------

  /** The baseline after a reading: a failed one leaves the last good one in place. */
  function NextBaseline(previous: Option<NetworkStats>, current: Option<NetworkStats>): Option<NetworkStats> {
    if current.Some? then current else previous
  }

  /** `network_delta`: nothing without two readings, otherwise the growth since the last good one. */
  function NetworkDelta(previous: Option<NetworkStats>, current: Option<NetworkStats>): NetworkStats {
    match (previous, current)
    case (Some(prev), Some(curr)) => NetGrowth(prev, curr)
    case _ => NO_TRAFFIC
  }

  function BaselineAfter(start: Option<NetworkStats>, readings: seq<Option<NetworkStats>>): Option<NetworkStats> {
    if readings == [] then start
    else NextBaseline(BaselineAfter(start, readings[..|readings| - 1]), readings[|readings| - 1])
  }

  function TrafficOver(start: Option<NetworkStats>, readings: seq<Option<NetworkStats>>): NetworkStats {
    if readings == [] then NO_TRAFFIC
    else
      NetAdd(TrafficOver(start, readings[..|readings| - 1]),
             NetworkDelta(BaselineAfter(start, readings[..|readings| - 1]), readings[|readings| - 1]))
  }

  /** No good reading is below the good one before it. */
  predicate NeverReset(start: Option<NetworkStats>, readings: seq<Option<NetworkStats>>) {
    readings == [] ||
    (&& NeverReset(start, readings[..|readings| - 1])
     && var before := BaselineAfter(start, readings[..|readings| - 1]);
        var last := readings[|readings| - 1];
        before.Some? && last.Some? ==> NetLe(before.value, last.value))
  }

  lemma GrowthReachesReading(prev: NetworkStats, curr: NetworkStats)
    requires NetLe(prev, curr)
    ensures NetAdd(prev, NetGrowth(prev, curr)) == curr
  {
  }

  lemma NetAddIsAssociative(a: NetworkStats, b: NetworkStats, c: NetworkStats)
    ensures NetAdd(NetAdd(a, b), c) == NetAdd(a, NetAdd(b, c)) && NetAdd(a, NO_TRAFFIC) == a
  {
  }

  /**
   * Network totals telescope over failed readings: without resets they are the last good
   * reading minus the first, so they never exceed the counters themselves.
   */
  lemma {:induction false} TrafficTelescopes(start: NetworkStats, readings: seq<Option<NetworkStats>>)
    requires NeverReset(Some(start), readings)
    ensures var last := BaselineAfter(Some(start), readings);
            last.Some? && NetLe(start, last.value)
            && NetAdd(start, TrafficOver(Some(start), readings)) == last.value
  {
    if readings != [] {
      var init, last := readings[..|readings| - 1], readings[|readings| - 1];
      TrafficTelescopes(start, init);
      var before := BaselineAfter(Some(start), init).value;
      NetAddIsAssociative(start, TrafficOver(Some(start), init), NetworkDelta(Some(before), last));
      NetAddIsAssociative(before, NO_TRAFFIC, NO_TRAFFIC);
      if last.Some? {
        GrowthReachesReading(before, last.value);
      }
    }
  }
}
