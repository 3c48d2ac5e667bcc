/** What every figure of a summary says about the samples it was accumulated from (`logger.rs`). */
module Figures {
  import opened Prelude
  import opened Summary

  // ---------------------------------------------------------------------
  // The latest report
  // ---------------------------------------------------------------------

  /** Sample `i` reports cgroup I/O and no later one does. */
  ghost predicate LastReportsIo(samples: seq<TelemetrySample>, i: nat) {
    i < |samples| && samples[i].cgroupIo.Some? && forall j :: i < j < |samples| ==> samples[j].cgroupIo.None?
  }

  /** The cgroup's I/O counters are cumulative: the total is the last reading there was. */
  lemma {:induction false} IoIsTheLatestReport(samples: seq<TelemetrySample>, interval: real)
    ensures Fold(samples, interval).cgroupIo.None?
            <==> forall i :: 0 <= i < |samples| ==> samples[i].cgroupIo.None?
    ensures forall i: nat :: LastReportsIo(samples, i) ==> Fold(samples, interval).cgroupIo == samples[i].cgroupIo
  {
    if samples != [] {
      var n := |samples| - 1;
      var init := samples[..n];
      IoIsTheLatestReport(init, interval);
      assert forall i :: 0 <= i < n ==> init[i] == samples[i];
      forall i: nat | LastReportsIo(samples, i)
        ensures Fold(samples, interval).cgroupIo == samples[i].cgroupIo
      {
        assert i < n ==> LastReportsIo(init, i);
      }
    }
  }

  ghost predicate LastNamesGpus(samples: seq<TelemetrySample>, i: nat) {
    i < |samples| && samples[i].gpu.indices != [] && forall j :: i < j < |samples| ==> samples[j].gpu.indices == []
  }

  /** The GPU numbers are the last that were reported, and the scope is the last sample's. */
  lemma {:induction false} GpuLabelsAreTheLatest(samples: seq<TelemetrySample>, interval: real)
    ensures Fold(samples, interval).gpu.indices == []
            <==> forall i :: 0 <= i < |samples| ==> samples[i].gpu.indices == []
    ensures forall i: nat :: LastNamesGpus(samples, i) ==> Fold(samples, interval).gpu.indices == samples[i].gpu.indices
    ensures Fold(samples, interval).gpu.nodeScoped
            <==> samples == [] || !samples[|samples| - 1].gpu.jobScoped
  {
    if samples != [] {
      var n := |samples| - 1;
      var init := samples[..n];
      GpuLabelsAreTheLatest(init, interval);
      assert forall i :: 0 <= i < n ==> init[i] == samples[i];
      forall i: nat | LastNamesGpus(samples, i)
        ensures Fold(samples, interval).gpu.indices == samples[i].gpu.indices
      {
        assert i < n ==> LastNamesGpus(init, i);
      }
    }
  }

  // ---------------------------------------------------------------------
  // Single peaks
  // ---------------------------------------------------------------------

  /** The swap peak is reported by some sample and exceeded by none; there is none when nothing was reported. */
  lemma {:induction false} SwapPeakIsReached(samples: seq<TelemetrySample>, interval: real)
    ensures IsSwapPeak(Fold(samples, interval).cgroupSwapPeak, samples)
  {
    if samples != [] {
      var n := |samples| - 1;
      SwapPeakIsReached(samples[..n], interval);
      SwapStep(samples[..n], samples[n], Fold(samples[..n], interval).cgroupSwapPeak);
      assert samples == samples[..n] + [samples[n]];
    }
  }

  ghost predicate IsSwapPeak(peak: Option<nat>, samples: seq<TelemetrySample>) {
    && (peak.None? <==> forall i :: 0 <= i < |samples| ==> samples[i].cgroupSwap.None?)
    && (peak.Some? ==>
          && (exists i :: 0 <= i < |samples| && samples[i].cgroupSwap == peak)
          && (forall i :: 0 <= i < |samples| ==> samples[i].cgroupSwap.GetOr(0) <= peak.value))
  }

  lemma SwapStep(init: seq<TelemetrySample>, last: TelemetrySample, peak: Option<nat>)
    requires IsSwapPeak(peak, init)
    ensures IsSwapPeak(PeakWith(peak, last.cgroupSwap), init + [last])
  {
    var all, next := init + [last], PeakWith(peak, last.cgroupSwap);
    assert all[|init|] == last && forall i :: 0 <= i < |init| ==> all[i] == init[i];
    if next.Some? && next != last.cgroupSwap {
      var i :| 0 <= i < |init| && init[i].cgroupSwap == peak;
      assert all[i].cgroupSwap == next;
    }
  }

  /** The efficiency peak is reached by some sample (or is the initial zero) and exceeded by none. */
  lemma {:induction false} EfficiencyPeakIsReached(samples: seq<TelemetrySample>, interval: real)
    ensures var peak := Fold(samples, interval).cpuEfficiencyPctPeak;
            && peak >= 0.0
            && (forall i :: 0 <= i < |samples| ==> samples[i].cpuEfficiencyPct <= peak)
            && (peak == 0.0 || exists i :: 0 <= i < |samples| && samples[i].cpuEfficiencyPct == peak)
  {
    if samples != [] {
      var n := |samples| - 1;
      EfficiencyPeakIsReached(samples[..n], interval);
      assert forall i :: 0 <= i < n ==> samples[..n][i] == samples[i];
    }
  }

  // ---------------------------------------------------------------------
  // Peaks of vectors
  // ---------------------------------------------------------------------

  ghost predicate IsRealPeak(peak: real, vectors: seq<seq<real>>, k: nat) {
    && peak >= 0.0
    && (forall i :: 0 <= i < |vectors| ==> At(vectors[i], k, 0.0) <= peak)
    && (peak == 0.0 || exists i :: 0 <= i < |vectors| && At(vectors[i], k, 0.0) == peak)
  }

  /** As long as the longest vector, each entry the largest at its place (missing entries and the start being zero). */
  ghost predicate AreRealPeaks(peaks: seq<real>, vectors: seq<seq<real>>) {
    && (forall i :: 0 <= i < |vectors| ==> |vectors[i]| <= |peaks|)
    && (peaks == [] || exists i :: 0 <= i < |vectors| && |vectors[i]| == |peaks|)
    && (forall k :: 0 <= k < |peaks| ==> IsRealPeak(peaks[k], vectors, k))
  }

  lemma RealPeakStep(peaks: seq<real>, vectors: seq<seq<real>>, v: seq<real>, k: nat)
    requires AreRealPeaks(peaks, vectors) && k < |MaxReals(peaks, v)|
    ensures IsRealPeak(MaxReals(peaks, v)[k], vectors + [v], k)
  {
    var all, peak := vectors + [v], MaxReals(peaks, v)[k];
    assert all[|vectors|] == v && forall i :: 0 <= i < |vectors| ==> all[i] == vectors[i];
    if k < |peaks| {
      assert IsRealPeak(peaks[k], vectors, k);
      if peak == peaks[k] && peak != 0.0 {
        var i :| 0 <= i < |vectors| && At(vectors[i], k, 0.0) == peak;
        assert At(all[i], k, 0.0) == peak;
      }
    }
    if peak == At(v, k, 0.0) {
      assert At(all[|vectors|], k, 0.0) == peak;
    }
  }

  lemma RealPeaksStep(peaks: seq<real>, vectors: seq<seq<real>>, v: seq<real>)
    requires AreRealPeaks(peaks, vectors)
    ensures AreRealPeaks(MaxReals(peaks, v), vectors + [v])
  {
    var all := vectors + [v];
    assert all[|vectors|] == v && forall i :: 0 <= i < |vectors| ==> all[i] == vectors[i];
    forall k | 0 <= k < |MaxReals(peaks, v)|
      ensures IsRealPeak(MaxReals(peaks, v)[k], all, k)
    {
      RealPeakStep(peaks, vectors, v, k);
    }
    if |v| < |peaks| {
      var i :| 0 <= i < |vectors| && |vectors[i]| == |peaks|;
      assert |all[i]| == |MaxReals(peaks, v)|;
    }
  }

  ghost predicate IsNatPeak(peak: nat, vectors: seq<seq<nat>>, k: nat) {
    && (forall i :: 0 <= i < |vectors| ==> At(vectors[i], k, 0) <= peak)
    && (peak == 0 || exists i :: 0 <= i < |vectors| && At(vectors[i], k, 0) == peak)
  }

  ghost predicate AreNatPeaks(peaks: seq<nat>, vectors: seq<seq<nat>>) {
    && (forall i :: 0 <= i < |vectors| ==> |vectors[i]| <= |peaks|)
    && (peaks == [] || exists i :: 0 <= i < |vectors| && |vectors[i]| == |peaks|)
    && (forall k :: 0 <= k < |peaks| ==> IsNatPeak(peaks[k], vectors, k))
  }

  lemma NatPeakStep(peaks: seq<nat>, vectors: seq<seq<nat>>, v: seq<nat>, k: nat)
    requires AreNatPeaks(peaks, vectors) && k < |MaxNats(peaks, v)|
    ensures IsNatPeak(MaxNats(peaks, v)[k], vectors + [v], k)
  {
    var all, peak := vectors + [v], MaxNats(peaks, v)[k];
    assert all[|vectors|] == v && forall i :: 0 <= i < |vectors| ==> all[i] == vectors[i];
    if k < |peaks| {
      assert IsNatPeak(peaks[k], vectors, k);
      if peak == peaks[k] && peak != 0 {
        var i :| 0 <= i < |vectors| && At(vectors[i], k, 0) == peak;
        assert At(all[i], k, 0) == peak;
      }
    }
    if peak == At(v, k, 0) {
      assert At(all[|vectors|], k, 0) == peak;
    }
  }

  lemma NatPeaksStep(peaks: seq<nat>, vectors: seq<seq<nat>>, v: seq<nat>)
    requires AreNatPeaks(peaks, vectors)
    ensures AreNatPeaks(MaxNats(peaks, v), vectors + [v])
  {
    var all := vectors + [v];
    assert all[|vectors|] == v && forall i :: 0 <= i < |vectors| ==> all[i] == vectors[i];
    forall k | 0 <= k < |MaxNats(peaks, v)|
      ensures IsNatPeak(MaxNats(peaks, v)[k], all, k)
    {
      NatPeakStep(peaks, vectors, v, k);
    }
    if |v| < |peaks| {
      var i :| 0 <= i < |vectors| && |vectors[i]| == |peaks|;
      assert |all[i]| == |MaxNats(peaks, v)|;
    }
  }

  // ---------------------------------------------------------------------
  // The GPU vectors
  // ---------------------------------------------------------------------

  function Utilizations(samples: seq<TelemetrySample>): (vectors: seq<seq<real>>)
    ensures |vectors| == |samples| && forall i :: 0 <= i < |samples| ==> vectors[i] == samples[i].gpu.utilization
  {
    seq(|samples|, i requires 0 <= i < |samples| => samples[i].gpu.utilization)
  }

  function MemoriesUsed(samples: seq<TelemetrySample>): (vectors: seq<seq<nat>>)
    ensures |vectors| == |samples| && forall i :: 0 <= i < |samples| ==> vectors[i] == samples[i].gpu.memoryUsed
  {
    seq(|samples|, i requires 0 <= i < |samples| => samples[i].gpu.memoryUsed)
  }

  function MemoryTotals(samples: seq<TelemetrySample>): (vectors: seq<seq<nat>>)
    ensures |vectors| == |samples| && forall i :: 0 <= i < |samples| ==> vectors[i] == samples[i].gpu.memoryTotal
  {
    seq(|samples|, i requires 0 <= i < |samples| => samples[i].gpu.memoryTotal)
  }

  function Temperatures(samples: seq<TelemetrySample>): (vectors: seq<seq<real>>)
    ensures |vectors| == |samples| && forall i :: 0 <= i < |samples| ==> vectors[i] == samples[i].gpu.temperature
  {
    seq(|samples|, i requires 0 <= i < |samples| => samples[i].gpu.temperature)
  }

  function Powers(samples: seq<TelemetrySample>): (vectors: seq<seq<real>>)
    ensures |vectors| == |samples| && forall i :: 0 <= i < |samples| ==> vectors[i] == samples[i].gpu.power
  {
    seq(|samples|, i requires 0 <= i < |samples| => samples[i].gpu.power)
  }

  lemma VectorsAppend(init: seq<TelemetrySample>, last: TelemetrySample)
    ensures Utilizations(init + [last]) == Utilizations(init) + [last.gpu.utilization]
    ensures MemoriesUsed(init + [last]) == MemoriesUsed(init) + [last.gpu.memoryUsed]
    ensures MemoryTotals(init + [last]) == MemoryTotals(init) + [last.gpu.memoryTotal]
    ensures Temperatures(init + [last]) == Temperatures(init) + [last.gpu.temperature]
    ensures Powers(init + [last]) == Powers(init) + [last.gpu.power]
  {
  }

  ghost predicate AreGpuPeaks(peaks: GpuPeaks, samples: seq<TelemetrySample>) {
    && AreRealPeaks(peaks.utilization, Utilizations(samples))
    && AreNatPeaks(peaks.memoryUsed, MemoriesUsed(samples))
    && AreNatPeaks(peaks.memoryTotal, MemoryTotals(samples))
    && AreRealPeaks(peaks.temperature, Temperatures(samples))
    && AreRealPeaks(peaks.power, Powers(samples))
  }

  lemma GpuPeaksStep(peaks: GpuPeaks, init: seq<TelemetrySample>, last: TelemetrySample)
    requires AreGpuPeaks(peaks, init)
    ensures AreGpuPeaks(GpuWith(peaks, last.gpu), init + [last])
  {
    VectorsAppend(init, last);
    RealPeaksStep(peaks.utilization, Utilizations(init), last.gpu.utilization);
    NatPeaksStep(peaks.memoryUsed, MemoriesUsed(init), last.gpu.memoryUsed);
    NatPeaksStep(peaks.memoryTotal, MemoryTotals(init), last.gpu.memoryTotal);
    RealPeaksStep(peaks.temperature, Temperatures(init), last.gpu.temperature);
    RealPeaksStep(peaks.power, Powers(init), last.gpu.power);
  }

  /** Entry by entry, each of the five GPU vectors is the maximum of that same vector over the samples. */
  lemma {:induction false} GpuPeaksAreReached(samples: seq<TelemetrySample>, interval: real)
    ensures AreGpuPeaks(Fold(samples, interval).gpu, samples)
  {
    if samples != [] {
      var init, last := samples[..|samples| - 1], samples[|samples| - 1];
      GpuPeaksAreReached(init, interval);
      GpuPeaksStep(Fold(init, interval).gpu, init, last);
      assert samples == init + [last];
    }
  }
}
