/** What the derived figures of a document mean: averages, efficiencies and hours (`logger.rs`). */
module Averages {
  import opened Cpu
  import opened Summary
  import opened NodeProtocol
  import opened Script

  lemma PercentTimes(x: real, t: real)
    requires t > 0.0
    ensures x / t * 100.0 * t == 100.0 * x
  {
    assert x / t * t == x;
  }

  lemma HoursTimes(x: real)
    ensures x / 3600.0 * 3600.0 == x
  {
  }

  /** A percentage of some whole is so much of it. */
  ghost predicate IsShare(pct: real, whole: real, part: real) {
    pct * whole == 100.0 * part
  }

  /** The average over the run, in total and CPU by CPU, is the core-seconds spread over the elapsed time. */
  ghost predicate AveragesMean(d: Derived, acc: Accumulators) {
    && IsShare(d.avgCpuPercent, d.durationSec, acc.coreSeconds)
    && |d.avgCpuPercentByCpu| == |acc.coreSecondsByCpu|
    && (forall k :: 0 <= k < |acc.coreSecondsByCpu| ==>
          IsShare(d.avgCpuPercentByCpu[k], d.durationSec, acc.coreSecondsByCpu[k]))
  }

  /** Efficiency is the share of what the allowed CPUs could have given; of no CPUs it is nothing. */
  ghost predicate EfficiencyMeans(d: Derived, acc: Accumulators, cores: nat) {
    if cores == 0 then d.cpuEfficiencyPctAvg == 0.0
    else IsShare(d.cpuEfficiencyPctAvg, cores as real * d.durationSec, acc.coreSeconds)
  }

  /** How much of each booking was used; of no booking nothing. */
  ghost predicate BookingsMean(d: Derived, acc: Accumulators, info: NodeInfo) {
    && (if info.bookedWalltimeSec == 0 then d.walltimeEfficiencyPct == 0.0
        else IsShare(d.walltimeEfficiencyPct, info.bookedWalltimeSec as real, d.durationSec))
    && (if info.bookedMemBytes == 0 then d.memEfficiencyPct == 0.0
        else IsShare(d.memEfficiencyPct, info.bookedMemBytes as real,
                     acc.cgroupMemPeak.GetOr(acc.peaks.rssBytes) as real))
  }

  lemma CpuAveragesMean(secs: seq<real>, t: real)
    requires t > 0.0
    ensures forall k :: 0 <= k < |secs| ==> IsShare(PctByCpu(secs, t)[k], t, secs[k])
  {
    forall k | 0 <= k < |secs|
      ensures IsShare(PctByCpu(secs, t)[k], t, secs[k])
    {
      PercentTimes(secs[k], t);
    }
  }

  lemma EfficiencyTimes(avg: real, cores: nat, t: real, coreSeconds: real)
    requires IsShare(avg, t, coreSeconds) && cores > 0
    ensures IsShare(CpuEfficiencyPct(avg, cores), cores as real * t, coreSeconds)
  {
    assert avg / cores as real * cores as real == avg;
    assert CpuEfficiencyPct(avg, cores) * (cores as real * t) == CpuEfficiencyPct(avg, cores) * cores as real * t;
  }

  lemma DerivedAverages(info: NodeInfo, acc: Accumulators, samples: nat, now: Now)
    requires now.elapsed > 0.0
    ensures AveragesMean(DerivedOf(info, acc, samples, now), acc)
    ensures EfficiencyMeans(DerivedOf(info, acc, samples, now), acc, |info.allowedCpus|)
  {
    var d := DerivedOf(info, acc, samples, now);
    PercentTimes(acc.coreSeconds, now.elapsed);
    CpuAveragesMean(acc.coreSecondsByCpu, now.elapsed);
    if |info.allowedCpus| > 0 {
      EfficiencyTimes(d.avgCpuPercent, |info.allowedCpus|, now.elapsed, acc.coreSeconds);
    }
  }

  lemma DerivedBookings(info: NodeInfo, acc: Accumulators, samples: nat, now: Now)
    ensures BookingsMean(DerivedOf(info, acc, samples, now), acc, info)
  {
    if info.bookedWalltimeSec > 0 {
      PercentTimes(now.elapsed, info.bookedWalltimeSec as real);
    }
    if info.bookedMemBytes > 0 {
      PercentTimes(acc.cgroupMemPeak.GetOr(acc.peaks.rssBytes) as real, info.bookedMemBytes as real);
    }
  }

  /** A document of these samples, taken at this moment, a checkpoint or the final one. */
  ghost predicate IsDocOf(d: TelemetrySummary, info: NodeInfo, samples: seq<TelemetrySample>, now: Now) {
    d == PartialDoc(info, samples, now) || d == FinalDoc(info, samples, now, d.outcome)
  }

  /**
   * Every document a logger writes: count, time and CPU peaks are the run's; hours are the
   * core-seconds; the booking efficiencies are shares of the bookings; and once time has
   * passed, averages and efficiency are the core-seconds spread over it. Before that they
   * are zero.
   */
  lemma DocumentsMean(d: TelemetrySummary, info: NodeInfo, samples: seq<TelemetrySample>, now: Now)
    requires IsDocOf(d, info, samples, now)
    ensures d.derived.samples == |samples| && d.derived.durationSec == now.elapsed && d.derived.tEnd == now.wallClock
    ensures d.derived.treePercpuPctPeak == d.acc.percpuPctPeak
    ensures d.derived.cpuCoreHours * 3600.0 == d.acc.coreSeconds
    ensures BookingsMean(d.derived, d.acc, info)
    ensures now.elapsed > 0.0 ==>
              AveragesMean(d.derived, d.acc) && EfficiencyMeans(d.derived, d.acc, |info.allowedCpus|)
    ensures now.elapsed <= 0.0 ==>
              d.derived.avgCpuPercent == 0.0 && d.derived.cpuEfficiencyPctAvg == 0.0 && d.derived.avgCpuPercentByCpu == []
  {
    var acc := Fold(samples, info.interval);
    HoursTimes(acc.coreSeconds);
    DerivedBookings(info, acc, |samples|, now);
    if now.elapsed > 0.0 {
      DerivedAverages(info, acc, |samples|, now);
    }
  }

  /** Nanoseconds of growth, in seconds. */
  function InSeconds(first: CpuUsage, last: CpuUsage): real {
    (last.totalNs - first.totalNs) as real / NS_PER_SEC
  }

  lemma SecondsOf(seconds: real, first: CpuUsage, last: CpuUsage)
    requires seconds * NS_PER_SEC == (last.totalNs - first.totalNs) as real
    ensures seconds == InSeconds(first, last)
  {
  }

  /**
   * From the kernel's counter to the published average: over a run on a real clock, the
   * average is the share of the elapsed time that the counter grew, in seconds, from the
   * primed baseline to the last good reading.
   */
  lemma AverageIsCounterGrowth(
    d: TelemetrySummary, seen: seq<TelemetrySample>, start: Start, script: seq<Tick>, i: nat, now: Now)
    requires i <= |script| && SamplesOf(seen, start, script, i) && start.primed.Some? && NeverFalls(start, script, i)
    requires Timed(start, script) && start.info.interval > 0.0
    requires IsDocOf(d, start.info, seen, now) && now.elapsed > 0.0
    ensures CpuBaseline(start.primed, script, i).Some?
    ensures d.derived.durationSec == now.elapsed
    ensures IsShare(d.derived.avgCpuPercent, d.derived.durationSec,
                    InSeconds(start.primed.value.0, CpuBaseline(start.primed, script, i).value.0))
  {
    RunConservesCpuTime(seen, start, script, i);
    DocumentsMean(d, start.info, seen, now);
    SecondsOf(Fold(seen, start.info.interval).coreSeconds, start.primed.value.0,
              CpuBaseline(start.primed, script, i).value.0);
  }
}
