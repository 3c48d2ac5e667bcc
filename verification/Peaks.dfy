/** The true simultaneous peak of a job between the two figures that a merge reports (`types.rs`, `merge.rs`). */
module Peaks {
  import opened Prelude
  import opened Process
  import opened Summary
  import opened Totals
  import opened NodeProtocol
  import opened NodeSafety
  import opened World
  import opened Merge
  import opened MergeLaws

  // ---------------------------------------------------------------------
  // Loads on a common clock
  // ---------------------------------------------------------------------

  /**
   * The loads that every node's samples measured, laid out on one clock: at each instant a
   * node shows the sample covering it, or none when it is not running.
   */
  datatype Timeline = Timeline(loads: seq<seq<real>>, shown: seq<seq<Option<nat>>>, instants: nat) {
    ghost predicate Valid() {
      && |shown| == |loads|
      && (forall n :: 0 <= n < |loads| ==> |shown[n]| == instants)
      && (forall n, t :: 0 <= n < |loads| && 0 <= t < instants && shown[n][t].Some? ==>
            shown[n][t].value < |loads[n]|)
      // Every sample is on the clock somewhere, and no load is negative.
      && (forall n, i :: 0 <= n < |loads| && 0 <= i < |loads[n]| ==> ShownSomewhere(n, i))
      && (forall n, i :: 0 <= n < |loads| && 0 <= i < |loads[n]| ==> loads[n][i] >= 0.0)
    }

    ghost predicate ShownSomewhere(n: nat, i: nat)
      requires n < |shown|
    {
      exists t :: 0 <= t < |shown[n]| && shown[n][t] == Some(i)
    }

    /** One node's load at one instant: that of the sample shown, if any. */
    function Load(n: nat, t: nat): real {
      if n < |loads| && n < |shown| && t < |shown[n]| && shown[n][t].Some? && shown[n][t].value < |loads[n]| then
        loads[n][shown[n][t].value]
      else 0.0
    }

    /** The first `k` nodes' loads together at one instant. */
    function JobLoad(k: nat, t: nat): real {
      if k == 0 then 0.0 else JobLoad(k - 1, t) + Load(k - 1, t)
    }

    /** The highest total load over the first `t` instants. */
    function PeakUntil(t: nat): real {
      if t == 0 then 0.0 else MaxReal(PeakUntil(t - 1), JobLoad(|loads|, t - 1))
    }

    function TruePeak(): real {
      PeakUntil(instants)
    }
  }

  /** Whatever a node reports as its peak, no load of its is higher. */
  ghost predicate Dominates(docs: seq<TelemetrySummary>, f: TelemetrySummary -> real, tl: Timeline) {
    && |docs| == |tl.loads|
    && (forall n :: 0 <= n < |docs| ==> f(docs[n]) >= 0.0)
    && (forall n, i :: 0 <= n < |docs| && 0 <= i < |tl.loads[n]| ==> tl.loads[n][i] <= f(docs[n]))
  }

  lemma {:induction false} JobLoadIsWithinSum(
    tl: Timeline, docs: seq<TelemetrySummary>, f: TelemetrySummary -> real, k: nat, t: nat)
    requires tl.Valid() && Dominates(docs, f, tl) && k <= |docs|
    ensures tl.JobLoad(k, t) <= RealTotal(docs[..k], f) && 0.0 <= RealTotal(docs[..k], f)
  {
    if k > 0 {
      JobLoadIsWithinSum(tl, docs, f, k - 1, t);
      assert docs[..k] == docs[..k - 1] + [docs[k - 1]];
      RealTotalAppend(docs[..k - 1], docs[k - 1], f);
    }
  }

  lemma {:induction false} PeakIsWithinSum(tl: Timeline, docs: seq<TelemetrySummary>, f: TelemetrySummary -> real, t: nat)
    requires tl.Valid() && Dominates(docs, f, tl)
    ensures tl.PeakUntil(t) <= RealTotal(docs, f)
  {
    assert docs[..|docs|] == docs;
    JobLoadIsWithinSum(tl, docs, f, |docs|, t);
    if t > 0 {
      PeakIsWithinSum(tl, docs, f, t - 1);
      JobLoadIsWithinSum(tl, docs, f, |docs|, t - 1);
    }
  }

  lemma {:induction false} LoadIsWithinJobLoad(tl: Timeline, n: nat, k: nat, t: nat)
    requires tl.Valid() && k <= |tl.loads|
    ensures 0.0 <= tl.JobLoad(k, t) && (n < k ==> tl.Load(n, t) <= tl.JobLoad(k, t))
    decreases k
  {
    if k > 0 {
      LoadIsWithinJobLoad(tl, n, k - 1, t);
    }
  }

  lemma {:induction false} JobLoadIsWithinPeak(tl: Timeline, t: nat)
    ensures 0.0 <= tl.PeakUntil(t)
    ensures forall u :: 0 <= u < t ==> tl.JobLoad(|tl.loads|, u) <= tl.PeakUntil(t)
  {
    if t > 0 {
      JobLoadIsWithinPeak(tl, t - 1);
    }
  }

  /** Every load of every node was part of some total. */
  lemma LoadsAreWithinTruePeak(tl: Timeline, n: nat, i: nat)
    requires tl.Valid() && n < |tl.loads| && i < |tl.loads[n]|
    ensures tl.loads[n][i] <= tl.TruePeak()
  {
    assert tl.ShownSomewhere(n, i);
    var t :| 0 <= t < |tl.shown[n]| && tl.shown[n][t] == Some(i);
    assert tl.Load(n, t) == tl.loads[n][i];
    LoadIsWithinJobLoad(tl, n, |tl.loads|, t);
    JobLoadIsWithinPeak(tl, tl.instants);
  }

  lemma {:induction false} GreatestIsBounded(docs: seq<TelemetrySummary>, f: TelemetrySummary -> real, bound: real)
    requires bound >= 0.0
    ensures RealGreatest(docs, f) <= bound <==> forall i :: 0 <= i < |docs| ==> f(docs[i]) <= bound
  {
    if docs != [] {
      var init, d := docs[..|docs| - 1], docs[|docs| - 1];
      GreatestIsBounded(init, f, bound);
      assert docs == init + [d];
      RealTotalAppend(init, d, f);
      assert forall i :: 0 <= i < |init| ==> docs[i] == init[i];
    }
  }

  /** The documents that the loggers computed from these samples. */
  ghost predicate FoldedFrom(streams: seq<seq<TelemetrySample>>, docs: seq<TelemetrySummary>) {
    && |docs| == |streams|
    && (forall n :: 0 <= n < |docs| ==> docs[n].acc == Fold(streams[n], docs[n].info.interval))
  }

  function LoadsOf(streams: seq<seq<TelemetrySample>>, load: TelemetrySample -> real): (loads: seq<seq<real>>)
    ensures |loads| == |streams|
    ensures forall n :: 0 <= n < |streams| ==> |loads[n]| == |streams[n]|
    ensures forall n, i :: 0 <= n < |streams| && 0 <= i < |streams[n]| ==> loads[n][i] == load(streams[n][i])
  {
    seq(|streams|, n requires 0 <= n < |streams| =>
      seq(|streams[n]|, i requires 0 <= i < |streams[n]| => load(streams[n][i])))
  }

  // ---------------------------------------------------------------------
  // CPU
  // ---------------------------------------------------------------------

  function CpuLoad(sample: TelemetrySample): real {
    sample.cpuPctSum
  }

  lemma CpuPeaksDominate(streams: seq<seq<TelemetrySample>>, tl: Timeline, docs: seq<TelemetrySummary>)
    requires tl.loads == LoadsOf(streams, CpuLoad) && FoldedFrom(streams, docs)
    ensures Dominates(docs, CpuPeak, tl)
  {
    forall n | 0 <= n < |docs|
      ensures CpuPeak(docs[n]) >= 0.0
      ensures forall i :: 0 <= i < |tl.loads[n]| ==> tl.loads[n][i] <= CpuPeak(docs[n])
    {
      CpuPeakIsReached(streams[n], docs[n].info.interval);
    }
  }

  lemma CpuPeakIsWithinTruePeak(streams: seq<seq<TelemetrySample>>, tl: Timeline, docs: seq<TelemetrySummary>, n: nat)
    requires tl.Valid() && tl.loads == LoadsOf(streams, CpuLoad) && FoldedFrom(streams, docs) && n < |docs|
    ensures CpuPeak(docs[n]) <= tl.TruePeak()
  {
    JobLoadIsWithinPeak(tl, tl.instants);
    CpuPeakIsReached(streams[n], docs[n].info.interval);
    var peak := CpuPeak(docs[n]);
    if peak != 0.0 {
      var i :| 0 <= i < |streams[n]| && streams[n][i].cpuPctSum == peak;
      assert tl.loads[n][i] == peak;
      LoadsAreWithinTruePeak(tl, n, i);
    }
  }

  /**
   * The true simultaneous peak of the job's CPU load, however the nodes' samples line up on
   * a common clock, lies between the two figures the merge reports: some node reached the
   * lower one, and the job cannot have exceeded the upper one.
   */
  lemma CpuPeakIsBracketed(
    streams: seq<seq<TelemetrySample>>, tl: Timeline, docs: seq<TelemetrySummary>, totals: Aggregates)
    requires tl.Valid() && tl.loads == LoadsOf(streams, CpuLoad) && FoldedFrom(streams, docs)
    requires totals == AggregatesOf(docs)
    ensures totals.cpuPeakMax <= tl.TruePeak() <= totals.cpuPeakSum
  {
    CpuPeaksDominate(streams, tl, docs);
    PeakIsWithinSum(tl, docs, CpuPeak, tl.instants);
    JobLoadIsWithinPeak(tl, tl.instants);
    forall n | 0 <= n < |docs|
      ensures CpuPeak(docs[n]) <= tl.TruePeak()
    {
      CpuPeakIsWithinTruePeak(streams, tl, docs, n);
    }
    GreatestIsBounded(docs, CpuPeak, tl.TruePeak());
  }

  // ---------------------------------------------------------------------
  // Memory
  // ---------------------------------------------------------------------

  /** The memory a sample measured: the cgroup's figure when there is one, else the processes'. */
  function MemLoad(sample: TelemetrySample): real {
    sample.cgroupMem.GetOr(sample.tree.rssBytes) as real
  }

  function MemPeakReal(d: TelemetrySummary): real {
    MemPeak(d) as real
  }

  /** No figure of the processes, taken while the cgroup said nothing, is above the cgroup's peak. */
  ghost predicate SwitchHarmless(samples: seq<TelemetrySample>, peak: Option<nat>) {
    peak.Some? ==>
      forall i :: 0 <= i < |samples| && samples[i].cgroupMem.None? ==> samples[i].tree.rssBytes <= peak.value
  }

  ghost predicate SwitchesHarmless(streams: seq<seq<TelemetrySample>>, docs: seq<TelemetrySummary>) {
    && |docs| == |streams|
    && (forall n :: 0 <= n < |docs| ==> SwitchHarmless(streams[n], docs[n].acc.cgroupMemPeak))
  }

  /** In particular for a node whose figures come from the cgroup throughout, or never do. */
  lemma FixedSourceIsHarmless(samples: seq<TelemetrySample>, interval: real)
    requires (forall i :: 0 <= i < |samples| ==> samples[i].cgroupMem.Some?)
             || (forall i :: 0 <= i < |samples| ==> !ReportsMemory(samples[i]))
    ensures SwitchHarmless(samples, Fold(samples, interval).cgroupMemPeak)
  {
    MemoryPeakAppears(samples, interval);
  }

  /** No reported high-water mark of the kernel is above the bound. */
  ghost predicate MarksWithin(streams: seq<seq<TelemetrySample>>, bound: real) {
    forall n, i :: 0 <= n < |streams| && 0 <= i < |streams[n]| ==>
      streams[n][i].cgroupMemPeak.GetOr(0) as real <= bound
  }

  predicate CoveredBy(sample: TelemetrySample, bound: real) {
    sample.cgroupMem.GetOr(0) as real <= bound && sample.cgroupMemPeak.GetOr(0) as real <= bound
  }

  /** The cgroup peak is exactly the least bound of everything the samples reported. */
  lemma {:induction false} CgroupPeakIsLeastBound(samples: seq<TelemetrySample>, interval: real, bound: real)
    requires bound >= 0.0
    ensures Fold(samples, interval).cgroupMemPeak.GetOr(0) as real <= bound
            <==> forall i :: 0 <= i < |samples| ==> CoveredBy(samples[i], bound)
  {
    if samples != [] {
      var init, last := samples[..|samples| - 1], samples[|samples| - 1];
      CgroupPeakIsLeastBound(init, interval, bound);
      PeakWithinBound(Fold(init, interval).cgroupMemPeak, last, bound);
      assert forall i :: 0 <= i < |init| ==> samples[i] == init[i];
    }
  }

  lemma PeakWithinBound(peak: Option<nat>, sample: TelemetrySample, bound: real)
    ensures PeakWith(PeakWith(peak, sample.cgroupMem), sample.cgroupMemPeak).GetOr(0) as real <= bound
            <==> peak.GetOr(0) as real <= bound && CoveredBy(sample, bound)
  {
  }

  /** The process peak is exactly the least bound of the processes' figures. */
  lemma {:induction false} RssPeakIsLeastBound(samples: seq<TelemetrySample>, interval: real, bound: real)
    requires bound >= 0.0
    ensures Fold(samples, interval).peaks.rssBytes as real <= bound
            <==> forall i :: 0 <= i < |samples| ==> samples[i].tree.rssBytes as real <= bound
  {
    if samples != [] {
      var init := samples[..|samples| - 1];
      RssPeakIsLeastBound(init, interval, bound);
      assert forall i :: 0 <= i < |init| ==> samples[i] == init[i];
    }
  }

  predicate Within(sample: TelemetrySample, bound: real) {
    MemLoad(sample) <= bound && sample.cgroupMemPeak.GetOr(0) as real <= bound
  }

  lemma CgroupFigureIsLeastBound(samples: seq<TelemetrySample>, peak: nat, bound: real)
    requires bound >= 0.0 && SwitchHarmless(samples, Some(peak))
    requires peak as real <= bound <==> forall i :: 0 <= i < |samples| ==> CoveredBy(samples[i], bound)
    ensures peak as real <= bound <==> forall i :: 0 <= i < |samples| ==> Within(samples[i], bound)
  {
    forall i | 0 <= i < |samples|
      ensures Within(samples[i], bound) ==> CoveredBy(samples[i], bound)
      ensures CoveredBy(samples[i], bound) && peak as real <= bound ==> Within(samples[i], bound)
    {
    }
  }

  lemma ProcessFigureIsLeastBound(samples: seq<TelemetrySample>, peak: nat, bound: real)
    requires bound >= 0.0 && forall i :: 0 <= i < |samples| ==> !ReportsMemory(samples[i])
    requires peak as real <= bound <==> forall i :: 0 <= i < |samples| ==> samples[i].tree.rssBytes as real <= bound
    ensures peak as real <= bound <==> forall i :: 0 <= i < |samples| ==> Within(samples[i], bound)
  {
    assert forall i :: 0 <= i < |samples| ==>
        !ReportsMemory(samples[i]) && (Within(samples[i], bound) <==> samples[i].tree.rssBytes as real <= bound);
  }

  /** A node's figure is then the least bound of its loads and of the kernel's marks. */
  lemma MemPeakIsLeastBound(samples: seq<TelemetrySample>, d: TelemetrySummary, bound: real)
    requires d.acc == Fold(samples, d.info.interval) && SwitchHarmless(samples, d.acc.cgroupMemPeak) && bound >= 0.0
    ensures MemPeakReal(d) <= bound <==> forall i :: 0 <= i < |samples| ==> Within(samples[i], bound)
  {
    var interval, acc := d.info.interval, d.acc;
    MemoryPeakAppears(samples, interval);
    if acc.cgroupMemPeak.Some? {
      CgroupPeakIsLeastBound(samples, interval, bound);
      CgroupFigureIsLeastBound(samples, acc.cgroupMemPeak.value, bound);
    } else {
      RssPeakIsLeastBound(samples, interval, bound);
      ProcessFigureIsLeastBound(samples, acc.peaks.rssBytes, bound);
    }
  }

  lemma MemPeaksDominate(streams: seq<seq<TelemetrySample>>, tl: Timeline, docs: seq<TelemetrySummary>)
    requires tl.loads == LoadsOf(streams, MemLoad) && FoldedFrom(streams, docs) && SwitchesHarmless(streams, docs)
    ensures Dominates(docs, MemPeakReal, tl)
  {
    forall n | 0 <= n < |docs|
      ensures forall i :: 0 <= i < |tl.loads[n]| ==> tl.loads[n][i] <= MemPeakReal(docs[n])
    {
      MemPeakIsLeastBound(streams[n], docs[n], MemPeakReal(docs[n]));
      assert forall i :: 0 <= i < |streams[n]| ==> Within(streams[n][i], MemPeakReal(docs[n]));
    }
  }

  lemma {:induction false} MemTotalsAgree(docs: seq<TelemetrySummary>)
    ensures RealTotal(docs, MemPeakReal) == Total(docs, MemPeak) as real
    ensures RealGreatest(docs, MemPeakReal) == Greatest(docs, MemPeak) as real
  {
    if docs != [] {
      var init, d := docs[..|docs| - 1], docs[|docs| - 1];
      MemTotalsAgree(init);
      assert docs == init + [d];
      RealTotalAppend(init, d, MemPeakReal);
      SatTotalAppend(init, d, MemPeak);
    }
  }

  lemma LeastBoundOfNode(streams: seq<seq<TelemetrySample>>, tl: Timeline, d: TelemetrySummary, n: nat)
    requires tl.Valid() && tl.loads == LoadsOf(streams, MemLoad) && n < |streams|
    requires d.acc == Fold(streams[n], d.info.interval) && SwitchHarmless(streams[n], d.acc.cgroupMemPeak)
    ensures MemPeakReal(d) <= tl.TruePeak()
            <==> forall i :: 0 <= i < |streams[n]| ==> streams[n][i].cgroupMemPeak.GetOr(0) as real <= tl.TruePeak()
  {
    JobLoadIsWithinPeak(tl, tl.instants);
    MemPeakIsLeastBound(streams[n], d, tl.TruePeak());
    forall i | 0 <= i < |streams[n]|
      ensures Within(streams[n][i], tl.TruePeak()) <==> streams[n][i].cgroupMemPeak.GetOr(0) as real <= tl.TruePeak()
    {
      LoadsAreWithinTruePeak(tl, n, i);
    }
  }

  lemma LeastBoundOverNodes(streams: seq<seq<TelemetrySample>>, tl: Timeline, docs: seq<TelemetrySummary>)
    requires tl.Valid() && tl.loads == LoadsOf(streams, MemLoad)
    requires FoldedFrom(streams, docs) && SwitchesHarmless(streams, docs)
    ensures (forall n :: 0 <= n < |docs| ==> MemPeakReal(docs[n]) <= tl.TruePeak())
            <==> MarksWithin(streams, tl.TruePeak())
  {
    forall n | 0 <= n < |docs|
      ensures MemPeakReal(docs[n]) <= tl.TruePeak()
              <==> forall i :: 0 <= i < |streams[n]| ==> streams[n][i].cgroupMemPeak.GetOr(0) as real <= tl.TruePeak()
    {
      LeastBoundOfNode(streams, tl, docs[n], n);
    }
  }

  /** The merge's two memory figures as the sum and the maximum of what the nodes report. */
  lemma MemFigures(docs: seq<TelemetrySummary>, totals: Aggregates, peak: real)
    requires totals == AggregatesOf(docs) && 0.0 <= peak <= RealTotal(docs, MemPeakReal)
    ensures peak <= totals.memPeakSum as real <==> peak <= U64_MAX as real
    ensures totals.memPeakMax as real <= peak <==> forall n :: 0 <= n < |docs| ==> MemPeakReal(docs[n]) <= peak
  {
    MemTotalsAgree(docs);
    GreatestIsBounded(docs, MemPeakReal, peak);
  }

  /**
   * The memory pair, for nodes at which a switch of source, if any, was harmless. The job
   * cannot have exceeded the upper figure unless the true peak does not even fit in a u64,
   * where the sum saturates. The lower figure is within the true peak exactly when no
   * high-water mark of the kernel, which catches spikes between samples, is above
   * everything the samples saw.
   */
  lemma MemoryPeakIsBracketed(
    streams: seq<seq<TelemetrySample>>, tl: Timeline, docs: seq<TelemetrySummary>, totals: Aggregates)
    requires tl.Valid() && tl.loads == LoadsOf(streams, MemLoad)
    requires FoldedFrom(streams, docs) && SwitchesHarmless(streams, docs)
    requires totals == AggregatesOf(docs)
    ensures tl.TruePeak() <= totals.memPeakSum as real <==> tl.TruePeak() <= U64_MAX as real
    ensures totals.memPeakMax as real <= tl.TruePeak() <==> MarksWithin(streams, tl.TruePeak())
  {
    MemPeaksDominate(streams, tl, docs);
    PeakIsWithinSum(tl, docs, MemPeakReal, tl.instants);
    JobLoadIsWithinPeak(tl, tl.instants);
    LeastBoundOverNodes(streams, tl, docs);
    MemFigures(docs, totals, tl.TruePeak());
  }

  /** No node's cgroup ever reports memory. */
  ghost predicate ProcessesOnly(streams: seq<seq<TelemetrySample>>) {
    forall n, i :: 0 <= n < |streams| && 0 <= i < |streams[n]| ==> !ReportsMemory(streams[n][i])
  }

  lemma ProcessesOnlyIsHarmless(streams: seq<seq<TelemetrySample>>, docs: seq<TelemetrySummary>, bound: real)
    requires ProcessesOnly(streams) && FoldedFrom(streams, docs) && bound >= 0.0
    ensures SwitchesHarmless(streams, docs) && MarksWithin(streams, bound)
  {
    forall n | 0 <= n < |docs|
      ensures SwitchHarmless(streams[n], docs[n].acc.cgroupMemPeak)
    {
      FixedSourceIsHarmless(streams[n], docs[n].info.interval);
    }
    assert forall n, i :: 0 <= n < |streams| && 0 <= i < |streams[n]| ==> !ReportsMemory(streams[n][i]);
  }

  /** Where figures come from the processes alone there are no marks, and the lower figure was always reached. */
  lemma ProcessPeakIsBracketed(
    streams: seq<seq<TelemetrySample>>, tl: Timeline, docs: seq<TelemetrySummary>, totals: Aggregates)
    requires tl.Valid() && tl.loads == LoadsOf(streams, MemLoad)
    requires FoldedFrom(streams, docs) && ProcessesOnly(streams)
    requires totals == AggregatesOf(docs)
    ensures totals.memPeakMax as real <= tl.TruePeak()
    ensures tl.TruePeak() <= totals.memPeakSum as real <==> tl.TruePeak() <= U64_MAX as real
  {
    JobLoadIsWithinPeak(tl, tl.instants);
    ProcessesOnlyIsHarmless(streams, docs, tl.TruePeak());
    MemoryPeakIsBracketed(streams, tl, docs, totals);
  }

  /** The condition is exact, node by node: a figure covers every load of its node if and only if the switch was harmless. */
  lemma HarmlessIsExact(samples: seq<TelemetrySample>, d: TelemetrySummary)
    requires d.acc == Fold(samples, d.info.interval)
    ensures (forall i :: 0 <= i < |samples| ==> MemLoad(samples[i]) <= MemPeakReal(d))
            <==> SwitchHarmless(samples, d.acc.cgroupMemPeak)
  {
    if SwitchHarmless(samples, d.acc.cgroupMemPeak) {
      MemPeakIsLeastBound(samples, d, MemPeakReal(d));
      assert forall i :: 0 <= i < |samples| ==> Within(samples[i], MemPeakReal(d));
    } else {
      HarmfulSwitchShows(samples, d);
    }
  }

  lemma HarmfulSwitchShows(samples: seq<TelemetrySample>, d: TelemetrySummary)
    requires !SwitchHarmless(samples, d.acc.cgroupMemPeak)
    ensures exists i :: 0 <= i < |samples| && MemLoad(samples[i]) > MemPeakReal(d)
  {
    var i :| 0 <= i < |samples| && samples[i].cgroupMem.None? && samples[i].tree.rssBytes > d.acc.cgroupMemPeak.value;
    assert MemLoad(samples[i]) > MemPeakReal(d);
  }

  /** A sample before the first cgroup report. */
  function BeforeReport(rss: nat): TelemetrySample {
    FirstCgroupReport().(cgroupMem := None, tree := NO_STATS.(rssBytes := rss))
  }

  /** When the source switches, the upper figure can fail: a node seen using some memory reports none at all. */
  lemma SourceSwitchBreaksUpperFigure(
    rss: nat, tl: Timeline, d: TelemetrySummary, expected: seq<string>, m: MergedSummary)
    requires rss > 0 && IsMergeOf([d], expected, m)
    requires d.acc == Fold([BeforeReport(rss), FirstCgroupReport()], d.info.interval)
    requires tl == Timeline(LoadsOf([[BeforeReport(rss), FirstCgroupReport()]], MemLoad), [[Some(0), Some(1)]], 2)
    ensures tl.Valid() && tl.TruePeak() >= rss as real && m.totals.memPeakSum == 0
  {
    LoadBeforeReport(rss);
    TwoInstants([[BeforeReport(rss), FirstCgroupReport()]], tl);
    SwitchedFold(rss, d.info.interval);
    OneNodeFigure(d);
  }

  lemma LoadBeforeReport(rss: nat)
    ensures MemLoad(BeforeReport(rss)) == rss as real && MemLoad(FirstCgroupReport()) == 0.0
  {
  }

  lemma TwoInstants(streams: seq<seq<TelemetrySample>>, tl: Timeline)
    requires |streams| == 1 && |streams[0]| == 2
    requires tl == Timeline(LoadsOf(streams, MemLoad), [[Some(0), Some(1)]], 2)
    requires MemLoad(streams[0][0]) >= 0.0 && MemLoad(streams[0][1]) >= 0.0
    ensures tl.Valid() && tl.TruePeak() >= MemLoad(streams[0][0])
  {
    assert tl.shown[0][0] == Some(0) && tl.shown[0][1] == Some(1);
    assert tl.ShownSomewhere(0, 0) && tl.ShownSomewhere(0, 1);
    LoadsAreWithinTruePeak(tl, 0, 0);
  }

  lemma OneNodeFigure(d: TelemetrySummary)
    ensures SatTotal([d], MemPeak) == Min(MemPeak(d), U64_MAX)
  {
    SatTotalAppend([], d, MemPeak);
    assert [] + [d] == [d];
  }

  lemma SwitchedFold(rss: nat, interval: real)
    ensures Fold([BeforeReport(rss), FirstCgroupReport()], interval).cgroupMemPeak == Some(0)
  {
    var samples := [BeforeReport(rss), FirstCgroupReport()];
    MemoryPeakAppears(samples, interval);
    CgroupPeakIsLeastBound(samples, interval, 0.0);
    assert ReportsMemory(samples[1]);
    assert CoveredBy(samples[0], 0.0) && CoveredBy(samples[1], 0.0);
  }

  // ---------------------------------------------------------------------
  // Every clock at once
  // ---------------------------------------------------------------------

  /** Each node shows its samples in the order they were taken. */
  ghost predicate Ordered(tl: Timeline) {
    forall n, t, u :: 0 <= n < |tl.shown| && 0 <= t < u < |tl.shown[n]| && tl.shown[n][t].Some? && tl.shown[n][u].Some? ==>
      tl.shown[n][t].value <= tl.shown[n][u].value
  }

  /** Where a node's load is highest. */
  function Highest(loads: seq<real>): (k: nat)
    requires loads != []
    ensures k < |loads| && forall i :: 0 <= i < |loads| ==> loads[i] <= loads[k]
  {
    if |loads| == 1 then 0
    else
      var k := Highest(loads[..|loads| - 1]);
      assert forall i :: 0 <= i < |loads| - 1 ==> loads[i] == loads[..|loads| - 1][i];
      if loads[|loads| - 1] > loads[k] then |loads| - 1 else k
  }

  function GreatestLoad(loads: seq<real>): real {
    if loads == [] then 0.0 else loads[Highest(loads)]
  }

  /** The nodes' greatest loads together, whenever each of them was. */
  function SumOfGreatest(loads: seq<seq<real>>, k: nat): real
    requires k <= |loads|
  {
    if k == 0 then 0.0 else SumOfGreatest(loads, k - 1) + GreatestLoad(loads[k - 1])
  }

  predicate NoneNegative(loads: seq<seq<real>>) {
    forall n, i :: 0 <= n < |loads| && 0 <= i < |loads[n]| ==> loads[n][i] >= 0.0
  }

  lemma {:induction false} JobLoadIsWithinGreatest(tl: Timeline, k: nat, t: nat)
    requires tl.Valid() && k <= |tl.loads|
    ensures tl.JobLoad(k, t) <= SumOfGreatest(tl.loads, k) && 0.0 <= SumOfGreatest(tl.loads, k)
  {
    if k > 0 {
      JobLoadIsWithinGreatest(tl, k - 1, t);
      assert tl.Load(k - 1, t) <= GreatestLoad(tl.loads[k - 1]);
    }
  }

  lemma {:induction false} PeakIsWithinGreatest(tl: Timeline, t: nat)
    requires tl.Valid()
    ensures tl.PeakUntil(t) <= SumOfGreatest(tl.loads, |tl.loads|)
  {
    JobLoadIsWithinGreatest(tl, |tl.loads|, t);
    if t > 0 {
      PeakIsWithinGreatest(tl, t - 1);
      JobLoadIsWithinGreatest(tl, |tl.loads|, t - 1);
    }
  }

  /** Long enough for every node's samples. */
  function Longest(loads: seq<seq<real>>): (len: nat)
    ensures forall n :: 0 <= n < |loads| ==> |loads[n]| <= len
  {
    if loads == [] then 0
    else
      var rest := Longest(loads[..|loads| - 1]);
      assert forall n :: 0 <= n < |loads| - 1 ==> loads[n] == loads[..|loads| - 1][n];
      Max(rest, |loads[|loads| - 1]|)
  }

  /** One node's samples, one an instant and in order, its highest load falling on the instant `at`. */
  function Aligned(loads: seq<real>, at: nat): (shown: seq<Option<nat>>)
    requires |loads| <= at
    ensures |shown| == 2 * at
    ensures forall t :: 0 <= t < 2 * at ==>
              shown[t] == if loads != [] && 0 <= t - at + Highest(loads) < |loads|
                          then Some(t - at + Highest(loads)) else None
  {
    seq(2 * at, t requires 0 <= t < 2 * at =>
      if loads != [] && 0 <= t - at + Highest(loads) < |loads| then Some(t - at + Highest(loads)) else None)
  }

  /** A clock on which all nodes reach their greatest loads at once, at the instant `at`. */
  ghost predicate IsWorst(tl: Timeline, at: nat) {
    && at > 0 && |tl.shown| == |tl.loads| && tl.instants == 2 * at
    && (forall n :: 0 <= n < |tl.loads| ==> |tl.loads[n]| <= at && tl.shown[n] == Aligned(tl.loads[n], at))
  }

  lemma WorstClock(loads: seq<seq<real>>) returns (tl: Timeline, at: nat)
    ensures tl.loads == loads && IsWorst(tl, at)
  {
    at := Longest(loads) + 1;
    tl := Timeline(loads, seq(|loads|, n requires 0 <= n < |loads| => Aligned(loads[n], at)), 2 * at);
  }

  lemma WorstClockIsValid(tl: Timeline, at: nat)
    requires IsWorst(tl, at) && NoneNegative(tl.loads)
    ensures tl.Valid() && Ordered(tl)
  {
    forall n, i | 0 <= n < |tl.loads| && 0 <= i < |tl.loads[n]|
      ensures tl.ShownSomewhere(n, i)
    {
      var t := i + at - Highest(tl.loads[n]);
      assert tl.shown[n] == Aligned(tl.loads[n], at);
      assert tl.shown[n][t] == Some(i);
    }
  }

  lemma {:induction false} WorstClockAligns(tl: Timeline, at: nat, k: nat)
    requires IsWorst(tl, at) && k <= |tl.loads|
    ensures tl.JobLoad(k, at) == SumOfGreatest(tl.loads, k)
  {
    if k > 0 {
      WorstClockAligns(tl, at, k - 1);
      LoadAtHighest(tl, k - 1, at);
    }
  }

  lemma AlignedAtHighest(loads: seq<real>, at: nat)
    requires |loads| <= at && at > 0
    ensures Aligned(loads, at)[at] == if loads == [] then None else Some(Highest(loads))
  {
    if loads != [] {
      var k := Highest(loads);
      assert at - at + k == k;
    }
  }

  lemma LoadShown(tl: Timeline, n: nat, t: nat)
    requires n < |tl.loads| && n < |tl.shown| && t < |tl.shown[n]|
    ensures tl.shown[n][t].None? ==> tl.Load(n, t) == 0.0
    ensures tl.shown[n][t].Some? && tl.shown[n][t].value < |tl.loads[n]| ==>
              tl.Load(n, t) == tl.loads[n][tl.shown[n][t].value]
  {
  }

  lemma LoadAtHighest(tl: Timeline, n: nat, at: nat)
    requires n < |tl.loads| && n < |tl.shown| && |tl.loads[n]| <= at && at > 0
    requires tl.shown[n] == Aligned(tl.loads[n], at)
    ensures tl.Load(n, at) == GreatestLoad(tl.loads[n])
  {
    AlignedAtHighest(tl.loads[n], at);
    LoadShown(tl, n, at);
  }

  /** The true peak is within a figure on every clock exactly when the nodes' greatest loads together are. */
  lemma EveryClockIsWithin(loads: seq<seq<real>>, figure: real)
    requires NoneNegative(loads)
    ensures (forall tl: Timeline :: tl.Valid() && Ordered(tl) && tl.loads == loads ==> tl.TruePeak() <= figure)
            <==> SumOfGreatest(loads, |loads|) <= figure
  {
    if SumOfGreatest(loads, |loads|) <= figure {
      forall tl: Timeline | tl.Valid() && Ordered(tl) && tl.loads == loads
        ensures tl.TruePeak() <= figure
      {
        PeakIsWithinGreatest(tl, tl.instants);
      }
    } else {
      var tl, at := WorstClock(loads);
      WorstClockIsValid(tl, at);
      WorstClockAligns(tl, at, |loads|);
      JobLoadIsWithinPeak(tl, tl.instants);
      assert tl.TruePeak() > figure;
    }
  }

  lemma MemLoadsAreNotNegative(streams: seq<seq<TelemetrySample>>)
    ensures NoneNegative(LoadsOf(streams, MemLoad))
  {
  }

  /**
   * Harmless switches or not: the upper memory figure holds on every clock the nodes could
   * have had exactly when it covers the sum of the nodes' greatest loads.
   */
  lemma UpperFigureHoldsOnEveryClock(streams: seq<seq<TelemetrySample>>, docs: seq<TelemetrySummary>, totals: Aggregates)
    requires FoldedFrom(streams, docs) && totals == AggregatesOf(docs)
    ensures var loads := LoadsOf(streams, MemLoad);
            (forall tl: Timeline :: tl.Valid() && Ordered(tl) && tl.loads == loads ==>
               tl.TruePeak() <= totals.memPeakSum as real)
            <==> SumOfGreatest(loads, |loads|) <= totals.memPeakSum as real
  {
    MemLoadsAreNotNegative(streams);
    EveryClockIsWithin(LoadsOf(streams, MemLoad), totals.memPeakSum as real);
  }

  // ---------------------------------------------------------------------
  // The documents of a run
  // ---------------------------------------------------------------------

  /** For every node that has published, the samples its document covers. */
  function StreamsOf(nodes: seq<NodeState>): seq<seq<TelemetrySample>> {
    if nodes == [] then [] else
    var last := nodes[|nodes| - 1];
    StreamsOf(nodes[..|nodes| - 1])
    + (match Published(last)
       case None => []
       case Some(d) => [last.seen[..Min(d.derived.samples, |last.seen|)]])
  }

  ghost predicate AllSound(infos: seq<NodeInfo>, nodes: seq<NodeState>) {
    |infos| == |nodes| && forall i :: 0 <= i < |nodes| ==> Inv(infos[i], nodes[i])
  }

  lemma PublishedIsFolded(info: NodeInfo, n: NodeState)
    requires Inv(info, n) && Published(n).Some?
    ensures var d := Published(n).value;
            d.acc == Fold(n.seen[..Min(d.derived.samples, |n.seen|)], d.info.interval)
  {
    var d := Published(n).value;
    assert DocSound(info, n.seen, n.clock, d);
    assert n.seen[..|n.seen|] == n.seen;
  }

  lemma {:induction false} NodesAreFolded(infos: seq<NodeInfo>, nodes: seq<NodeState>)
    requires AllSound(infos, nodes)
    ensures FoldedFrom(StreamsOf(nodes), DocsOf(nodes))
  {
    if nodes != [] {
      var k := |nodes| - 1;
      NodesAreFolded(infos[..k], nodes[..k]);
      if Published(nodes[k]).Some? {
        PublishedIsFolded(infos[k], nodes[k]);
        FoldedAppend(StreamsOf(nodes[..k]), DocsOf(nodes[..k]),
                     nodes[k].seen[..Min(Published(nodes[k]).value.derived.samples, |nodes[k].seen|)],
                     Published(nodes[k]).value);
      } else {
        assert StreamsOf(nodes) == StreamsOf(nodes[..k]) && DocsOf(nodes) == DocsOf(nodes[..k]);
      }
    }
  }

  lemma FoldedAppend(
    streams: seq<seq<TelemetrySample>>, docs: seq<TelemetrySummary>, stream: seq<TelemetrySample>, d: TelemetrySummary)
    requires FoldedFrom(streams, docs) && d.acc == Fold(stream, d.info.interval)
    ensures FoldedFrom(streams + [stream], docs + [d])
  {
  }

  /** What any run publishes is folded from prefixes of its nodes' samples. */
  lemma RunIsFolded(infos: seq<NodeInfo>, leftover: StatusFile, steps: seq<Step>)
    requires Run(Begin(infos, leftover), steps).Some?
    ensures var nodes := Run(Begin(infos, leftover), steps).value.nodes;
            FoldedFrom(StreamsOf(nodes), DocsOf(nodes))
  {
    RunKeepsInv(infos, leftover, steps);
    NodesAreFolded(infos, Run(Begin(infos, leftover), steps).value.nodes);
  }

  /**
   * So at any moment of any run, whatever is merged then, in whatever order it is read, its
   * CPU figures bracket the true peak of the samples that have been published.
   */
  lemma RunCpuPeakIsBracketed(
    infos: seq<NodeInfo>, leftover: StatusFile, steps: seq<Step>, tl: Timeline,
    docs: seq<TelemetrySummary>, expected: seq<string>, m: MergedSummary)
    requires Run(Begin(infos, leftover), steps).Some?
    requires tl.Valid() && tl.loads == LoadsOf(StreamsOf(Run(Begin(infos, leftover), steps).value.nodes), CpuLoad)
    requires multiset(docs) == multiset(DocsOf(Run(Begin(infos, leftover), steps).value.nodes))
    requires IsMergeOf(docs, expected, m)
    ensures m.totals.cpuPeakMax <= tl.TruePeak() <= m.totals.cpuPeakSum
  {
    var nodes := Run(Begin(infos, leftover), steps).value.nodes;
    RunIsFolded(infos, leftover, steps);
    AggregatesIgnoreOrder(docs, DocsOf(nodes));
    CpuPeakIsBracketed(StreamsOf(nodes), tl, DocsOf(nodes), m.totals);
  }
}
