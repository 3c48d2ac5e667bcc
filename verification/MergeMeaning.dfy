/** What the figures of a merge mean for the nodes they come from (`merge.rs`, `types.rs`). */
module MergeMeaning {
  import opened Prelude
  import opened Cpu
  import opened Folding
  import opened Sorting
  import opened Summary
  import opened Averages
  import opened Merge
  import opened MergeLaws

  // ---------------------------------------------------------------------
  // One node
  // ---------------------------------------------------------------------

  lemma NatOfOne(d: TelemetrySummary, f: TelemetrySummary -> nat)
    ensures Total([d], f) == f(d) && SatTotal([d], f) == Min(f(d), U64_MAX) && Greatest([d], f) == f(d)
  {
    SatTotalAppend([], d, f);
    assert [] + [d] == [d];
  }

  lemma RealOfOne(d: TelemetrySummary, f: TelemetrySummary -> real)
    ensures RealTotal([d], f) == f(d) && RealGreatest([d], f) == MaxReal(0.0, f(d))
  {
    RealTotalAppend([], d, f);
    assert [] + [d] == [d];
  }

  lemma SumsOfOne(d: TelemetrySummary)
    ensures var t := AggregatesOf([d]);
            && t.coreSeconds == d.acc.coreSeconds
            && t.totalCpus == |d.info.allowedCpus|
            && t.samples == d.derived.samples
            && t.ioRead == Min(d.acc.peaks.ioReadBytes, U64_MAX)
            && t.ioWrite == Min(d.acc.peaks.ioWriteBytes, U64_MAX)
            && t.netRecv == Min(d.acc.net.recvBytes, U64_MAX)
            && t.netSent == Min(d.acc.net.sentBytes, U64_MAX)
            && t.majorFaults == Min(d.acc.peaks.majorFaults, U64_MAX)
            && t.minorFaults == Min(d.acc.peaks.minorFaults, U64_MAX)
  {
    RealOfOne(d, CoreSeconds);
    NatOfOne(d, Cpus);
    NatOfOne(d, Samples);
    NatOfOne(d, IoRead);
    NatOfOne(d, IoWrite);
    NatOfOne(d, NetRecv);
    NatOfOne(d, NetSent);
    NatOfOne(d, MajorFaults);
    NatOfOne(d, MinorFaults);
  }

  lemma PeaksOfOne(d: TelemetrySummary)
    ensures var t := AggregatesOf([d]);
            && t.cpuPeakMax == MaxReal(0.0, d.acc.cpuPctSumPeak) && t.cpuPeakSum == d.acc.cpuPctSumPeak
            && t.memPeakMax == d.acc.cgroupMemPeak.GetOr(d.acc.peaks.rssBytes)
            && t.memPeakSum == Min(d.acc.cgroupMemPeak.GetOr(d.acc.peaks.rssBytes), U64_MAX)
            && t.procsPeakMax == d.acc.peaks.procCount
            && t.threadsPeakMax == d.acc.peaks.threadCount
            && t.duration == MaxReal(0.0, d.derived.durationSec)
  {
    RealOfOne(d, CpuPeak);
    NatOfOne(d, MemPeak);
    NatOfOne(d, ProcsPeak);
    NatOfOne(d, ThreadsPeak);
    RealOfOne(d, Duration);
  }

  lemma SameRatio(x: real, t: real, n: nat)
    requires t > 0.0 && n > 0
    ensures x / (t * n as real) * 100.0 == x / t * 100.0 / n as real
  {
    var y := x / t;
    assert x == y * t;
    assert y * t == y / n as real * (t * n as real);
    QuotientIs(x, t * n as real, y / n as real);
  }

  lemma QuotientIs(x: real, y: real, q: real)
    requires y != 0.0 && x == q * y
    ensures x / y == q
  {
  }

  /**
   * Merging a single node's document gives back that node's own totals and peaks, capped
   * where sums are. With `MergeLaws.MergeIsCompositional` this fixes what any merge adds up to.
   */
  lemma OneNodeTotals(d: TelemetrySummary, expected: seq<string>, m: MergedSummary)
    requires IsMergeOf([d], expected, m)
    ensures var acc, mem := d.acc, d.acc.cgroupMemPeak.GetOr(d.acc.peaks.rssBytes);
            m.totals == Aggregates(
              acc.coreSeconds, |d.info.allowedCpus|, d.derived.samples,
              Min(acc.peaks.ioReadBytes, U64_MAX), Min(acc.peaks.ioWriteBytes, U64_MAX),
              Min(acc.net.recvBytes, U64_MAX), Min(acc.net.sentBytes, U64_MAX),
              Min(acc.peaks.majorFaults, U64_MAX), Min(acc.peaks.minorFaults, U64_MAX),
              MaxReal(0.0, acc.cpuPctSumPeak), acc.cpuPctSumPeak, mem, Min(mem, U64_MAX),
              acc.peaks.procCount, acc.peaks.threadCount, MaxReal(0.0, d.derived.durationSec))
  {
    SumsOfOne(d);
    PeaksOfOne(d);
  }

  /** And its own efficiencies and hours. */
  lemma OneNodeEfficiencies(
    d: TelemetrySummary, info: NodeInfo, samples: seq<TelemetrySample>, now: Now, expected: seq<string>, m: MergedSummary)
    requires IsDocOf(d, info, samples, now) && now.elapsed >= 0.0 && IsMergeOf([d], expected, m)
    ensures m.cpuEfficiencyPctAvg == d.derived.cpuEfficiencyPctAvg
    ensures m.walltimeEfficiencyPct == d.derived.walltimeEfficiencyPct
    ensures m.cpuCoreHours == d.derived.cpuCoreHours
  {
    SumsOfOne(d);
    PeaksOfOne(d);
    EfficiencyOfSpread(m.totals);
    DocumentOfSpread(d, info, samples, now);
  }

  /** The average percentage that core-seconds spread over a time come to. */
  function Spread(coreSeconds: real, seconds: real): real {
    if seconds > 0.0 then coreSeconds / seconds * 100.0 else 0.0
  }

  lemma EfficiencyOfSpread(a: Aggregates)
    requires a.duration >= 0.0
    ensures Efficiency(a) == CpuEfficiencyPct(Spread(a.coreSeconds, a.duration), a.totalCpus)
  {
    if a.duration > 0.0 && a.totalCpus > 0 {
      SameRatio(a.coreSeconds, a.duration, a.totalCpus);
    }
  }

  lemma DocumentOfSpread(d: TelemetrySummary, info: NodeInfo, samples: seq<TelemetrySample>, now: Now)
    requires IsDocOf(d, info, samples, now) && now.elapsed >= 0.0
    ensures d.derived.cpuEfficiencyPctAvg
         == CpuEfficiencyPct(Spread(d.acc.coreSeconds, d.derived.durationSec), |d.info.allowedCpus|)
    ensures d.derived.durationSec == now.elapsed
  {
  }

  // ---------------------------------------------------------------------
  // Efficiency
  // ---------------------------------------------------------------------

  lemma EfficiencyTimes(a: Aggregates)
    requires a.duration > 0.0 && a.totalCpus > 0
    ensures IsShare(Efficiency(a), Capacity(a.totalCpus, a.duration), a.coreSeconds)
  {
    CapacityIsPositive(a.totalCpus, a.duration);
    PercentTimes(a.coreSeconds, Capacity(a.totalCpus, a.duration));
  }

  /** The merged efficiency is the share of the core-seconds that all CPUs could have given in the longest duration. */
  lemma EfficiencyIsAShare(docs: seq<TelemetrySummary>, expected: seq<string>, m: MergedSummary)
    requires IsMergeOf(docs, expected, m)
    ensures m.totals.coreSeconds == RealTotal(docs, CoreSeconds)
    ensures m.totals.totalCpus == Total(docs, Cpus) && m.totals.duration == RealGreatest(docs, Duration)
    ensures if m.totals.totalCpus > 0 && m.totals.duration > 0.0
            then IsShare(m.cpuEfficiencyPctAvg, Capacity(m.totals.totalCpus, m.totals.duration), m.totals.coreSeconds)
            else m.cpuEfficiencyPctAvg == 0.0
  {
    if m.totals.totalCpus > 0 && m.totals.duration > 0.0 {
      EfficiencyTimes(m.totals);
    }
  }

  lemma WalltimeShare(a: Aggregates, first: TelemetrySummary)
    ensures if first.info.bookedWalltimeSec > 0
            then IsShare(WalltimeEfficiency(a, first), first.info.bookedWalltimeSec as real, a.duration)
            else WalltimeEfficiency(a, first) == 0.0
  {
    if first.info.bookedWalltimeSec > 0 {
      PercentTimes(a.duration, first.info.bookedWalltimeSec as real);
    }
  }

  /** The walltime efficiency is the share of the first node's booking taken by the longest duration. */
  lemma WalltimeIsAShare(docs: seq<TelemetrySummary>, expected: seq<string>, m: MergedSummary)
    requires IsMergeOf(docs, expected, m)
    ensures var booked := docs[0].info.bookedWalltimeSec;
            if booked > 0 then IsShare(m.walltimeEfficiencyPct, booked as real, m.totals.duration)
            else m.walltimeEfficiencyPct == 0.0
  {
    WalltimeShare(m.totals, docs[0]);
  }

  /** Core-hours are the summed core-seconds in hours. */
  lemma HoursAreCoreSeconds(docs: seq<TelemetrySummary>, expected: seq<string>, m: MergedSummary)
    requires IsMergeOf(docs, expected, m)
    ensures m.cpuCoreHours * 3600.0 == m.totals.coreSeconds
  {
    HoursTimes(m.totals.coreSeconds);
  }

  /** A node whose CPUs were all busy for the whole time. */
  predicate FullyBusy(d: TelemetrySummary, seconds: real) {
    CoreSeconds(d) == Capacity(Cpus(d), seconds)
  }

  lemma {:induction false} FullSumMeansAllBusy(docs: seq<TelemetrySummary>, longest: real)
    requires forall i :: 0 <= i < |docs| ==> WithinCapacity(docs[i]) && Duration(docs[i]) <= longest
    ensures RealTotal(docs, CoreSeconds) <= Capacity(Total(docs, Cpus), longest)
    ensures RealTotal(docs, CoreSeconds) == Capacity(Total(docs, Cpus), longest)
            <==> forall i :: 0 <= i < |docs| ==> FullyBusy(docs[i], longest)
  {
    if docs != [] {
      var init, d := docs[..|docs| - 1], docs[|docs| - 1];
      FullSumMeansAllBusy(init, longest);
      assert docs == init + [d];
      RealTotalAppend(init, d, CoreSeconds);
      SatTotalAppend(init, d, Cpus);
      CapacityGrows(Total(init, Cpus), Cpus(d), Duration(d), longest);
      assert forall i :: 0 <= i < |init| ==> docs[i] == init[i];
    }
  }

  lemma RatioIsOne(x: real, y: real)
    requires y > 0.0
    ensures x / y * 100.0 == 100.0 <==> x == y
  {
    if x / y * 100.0 == 100.0 {
      assert x == x / y * y;
    }
  }

  lemma HundredMeansFull(a: Aggregates)
    requires a.duration > 0.0 && a.totalCpus > 0
    ensures Efficiency(a) == 100.0 <==> a.coreSeconds == Capacity(a.totalCpus, a.duration)
  {
    CapacityIsPositive(a.totalCpus, a.duration);
    RatioIsOne(a.coreSeconds, Capacity(a.totalCpus, a.duration));
  }

  /** It is 100 exactly when every node kept all its CPUs busy for the whole of the longest duration. */
  lemma FullEfficiencyMeansAllBusy(docs: seq<TelemetrySummary>, expected: seq<string>, m: MergedSummary)
    requires IsMergeOf(docs, expected, m)
    requires forall i :: 0 <= i < |docs| ==> WithinCapacity(docs[i])
    requires m.totals.totalCpus > 0 && m.totals.duration > 0.0
    ensures m.cpuEfficiencyPctAvg == 100.0
            <==> forall i :: 0 <= i < |docs| ==> FullyBusy(docs[i], m.totals.duration)
  {
    GreatestIsNonNegative(docs, Duration);
    FullSumMeansAllBusy(docs, m.totals.duration);
    HundredMeansFull(m.totals);
  }

  // ---------------------------------------------------------------------
  // The table
  // ---------------------------------------------------------------------

  /** What the columns of a table come to. */
  datatype Columns = Columns(coreSeconds: real, cpus: nat, samples: nat, cpuPeaks: real, longest: real, memPeak: nat)

  function ColumnsOf(rows: seq<NodeSummary>): Columns {
    if rows == [] then Columns(0.0, 0, 0, 0.0, 0.0, 0) else
    AddRow(ColumnsOf(rows[..|rows| - 1]), rows[|rows| - 1])
  }

  function AddRow(c: Columns, row: NodeSummary): Columns {
    Columns(c.coreSeconds + row.cpuCoreSeconds, c.cpus + row.cpus, c.samples + row.samples,
            c.cpuPeaks + row.cpuPctSumPeak, MaxReal(c.longest, row.durationSec), Max(c.memPeak, row.memPeakBytes))
  }

  ghost predicate Agree(c: Columns, t: Aggregates) {
    && c.coreSeconds == t.coreSeconds && c.cpus == t.totalCpus && c.samples == t.samples
    && c.cpuPeaks == t.cpuPeakSum && c.longest == t.duration && c.memPeak == t.memPeakMax
  }

  lemma RowAgrees(c: Columns, t: Aggregates, d: TelemetrySummary)
    requires Agree(c, t)
    ensures Agree(AddRow(c, NodeRow(d)), Combine(t, d))
  {
  }

  lemma {:induction false} RowsAgree(docs: seq<TelemetrySummary>)
    ensures Agree(ColumnsOf(NodeRows(docs)), Combined(docs))
  {
    if docs != [] {
      var init, d := docs[..|docs| - 1], docs[|docs| - 1];
      RowsAgree(init);
      RowAgrees(ColumnsOf(NodeRows(init)), Combined(init), d);
      assert NodeRows(docs)[..|docs| - 1] == NodeRows(init);
    }
  }

  lemma {:induction false} ColumnsAppend(a: seq<NodeSummary>, x: NodeSummary, b: seq<NodeSummary>)
    ensures ColumnsOf(a + [x] + b) == AddRow(ColumnsOf(a + b), x)
    decreases |b|
  {
    if b == [] {
      assert a + [x] + b == a + [x] && a + b == a && (a + [x])[..|a|] == a;
    } else {
      var init, last := b[..|b| - 1], b[|b| - 1];
      ColumnsAppend(a, x, init);
      assert (a + [x] + b)[..|a + [x] + b| - 1] == a + [x] + init;
      assert (a + b)[..|a + b| - 1] == a + init;
      RowsSwap(ColumnsOf(a + init), x, last);
    }
  }

  lemma RowsSwap(c: Columns, x: NodeSummary, y: NodeSummary)
    ensures AddRow(AddRow(c, x), y) == AddRow(AddRow(c, y), x)
  {
  }

  lemma {:induction false} ColumnsIgnoreOrder(a: seq<NodeSummary>, b: seq<NodeSummary>)
    requires multiset(a) == multiset(b)
    ensures ColumnsOf(a) == ColumnsOf(b)
    decreases |a|
  {
    if a == [] {
      assert |multiset(b)| == 0;
    } else {
      var init, x := a[..|a| - 1], a[|a| - 1];
      assert a == init + [x] && x in multiset(b);
      var i :| 0 <= i < |b| && b[i] == x;
      var left, right := b[..i], b[i + 1..];
      assert b == left + [x] + right;
      CancelOne(multiset(init), multiset(left + right), x);
      ColumnsIgnoreOrder(init, left + right);
      ColumnsAppend(left, x, right);
    }
  }

  /** The columns of the sorted table add up to the totals above it, and reach its maxima. */
  lemma TableAddsUp(docs: seq<TelemetrySummary>, expected: seq<string>, m: MergedSummary)
    requires IsMergeOf(docs, expected, m)
    ensures Agree(ColumnsOf(m.perNode), m.totals)
  {
    RowOrderIsTotal();
    SortIsSortedPermutation(NodeRows(docs), RowLe);
    ColumnsIgnoreOrder(m.perNode, NodeRows(docs));
    RowsAgree(docs);
    CombinedIsAggregates(docs);
  }
}
