/** Combining per-node summaries into one job view (`merge.rs`). */
module Merge {
  import opened Prelude
  import opened Text
  import opened Folding
  import opened Sorting
  import opened Summary
  import opened ExitReason

  // ---------------------------------------------------------------------
  // Text order
  // ---------------------------------------------------------------------

  /** `a < b` for strings: by the first difference, a proper prefix being smaller. */
  predicate LexLess(a: string, b: string) {
    if b == "" then false
    else if a == "" then true
    else a[0] < b[0] || (a[0] == b[0] && LexLess(a[1..], b[1..]))
  }

  lemma {:induction false} LexIsTransitive(a: string, b: string, c: string)
    requires LexLess(a, b) && LexLess(b, c)
    ensures LexLess(a, c)
  {
    if a != "" && a[0] == b[0] && b[0] == c[0] {
      LexIsTransitive(a[1..], b[1..], c[1..]);
    }
  }

  lemma {:induction false} LexIsTotal(a: string, b: string)
    ensures !(LexLess(a, b) && LexLess(b, a))
    ensures LexLess(a, b) || LexLess(b, a) || a == b
  {
    if a != "" && b != "" && a[0] == b[0] {
      LexIsTotal(a[1..], b[1..]);
      assert a == [a[0]] + a[1..] && b == [b[0]] + b[1..];
    }
  }

  ghost predicate AllEmpty(stamps: seq<string>) {
    forall s :: s in stamps ==> s == ""
  }

  ghost predicate NoneBefore(stamps: seq<string>, t: string) {
    forall s :: s in stamps && s != "" ==> !LexLess(s, t)
  }

  ghost predicate NoneAfter(stamps: seq<string>, t: string) {
    forall s :: s in stamps && s != "" ==> !LexLess(t, s)
  }

  /** The earliest of some time stamps, empty ones not counting. */
  ghost predicate IsEarliest(stamps: seq<string>, t: string) {
    if t == "" then AllEmpty(stamps) else t in stamps && NoneBefore(stamps, t)
  }

  ghost predicate IsLatest(stamps: seq<string>, t: string) {
    if t == "" then AllEmpty(stamps) else t in stamps && NoneAfter(stamps, t)
  }

  function Earlier(t: string, s: string): string {
    if s != "" && (t == "" || LexLess(s, t)) then s else t
  }

  function Later(t: string, s: string): string {
    if s != "" && (t == "" || LexLess(t, s)) then s else t
  }

  lemma EarliestStep(stamps: seq<string>, t: string, s: string)
    requires IsEarliest(stamps, t)
    ensures IsEarliest(stamps + [s], Earlier(t, s))
  {
    var all, u := stamps + [s], Earlier(t, s);
    assert forall x :: x in all <==> x in stamps || x == s;
    if u != "" {
      forall x | x in all && x != ""
        ensures !LexLess(x, u)
      {
        LexIsTotal(x, u);
        LexIsTotal(x, t);
        if t != "" && LexLess(x, u) && LexLess(u, t) {
          LexIsTransitive(x, u, t);
        }
      }
    }
  }

  lemma LatestStep(stamps: seq<string>, t: string, s: string)
    requires IsLatest(stamps, t)
    ensures IsLatest(stamps + [s], Later(t, s))
  {
    var all, u := stamps + [s], Later(t, s);
    assert forall x :: x in all <==> x in stamps || x == s;
    if u != "" {
      forall x | x in all && x != ""
        ensures !LexLess(u, x)
      {
        LexIsTotal(x, u);
        LexIsTotal(x, t);
        if t != "" && LexLess(u, x) && LexLess(t, u) {
          LexIsTransitive(t, u, x);
        }
      }
    }
  }

  lemma OneStamp(t: string)
    ensures IsEarliest([t], t) && IsLatest([t], t)
  {
    LexIsTotal(t, t);
  }

  /** Earliest and latest depend only on which stamps there are. */
  lemma StampsAreUnique(a: seq<string>, b: seq<string>, t: string, u: string)
    requires forall x :: x in a <==> x in b
    ensures IsEarliest(a, t) && IsEarliest(b, u) ==> t == u
    ensures IsLatest(a, t) && IsLatest(b, u) ==> t == u
  {
    LexIsTotal(t, u);
  }

  // ---------------------------------------------------------------------
  // Sums and maxima over nodes
  // ---------------------------------------------------------------------

  function AddNats(a: nat, b: nat): nat {
    a + b
  }

  function MaxNat(a: nat, b: nat): nat {
    Max(a, b)
  }

  function AddReals(a: real, b: real): real {
    a + b
  }

  function MaxOfReals(a: real, b: real): real {
    MaxReal(a, b)
  }

  function Total(docs: seq<TelemetrySummary>, f: TelemetrySummary -> nat): nat {
    FoldMap(docs, f, AddNats, 0)
  }

  /** The true sum, or the largest u64 when it is more. */
  function SatTotal(docs: seq<TelemetrySummary>, f: TelemetrySummary -> nat): nat {
    Min(Total(docs, f), U64_MAX)
  }

  function Greatest(docs: seq<TelemetrySummary>, f: TelemetrySummary -> nat): nat {
    FoldMap(docs, f, MaxNat, 0)
  }

  function RealTotal(docs: seq<TelemetrySummary>, f: TelemetrySummary -> real): real {
    FoldMap(docs, f, AddReals, 0.0)
  }

  function RealGreatest(docs: seq<TelemetrySummary>, f: TelemetrySummary -> real): real {
    FoldMap(docs, f, MaxOfReals, 0.0)
  }

  function CoreSeconds(d: TelemetrySummary): real { d.acc.coreSeconds }
  function Cpus(d: TelemetrySummary): nat { |d.info.allowedCpus| }
  function Samples(d: TelemetrySummary): nat { d.derived.samples }
  function IoRead(d: TelemetrySummary): nat { d.acc.peaks.ioReadBytes }
  function IoWrite(d: TelemetrySummary): nat { d.acc.peaks.ioWriteBytes }
  function NetRecv(d: TelemetrySummary): nat { d.acc.net.recvBytes }
  function NetSent(d: TelemetrySummary): nat { d.acc.net.sentBytes }
  function MajorFaults(d: TelemetrySummary): nat { d.acc.peaks.majorFaults }
  function MinorFaults(d: TelemetrySummary): nat { d.acc.peaks.minorFaults }
  function CpuPeak(d: TelemetrySummary): real { d.acc.cpuPctSumPeak }
  function MemPeak(d: TelemetrySummary): nat { EffectiveMem(d.acc) }
  function ProcsPeak(d: TelemetrySummary): nat { d.acc.peaks.procCount }
  function ThreadsPeak(d: TelemetrySummary): nat { d.acc.peaks.threadCount }
  function Duration(d: TelemetrySummary): real { d.derived.durationSec }

  /** The figures of the job that are sums or maxima of the nodes' figures. */
  datatype Aggregates = Aggregates(
    coreSeconds: real,
    totalCpus: nat,
    samples: nat,
    ioRead: nat,
    ioWrite: nat,
    netRecv: nat,
    netSent: nat,
    majorFaults: nat,
    minorFaults: nat,
    cpuPeakMax: real,
    cpuPeakSum: real,
    memPeakMax: nat,
    memPeakSum: nat,
    procsPeakMax: nat,
    threadsPeakMax: nat,
    duration: real)

  function AggregatesOf(docs: seq<TelemetrySummary>): Aggregates {
    Aggregates(
      RealTotal(docs, CoreSeconds), Total(docs, Cpus), Total(docs, Samples),
      SatTotal(docs, IoRead), SatTotal(docs, IoWrite), SatTotal(docs, NetRecv), SatTotal(docs, NetSent),
      SatTotal(docs, MajorFaults), SatTotal(docs, MinorFaults),
      RealGreatest(docs, CpuPeak), RealTotal(docs, CpuPeak),
      Greatest(docs, MemPeak), SatTotal(docs, MemPeak),
      Greatest(docs, ProcsPeak), Greatest(docs, ThreadsPeak), RealGreatest(docs, Duration))
  }

  lemma SatTotalAppend(docs: seq<TelemetrySummary>, d: TelemetrySummary, f: TelemetrySummary -> nat)
    ensures SatTotal(docs + [d], f) == SatAdd(SatTotal(docs, f), f(d))
    ensures Total(docs + [d], f) == Total(docs, f) + f(d)
    ensures Greatest(docs + [d], f) == Max(Greatest(docs, f), f(d))
  {
    FoldAppend(docs, d, f, AddNats, 0);
    FoldAppend(docs, d, f, MaxNat, 0);
  }

  lemma RealTotalAppend(docs: seq<TelemetrySummary>, d: TelemetrySummary, f: TelemetrySummary -> real)
    ensures RealTotal(docs + [d], f) == RealTotal(docs, f) + f(d)
    ensures RealGreatest(docs + [d], f) == MaxReal(RealGreatest(docs, f), f(d))
  {
    FoldAppend(docs, d, f, AddReals, 0.0);
    FoldAppend(docs, d, f, MaxOfReals, 0.0);
  }

  /** One more document, field by field. */
  function Combine(a: Aggregates, d: TelemetrySummary): Aggregates {
    Aggregates(
      a.coreSeconds + CoreSeconds(d), a.totalCpus + Cpus(d), a.samples + Samples(d),
      SatAdd(a.ioRead, IoRead(d)), SatAdd(a.ioWrite, IoWrite(d)),
      SatAdd(a.netRecv, NetRecv(d)), SatAdd(a.netSent, NetSent(d)),
      SatAdd(a.majorFaults, MajorFaults(d)), SatAdd(a.minorFaults, MinorFaults(d)),
      MaxReal(a.cpuPeakMax, CpuPeak(d)), a.cpuPeakSum + CpuPeak(d),
      Max(a.memPeakMax, MemPeak(d)), SatAdd(a.memPeakSum, MemPeak(d)),
      Max(a.procsPeakMax, ProcsPeak(d)), Max(a.threadsPeakMax, ThreadsPeak(d)),
      MaxReal(a.duration, Duration(d)))
  }

  const NO_NODES: Aggregates := Aggregates(0.0, 0, 0, 0, 0, 0, 0, 0, 0, 0.0, 0.0, 0, 0, 0, 0, 0.0)

  /** The accumulation document by document. */
  function Combined(docs: seq<TelemetrySummary>): Aggregates {
    if docs == [] then NO_NODES else Combine(Combined(docs[..|docs| - 1]), docs[|docs| - 1])
  }

  /** Accumulating everything side by side gives each figure's own sum or maximum. */
  lemma {:induction false} CombinedIsAggregates(docs: seq<TelemetrySummary>)
    ensures Combined(docs) == AggregatesOf(docs)
  {
    if docs != [] {
      var init, d := docs[..|docs| - 1], docs[|docs| - 1];
      CombinedIsAggregates(init);
      assert docs == init + [d];
      AggregatesStep(init, d);
    }
  }

  lemma AggregatesStep(docs: seq<TelemetrySummary>, d: TelemetrySummary)
    ensures AggregatesOf(docs + [d]) == Combine(AggregatesOf(docs), d)
  {
    RealTotalAppend(docs, d, CoreSeconds);
    SatTotalAppend(docs, d, Cpus);
    SatTotalAppend(docs, d, Samples);
    SatTotalAppend(docs, d, IoRead);
    SatTotalAppend(docs, d, IoWrite);
    SatTotalAppend(docs, d, NetRecv);
    SatTotalAppend(docs, d, NetSent);
    SatTotalAppend(docs, d, MajorFaults);
    SatTotalAppend(docs, d, MinorFaults);
    RealTotalAppend(docs, d, CpuPeak);
    SatTotalAppend(docs, d, MemPeak);
    SatTotalAppend(docs, d, ProcsPeak);
    SatTotalAppend(docs, d, ThreadsPeak);
    RealTotalAppend(docs, d, Duration);
  }

  // ---------------------------------------------------------------------
  // Exit status
  // ---------------------------------------------------------------------

  predicate Failed(d: TelemetrySummary) {
    d.outcome.status.Some? && d.outcome.status.value != 0
  }

  /** What the job's status must be: the first failure, else unknown if any node is, else success. */
  ghost predicate IsJobStatus(docs: seq<TelemetrySummary>, status: Option<int>) {
    match status
    case Some(code) =>
      if code == 0 then forall i :: 0 <= i < |docs| ==> docs[i].outcome.status == Some(0)
      else exists i :: && 0 <= i < |docs| && docs[i].outcome.status == status
                       && (forall j :: 0 <= j < i ==> !Failed(docs[j]))
    case None =>
      && (forall i :: 0 <= i < |docs| ==> !Failed(docs[i]))
      && (exists i :: 0 <= i < |docs| && docs[i].outcome.status.None?)
  }

  /** The named hosts whose outcome is unknown, in order. */
  function UnknownHosts(docs: seq<TelemetrySummary>): seq<string> {
    if docs == [] then [] else
    var d := docs[|docs| - 1];
    UnknownHosts(docs[..|docs| - 1])
    + (if d.outcome.status.None? && d.info.hostname != "" then [d.info.hostname] else [])
  }

  /** The hosts listed are the named ones whose outcome is unknown, and no others. */
  lemma {:induction false} UnknownHostsAreListed(docs: seq<TelemetrySummary>, host: string)
    ensures host in UnknownHosts(docs)
       <==> host != "" && exists i :: 0 <= i < |docs| && docs[i].info.hostname == host && docs[i].outcome.status.None?
  {
    if docs != [] {
      var init, last := docs[..|docs| - 1], docs[|docs| - 1];
      UnknownHostsAreListed(init, host);
      assert forall i :: 0 <= i < |init| ==> init[i] == docs[i];
      assert last.info.hostname == host && last.outcome.status.None? ==> docs[|docs| - 1] == last;
    }
  }

  function JobReason(status: Option<int>, unknownHosts: seq<string>): string {
    match status
    case Some(code) => DescribeExitCode(code)
    case None =>
      "unknown: no exit status recorded on some nodes"
      + (if unknownHosts == [] then "" else " (" + Join(unknownHosts, ", ") + ")")
  }

  /** `merge_exit_status`. */
  method MergeExitStatus(docs: seq<TelemetrySummary>) returns (outcome: Outcome)
    ensures IsJobStatus(docs, outcome.status)
    ensures outcome.reason == JobReason(outcome.status, UnknownHosts(docs))
  {
    var worst: Option<int> := None;
    var anyUnknown := false;
    var unknownHosts: seq<string> := [];
    for i := 0 to |docs|
      invariant match worst
                case None => forall j :: 0 <= j < i ==> !Failed(docs[j])
                case Some(code) => code != 0 && IsJobStatus(docs, worst)
      invariant anyUnknown <==> exists j :: 0 <= j < i && docs[j].outcome.status.None?
      invariant unknownHosts == UnknownHosts(docs[..i])
    {
      assert docs[..i + 1][..i] == docs[..i];
      match docs[i].outcome.status {
        case Some(code) =>
          if code != 0 && worst.None? {
            assert Failed(docs[i]);
            worst := Some(code);
          }
        case None =>
          anyUnknown := true;
          if docs[i].info.hostname != "" {
            unknownHosts := unknownHosts + [docs[i].info.hostname];
          }
      }
    }
    assert docs[..|docs|] == docs;
    if worst.Some? {
      return Outcome(worst, DescribeExitCode(worst.value));
    }
    if anyUnknown {
      return Outcome(None, "unknown: no exit status recorded on some nodes"
        + (if unknownHosts == [] then "" else " (" + Join(unknownHosts, ", ") + ")"));
    }
    return Outcome(Some(0), DescribeExitCode(0));
  }

  // ---------------------------------------------------------------------
  // The per-node table
  // ---------------------------------------------------------------------

  datatype NodeSummary = NodeSummary(
    hostname: string,
    nodeRank: Option<nat>,
    durationSec: real,
    samples: nat,
    cpus: nat,
    cpuCoreSeconds: real,
    cpuPctSumPeak: real,
    cpuEfficiencyPctAvg: real,
    memPeakBytes: nat,
    exitStatus: Option<int>,
    partial: bool)

  function HostOf(d: TelemetrySummary): string {
    if d.info.hostname == "" then "unknown" else d.info.hostname
  }

  function NodeRow(d: TelemetrySummary): NodeSummary {
    NodeSummary(
      HostOf(d), d.info.nodeRank, Duration(d), Samples(d), Cpus(d), CoreSeconds(d), CpuPeak(d),
      d.derived.cpuEfficiencyPctAvg, MemPeak(d), d.outcome.status, d.partial)
  }

  function NodeRows(docs: seq<TelemetrySummary>): (rows: seq<NodeSummary>)
    ensures |rows| == |docs|
    ensures forall i :: 0 <= i < |docs| ==> rows[i] == NodeRow(docs[i])
  {
    seq(|docs|, i requires 0 <= i < |docs| => NodeRow(docs[i]))
  }

  predicate RankLess(a: Option<nat>, b: Option<nat>) {
    b.Some? && (a.None? || a.value < b.value)
  }

  /** By rank, unranked nodes first, then by host name. */
  function RowLe(a: NodeSummary, b: NodeSummary): bool {
    RankLess(a.nodeRank, b.nodeRank) || (a.nodeRank == b.nodeRank && !LexLess(b.hostname, a.hostname))
  }

  lemma RowOrderIsTotal()
    ensures TotalPreorder(RowLe)
  {
    forall a: NodeSummary, b: NodeSummary
      ensures RowLe(a, b) || RowLe(b, a)
    {
      LexIsTotal(a.hostname, b.hostname);
    }
    forall a: NodeSummary, b: NodeSummary, c: NodeSummary | RowLe(a, b) && RowLe(b, c)
      ensures RowLe(a, c)
    {
      LexIsTotal(a.hostname, b.hostname);
      LexIsTotal(b.hostname, c.hostname);
      if LexLess(c.hostname, a.hostname) {
        if LexLess(a.hostname, b.hostname) {
          LexIsTransitive(c.hostname, a.hostname, b.hostname);
        }
      }
    }
  }

  // ---------------------------------------------------------------------
  // The merge
  // ---------------------------------------------------------------------

  datatype MergedSummary = MergedSummary(
    jobId: string,
    tStart: string,
    tEnd: string,
    numNodesReporting: nat,
    numNodesAllocated: Option<nat>,
    nodesMissing: seq<string>,
    nodesPartial: seq<string>,
    totals: Aggregates,
    cpuCoreHours: real,
    cpuEfficiencyPctAvg: real,
    walltimeEfficiencyPct: real,
    outcome: Outcome,
    perNode: seq<NodeSummary>)

  function Starts(docs: seq<TelemetrySummary>): (stamps: seq<string>)
    ensures |stamps| == |docs|
    ensures forall i :: 0 <= i < |docs| ==> stamps[i] == docs[i].info.tStart
  {
    seq(|docs|, i requires 0 <= i < |docs| => docs[i].info.tStart)
  }

  function Ends(docs: seq<TelemetrySummary>): (stamps: seq<string>)
    ensures |stamps| == |docs|
    ensures forall i :: 0 <= i < |docs| ==> stamps[i] == docs[i].derived.tEnd
  {
    seq(|docs|, i requires 0 <= i < |docs| => docs[i].derived.tEnd)
  }

  ghost function Reporting(docs: seq<TelemetrySummary>): set<string> {
    set d | d in docs :: HostOf(d)
  }

  function Efficiency(a: Aggregates): real {
    if a.duration > 0.0 && a.totalCpus > 0 then a.coreSeconds / (a.duration * a.totalCpus as real) * 100.0 else 0.0
  }

  function WalltimeEfficiency(a: Aggregates, first: TelemetrySummary): real {
    if first.info.bookedWalltimeSec > 0 then a.duration / first.info.bookedWalltimeSec as real * 100.0 else 0.0
  }

  function Allocated(first: TelemetrySummary, expected: seq<string>): Option<nat> {
    if first.info.numNodesAllocated.Some? then first.info.numNodesAllocated
    else if 0 < |expected| <= U32_MAX then Some(|expected|)
    else None
  }

  ghost function NotReporting(docs: seq<TelemetrySummary>): string -> bool {
    host => host !in Reporting(docs)
  }

  function IsPartialRow(row: NodeSummary): bool {
    row.partial
  }

  function HostNames(rows: seq<NodeSummary>): (names: seq<string>)
    ensures |names| == |rows|
    ensures forall i :: 0 <= i < |rows| ==> names[i] == rows[i].hostname
  {
    seq(|rows|, i requires 0 <= i < |rows| => rows[i].hostname)
  }

  /** What the merge of these documents must be. */
  ghost predicate IsMergeOf(docs: seq<TelemetrySummary>, expected: seq<string>, m: MergedSummary) {
    && docs != []
    && m.jobId == docs[0].info.jobId
    && m.totals == AggregatesOf(docs)
    && IsEarliest(Starts(docs), m.tStart)
    && IsLatest(Ends(docs), m.tEnd)
    && m.numNodesReporting == |Reporting(docs)|
    && m.numNodesAllocated == Allocated(docs[0], expected)
    && m.nodesMissing == Filter(expected, NotReporting(docs))
    && m.perNode == StableSort(NodeRows(docs), RowLe)
    && m.nodesPartial == HostNames(Filter(m.perNode, IsPartialRow))
    && m.cpuCoreHours == m.totals.coreSeconds / 3600.0
    && m.cpuEfficiencyPctAvg == Efficiency(m.totals)
    && m.walltimeEfficiencyPct == WalltimeEfficiency(m.totals, docs[0])
    && IsJobStatus(docs, m.outcome.status)
    && m.outcome.reason == JobReason(m.outcome.status, UnknownHosts(docs))
  }

  /** The expected hosts that did not report, kept in order. */
  method MissingHosts(expected: seq<string>, reporting: set<string>, ghost docs: seq<TelemetrySummary>)
    returns (missing: seq<string>)
    requires reporting == Reporting(docs)
    ensures missing == Filter(expected, NotReporting(docs))
  {
    missing := [];
    for i := 0 to |expected|
      invariant missing == Filter(expected[..i], NotReporting(docs))
    {
      assert expected[..i + 1][..i] == expected[..i];
      if expected[i] !in reporting {
        missing := missing + [expected[i]];
      }
    }
    assert expected[..|expected|] == expected;
  }

  method PartialHosts(rows: seq<NodeSummary>) returns (names: seq<string>)
    ensures names == HostNames(Filter(rows, IsPartialRow))
  {
    names := [];
    for i := 0 to |rows|
      invariant names == HostNames(Filter(rows[..i], IsPartialRow))
    {
      assert rows[..i + 1][..i] == rows[..i];
      if rows[i].partial {
        names := names + [rows[i].hostname];
      }
    }
    assert rows[..|rows|] == rows;
  }

  /** The stamp the loop holds after these documents, having started from `t`. */
  function EarliestFrom(t: string, docs: seq<TelemetrySummary>): string {
    if docs == [] then t else Earlier(EarliestFrom(t, docs[..|docs| - 1]), docs[|docs| - 1].info.tStart)
  }

  function LatestFrom(t: string, docs: seq<TelemetrySummary>): string {
    if docs == [] then t else Later(LatestFrom(t, docs[..|docs| - 1]), docs[|docs| - 1].derived.tEnd)
  }

  function HostsOf(docs: seq<TelemetrySummary>): set<string> {
    if docs == [] then {} else HostsOf(docs[..|docs| - 1]) + {HostOf(docs[|docs| - 1])}
  }

  function RowsOf(docs: seq<TelemetrySummary>): seq<NodeSummary> {
    if docs == [] then [] else RowsOf(docs[..|docs| - 1]) + [NodeRow(docs[|docs| - 1])]
  }

  /** Everything the loop holds, after one more document. */
  lemma LoopStep(docs: seq<TelemetrySummary>, d: TelemetrySummary, t: string, u: string)
    ensures Combined(docs + [d]) == Combine(Combined(docs), d)
    ensures EarliestFrom(t, docs + [d]) == Earlier(EarliestFrom(t, docs), d.info.tStart)
    ensures LatestFrom(u, docs + [d]) == Later(LatestFrom(u, docs), d.derived.tEnd)
    ensures HostsOf(docs + [d]) == HostsOf(docs) + {HostOf(d)}
    ensures RowsOf(docs + [d]) == RowsOf(docs) + [NodeRow(d)]
  {
    assert (docs + [d])[..|docs|] == docs;
  }

  lemma {:induction false} StampsFrom(t: string, u: string, docs: seq<TelemetrySummary>)
    ensures IsEarliest([t] + Starts(docs), EarliestFrom(t, docs))
    ensures IsLatest([u] + Ends(docs), LatestFrom(u, docs))
  {
    OneStamp(t);
    OneStamp(u);
    if docs == [] {
      assert [t] + Starts(docs) == [t] && [u] + Ends(docs) == [u];
    } else {
      var init, d := docs[..|docs| - 1], docs[|docs| - 1];
      StampsFrom(t, u, init);
      EarliestStep([t] + Starts(init), EarliestFrom(t, init), d.info.tStart);
      LatestStep([u] + Ends(init), LatestFrom(u, init), d.derived.tEnd);
      assert [t] + Starts(docs) == [t] + Starts(init) + [d.info.tStart];
      assert [u] + Ends(docs) == [u] + Ends(init) + [d.derived.tEnd];
    }
  }

  /** Starting from the first document's own stamps changes nothing, since the loop meets them anyway. */
  lemma StampsAreEarliestAndLatest(docs: seq<TelemetrySummary>)
    requires docs != []
    ensures IsEarliest(Starts(docs), EarliestFrom(docs[0].info.tStart, docs))
    ensures IsLatest(Ends(docs), LatestFrom(docs[0].derived.tEnd, docs))
  {
    var t, u := docs[0].info.tStart, docs[0].derived.tEnd;
    StampsFrom(t, u, docs);
    assert Starts(docs)[0] == t && Ends(docs)[0] == u;
    assert forall x :: x in [t] + Starts(docs) <==> x in Starts(docs);
    assert forall x :: x in [u] + Ends(docs) <==> x in Ends(docs);
  }

  lemma {:induction false} HostsAreReporting(docs: seq<TelemetrySummary>)
    ensures HostsOf(docs) == Reporting(docs)
  {
    if docs != [] {
      var init, d := docs[..|docs| - 1], docs[|docs| - 1];
      HostsAreReporting(init);
      assert forall x :: x in docs <==> x in init || x == d;
    }
  }

  lemma {:induction false} RowsAreNodeRows(docs: seq<TelemetrySummary>)
    ensures RowsOf(docs) == NodeRows(docs)
  {
    if docs != [] {
      RowsAreNodeRows(docs[..|docs| - 1]);
    }
  }

  /** `merge_summaries`: an error exactly when there is nothing to merge. */
  method MergeSummaries(docs: seq<TelemetrySummary>, expected: seq<string>) returns (r: Result<MergedSummary>)
    ensures r.Err? <==> docs == []
    ensures r.Ok? ==> IsMergeOf(docs, expected, r.value)
  {
    if docs == [] {
      return Err;
    }
    var first := docs[0];
    var perNode: seq<NodeSummary> := [];
    var coreSeconds := 0.0;
    var totalCpus: nat, samplesTotal: nat := 0, 0;
    var ioRead: nat, ioWrite: nat, netRecv: nat, netSent: nat := 0, 0, 0, 0;
    var majorFaults: nat, minorFaults: nat := 0, 0;
    var cpuPeakMax, cpuPeakSum, durationMax := 0.0, 0.0, 0.0;
    var memPeakMax: nat, memPeakSum: nat, procsPeakMax: nat, threadsPeakMax: nat := 0, 0, 0, 0;
    var tStart, tEnd := first.info.tStart, first.derived.tEnd;
    var reporting: set<string> := {};

    for i := 0 to |docs|
      invariant perNode == RowsOf(docs[..i])
      invariant Aggregates(
                  coreSeconds, totalCpus, samplesTotal, ioRead, ioWrite, netRecv, netSent, majorFaults, minorFaults,
                  cpuPeakMax, cpuPeakSum, memPeakMax, memPeakSum, procsPeakMax, threadsPeakMax, durationMax)
                == Combined(docs[..i])
      invariant tStart == EarliestFrom(first.info.tStart, docs[..i])
      invariant tEnd == LatestFrom(first.derived.tEnd, docs[..i])
      invariant reporting == HostsOf(docs[..i])
    {
      var d := docs[i];
      assert docs[..i + 1] == docs[..i] + [d];
      LoopStep(docs[..i], d, first.info.tStart, first.derived.tEnd);
      var host := if d.info.hostname == "" then "unknown" else d.info.hostname;
      reporting := reporting + {host};
      var cpus, memPeak := |d.info.allowedCpus|, EffectiveMem(d.acc);

      coreSeconds := coreSeconds + d.acc.coreSeconds;
      totalCpus := totalCpus + cpus;
      samplesTotal := samplesTotal + d.derived.samples;
      ioRead := SatAdd(ioRead, d.acc.peaks.ioReadBytes);
      ioWrite := SatAdd(ioWrite, d.acc.peaks.ioWriteBytes);
      netRecv := SatAdd(netRecv, d.acc.net.recvBytes);
      netSent := SatAdd(netSent, d.acc.net.sentBytes);
      majorFaults := SatAdd(majorFaults, d.acc.peaks.majorFaults);
      minorFaults := SatAdd(minorFaults, d.acc.peaks.minorFaults);

      cpuPeakMax := MaxReal(cpuPeakMax, d.acc.cpuPctSumPeak);
      cpuPeakSum := cpuPeakSum + d.acc.cpuPctSumPeak;
      memPeakMax := Max(memPeakMax, memPeak);
      memPeakSum := SatAdd(memPeakSum, memPeak);
      procsPeakMax := Max(procsPeakMax, d.acc.peaks.procCount);
      threadsPeakMax := Max(threadsPeakMax, d.acc.peaks.threadCount);
      durationMax := MaxReal(durationMax, d.derived.durationSec);

      if d.info.tStart != "" && (tStart == "" || LexLess(d.info.tStart, tStart)) {
        tStart := d.info.tStart;
      }
      if d.derived.tEnd != "" && (tEnd == "" || LexLess(tEnd, d.derived.tEnd)) {
        tEnd := d.derived.tEnd;
      }

      perNode := perNode + [NodeSummary(
        host, d.info.nodeRank, d.derived.durationSec, d.derived.samples, cpus, d.acc.coreSeconds,
        d.acc.cpuPctSumPeak, d.derived.cpuEfficiencyPctAvg, memPeak, d.outcome.status, d.partial)];
    }
    assert docs[..|docs|] == docs;
    StampsAreEarliestAndLatest(docs);
    HostsAreReporting(docs);
    RowsAreNodeRows(docs);
    CombinedIsAggregates(docs);

    perNode := StableSort(perNode, RowLe);
    var nodesMissing := MissingHosts(expected, reporting, docs);
    var nodesPartial := PartialHosts(perNode);
    var outcome := MergeExitStatus(docs);
    var totals := Aggregates(
      coreSeconds, totalCpus, samplesTotal, ioRead, ioWrite, netRecv, netSent, majorFaults, minorFaults,
      cpuPeakMax, cpuPeakSum, memPeakMax, memPeakSum, procsPeakMax, threadsPeakMax, durationMax);
    r := Ok(MergedSummary(
      first.info.jobId, tStart, tEnd, |reporting|, Allocated(first, expected), nodesMissing, nodesPartial,
      totals, coreSeconds / 3600.0, Efficiency(totals), WalltimeEfficiency(totals, first), outcome, perNode));
  }
}
