/** Laws of the merge, on every list of node documents. */
module MergeLaws {
  import opened Prelude
  import opened Folding
  import opened Sorting
  import opened Summary
  import opened Merge

  // ---------------------------------------------------------------------
  // The order of the documents
  // ---------------------------------------------------------------------

  lemma OperationsSwap()
    ensures LeftCommutative(AddNats) && LeftCommutative(MaxNat)
    ensures LeftCommutative(AddReals) && LeftCommutative(MaxOfReals)
  {
    forall a, b, c
      ensures Swaps(AddNats, a, b, c) && Swaps(MaxNat, a, b, c)
    {
    }
    forall a, b, c
      ensures Swaps(AddReals, a, b, c) && Swaps(MaxOfReals, a, b, c)
    {
    }
  }

  lemma NatFoldsIgnoreOrder(a: seq<TelemetrySummary>, b: seq<TelemetrySummary>, f: TelemetrySummary -> nat)
    requires multiset(a) == multiset(b)
    ensures Total(a, f) == Total(b, f) && SatTotal(a, f) == SatTotal(b, f) && Greatest(a, f) == Greatest(b, f)
  {
    OperationsSwap();
    FoldOfPermutation(a, b, f, AddNats, 0);
    FoldOfPermutation(a, b, f, MaxNat, 0);
  }

  lemma RealFoldsIgnoreOrder(a: seq<TelemetrySummary>, b: seq<TelemetrySummary>, f: TelemetrySummary -> real)
    requires multiset(a) == multiset(b)
    ensures RealTotal(a, f) == RealTotal(b, f) && RealGreatest(a, f) == RealGreatest(b, f)
  {
    OperationsSwap();
    FoldOfPermutation(a, b, f, AddReals, 0.0);
    FoldOfPermutation(a, b, f, MaxOfReals, 0.0);
  }

  lemma AggregatesIgnoreOrder(a: seq<TelemetrySummary>, b: seq<TelemetrySummary>)
    requires multiset(a) == multiset(b)
    ensures AggregatesOf(a) == AggregatesOf(b)
  {
    RealFoldsIgnoreOrder(a, b, CoreSeconds);
    NatFoldsIgnoreOrder(a, b, Cpus);
    NatFoldsIgnoreOrder(a, b, Samples);
    NatFoldsIgnoreOrder(a, b, IoRead);
    NatFoldsIgnoreOrder(a, b, IoWrite);
    NatFoldsIgnoreOrder(a, b, NetRecv);
    NatFoldsIgnoreOrder(a, b, NetSent);
    NatFoldsIgnoreOrder(a, b, MajorFaults);
    NatFoldsIgnoreOrder(a, b, MinorFaults);
    RealFoldsIgnoreOrder(a, b, CpuPeak);
    NatFoldsIgnoreOrder(a, b, MemPeak);
    NatFoldsIgnoreOrder(a, b, ProcsPeak);
    NatFoldsIgnoreOrder(a, b, ThreadsPeak);
    RealFoldsIgnoreOrder(a, b, Duration);
  }

  lemma SameDocuments(a: seq<TelemetrySummary>, b: seq<TelemetrySummary>)
    requires multiset(a) == multiset(b)
    ensures forall d :: d in a <==> d in b
    ensures Reporting(a) == Reporting(b)
    ensures forall s :: s in Starts(a) <==> s in Starts(b)
    ensures forall s :: s in Ends(a) <==> s in Ends(b)
  {
    assert forall d :: d in a <==> d in multiset(a);
    assert forall d :: d in b <==> d in multiset(b);
    StampsOfElements(a, b);
    StampsOfElements(b, a);
  }

  lemma StampsOfElements(a: seq<TelemetrySummary>, b: seq<TelemetrySummary>)
    requires forall d :: d in a ==> d in b
    ensures forall s :: s in Starts(a) ==> s in Starts(b)
    ensures forall s :: s in Ends(a) ==> s in Ends(b)
  {
    forall i | 0 <= i < |a|
      ensures Starts(a)[i] in Starts(b) && Ends(a)[i] in Ends(b)
    {
      assert a[i] in b;
      var j :| 0 <= j < |b| && b[j] == a[i];
      assert Starts(b)[j] == Starts(a)[i] && Ends(b)[j] == Ends(a)[i];
    }
  }

  /**
   * Merging the same documents in another order gives the same totals, peaks, duration,
   * efficiency, earliest and latest times, missing hosts, and the same rows in the table, in
   * the same order too when no two nodes share rank and name. Whether the job succeeded,
   * failed or ended in a way unknown does not depend on the order either; which failure is
   * reported may.
   */
  lemma MergeIgnoresOrder(
    a: seq<TelemetrySummary>, b: seq<TelemetrySummary>, expected: seq<string>, m: MergedSummary, n: MergedSummary)
    requires multiset(a) == multiset(b)
    requires IsMergeOf(a, expected, m) && IsMergeOf(b, expected, n)
    ensures m.totals == n.totals && m.cpuCoreHours == n.cpuCoreHours
    ensures m.cpuEfficiencyPctAvg == n.cpuEfficiencyPctAvg
    ensures m.tStart == n.tStart && m.tEnd == n.tEnd
    ensures m.numNodesReporting == n.numNodesReporting && m.nodesMissing == n.nodesMissing
    ensures multiset(m.perNode) == multiset(n.perNode)
    ensures KeysDistinct(NodeRows(a)) ==> m.perNode == n.perNode && m.nodesPartial == n.nodesPartial
    ensures m.outcome.status == Some(0) <==> n.outcome.status == Some(0)
    ensures m.outcome.status.None? <==> n.outcome.status.None?
  {
    FiguresIgnoreOrder(a, b, expected, m, n);
    TablesIgnoreOrder(a, b, expected, m, n);
    MergedStatusIsWorst(a, expected, m);
    MergedStatusIsWorst(b, expected, n);
    StatusesIgnoreOrder(a, b);
  }

  lemma FiguresIgnoreOrder(
    a: seq<TelemetrySummary>, b: seq<TelemetrySummary>, expected: seq<string>, m: MergedSummary, n: MergedSummary)
    requires multiset(a) == multiset(b)
    requires IsMergeOf(a, expected, m) && IsMergeOf(b, expected, n)
    ensures m.totals == n.totals && m.cpuCoreHours == n.cpuCoreHours
    ensures m.cpuEfficiencyPctAvg == n.cpuEfficiencyPctAvg
    ensures m.tStart == n.tStart && m.tEnd == n.tEnd
    ensures m.numNodesReporting == n.numNodesReporting && m.nodesMissing == n.nodesMissing
  {
    AggregatesIgnoreOrder(a, b);
    SameDocuments(a, b);
    StampsAreUnique(Starts(a), Starts(b), m.tStart, n.tStart);
    StampsAreUnique(Ends(a), Ends(b), m.tEnd, n.tEnd);
    assert NotReporting(a) == NotReporting(b);
  }

  lemma TablesIgnoreOrder(
    a: seq<TelemetrySummary>, b: seq<TelemetrySummary>, expected: seq<string>, m: MergedSummary, n: MergedSummary)
    requires multiset(a) == multiset(b)
    requires IsMergeOf(a, expected, m) && IsMergeOf(b, expected, n)
    ensures multiset(m.perNode) == multiset(n.perNode)
    ensures KeysDistinct(NodeRows(a)) ==> m.perNode == n.perNode && m.nodesPartial == n.nodesPartial
  {
    RowsIgnoreOrder(a, b);
    RowOrderIsTotal();
    SortIsSortedPermutation(NodeRows(a), RowLe);
    SortIsSortedPermutation(NodeRows(b), RowLe);
    if KeysDistinct(NodeRows(a)) {
      TableIsDetermined(NodeRows(a), m.perNode, n.perNode);
    }
  }

  /** No two rows have the same rank and host. */
  ghost predicate KeysDistinct(rows: seq<NodeSummary>) {
    forall i, j :: 0 <= i < j < |rows| ==> rows[i].nodeRank != rows[j].nodeRank || rows[i].hostname != rows[j].hostname
  }

  lemma TiedRowsAreOne(rows: seq<NodeSummary>, x: NodeSummary, y: NodeSummary)
    requires KeysDistinct(rows) && x in rows && y in rows && RowLe(x, y) && RowLe(y, x)
    ensures x == y
  {
    LexIsTotal(x.hostname, y.hostname);
    var i :| 0 <= i < |rows| && rows[i] == x;
    var j :| 0 <= j < |rows| && rows[j] == y;
    assert i == j;
  }

  lemma TableIsDetermined(rows: seq<NodeSummary>, a: seq<NodeSummary>, b: seq<NodeSummary>)
    requires KeysDistinct(rows) && multiset(a) == multiset(rows) && multiset(b) == multiset(rows)
    requires SortedBy(a, RowLe) && SortedBy(b, RowLe)
    ensures a == b
  {
    RowOrderIsTotal();
    forall x, y | x in a && y in a && RowLe(x, y) && RowLe(y, x)
      ensures x == y
    {
      assert x in multiset(a) && y in multiset(a);
      TiedRowsAreOne(rows, x, y);
    }
    SortedPermutationsAgree(a, b, RowLe);
  }

  ghost predicate AllSucceeded(docs: seq<TelemetrySummary>) {
    forall i :: 0 <= i < |docs| ==> docs[i].outcome.status == Some(0)
  }

  ghost predicate SomeFailed(docs: seq<TelemetrySummary>) {
    exists i :: 0 <= i < |docs| && Failed(docs[i])
  }

  ghost predicate SomeUnknown(docs: seq<TelemetrySummary>) {
    exists i :: 0 <= i < |docs| && docs[i].outcome.status.None?
  }

  lemma StatusesCarryOver(a: seq<TelemetrySummary>, b: seq<TelemetrySummary>)
    requires forall d :: d in a ==> d in b
    ensures AllSucceeded(b) ==> AllSucceeded(a)
    ensures SomeFailed(a) ==> SomeFailed(b)
    ensures SomeUnknown(a) ==> SomeUnknown(b)
  {
    forall i | 0 <= i < |a|
      ensures exists j :: 0 <= j < |b| && b[j] == a[i]
    {
      assert a[i] in b;
    }
  }

  lemma StatusesIgnoreOrder(a: seq<TelemetrySummary>, b: seq<TelemetrySummary>)
    requires multiset(a) == multiset(b)
    ensures AllSucceeded(a) == AllSucceeded(b) && SomeFailed(a) == SomeFailed(b) && SomeUnknown(a) == SomeUnknown(b)
  {
    SameDocuments(a, b);
    StatusesCarryOver(a, b);
    StatusesCarryOver(b, a);
  }

  lemma RowsIgnoreOrder(a: seq<TelemetrySummary>, b: seq<TelemetrySummary>)
    requires multiset(a) == multiset(b)
    ensures multiset(NodeRows(a)) == multiset(NodeRows(b))
  {
    MapOfPermutation(a, b, NodeRow, NodeRows(a), NodeRows(b));
  }

  /** The table is sorted by rank and host, and nodes that tie keep the order they were read in. */
  lemma TableIsStablySorted(docs: seq<TelemetrySummary>, expected: seq<string>, m: MergedSummary, row: NodeSummary)
    requires IsMergeOf(docs, expected, m)
    ensures SortedBy(m.perNode, RowLe) && multiset(m.perNode) == multiset(NodeRows(docs))
    ensures var tied := (r: NodeSummary) => RowLe(r, row) && RowLe(row, r);
            Filter(m.perNode, tied) == Filter(NodeRows(docs), tied)
  {
    var tied := (r: NodeSummary) => RowLe(r, row) && RowLe(row, r);
    RowOrderIsTotal();
    SortIsSortedPermutation(NodeRows(docs), RowLe);
    SortIsStable(NodeRows(docs), RowLe, tied);
  }

  // ---------------------------------------------------------------------
  // Merging in parts
  // ---------------------------------------------------------------------

  lemma OperationsAssociate()
    ensures Associative(AddNats) && Associative(MaxNat)
    ensures Associative(AddReals) && Associative(MaxOfReals)
  {
    forall a, b, c
      ensures Associates(AddNats, a, b, c) && Associates(MaxNat, a, b, c)
    {
    }
    forall a, b, c
      ensures Associates(AddReals, a, b, c) && Associates(MaxOfReals, a, b, c)
    {
    }
  }

  lemma {:induction false} GreatestIsNonNegative(docs: seq<TelemetrySummary>, f: TelemetrySummary -> real)
    ensures RealGreatest(docs, f) >= 0.0
    ensures forall i :: 0 <= i < |docs| ==> f(docs[i]) <= RealGreatest(docs, f)
  {
    if docs != [] {
      var init := docs[..|docs| - 1];
      GreatestIsNonNegative(init, f);
      assert docs == init + [docs[|docs| - 1]];
      RealTotalAppend(init, docs[|docs| - 1], f);
      assert forall i :: 0 <= i < |init| ==> docs[i] == init[i];
    }
  }

  lemma NatFoldsOfConcat(a: seq<TelemetrySummary>, b: seq<TelemetrySummary>, f: TelemetrySummary -> nat)
    ensures Total(a + b, f) == Total(a, f) + Total(b, f)
    ensures SatTotal(a + b, f) == SatAdd(SatTotal(a, f), SatTotal(b, f))
    ensures Greatest(a + b, f) == Max(Greatest(a, f), Greatest(b, f))
  {
    OperationsAssociate();
    FoldOfConcat(a, b, f, AddNats, 0);
    FoldOfConcat(a, b, f, MaxNat, 0);
  }

  lemma RealFoldsOfConcat(a: seq<TelemetrySummary>, b: seq<TelemetrySummary>, f: TelemetrySummary -> real)
    ensures RealTotal(a + b, f) == RealTotal(a, f) + RealTotal(b, f)
    ensures RealGreatest(a + b, f) == MaxReal(RealGreatest(a, f), RealGreatest(b, f))
  {
    OperationsAssociate();
    GreatestIsNonNegative(a, f);
    FoldOfConcat(a, b, f, AddReals, 0.0);
    FoldOfConcat(a, b, f, MaxOfReals, 0.0);
  }

  /** Adding up two parts: saturating sums stay the smaller of the true sum and the limit. */
  function Together(a: Aggregates, b: Aggregates): Aggregates {
    Aggregates(
      a.coreSeconds + b.coreSeconds, a.totalCpus + b.totalCpus, a.samples + b.samples,
      SatAdd(a.ioRead, b.ioRead), SatAdd(a.ioWrite, b.ioWrite),
      SatAdd(a.netRecv, b.netRecv), SatAdd(a.netSent, b.netSent),
      SatAdd(a.majorFaults, b.majorFaults), SatAdd(a.minorFaults, b.minorFaults),
      MaxReal(a.cpuPeakMax, b.cpuPeakMax), a.cpuPeakSum + b.cpuPeakSum,
      Max(a.memPeakMax, b.memPeakMax), SatAdd(a.memPeakSum, b.memPeakSum),
      Max(a.procsPeakMax, b.procsPeakMax), Max(a.threadsPeakMax, b.threadsPeakMax),
      MaxReal(a.duration, b.duration))
  }

  lemma AggregatesOfConcat(a: seq<TelemetrySummary>, b: seq<TelemetrySummary>)
    ensures AggregatesOf(a + b) == Together(AggregatesOf(a), AggregatesOf(b))
  {
    RealFoldsOfConcat(a, b, CoreSeconds);
    NatFoldsOfConcat(a, b, Cpus);
    NatFoldsOfConcat(a, b, Samples);
    NatFoldsOfConcat(a, b, IoRead);
    NatFoldsOfConcat(a, b, IoWrite);
    NatFoldsOfConcat(a, b, NetRecv);
    NatFoldsOfConcat(a, b, NetSent);
    NatFoldsOfConcat(a, b, MajorFaults);
    NatFoldsOfConcat(a, b, MinorFaults);
    RealFoldsOfConcat(a, b, CpuPeak);
    NatFoldsOfConcat(a, b, MemPeak);
    NatFoldsOfConcat(a, b, ProcsPeak);
    NatFoldsOfConcat(a, b, ThreadsPeak);
    RealFoldsOfConcat(a, b, Duration);
  }

  lemma EarliestOfConcat(a: seq<string>, b: seq<string>, t: string, u: string)
    requires IsEarliest(a, t) && IsEarliest(b, u)
    ensures IsEarliest(a + b, Earlier(t, u))
  {
    var all, v := a + b, Earlier(t, u);
    assert forall x :: x in all <==> x in a || x in b;
    if v != "" {
      forall x | x in all && x != ""
        ensures !LexLess(x, v)
      {
        LexIsTotal(t, u);
        LexIsTotal(x, t);
        LexIsTotal(x, u);
        if x in a && LexLess(x, u) && t != "" && LexLess(u, t) {
          LexIsTransitive(x, u, t);
        }
        if x in b && LexLess(x, t) && u != "" && LexLess(t, u) {
          LexIsTransitive(x, t, u);
        }
      }
    }
  }

  lemma LatestOfConcat(a: seq<string>, b: seq<string>, t: string, u: string)
    requires IsLatest(a, t) && IsLatest(b, u)
    ensures IsLatest(a + b, Later(t, u))
  {
    var all, v := a + b, Later(t, u);
    assert forall x :: x in all <==> x in a || x in b;
    if v != "" {
      forall x | x in all && x != ""
        ensures !LexLess(v, x)
      {
        LexIsTotal(t, u);
        LexIsTotal(x, t);
        LexIsTotal(x, u);
        if x in a && LexLess(u, x) && t != "" && LexLess(t, u) {
          LexIsTransitive(t, u, x);
        }
        if x in b && LexLess(t, x) && u != "" && LexLess(u, t) {
          LexIsTransitive(u, t, x);
        }
      }
    }
  }

  lemma StampsOfConcat(a: seq<TelemetrySummary>, b: seq<TelemetrySummary>)
    ensures Starts(a + b) == Starts(a) + Starts(b) && Ends(a + b) == Ends(a) + Ends(b)
  {
  }

  /** Merging all documents at once is merging the parts and combining what they give. */
  lemma MergeIsCompositional(
    a: seq<TelemetrySummary>, b: seq<TelemetrySummary>, expected: seq<string>,
    ma: MergedSummary, mb: MergedSummary, mab: MergedSummary)
    requires IsMergeOf(a, expected, ma) && IsMergeOf(b, expected, mb) && IsMergeOf(a + b, expected, mab)
    ensures mab.totals == Together(ma.totals, mb.totals)
    ensures mab.tStart == Earlier(ma.tStart, mb.tStart) && mab.tEnd == Later(ma.tEnd, mb.tEnd)
  {
    AggregatesOfConcat(a, b);
    StampsOfConcat(a, b);
    EarliestOfConcat(Starts(a), Starts(b), ma.tStart, mb.tStart);
    LatestOfConcat(Ends(a), Ends(b), ma.tEnd, mb.tEnd);
    StampsAreUnique(Starts(a + b), Starts(a + b), mab.tStart, Earlier(ma.tStart, mb.tStart));
    StampsAreUnique(Ends(a + b), Ends(a + b), mab.tEnd, Later(ma.tEnd, mb.tEnd));
  }

  // ---------------------------------------------------------------------
  // Efficiency
  // ---------------------------------------------------------------------

  /** A node did not use more CPU time than its CPUs could give while it ran. */
  predicate WithinCapacity(d: TelemetrySummary) {
    CoreSeconds(d) <= Capacity(Cpus(d), Duration(d))
  }

  /** The CPU time that so many CPUs can give in so long. */
  function Capacity(cpus: nat, seconds: real): real {
    cpus as real * seconds
  }

  lemma CapacityGrows(a: nat, b: nat, x: real, y: real)
    requires x <= y
    ensures Capacity(b, x) <= Capacity(b, y)
    ensures Capacity(a + b, y) == Capacity(a, y) + Capacity(b, y)
  {
  }

  lemma CapacityStep(total: real, cpus: nat, d: TelemetrySummary, longest: real)
    requires total <= Capacity(cpus, longest) && WithinCapacity(d) && Duration(d) <= longest
    ensures total + CoreSeconds(d) <= Capacity(cpus + Cpus(d), longest)
  {
    CapacityGrows(cpus, Cpus(d), Duration(d), longest);
  }

  lemma {:induction false} CapacityAddsUp(docs: seq<TelemetrySummary>, longest: real)
    requires forall i :: 0 <= i < |docs| ==> WithinCapacity(docs[i]) && Duration(docs[i]) <= longest
    ensures RealTotal(docs, CoreSeconds) <= Capacity(Total(docs, Cpus), longest)
  {
    if docs != [] {
      var init, d := docs[..|docs| - 1], docs[|docs| - 1];
      CapacityAddsUp(init, longest);
      assert docs == init + [d];
      RealTotalAppend(init, d, CoreSeconds);
      SatTotalAppend(init, d, Cpus);
      CapacityStep(RealTotal(init, CoreSeconds), Total(init, Cpus), d, longest);
    }
  }

  lemma RatioAtMostOne(x: real, y: real)
    requires y > 0.0 && x <= y
    ensures x / y * 100.0 <= 100.0
  {
    assert x / y <= 1.0;
  }

  lemma CapacityIsPositive(cpus: nat, seconds: real)
    requires cpus > 0 && seconds > 0.0
    ensures seconds * cpus as real == Capacity(cpus, seconds) && Capacity(cpus, seconds) > 0.0
  {
  }

  /** The quotient, apart from where its three parts come from. */
  lemma QuotientWithinCapacity(used: real, cpus: nat, seconds: real)
    requires cpus > 0 && seconds > 0.0 && used <= Capacity(cpus, seconds)
    ensures used / (seconds * cpus as real) * 100.0 <= 100.0
  {
    CapacityIsPositive(cpus, seconds);
    RatioAtMostOne(used, seconds * cpus as real);
  }

  lemma EfficiencyWithinCapacity(a: Aggregates)
    requires a.coreSeconds <= Capacity(a.totalCpus, a.duration)
    ensures Efficiency(a) <= 100.0
  {
    if a.duration > 0.0 && a.totalCpus > 0 {
      QuotientWithinCapacity(a.coreSeconds, a.totalCpus, a.duration);
    }
  }

  lemma EfficiencyBound(docs: seq<TelemetrySummary>, a: Aggregates)
    requires a.coreSeconds == RealTotal(docs, CoreSeconds) && a.totalCpus == Total(docs, Cpus)
    requires a.duration == RealGreatest(docs, Duration)
    requires forall i :: 0 <= i < |docs| ==> WithinCapacity(docs[i])
    ensures Efficiency(a) <= 100.0
  {
    GreatestIsNonNegative(docs, Duration);
    CapacityAddsUp(docs, a.duration);
    EfficiencyWithinCapacity(a);
  }

  /** The job's efficiency is at most 100 when every node stayed within its own capacity. */
  lemma EfficiencyIsAtMostAll(docs: seq<TelemetrySummary>, expected: seq<string>, m: MergedSummary)
    requires IsMergeOf(docs, expected, m)
    requires forall i :: 0 <= i < |docs| ==> WithinCapacity(docs[i])
    ensures m.cpuEfficiencyPctAvg <= 100.0
  {
    EfficiencyBound(docs, m.totals);
  }

  // ---------------------------------------------------------------------
  // Reported and missing hosts
  // ---------------------------------------------------------------------

  ghost function DroppedFrom(hosts: seq<string>, keep: string -> bool): set<string> {
    set h | h in hosts && !keep(h)
  }

  lemma DroppedStep(init: seq<string>, last: string, keep: string -> bool)
    ensures DroppedFrom(init + [last], keep) == DroppedFrom(init, keep) + (if keep(last) then {} else {last})
  {
  }

  lemma {:induction false} FilterSplits(hosts: seq<string>, keep: string -> bool)
    requires Distinct(hosts)
    ensures |Filter(hosts, keep)| + |DroppedFrom(hosts, keep)| == |hosts|
    ensures forall h :: h in Filter(hosts, keep) <==> h in hosts && keep(h)
  {
    FilterKeeps(hosts, keep);
    if hosts != [] {
      var init, last := hosts[..|hosts| - 1], hosts[|hosts| - 1];
      FilterSplits(init, keep);
      assert hosts == init + [last];
      assert last !in init;
      DroppedStep(init, last, keep);
    } else {
      assert DroppedFrom(hosts, keep) == {};
    }
  }

  /**
   * No host is both reported and missing, and every expected host is one or the other; when
   * the reporters are among distinct expected hosts, the two counts add up to the whole allocation.
   */
  lemma ReportedAndMissingAddUp(docs: seq<TelemetrySummary>, expected: seq<string>, m: MergedSummary)
    requires IsMergeOf(docs, expected, m) && Distinct(expected)
    ensures forall h :: h in m.nodesMissing ==> h !in Reporting(docs)
    ensures forall h :: h in expected ==> h in m.nodesMissing || h in Reporting(docs)
    ensures (forall h :: h in Reporting(docs) ==> h in expected) ==>
              m.numNodesReporting + |m.nodesMissing| == |expected|
  {
    var keep := NotReporting(docs);
    FilterSplits(expected, keep);
    if forall h :: h in Reporting(docs) ==> h in expected {
      assert DroppedFrom(expected, keep) == Reporting(docs);
    }
  }

  lemma NamesOf(rows: seq<NodeSummary>, host: string)
    ensures host in HostNames(rows) <==> exists r :: r in rows && r.hostname == host
  {
    if host in HostNames(rows) {
      var i :| 0 <= i < |rows| && HostNames(rows)[i] == host;
      assert rows[i] in rows;
    }
    if r :| r in rows && r.hostname == host {
      var i :| 0 <= i < |rows| && rows[i] == r;
      assert HostNames(rows)[i] == host;
    }
  }

  lemma RowsComeFromDocs(docs: seq<TelemetrySummary>, row: NodeSummary)
    ensures row in NodeRows(docs) <==> exists d :: d in docs && NodeRow(d) == row
  {
    if row in NodeRows(docs) {
      var i :| 0 <= i < |docs| && NodeRows(docs)[i] == row;
      assert docs[i] in docs;
    }
    if d :| d in docs && NodeRow(d) == row {
      var i :| 0 <= i < |docs| && docs[i] == d;
      assert NodeRows(docs)[i] == row;
    }
  }

  lemma PartialRows(docs: seq<TelemetrySummary>, table: seq<NodeSummary>, host: string)
    requires multiset(table) == multiset(NodeRows(docs))
    ensures host in HostNames(Filter(table, IsPartialRow)) <==> exists d :: d in docs && d.partial && HostOf(d) == host
  {
    FilterKeeps(table, IsPartialRow);
    NamesOf(Filter(table, IsPartialRow), host);
    assert forall r :: r in table <==> r in multiset(table);
    assert forall r :: r in NodeRows(docs) <==> r in multiset(NodeRows(docs));
    if r :| r in table && r.partial && r.hostname == host {
      RowsComeFromDocs(docs, r);
    }
    if d :| d in docs && d.partial && HostOf(d) == host {
      RowsComeFromDocs(docs, NodeRow(d));
    }
  }

  /** The hosts listed as partial are exactly those whose document was a checkpoint. */
  lemma PartialHostsAreCheckpoints(docs: seq<TelemetrySummary>, expected: seq<string>, m: MergedSummary, host: string)
    requires IsMergeOf(docs, expected, m)
    ensures host in m.nodesPartial <==> exists d :: d in docs && d.partial && HostOf(d) == host
  {
    RowOrderIsTotal();
    SortIsSortedPermutation(NodeRows(docs), RowLe);
    PartialRows(docs, m.perNode, host);
  }

  lemma {:induction false} FilterKeeps<T>(s: seq<T>, keep: T -> bool)
    ensures forall x :: x in Filter(s, keep) <==> x in s && keep(x)
  {
    if s != [] {
      FilterKeeps(s[..|s| - 1], keep);
      assert forall x :: x in s <==> x in s[..|s| - 1] || x == s[|s| - 1];
    }
  }

  // ---------------------------------------------------------------------
  // Exit status
  // ---------------------------------------------------------------------

  /**
   * The merged status is success exactly when every node read success, a failure exactly
   * when some node read one (and then one that was read), and unknown exactly when no node
   * failed and some node is unknown.
   */
  lemma MergedStatusIsWorst(docs: seq<TelemetrySummary>, expected: seq<string>, m: MergedSummary)
    requires IsMergeOf(docs, expected, m)
    ensures m.outcome.status == Some(0) <==> AllSucceeded(docs)
    ensures m.outcome.status.Some? && m.outcome.status.value != 0 <==> SomeFailed(docs)
    ensures m.outcome.status.None? <==> !SomeFailed(docs) && SomeUnknown(docs)
    ensures m.outcome.status.Some? ==> exists i :: 0 <= i < |docs| && docs[i].outcome.status == m.outcome.status
  {
    if m.outcome.status == Some(0) {
      assert docs[0].outcome.status == Some(0);
    }
    if m.outcome.status.Some? && m.outcome.status.value != 0 {
      var i :| 0 <= i < |docs| && docs[i].outcome.status == m.outcome.status;
      assert Failed(docs[i]);
    }
  }

  /** So a failure is reported even when other nodes' outcomes are unknown. */
  lemma FailureBeatsUnknown(d: TelemetrySummary, e: TelemetrySummary, expected: seq<string>, m: MergedSummary)
    requires IsMergeOf([d, e], expected, m)
    requires d.outcome.status.None? && Failed(e)
    ensures m.outcome.status == e.outcome.status
  {
    var docs := [d, e];
    assert Failed(docs[1]);
    MergedStatusIsWorst(docs, expected, m);
  }
}
