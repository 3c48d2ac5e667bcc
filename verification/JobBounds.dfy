/** What the merged figures say about the job as a whole, end to end. */
module JobBounds {
  import opened Prelude
  import opened Summary
  import opened Totals
  import opened NodeProtocol
  import opened NodeSafety
  import opened World
  import opened Merge

  // ---------------------------------------------------------------------
  // Earlier merges are lower bounds for later ones
  // ---------------------------------------------------------------------

  /** Every figure of the job that only ever grows; memory apart, whose source may change. */
  predicate JobLe(a: Aggregates, b: Aggregates) {
    && a.coreSeconds <= b.coreSeconds && a.totalCpus <= b.totalCpus && a.samples <= b.samples
    && a.ioRead <= b.ioRead && a.ioWrite <= b.ioWrite
    && a.netRecv <= b.netRecv && a.netSent <= b.netSent
    && a.majorFaults <= b.majorFaults && a.minorFaults <= b.minorFaults
    && a.cpuPeakMax <= b.cpuPeakMax && a.cpuPeakSum <= b.cpuPeakSum
    && a.procsPeakMax <= b.procsPeakMax && a.threadsPeakMax <= b.threadsPeakMax
    && a.duration <= b.duration
  }

  predicate MemLe(a: Aggregates, b: Aggregates) {
    a.memPeakMax <= b.memPeakMax && a.memPeakSum <= b.memPeakSum
  }

  predicate NonNegativeDoc(d: TelemetrySummary) {
    d.acc.coreSeconds >= 0.0 && d.acc.cpuPctSumPeak >= 0.0
  }

  lemma CombineGrows(a: Aggregates, b: Aggregates, d: TelemetrySummary, e: TelemetrySummary)
    requires JobLe(a, b) && DocLe(d, e)
    ensures JobLe(Combine(a, d), Combine(b, e))
    ensures MemLe(a, b) && MemPeak(d) <= MemPeak(e) ==> MemLe(Combine(a, d), Combine(b, e))
  {
  }

  /** The saturating sums really are capped. */
  predicate Capped(a: Aggregates) {
    && a.ioRead <= U64_MAX && a.ioWrite <= U64_MAX && a.netRecv <= U64_MAX && a.netSent <= U64_MAX
    && a.majorFaults <= U64_MAX && a.minorFaults <= U64_MAX && a.memPeakSum <= U64_MAX
  }

  lemma CombineAdds(a: Aggregates, b: Aggregates, e: TelemetrySummary)
    requires JobLe(a, b) && NonNegativeDoc(e) && Capped(b)
    ensures JobLe(a, Combine(b, e))
    ensures MemLe(a, b) ==> MemLe(a, Combine(b, e))
  {
  }

  /** No node's memory figure comes from the processes at the first moment and from the cgroup at the second. */
  ghost predicate MemorySourcesHold(v: seq<NodeState>, w: seq<NodeState>)
    requires |v| == |w|
  {
    forall i :: 0 <= i < |v| && Published(v[i]).Some? && Published(w[i]).Some? ==>
      Published(v[i]).value.acc.cgroupMemPeak.Some? || Published(w[i]).value.acc.cgroupMemPeak.None?
  }

  lemma FixedSourceGrows(d: TelemetrySummary, e: TelemetrySummary)
    requires DocLe(d, e) && (d.acc.cgroupMemPeak.Some? || e.acc.cgroupMemPeak.None?)
    ensures MemPeak(d) <= MemPeak(e)
  {
  }

  lemma CombinedIsCapped(docs: seq<TelemetrySummary>)
    ensures Capped(Combined(docs))
  {
  }

  /** One more node, which may have published nothing yet. */
  function With(a: Aggregates, d: Option<TelemetrySummary>): Aggregates {
    match d
    case None => a
    case Some(doc) => Combine(a, doc)
  }

  lemma CombinedOfDocs(nodes: seq<NodeState>)
    requires nodes != []
    ensures Combined(DocsOf(nodes)) == With(Combined(DocsOf(nodes[..|nodes| - 1])), Published(nodes[|nodes| - 1]))
  {
    var init := DocsOf(nodes[..|nodes| - 1]);
    match Published(nodes[|nodes| - 1])
    case None => assert init + [] == init;
    case Some(d) => LoopStep(init, d, "", "");
  }

  lemma WithGrows(a: Aggregates, b: Aggregates, n: NodeState, m: NodeState)
    requires JobLe(a, b) && Capped(b) && PublishedLe(n, m)
    requires Published(m).Some? ==> NonNegativeDoc(Published(m).value)
    ensures JobLe(With(a, Published(n)), With(b, Published(m)))
    ensures MemLe(a, b) && MemorySourcesHold([n], [m]) ==> MemLe(With(a, Published(n)), With(b, Published(m)))
  {
    match (Published(n), Published(m))
    case (Some(d), Some(e)) =>
      CombineGrows(a, b, d, e);
      if MemorySourcesHold([n], [m]) {
        assert [n][0] == n && [m][0] == m;
        FixedSourceGrows(d, e);
      }
    case (None, Some(e)) => CombineAdds(a, b, e);
    case _ =>
  }

  ghost predicate NodesGrow(v: seq<NodeState>, w: seq<NodeState>) {
    && |v| == |w|
    && (forall i :: 0 <= i < |v| ==> PublishedLe(v[i], w[i]))
    && (forall i :: 0 <= i < |w| && Published(w[i]).Some? ==> NonNegativeDoc(Published(w[i]).value))
  }

  lemma NodesGrowSplits(v: seq<NodeState>, w: seq<NodeState>, n: nat)
    requires NodesGrow(v, w) && |v| == n + 1
    ensures NodesGrow(v[..n], w[..n]) && PublishedLe(v[n], w[n])
    ensures Published(w[n]).Some? ==> NonNegativeDoc(Published(w[n]).value)
    ensures MemorySourcesHold(v, w) ==> MemorySourcesHold(v[..n], w[..n]) && MemorySourcesHold([v[n]], [w[n]])
  {
  }

  lemma {:induction false} DocsGrow(v: seq<NodeState>, w: seq<NodeState>)
    requires NodesGrow(v, w)
    ensures JobLe(Combined(DocsOf(v)), Combined(DocsOf(w)))
    ensures MemorySourcesHold(v, w) ==> MemLe(Combined(DocsOf(v)), Combined(DocsOf(w)))
  {
    if v != [] {
      var n := |v| - 1;
      NodesGrowSplits(v, w, n);
      DocsGrow(v[..n], w[..n]);
      CombinedOfDocs(v);
      CombinedOfDocs(w);
      CombinedIsCapped(DocsOf(w[..n]));
      WithGrows(Combined(DocsOf(v[..n])), Combined(DocsOf(w[..n])), v[n], w[n]);
    }
  }

  lemma SoundDocIsNonNegative(info: NodeInfo, n: NodeState)
    requires Inv(info, n) && info.interval >= 0.0 && Published(n).Some?
    ensures NonNegativeDoc(Published(n).value)
  {
    var d := Published(n).value;
    assert DocSound(info, n.seen, n.clock, d);
    var samples := if d.partial then n.seen[..d.derived.samples] else n.seen;
    assert d.acc == Fold(samples, info.interval);
    PrefixIsLowerBound(samples, 0, info.interval);
    assert samples[..0] == [];
  }

  /**
   * Partial data is a lower bound, end to end: take any run of any number of loggers, and
   * merge whatever the directory holds at two moments of it. The figures merged first are
   * at most those merged later (in particular once every node has written its final
   * summary), and the memory figures too when no node's source changed in between.
   */
  lemma EarlierMergeIsLowerBound(infos: seq<NodeInfo>, leftover: StatusFile, steps: seq<Step>, more: seq<Step>)
    requires IntervalsValid(infos) && Run(Begin(infos, leftover), steps + more).Some?
    ensures Run(Begin(infos, leftover), steps).Some?
    ensures var v := Run(Begin(infos, leftover), steps).value.nodes;
            var w := Run(Begin(infos, leftover), steps + more).value.nodes;
            && |v| == |w|
            && JobLe(AggregatesOf(DocsOf(v)), AggregatesOf(DocsOf(w)))
            && (MemorySourcesHold(v, w) ==> MemLe(AggregatesOf(DocsOf(v)), AggregatesOf(DocsOf(w))))
  {
    PublishedOnlyGrows(infos, leftover, steps, more);
    RunKeepsInv(infos, leftover, steps + more);
    var v := Run(Begin(infos, leftover), steps).value.nodes;
    var w := Run(Begin(infos, leftover), steps + more).value.nodes;
    forall i | 0 <= i < |w| && Published(w[i]).Some?
      ensures NonNegativeDoc(Published(w[i]).value)
    {
      SoundDocIsNonNegative(infos[i], w[i]);
    }
    DocsGrow(v, w);
    CombinedIsAggregates(DocsOf(v));
    CombinedIsAggregates(DocsOf(w));
  }

  // ---------------------------------------------------------------------
  // The merged exit status
  // ---------------------------------------------------------------------

  lemma {:induction false} DocsAreHonest(nodes: seq<NodeState>, recorded: Option<int>)
    requires forall i :: 0 <= i < |nodes| && Published(nodes[i]).Some? ==>
               Honest(Published(nodes[i]).value.outcome, recorded)
    ensures forall k :: 0 <= k < |DocsOf(nodes)| ==> Honest(DocsOf(nodes)[k].outcome, recorded)
  {
    if nodes != [] {
      DocsAreHonest(nodes[..|nodes| - 1], recorded);
    }
  }

  lemma HonestyIgnoresOrder(docs: seq<TelemetrySummary>, others: seq<TelemetrySummary>, recorded: Option<int>)
    requires multiset(docs) == multiset(others)
    requires forall k :: 0 <= k < |others| ==> Honest(others[k].outcome, recorded)
    ensures forall k :: 0 <= k < |docs| ==> Honest(docs[k].outcome, recorded)
  {
    forall k | 0 <= k < |docs|
      ensures Honest(docs[k].outcome, recorded)
    {
      assert docs[k] in multiset(others);
    }
  }

  /** Honest readings merge into an honest status. */
  lemma HonestStatusesMerge(docs: seq<TelemetrySummary>, recorded: Option<int>, outcome: Outcome)
    requires docs != [] && IsJobStatus(docs, outcome.status)
    requires forall k :: 0 <= k < |docs| ==> Honest(docs[k].outcome, recorded)
    ensures Honest(outcome, recorded)
    ensures outcome.status == Some(0) <==> forall k :: 0 <= k < |docs| ==> docs[k].outcome.status == Some(0)
  {
    if outcome.status == Some(0) {
      assert docs[0].outcome.status == Some(0);
    }
  }

  /**
   * Whenever the merge runs, and in whatever order it reads what is published, the job's
   * status is unknown or exactly the recorded one; it is success only if every node that
   * reported read success, and then success was recorded.
   */
  lemma MergedStatusIsNeverInvented(
    infos: seq<NodeInfo>, leftover: StatusFile, steps: seq<Step>, docs: seq<TelemetrySummary>,
    expected: seq<string>, m: MergedSummary)
    requires Run(Begin(infos, leftover), steps).Some?
    requires multiset(docs) == multiset(DocsOf(Run(Begin(infos, leftover), steps).value.nodes))
    requires IsMergeOf(docs, expected, m)
    ensures var recorded := Run(Begin(infos, leftover), steps).value.recorded;
            && Honest(m.outcome, recorded)
            && (m.outcome.status == Some(0) ==> recorded == Some(0))
    ensures m.outcome.status == Some(0) <==> forall k :: 0 <= k < |docs| ==> docs[k].outcome.status == Some(0)
  {
    var w := Run(Begin(infos, leftover), steps).value;
    PublishedIsHonest(infos, leftover, steps);
    DocsAreHonest(w.nodes, w.recorded);
    HonestyIgnoresOrder(docs, DocsOf(w.nodes), w.recorded);
    HonestStatusesMerge(docs, w.recorded, m.outcome);
  }

  lemma PublishedIsHonest(infos: seq<NodeInfo>, leftover: StatusFile, steps: seq<Step>)
    requires Run(Begin(infos, leftover), steps).Some?
    ensures var w := Run(Begin(infos, leftover), steps).value;
            forall i :: 0 <= i < |w.nodes| && Published(w.nodes[i]).Some? ==>
              Honest(Published(w.nodes[i]).value.outcome, w.recorded)
  {
    RunKeepsInv(infos, leftover, steps);
    var w := Run(Begin(infos, leftover), steps).value;
    forall i | 0 <= i < |w.nodes| && Published(w.nodes[i]).Some?
      ensures Honest(Published(w.nodes[i]).value.outcome, w.recorded)
    {
      StatusIsNeverInvented(infos, leftover, steps, i);
    }
  }
}
