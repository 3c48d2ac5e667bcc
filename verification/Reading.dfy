/** What a merge reads from the directory is what the nodes of the job have published (`merge.rs`). */
module Reading {
  import opened Prelude
  import opened Folding
  import opened Sorting
  import opened Naming
  import opened Manifest
  import opened Summary
  import opened NodeProtocol
  import opened NodeSafety
  import opened World
  import opened Merge
  import opened MergeLaws
  import opened JobBounds
  import opened Directory

  /** The job as its manifest names it: where each host's logger writes. */
  datatype Job = Job(output: string, hosts: seq<string>, jobId: string, user: string) {
    function Files(): seq<Entry> {
      BuildManifest(output, hosts, jobId, user)
    }

    /** The names under which the loggers publish, host by host. */
    function Names(): (names: seq<string>)
      ensures |names| == |hosts|
      ensures forall i :: 0 <= i < |names| ==> names[i] == Files()[i].summary
    {
      seq(|hosts|, i requires 0 <= i < |hosts| => Files()[i].summary)
    }

    ghost predicate Valid() {
      && Distinct(Names())
      && (forall rank :: 0 <= rank < |hosts| ==> FileName(Expand(output, hosts[rank], jobId, user)).Some?)
    }

    function TheManifest(): Option<JobManifest> {
      Some(JobManifest(jobId, Files()))
    }
  }

  /** The directory shows of each node what lies under the name its logger publishes to. */
  ghost predicate Shows(dir: Dir, job: Job, nodes: seq<NodeState>) {
    && |nodes| == |job.hosts|
    && (forall i :: 0 <= i < |nodes| ==> ShowsNode(dir, job, nodes[i], i))
  }

  ghost predicate ShowsNode(dir: Dir, job: Job, n: NodeState, i: nat)
    requires i < |job.hosts|
  {
    var path := SummaryPath(None, job.output, job.hosts[i], job.jobId, job.user);
    FileName(path).Some? &&
    var name := FileName(path).value;
    && (name in dir <==> n.files.summary.Some?)
    && (name in dir ==> dir[name].isFile && dir[name].doc == Published(n))
  }

  /** The same by the manifest's names. */
  ghost predicate Listed(dir: Dir, jobId: string, name: string, n: NodeState) {
    && FileName(name) == Some(name)
    && (name in dir <==> n.files.summary.Some?)
    && (name in dir ==> dir[name].isFile && dir[name].doc == Published(n))
    && (Published(n).Some? ==> Published(n).value.info.jobId == jobId)
  }

  lemma ShownIsListed(dir: Dir, job: Job, n: NodeState, i: nat)
    requires job.Valid() && i < |job.hosts| && ShowsNode(dir, job, n, i)
    requires Published(n).Some? ==> Published(n).value.info.jobId == job.jobId
    ensures Listed(dir, job.jobId, job.Names()[i], n)
  {
    ManifestAgreesWithLoggers(job.output, job.hosts, i, job.jobId, job.user);
    var name := job.Names()[i];
    FileNameIsOrdinary(SummaryPath(None, job.output, job.hosts[i], job.jobId, job.user));
    FileNameOfOrdinary("", name);
    assert "" + name == name;
  }

  // ---------------------------------------------------------------------
  // Lists of names
  // ---------------------------------------------------------------------

  /** What one name contributes, as a multiset. */
  function DocsUnder(dir: Dir, jobId: string): string -> multiset<TelemetrySummary> {
    name => if Loads(dir, name, jobId) then multiset{dir[name].doc.value} else multiset{}
  }

  lemma {:induction false} LoadingFolds(dir: Dir, names: seq<string>, jobId: string)
    ensures multiset(LoadedFrom(dir, names, jobId)) == FoldMap(names, DocsUnder(dir, jobId), Union, multiset{})
  {
    if names != [] {
      LoadingFolds(dir, names[..|names| - 1], jobId);
    }
  }

  /** Loading names in another order loads the same documents. */
  lemma LoadingIgnoresOrder(dir: Dir, a: seq<string>, b: seq<string>, jobId: string)
    requires multiset(a) == multiset(b)
    ensures multiset(LoadedFrom(dir, a, jobId)) == multiset(LoadedFrom(dir, b, jobId))
  {
    LoadingFolds(dir, a, jobId);
    LoadingFolds(dir, b, jobId);
    UnionSwaps<TelemetrySummary>();
    FoldOfPermutation(a, b, DocsUnder(dir, jobId), Union, multiset{});
  }

  /** The names that are in the directory at all. */
  function Present(dir: Dir, names: seq<string>): seq<string> {
    if names == [] then [] else
    var last := names[|names| - 1];
    Present(dir, names[..|names| - 1]) + (if last in dir then [last] else [])
  }

  lemma {:induction false} PresentLoadsTheSame(dir: Dir, names: seq<string>, jobId: string)
    ensures LoadedFrom(dir, Present(dir, names), jobId) == LoadedFrom(dir, names, jobId)
  {
    if names != [] {
      var init, last := names[..|names| - 1], names[|names| - 1];
      PresentLoadsTheSame(dir, init, jobId);
      if last in dir {
        assert (Present(dir, init) + [last])[..|Present(dir, init)|] == Present(dir, init);
      } else {
        assert Present(dir, names) == Present(dir, init);
        assert LoadedFrom(dir, init, jobId) + [] == LoadedFrom(dir, init, jobId);
      }
    }
  }

  lemma {:induction false} PresentKeeps(dir: Dir, names: seq<string>)
    ensures forall n :: n in Present(dir, names) <==> n in names && n in dir
    ensures Distinct(names) ==> Distinct(Present(dir, names))
  {
    if names != [] {
      var init, last := names[..|names| - 1], names[|names| - 1];
      PresentKeeps(dir, init);
      DistinctAppend(init, last);
      DistinctAppend(Present(dir, init), last);
      assert names == init + [last];
    }
  }

  lemma DistinctAppend(names: seq<string>, last: string)
    ensures Distinct(names + [last]) <==> Distinct(names) && last !in names
  {
    var all := names + [last];
    if Distinct(all) {
      assert forall i :: 0 <= i < |names| ==> all[i] == names[i] && all[i] != all[|names|];
      assert forall i, j :: 0 <= i < j < |names| ==> all[i] != all[j];
    }
    if Distinct(names) && last !in names {
      forall i, j | 0 <= i < j < |all|
        ensures all[i] != all[j]
      {
        assert i < |names| ==> all[i] == names[i] && names[i] in names;
      }
    }
  }

  lemma SameNamesPermuted(a: seq<string>, b: seq<string>)
    requires Distinct(a) && Distinct(b) && forall x :: x in a <==> x in b
    ensures multiset(a) == multiset(b)
  {
    DistinctByCount(a);
    DistinctByCount(b);
    forall x
      ensures multiset(a)[x] == multiset(b)[x]
    {
      assert x in a <==> x in multiset(a);
      assert x in b <==> x in multiset(b);
    }
  }

  // ---------------------------------------------------------------------
  // The directory and the nodes
  // ---------------------------------------------------------------------

  /** Name by name, the loader gets what the nodes have published. */
  lemma {:induction false} NamesLoadTheNodes(dir: Dir, jobId: string, names: seq<string>, nodes: seq<NodeState>)
    requires |names| == |nodes| && forall i :: 0 <= i < |names| ==> Listed(dir, jobId, names[i], nodes[i])
    ensures LoadedFrom(dir, names, jobId) == DocsOf(nodes)
  {
    if names != [] {
      var k := |names| - 1;
      NamesLoadTheNodes(dir, jobId, names[..k], nodes[..k]);
      assert Listed(dir, jobId, names[k], nodes[k]);
    }
  }

  lemma FindingIsPresent(dir: Dir, job: Job, nodes: seq<NodeState>, found: seq<string>)
    requires forall i :: 0 <= i < |job.hosts| ==> i < |nodes| && Listed(dir, job.jobId, job.Names()[i], nodes[i])
    requires IsFinding(dir, job.TheManifest(), job.jobId, found)
    ensures forall x :: x in found <==> x in job.Names() && x in dir
    ensures Distinct(found)
  {
    var names := job.Names();
    forall x
      ensures x in found <==> x in names && x in dir
    {
      assert x in found <==> Wanted(dir, job.TheManifest(), job.jobId, x);
      if x in names && x in dir {
        var i :| 0 <= i < |names| && names[i] == x;
        assert Listed(dir, job.jobId, names[i], nodes[i]);
        assert job.Files()[i].summary == x;
      }
      if x in found {
        var i :| 0 <= i < |job.Files()| && job.Files()[i].summary == x;
        assert names[i] == x;
      }
    }
    forall i, j | 0 <= i < j < |found|
      ensures found[i] != found[j]
    {
      LexIsTotal(found[i], found[j]);
      LexIsTotal(found[i], found[i]);
    }
  }

  /**
   * With the manifest of the job and distinct names, finding and loading the node summaries
   * gives the documents that the nodes have published, each once, in some order.
   */
  lemma MergeReadsWhatIsPublished(dir: Dir, job: Job, nodes: seq<NodeState>, found: seq<string>)
    requires job.Valid() && Shows(dir, job, nodes)
    requires forall i :: 0 <= i < |nodes| && Published(nodes[i]).Some? ==>
               Published(nodes[i]).value.info.jobId == job.jobId
    requires IsFinding(dir, job.TheManifest(), job.jobId, found)
    ensures multiset(LoadedFrom(dir, found, job.jobId)) == multiset(DocsOf(nodes))
  {
    var names := job.Names();
    forall i | 0 <= i < |nodes|
      ensures Listed(dir, job.jobId, names[i], nodes[i])
    {
      ShownIsListed(dir, job, nodes[i], i);
    }
    FindingIsPresent(dir, job, nodes, found);
    PresentLoadsTheSame(dir, names, job.jobId);
    PresentKeeps(dir, names);
    SameNamesPermuted(found, Present(dir, names));
    LoadingIgnoresOrder(dir, found, Present(dir, names), job.jobId);
    NamesLoadTheNodes(dir, job.jobId, names, nodes);
  }

  /** What any run's nodes publish carries the job id they were started with. */
  lemma PublishedCarryTheJob(infos: seq<NodeInfo>, leftover: StatusFile, steps: seq<Step>, jobId: string)
    requires Run(Begin(infos, leftover), steps).Some?
    requires forall i :: 0 <= i < |infos| ==> infos[i].jobId == jobId
    ensures var nodes := Run(Begin(infos, leftover), steps).value.nodes;
            forall i :: 0 <= i < |nodes| && Published(nodes[i]).Some? ==> Published(nodes[i]).value.info.jobId == jobId
  {
    RunKeepsInv(infos, leftover, steps);
    var nodes := Run(Begin(infos, leftover), steps).value.nodes;
    forall i | 0 <= i < |nodes| && Published(nodes[i]).Some?
      ensures Published(nodes[i]).value.info.jobId == jobId
    {
      assert Inv(infos[i], nodes[i]);
    }
  }

  /**
   * From the loops of the loggers to the figures of the merge, through the directory: of two
   * merges at two moments of any run, what the first reads and adds up is a lower bound for
   * what the second does.
   */
  lemma EarlierReadingIsLowerBound(
    infos: seq<NodeInfo>, leftover: StatusFile, steps: seq<Step>, more: seq<Step>, job: Job,
    dir: Dir, found: seq<string>, later: Dir, foundLater: seq<string>)
    requires IntervalsValid(infos) && Run(Begin(infos, leftover), steps + more).Some?
    requires Run(Begin(infos, leftover), steps).Some?
    requires job.Valid() && forall i :: 0 <= i < |infos| ==> infos[i].jobId == job.jobId
    requires Shows(dir, job, Run(Begin(infos, leftover), steps).value.nodes)
    requires Shows(later, job, Run(Begin(infos, leftover), steps + more).value.nodes)
    requires IsFinding(dir, job.TheManifest(), job.jobId, found)
    requires IsFinding(later, job.TheManifest(), job.jobId, foundLater)
    ensures var v := Run(Begin(infos, leftover), steps).value.nodes;
            var w := Run(Begin(infos, leftover), steps + more).value.nodes;
            var a := AggregatesOf(LoadedFrom(dir, found, job.jobId));
            var b := AggregatesOf(LoadedFrom(later, foundLater, job.jobId));
            |v| == |w| && JobLe(a, b) && (MemorySourcesHold(v, w) ==> MemLe(a, b))
  {
    var v := Run(Begin(infos, leftover), steps).value.nodes;
    var w := Run(Begin(infos, leftover), steps + more).value.nodes;
    PublishedCarryTheJob(infos, leftover, steps, job.jobId);
    PublishedCarryTheJob(infos, leftover, steps + more, job.jobId);
    MergeReadsWhatIsPublished(dir, job, v, found);
    MergeReadsWhatIsPublished(later, job, w, foundLater);
    AggregatesIgnoreOrder(LoadedFrom(dir, found, job.jobId), DocsOf(v));
    AggregatesIgnoreOrder(LoadedFrom(later, foundLater, job.jobId), DocsOf(w));
    EarlierMergeIsLowerBound(infos, leftover, steps, more);
  }

  // ---------------------------------------------------------------------
  // Status and missing hosts, through the directory
  // ---------------------------------------------------------------------

  /** The status of a merge through the directory is unknown or the recorded one, at any moment of any run. */
  lemma ReadStatusIsNeverInvented(
    infos: seq<NodeInfo>, leftover: StatusFile, steps: seq<Step>, job: Job,
    dir: Dir, found: seq<string>, expected: seq<string>, m: MergedSummary)
    requires Run(Begin(infos, leftover), steps).Some?
    requires job.Valid() && forall i :: 0 <= i < |infos| ==> infos[i].jobId == job.jobId
    requires Shows(dir, job, Run(Begin(infos, leftover), steps).value.nodes)
    requires IsFinding(dir, job.TheManifest(), job.jobId, found)
    requires IsMergeOf(LoadedFrom(dir, found, job.jobId), expected, m)
    ensures var recorded := Run(Begin(infos, leftover), steps).value.recorded;
            Honest(m.outcome, recorded) && (m.outcome.status == Some(0) ==> recorded == Some(0))
  {
    PublishedCarryTheJob(infos, leftover, steps, job.jobId);
    MergeReadsWhatIsPublished(dir, job, Run(Begin(infos, leftover), steps).value.nodes, found);
    MergedStatusIsNeverInvented(infos, leftover, steps, LoadedFrom(dir, found, job.jobId), expected, m);
  }

  lemma {:induction false} DocsComeFromNodes(nodes: seq<NodeState>, d: TelemetrySummary)
    ensures d in DocsOf(nodes) <==> exists i :: 0 <= i < |nodes| && Published(nodes[i]) == Some(d)
  {
    if nodes != [] {
      var k := |nodes| - 1;
      DocsComeFromNodes(nodes[..k], d);
      assert forall i :: 0 <= i < k ==> nodes[..k][i] == nodes[i];
    }
  }

  /** Each node publishes under its own host's name. */
  ghost predicate NamedAfter(hosts: seq<string>, nodes: seq<NodeState>) {
    && |nodes| == |hosts| && Distinct(hosts) && (forall i :: 0 <= i < |hosts| ==> hosts[i] != "")
    && (forall i :: 0 <= i < |nodes| && Published(nodes[i]).Some? ==>
          Published(nodes[i]).value.info.hostname == hosts[i])
  }

  lemma PublishedReports(hosts: seq<string>, nodes: seq<NodeState>, docs: seq<TelemetrySummary>, i: nat)
    requires NamedAfter(hosts, nodes) && multiset(docs) == multiset(DocsOf(nodes)) && i < |hosts|
    requires Published(nodes[i]).Some?
    ensures hosts[i] in Reporting(docs)
  {
    var d := Published(nodes[i]).value;
    DocsComeFromNodes(nodes, d);
    assert d in multiset(DocsOf(nodes));
    assert d in docs && HostOf(d) == hosts[i];
  }

  lemma ReportingIsPublished(hosts: seq<string>, nodes: seq<NodeState>, docs: seq<TelemetrySummary>, i: nat)
    requires NamedAfter(hosts, nodes) && multiset(docs) == multiset(DocsOf(nodes)) && i < |hosts|
    requires hosts[i] in Reporting(docs)
    ensures Published(nodes[i]).Some?
  {
    var d :| d in docs && HostOf(d) == hosts[i];
    assert d in multiset(docs);
    DocsComeFromNodes(nodes, d);
    var j :| 0 <= j < |nodes| && Published(nodes[j]) == Some(d);
    assert hosts[j] == hosts[i];
  }

  lemma MissingIsUnpublished(
    hosts: seq<string>, nodes: seq<NodeState>, docs: seq<TelemetrySummary>, missing: seq<string>, i: nat)
    requires NamedAfter(hosts, nodes) && multiset(docs) == multiset(DocsOf(nodes)) && i < |hosts|
    requires missing == Filter(hosts, NotReporting(docs))
    ensures hosts[i] in missing <==> Published(nodes[i]).None?
  {
    FilterKeeps(hosts, NotReporting(docs));
    if Published(nodes[i]).Some? {
      PublishedReports(hosts, nodes, docs, i);
    }
    if hosts[i] in Reporting(docs) {
      ReportingIsPublished(hosts, nodes, docs, i);
    }
  }

  /** What any run's nodes publish names the host they ran on. */
  lemma PublishedCarryTheHost(infos: seq<NodeInfo>, leftover: StatusFile, steps: seq<Step>, hosts: seq<string>)
    requires Run(Begin(infos, leftover), steps).Some?
    requires |infos| == |hosts| && forall i :: 0 <= i < |infos| ==> infos[i].hostname == hosts[i] != ""
    requires Distinct(hosts)
    ensures NamedAfter(hosts, Run(Begin(infos, leftover), steps).value.nodes)
  {
    RunKeepsInv(infos, leftover, steps);
    var nodes := Run(Begin(infos, leftover), steps).value.nodes;
    forall i | 0 <= i < |nodes| && Published(nodes[i]).Some?
      ensures Published(nodes[i]).value.info.hostname == hosts[i]
    {
      assert Inv(infos[i], nodes[i]);
    }
  }

  /**
   * At any moment of any run, a merge through the directory lists a host as missing exactly
   * when the logger on it has published nothing.
   */
  lemma MissingMeansUnpublished(
    infos: seq<NodeInfo>, leftover: StatusFile, steps: seq<Step>, job: Job,
    dir: Dir, found: seq<string>, m: MergedSummary, i: nat)
    requires Run(Begin(infos, leftover), steps).Some?
    requires job.Valid() && Distinct(job.hosts) && |infos| == |job.hosts|
    requires forall i :: 0 <= i < |infos| ==> infos[i].jobId == job.jobId && infos[i].hostname == job.hosts[i] != ""
    requires Shows(dir, job, Run(Begin(infos, leftover), steps).value.nodes)
    requires IsFinding(dir, job.TheManifest(), job.jobId, found)
    requires IsMergeOf(LoadedFrom(dir, found, job.jobId), job.hosts, m)
    requires i < |job.hosts| && i < |Run(Begin(infos, leftover), steps).value.nodes|
    ensures job.hosts[i] in m.nodesMissing <==> Published(Run(Begin(infos, leftover), steps).value.nodes[i]).None?
  {
    var nodes, docs := Run(Begin(infos, leftover), steps).value.nodes, LoadedFrom(dir, found, job.jobId);
    PublishedCarryTheJob(infos, leftover, steps, job.jobId);
    PublishedCarryTheHost(infos, leftover, steps, job.hosts);
    MergeReadsWhatIsPublished(dir, job, nodes, found);
    MissingIsUnpublished(job.hosts, nodes, docs, m.nodesMissing, i);
  }
}
