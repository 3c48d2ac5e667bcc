/** Per-process figures, their aggregation, and the walk of the process tree (`process.rs`). */
module Process {
  import opened Prelude
  import opened Folding

  /** `ProcessTreeStats`. */
  datatype TreeStats = TreeStats(
    rssBytes: nat,
    procCount: nat,
    threadCount: nat,
    fdCount: nat,
    majorFaults: nat,
    minorFaults: nat,
    ioReadBytes: nat,
    ioWriteBytes: nat,
    ioReadOps: nat,
    ioWriteOps: nat,
    swapBytes: nat)
  {
    /** These figures are the earlier ones and one live process's own. */
    predicate Grown(earlier: TreeStats, p: ProcInfo, pageSize: nat, opts: ScanOptions) {
      && rssBytes == earlier.rssBytes + p.rssPages * pageSize
      && procCount == earlier.procCount + 1
      && threadCount == earlier.threadCount + p.tasks.GetOr(0)
      && fdCount == earlier.fdCount + (if p.fds.Some? && p.fds.value > 0 then p.fds.value - 1 else 0)
      && majorFaults == earlier.majorFaults + p.majorFaults
      && minorFaults == earlier.minorFaults + p.minorFaults
      && ioReadBytes == earlier.ioReadBytes + (if opts.collectIo && p.io.Some? then p.io.value.readBytes else 0)
      && ioWriteBytes == earlier.ioWriteBytes + (if opts.collectIo && p.io.Some? then p.io.value.writeBytes else 0)
      && ioReadOps == earlier.ioReadOps + (if opts.collectIo && p.io.Some? then p.io.value.readOps else 0)
      && ioWriteOps == earlier.ioWriteOps + (if opts.collectIo && p.io.Some? then p.io.value.writeOps else 0)
      && swapBytes == earlier.swapBytes + (if opts.collectSwap then p.swap.GetOr(0) else 0)
    }
  }

  const NO_STATS: TreeStats := TreeStats(0, 0, 0, 0, 0, 0, 0, 0, 0, 0, 0)

  function Add(a: TreeStats, b: TreeStats): TreeStats {
    TreeStats(
      a.rssBytes + b.rssBytes, a.procCount + b.procCount, a.threadCount + b.threadCount, a.fdCount + b.fdCount,
      a.majorFaults + b.majorFaults, a.minorFaults + b.minorFaults,
      a.ioReadBytes + b.ioReadBytes, a.ioWriteBytes + b.ioWriteBytes,
      a.ioReadOps + b.ioReadOps, a.ioWriteOps + b.ioWriteOps, a.swapBytes + b.swapBytes)
  }

  /** Field by field. */
  predicate StatsLe(a: TreeStats, b: TreeStats) {
    && a.rssBytes <= b.rssBytes && a.procCount <= b.procCount
    && a.threadCount <= b.threadCount && a.fdCount <= b.fdCount
    && a.majorFaults <= b.majorFaults && a.minorFaults <= b.minorFaults
    && a.ioReadBytes <= b.ioReadBytes && a.ioWriteBytes <= b.ioWriteBytes
    && a.ioReadOps <= b.ioReadOps && a.ioWriteOps <= b.ioWriteOps
    && a.swapBytes <= b.swapBytes
  }

  /** `max_with`. */
  function MaxWith(a: TreeStats, b: TreeStats): TreeStats {
    TreeStats(
      Max(a.rssBytes, b.rssBytes), Max(a.procCount, b.procCount),
      Max(a.threadCount, b.threadCount), Max(a.fdCount, b.fdCount),
      Max(a.majorFaults, b.majorFaults), Max(a.minorFaults, b.minorFaults),
      Max(a.ioReadBytes, b.ioReadBytes), Max(a.ioWriteBytes, b.ioWriteBytes),
      Max(a.ioReadOps, b.ioReadOps), Max(a.ioWriteOps, b.ioWriteOps),
      Max(a.swapBytes, b.swapBytes))
  }

  /** The high-water mark of two scans is their least upper bound. */
  lemma MaxWithIsLeastUpperBound(a: TreeStats, b: TreeStats, bound: TreeStats)
    ensures StatsLe(a, MaxWith(a, b)) && StatsLe(b, MaxWith(a, b))
    ensures StatsLe(MaxWith(a, b), bound) <==> StatsLe(a, bound) && StatsLe(b, bound)
  {
  }

  // ---------------------------------------------------------------------
  // One process
  // ---------------------------------------------------------------------

  datatype IoStats = IoStats(readBytes: nat, writeBytes: nat, readOps: nat, writeOps: nat)

  /** What /proc says about one live process; the optional parts may fail to be read. */
  datatype ProcInfo = ProcInfo(
    rssPages: nat,
    minorFaults: nat,
    majorFaults: nat,
    tasks: Option<nat>,
    fds: Option<nat>,
    io: Option<IoStats>,
    swap: Option<nat>)

  datatype ScanOptions = ScanOptions(collectIo: bool, collectSwap: bool)

  /** The state of the node during a scan: the live processes and each one's children. */
  datatype Node = Node(pageSize: nat, procs: map<int, ProcInfo>, children: map<int, seq<int>>) {
    function ChildrenOf(pid: int): seq<int> {
      if pid in children then children[pid] else []
    }
  }

  /** What one process adds to the totals: nothing at all once it has exited. */
  function Contribution(node: Node, opts: ScanOptions, pid: int): TreeStats {
    if pid !in node.procs then NO_STATS else
    var p := node.procs[pid];
    var io := if opts.collectIo then p.io.GetOr(IoStats(0, 0, 0, 0)) else IoStats(0, 0, 0, 0);
    TreeStats(
      p.rssPages * node.pageSize, 1, p.tasks.GetOr(0), SatSub(p.fds.GetOr(0), 1),
      p.majorFaults, p.minorFaults, io.readBytes, io.writeBytes, io.readOps, io.writeOps,
      if opts.collectSwap then p.swap.GetOr(0) else 0)
  }

  lemma ContributionGrows(stats: TreeStats, node: Node, opts: ScanOptions, pid: int)
    ensures pid !in node.procs ==> Add(stats, Contribution(node, opts, pid)) == stats
    ensures pid in node.procs ==>
              Add(stats, Contribution(node, opts, pid)).Grown(stats, node.procs[pid], node.pageSize, opts)
  {
  }

  /** `accumulate_pid`. */
  method AccumulatePid(node: Node, opts: ScanOptions, pid: int, stats: TreeStats) returns (out: TreeStats)
    ensures out == Add(stats, Contribution(node, opts, pid))
    ensures pid !in node.procs ==> out == stats
    ensures pid in node.procs ==> out.Grown(stats, node.procs[pid], node.pageSize, opts)
  {
    ContributionGrows(stats, node, opts, pid);
    out := stats;
    if pid !in node.procs {
      return;
    }
    var p := node.procs[pid];
    out := out.(
      rssBytes := out.rssBytes + p.rssPages * node.pageSize,
      procCount := out.procCount + 1,
      minorFaults := out.minorFaults + p.minorFaults,
      majorFaults := out.majorFaults + p.majorFaults);
    if p.tasks.Some? {
      out := out.(threadCount := out.threadCount + p.tasks.value);
    }
    if p.fds.Some? {
      // Listing the directory holds one descriptor of its own open.
      out := out.(fdCount := out.fdCount + SatSub(p.fds.value, 1));
    }
    if opts.collectIo && p.io.Some? {
      var io := p.io.value;
      out := out.(
        ioReadBytes := out.ioReadBytes + io.readBytes,
        ioWriteBytes := out.ioWriteBytes + io.writeBytes,
        ioReadOps := out.ioReadOps + io.readOps,
        ioWriteOps := out.ioWriteOps + io.writeOps);
    }
    if opts.collectSwap && p.swap.Some? {
      out := out.(swapBytes := out.swapBytes + p.swap.value);
    }
  }

  // ---------------------------------------------------------------------
  // An explicit list of processes
  // ---------------------------------------------------------------------

  /** What each process adds, as a function of its pid. */
  function Contributions(node: Node, opts: ScanOptions): int -> TreeStats {
    pid => Contribution(node, opts, pid)
  }

  function SumOver(each: int -> TreeStats, pids: seq<int>): TreeStats {
    FoldMap(pids, each, Add, NO_STATS)
  }

  /** `get_stats_for_pids`. */
  method StatsForPids(node: Node, opts: ScanOptions, pids: seq<int>) returns (stats: TreeStats)
    ensures stats == SumOver(Contributions(node, opts), pids)
    ensures AreSums(stats, node, opts, pids)
  {
    stats := NO_STATS;
    ghost var each := Contributions(node, opts);
    for i := 0 to |pids|
      invariant stats == SumOver(each, pids[..i])
    {
      SumOfAppend(each, pids[..i], pids[i]);
      assert pids[..i + 1] == pids[..i] + [pids[i]];
      stats := AccumulatePid(node, opts, pids[i], stats);
    }
    assert pids[..|pids|] == pids;
    TotalsAreSums(node, opts, pids);
  }

  lemma SumOfAppend(each: int -> TreeStats, pids: seq<int>, pid: int)
    ensures SumOver(each, pids + [pid]) == Add(SumOver(each, pids), each(pid))
  {
    FoldAppend(pids, pid, each, Add, NO_STATS);
  }

  lemma AddIsLeftCommutative()
    ensures LeftCommutative(Add)
  {
    forall a, b, c
      ensures Swaps(Add, a, b, c)
    {
    }
  }

  /** The order of a list of processes does not matter. */
  lemma SumOfPermutation(each: int -> TreeStats, a: seq<int>, b: seq<int>)
    requires multiset(a) == multiset(b)
    ensures SumOver(each, a) == SumOver(each, b)
  {
    AddIsLeftCommutative();
    FoldOfPermutation(a, b, each, Add, NO_STATS);
  }

  // ---------------------------------------------------------------------
  // Figure by figure
  // ---------------------------------------------------------------------

  /** A figure summed over the processes of a list that are alive. */
  function LiveSum(node: Node, pids: seq<int>, own: ProcInfo -> nat): nat {
    if pids == [] then 0 else
    var last := pids[|pids| - 1];
    LiveSum(node, pids[..|pids| - 1], own) + (if last in node.procs then own(node.procs[last]) else 0)
  }

  function RssOf(pageSize: nat): ProcInfo -> nat {
    (p: ProcInfo) => PagesInBytes(p.rssPages, pageSize)
  }

  function PagesInBytes(pages: nat, pageSize: nat): nat {
    pages * pageSize
  }

  function OneEach(p: ProcInfo): nat { 1 }
  function TasksOf(p: ProcInfo): nat { p.tasks.GetOr(0) }
  function OthersOpen(p: ProcInfo): nat { if p.fds.Some? && p.fds.value > 0 then p.fds.value - 1 else 0 }
  function MajorOf(p: ProcInfo): nat { p.majorFaults }
  function MinorOf(p: ProcInfo): nat { p.minorFaults }
  function ReadBytesOf(p: ProcInfo): nat { if p.io.Some? then p.io.value.readBytes else 0 }
  function WriteBytesOf(p: ProcInfo): nat { if p.io.Some? then p.io.value.writeBytes else 0 }
  function ReadOpsOf(p: ProcInfo): nat { if p.io.Some? then p.io.value.readOps else 0 }
  function WriteOpsOf(p: ProcInfo): nat { if p.io.Some? then p.io.value.writeOps else 0 }
  function SwapOf(p: ProcInfo): nat { p.swap.GetOr(0) }

  /**
   * Each of the eleven figures is the sum, over the live processes of the list, of what each
   * of them had itself: resident pages in bytes, one, tasks, open files other than the
   * listing's own, both kinds of fault, the I/O figures if asked for, and swap if asked for.
   */
  ghost predicate AreSums(stats: TreeStats, node: Node, opts: ScanOptions, pids: seq<int>) {
    && stats.rssBytes == LiveSum(node, pids, RssOf(node.pageSize))
    && stats.procCount == LiveSum(node, pids, OneEach)
    && stats.threadCount == LiveSum(node, pids, TasksOf)
    && stats.fdCount == LiveSum(node, pids, OthersOpen)
    && stats.majorFaults == LiveSum(node, pids, MajorOf)
    && stats.minorFaults == LiveSum(node, pids, MinorOf)
    && stats.ioReadBytes == (if opts.collectIo then LiveSum(node, pids, ReadBytesOf) else 0)
    && stats.ioWriteBytes == (if opts.collectIo then LiveSum(node, pids, WriteBytesOf) else 0)
    && stats.ioReadOps == (if opts.collectIo then LiveSum(node, pids, ReadOpsOf) else 0)
    && stats.ioWriteOps == (if opts.collectIo then LiveSum(node, pids, WriteOpsOf) else 0)
    && stats.swapBytes == (if opts.collectSwap then LiveSum(node, pids, SwapOf) else 0)
  }

  function OwnIfAlive(node: Node, pid: int, own: ProcInfo -> nat): nat {
    if pid in node.procs then own(node.procs[pid]) else 0
  }

  lemma LiveSumAppend(node: Node, init: seq<int>, last: int, own: ProcInfo -> nat)
    ensures LiveSum(node, init + [last], own) == LiveSum(node, init, own) + OwnIfAlive(node, last, own)
  {
    assert (init + [last])[..|init|] == init;
  }

  lemma SumsAppend(node: Node, init: seq<int>, last: int)
    ensures forall own: ProcInfo -> nat ::
              LiveSum(node, init + [last], own) == LiveSum(node, init, own) + OwnIfAlive(node, last, own)
  {
    forall own: ProcInfo -> nat
      ensures LiveSum(node, init + [last], own) == LiveSum(node, init, own) + OwnIfAlive(node, last, own)
    {
      LiveSumAppend(node, init, last, own);
    }
  }

  lemma DeadAddsNothing(stats: TreeStats, node: Node, opts: ScanOptions, init: seq<int>, last: int)
    requires AreSums(stats, node, opts, init) && last !in node.procs
    ensures AreSums(stats, node, opts, init + [last])
  {
    SumsAppend(node, init, last);
  }

  lemma LiveAddsItsOwn(stats: TreeStats, next: TreeStats, node: Node, opts: ScanOptions, init: seq<int>, last: int)
    requires AreSums(stats, node, opts, init) && last in node.procs
    requires next.Grown(stats, node.procs[last], node.pageSize, opts)
    ensures AreSums(next, node, opts, init + [last])
  {
    SumsAppend(node, init, last);
  }

  lemma {:induction false} TotalsAreSums(node: Node, opts: ScanOptions, pids: seq<int>)
    ensures AreSums(SumOver(Contributions(node, opts), pids), node, opts, pids)
  {
    if pids != [] {
      var init, last := pids[..|pids| - 1], pids[|pids| - 1];
      TotalsAreSums(node, opts, init);
      var before := SumOver(Contributions(node, opts), init);
      SumOfAppend(Contributions(node, opts), init, last);
      ContributionGrows(before, node, opts, last);
      if last in node.procs {
        LiveAddsItsOwn(before, Add(before, Contribution(node, opts, last)), node, opts, init, last);
      } else {
        DeadAddsNothing(before, node, opts, init, last);
      }
      assert pids == init + [last];
    }
  }

  // ---------------------------------------------------------------------
  // The tree walk
  // ---------------------------------------------------------------------

  ghost predicate IsPath(node: Node, path: seq<int>) {
    && path != []
    && (forall i :: 0 <= i < |path| - 1 ==> path[i + 1] in node.ChildrenOf(path[i]))
  }

  ghost predicate Reachable(node: Node, root: int, pid: int) {
    exists path :: IsPath(node, path) && path[0] == root && path[|path| - 1] == pid
  }

  ghost predicate NoRepeats(pids: seq<int>) {
    forall pid :: multiset(pids)[pid] <= 1
  }

  /** A list of exactly the processes reachable from the root, each once. */
  ghost predicate Enumerates(node: Node, root: int, pids: seq<int>) {
    NoRepeats(pids) && forall pid :: pid in pids <==> Reachable(node, root, pid)
  }

  /** Every pid the child relation can ever produce. */
  ghost function Universe(node: Node, root: int): set<int> {
    {root} + set parent, i | parent in node.children && 0 <= i < |node.children[parent]| :: node.children[parent][i]
  }

  lemma ReachStep(node: Node, root: int, pid: int, child: int)
    requires Reachable(node, root, pid) && child in node.ChildrenOf(pid)
    ensures Reachable(node, root, child)
  {
    var path :| IsPath(node, path) && path[0] == root && path[|path| - 1] == pid;
    assert IsPath(node, path + [child]);
  }

  lemma ReachRoot(node: Node, root: int)
    ensures Reachable(node, root, root)
  {
    assert IsPath(node, [root]);
  }

  ghost predicate ClosedUnderChildren(node: Node, pids: set<int>) {
    forall pid, child :: pid in pids && child in node.ChildrenOf(pid) ==> child in pids
  }

  lemma {:induction false} PathStaysInside(node: Node, path: seq<int>, pids: set<int>)
    requires IsPath(node, path) && path[0] in pids && ClosedUnderChildren(node, pids)
    ensures path[|path| - 1] in pids
  {
    if |path| > 1 {
      var init := path[..|path| - 1];
      assert IsPath(node, init);
      PathStaysInside(node, init, pids);
      var k := |path| - 2;
      assert path[k] == init[|init| - 1];
      var parent, child := path[k], path[k + 1];
      assert parent in pids && child in node.ChildrenOf(parent);
      assert child in pids;
    }
  }

  lemma SameEnumeration(a: seq<int>, b: seq<int>)
    requires NoRepeats(a) && NoRepeats(b) && (forall x :: x in a <==> x in b)
    ensures multiset(a) == multiset(b)
  {
    forall x
      ensures multiset(a)[x] == multiset(b)[x]
    {
      assert multiset(a)[x] <= 1 && multiset(b)[x] <= 1;
      assert x in a <==> x in multiset(a);
      assert x in b <==> x in multiset(b);
    }
  }

  /** One process's children join the queue unless they were seen before. */
  method Enqueue(node: Node, pid: int, visited: set<int>, queue: seq<int>)
    returns (visited': set<int>, queue': seq<int>)
    ensures visited' == visited + set c | c in node.ChildrenOf(pid)
    ensures queue <= queue' && NoRepeats(queue'[|queue|..])
    ensures forall c :: c in queue'[|queue|..] <==> c in node.ChildrenOf(pid) && c !in visited
  {
    var children := node.ChildrenOf(pid);
    visited', queue' := visited, queue;
    ghost var added: seq<int> := [];
    for i := 0 to |children|
      invariant visited' == visited + set c | c in children[..i]
      invariant queue' == queue + added && NoRepeats(added)
      invariant forall c :: c in added <==> c in children[..i] && c !in visited
    {
      assert children[..i + 1] == children[..i] + [children[i]];
      if children[i] !in visited' {
        visited' := visited' + {children[i]};
        queue' := queue' + [children[i]];
        added := added + [children[i]];
      }
    }
    assert children[..|children|] == children;
    assert queue'[|queue|..] == added;
  }

  lemma NoRepeatsConcat(a: seq<int>, b: seq<int>)
    ensures NoRepeats(a + b) <==> NoRepeats(a) && NoRepeats(b) && (forall x :: x in a ==> x !in b)
  {
    var m, n, all := multiset(a), multiset(b), multiset(a + b);
    assert all == m + n;
    assert forall x :: x in a <==> x in m;
    assert forall x :: x in b <==> x in n;
    if NoRepeats(a + b) {
      forall x
        ensures m[x] <= 1 && n[x] <= 1 && (x in a ==> x !in b)
      {
        assert all[x] <= 1;
      }
    }
    if NoRepeats(a) && NoRepeats(b) && (forall x :: x in a ==> x !in b) {
      forall x
        ensures all[x] <= 1
      {
        assert m[x] <= 1 && n[x] <= 1;
      }
    }
  }

  lemma ChildInUniverse(node: Node, root: int, pid: int, child: int)
    requires child in node.ChildrenOf(pid)
    ensures child in Universe(node, root)
  {
    assert pid in node.children;
    var i :| 0 <= i < |node.children[pid]| && node.children[pid][i] == child;
  }

  lemma ChildrenAreReachable(node: Node, root: int, pid: int)
    requires Reachable(node, root, pid)
    ensures forall c :: c in node.ChildrenOf(pid) ==> Reachable(node, root, c) && c in Universe(node, root)
  {
    forall c | c in node.ChildrenOf(pid)
      ensures Reachable(node, root, c) && c in Universe(node, root)
    {
      ReachStep(node, root, pid, c);
      ChildInUniverse(node, root, pid, c);
    }
  }

  lemma DequeueKeeps(order: seq<int>, queue: seq<int>)
    requires queue != [] && NoRepeats(order + queue)
    ensures NoRepeats(order + [queue[0]] + queue[1..]) && queue[0] !in order && queue[0] !in queue[1..]
  {
    var head, rest := [queue[0]], queue[1..];
    assert order + queue == order + head + rest;
    NoRepeatsConcat(order + head, rest);
    NoRepeatsConcat(order, head);
    var x := queue[0];
    assert x in head && x in order + head;
    assert x in order ==> x !in head;
    assert x in order + head ==> x !in rest;
  }

  lemma EnqueueKeeps(order: seq<int>, before: seq<int>, queue: seq<int>)
    requires before <= queue && NoRepeats(order + before) && NoRepeats(queue[|before|..])
    requires forall c :: c in queue[|before|..] ==> c !in order && c !in before
    ensures NoRepeats(order + queue)
    ensures forall c :: c in queue <==> c in before || c in queue[|before|..]
  {
    var added := queue[|before|..];
    assert queue == before + added;
    assert order + queue == order + before + added;
    NoRepeatsConcat(order + before, added);
  }

  /**
   * `get_process_tree_stats_extended`: terminates on every finite child relation, cycles
   * and repeated children included, and gives the totals of the processes reachable from
   * the root, each counted exactly once, in whatever order they are listed.
   */
  method TreeStatsFrom(node: Node, opts: ScanOptions, root: int) returns (stats: TreeStats)
    ensures exists pids :: Enumerates(node, root, pids)
    ensures forall pids :: Enumerates(node, root, pids) ==>
              stats == SumOver(Contributions(node, opts), pids) && AreSums(stats, node, opts, pids)
  {
    var visited, queue := {root}, [root];
    stats := NO_STATS;
    ghost var each := Contributions(node, opts);
    ghost var order: seq<int> := [];
    ghost var waiting := Universe(node, root);
    ReachRoot(node, root);
    while queue != []
      invariant stats == SumOver(each, order)
      invariant NoRepeats(order + queue)
      invariant forall pid :: pid in visited <==> pid in order || pid in queue
      invariant forall pid :: pid in visited ==> Reachable(node, root, pid)
      invariant forall pid, child :: pid in order && child in node.ChildrenOf(pid) ==> child in visited
      invariant root in visited
      invariant forall pid :: pid in queue ==> pid in waiting
      invariant forall pid :: pid in waiting <==> pid in Universe(node, root) && pid !in order
      decreases waiting
    {
      var pid := queue[0];
      DequeueKeeps(order, queue);
      queue := queue[1..];
      waiting := waiting - {pid};
      SumOfAppend(each, order, pid);
      order := order + [pid];
      stats := AccumulatePid(node, opts, pid, stats);
      ghost var queued := queue;
      visited, queue := Enqueue(node, pid, visited, queue);
      EnqueueKeeps(order, queued, queue);
      ChildrenAreReachable(node, root, pid);
    }
    assert order + queue == order;
    ClosedWalkEnumerates(node, root, order, visited);
    EnumerationsAddUp(node, root, order, each);
    forall pids | Enumerates(node, root, pids)
      ensures AreSums(stats, node, opts, pids)
    {
      TotalsAreSums(node, opts, pids);
    }
  }

  /** A walk that has nothing left to visit has listed exactly the reachable processes. */
  lemma ClosedWalkEnumerates(node: Node, root: int, order: seq<int>, visited: set<int>)
    requires NoRepeats(order) && root in visited && ClosedUnderChildren(node, visited)
    requires forall pid :: pid in visited <==> pid in order
    requires forall pid :: pid in visited ==> Reachable(node, root, pid)
    ensures Enumerates(node, root, order)
  {
    forall pid | Reachable(node, root, pid)
      ensures pid in order
    {
      var path :| IsPath(node, path) && path[0] == root && path[|path| - 1] == pid;
      PathStaysInside(node, path, visited);
    }
  }

  lemma EnumerationsAddUp(node: Node, root: int, order: seq<int>, each: int -> TreeStats)
    requires Enumerates(node, root, order)
    ensures forall pids :: Enumerates(node, root, pids) ==> SumOver(each, pids) == SumOver(each, order)
  {
    forall pids | Enumerates(node, root, pids)
      ensures SumOver(each, pids) == SumOver(each, order)
    {
      SameEnumeration(order, pids);
      SumOfPermutation(each, order, pids);
    }
  }
}
