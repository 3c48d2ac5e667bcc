/**
 * A whole job: any number of loggers, the head node, and the shared directory, stepping in
 * any interleaving (`logger.rs`, `logger-rs.sh`).
 */
module World {
  import opened Prelude
  import opened Summary
  import opened NodeProtocol
  import opened NodeSafety

  // ---------------------------------------------------------------------
  // States and steps
  // ---------------------------------------------------------------------

  /** The exit-status file; a shell redirection creates it empty before anything is written. */
  datatype StatusFile = NoFile | EmptyFile | HoldsCode(code: int)

  /**
   * The head node's progress through `telemetry_start` and `telemetry_stop`: it clears the
   * status file before starting any logger, records the status once, and removes the file at the end.
   */
  datatype Head = Starting | Measuring | Opened(code: int) | WrittenOut(code: int) | GaveUp | Cleaned

  datatype World = World(nodes: seq<NodeState>, status: StatusFile, head: Head, recorded: Option<int>)

  datatype Step =
    | NodeStep(i: nat, action: Action)
    | ClearStatus
    | OpenStatus(code: int)
    | WriteStatus
    | FailToRecord
    | RemoveStatus

  function ViewOf(status: StatusFile): StatusView {
    match status
    case NoFile => Absent
    case EmptyFile => Unparsable
    case HoldsCode(code) => Recorded(code)
  }

  /** A logger reads what the file holds at that moment, if it was told about the file at all. */
  predicate SeesFile(status: StatusFile, a: Action) {
    match a
    case End(view) => view == ViewOf(status) || view == NotConfigured
    case BeginFinal(_, view) => view == ViewOf(status) || view == NotConfigured
    case _ => true
  }

  predicate Possible(w: World, s: Step) {
    match s
    case NodeStep(i, a) =>
      && i < |w.nodes| && Enabled(w.nodes[i], a) && SeesFile(w.status, a)
      && (a.Launch? ==> !w.head.Starting?)
    case ClearStatus => w.head.Starting?
    case OpenStatus(_) => w.head.Measuring?
    case WriteStatus => w.head.Opened?
    case FailToRecord => w.head.Measuring? || w.head.Opened?
    case RemoveStatus => w.head.WrittenOut? || w.head.GaveUp?
  }

  function After(w: World, s: Step): World
    requires Possible(w, s)
  {
    match s
    case NodeStep(i, a) => w.(nodes := w.nodes[i := Next(w.nodes[i], a)])
    case ClearStatus => w.(status := NoFile, head := Measuring)
    case OpenStatus(code) => w.(status := EmptyFile, head := Opened(code))
    case WriteStatus => w.(status := HoldsCode(w.head.code), head := WrittenOut(w.head.code), recorded := Some(w.head.code))
    case FailToRecord => w.(head := GaveUp)
    case RemoveStatus => w.(status := NoFile, head := Cleaned)
  }

  /** Before the job: no logger runs, no summary exists, and the status file may be a leftover. */
  function Begin(infos: seq<NodeInfo>, leftover: StatusFile): World {
    World(seq(|infos|, i requires 0 <= i < |infos| => Fresh(infos[i])), leftover, Starting, None)
  }

  function Run(w: World, steps: seq<Step>): Option<World> {
    if steps == [] then Some(w) else
    match Run(w, steps[..|steps| - 1])
    case None => None
    case Some(v) => if Possible(v, steps[|steps| - 1]) then Some(After(v, steps[|steps| - 1])) else None
  }

  // ---------------------------------------------------------------------
  // What every step keeps
  // ---------------------------------------------------------------------

  /** A status that a logger may hold: unknown, or the one the head node recorded. */
  predicate Honest(outcome: Outcome, recorded: Option<int>) {
    outcome.status.None? || outcome.status == recorded
  }

  ghost predicate NodesSound(infos: seq<NodeInfo>, w: World) {
    && |w.nodes| == |infos|
    && (forall i :: 0 <= i < |infos| ==> Inv(infos[i], w.nodes[i]))
    && (forall i :: 0 <= i < |infos| ==> Honest(w.nodes[i].summary.outcome, w.recorded))
  }

  predicate StatusSound(w: World) {
    match w.head
    case Starting => w.recorded.None?
    case Measuring => w.status.NoFile? && w.recorded.None?
    case Opened(_) => w.status.EmptyFile? && w.recorded.None?
    case WrittenOut(code) => w.status == HoldsCode(code) && w.recorded == Some(code)
    case GaveUp => !w.status.HoldsCode? && w.recorded.None?
    case Cleaned => w.status.NoFile?
  }

  ghost predicate WorldInv(infos: seq<NodeInfo>, w: World) {
    && NodesSound(infos, w)
    && StatusSound(w)
    && (w.head.Starting? ==> forall i :: 0 <= i < |w.nodes| ==> w.nodes[i].phase.Waiting? || w.nodes[i].phase.Dead?)
  }

  /** What a logger's step can put into its outcome. */
  lemma StepStaysHonest(n: NodeState, a: Action, status: StatusFile, recorded: Option<int>)
    requires Enabled(n, a) && SeesFile(status, a) && Honest(n.summary.outcome, recorded)
    requires status.HoldsCode? && (a.End? || a.BeginFinal?) ==> recorded == Some(status.code)
    ensures Honest(Next(n, a).summary.outcome, recorded)
  {
  }

  /** While the head node has not cleared the old status file, no logger is there to read it. */
  lemma StartingNodesAreIdle(n: NodeState, a: Action)
    requires (n.phase.Waiting? || n.phase.Dead?) && Enabled(n, a) && !a.Launch?
    ensures Next(n, a).phase.Dead? && !a.End? && !a.BeginFinal?
  {
  }

  lemma WorldStepKeepsInv(infos: seq<NodeInfo>, w: World, s: Step)
    requires WorldInv(infos, w) && Possible(w, s)
    ensures WorldInv(infos, After(w, s))
  {
    if s.NodeStep? {
      var n, a := w.nodes[s.i], s.action;
      StepKeepsInv(infos[s.i], n, a);
      if w.head.Starting? {
        StartingNodesAreIdle(n, a);
      }
      StepStaysHonest(n, a, w.status, w.recorded);
      var v := After(w, s);
      forall i | 0 <= i < |infos|
        ensures Inv(infos[i], v.nodes[i]) && Honest(v.nodes[i].summary.outcome, v.recorded)
      {
        assert i != s.i ==> v.nodes[i] == w.nodes[i];
      }
    }
  }

  lemma BeginIsSound(infos: seq<NodeInfo>, leftover: StatusFile)
    ensures WorldInv(infos, Begin(infos, leftover))
  {
    forall i | 0 <= i < |infos|
      ensures Inv(infos[i], Begin(infos, leftover).nodes[i])
    {
      InvInitially(infos[i]);
    }
  }

  lemma {:induction false} RunKeepsInv(infos: seq<NodeInfo>, leftover: StatusFile, steps: seq<Step>)
    ensures Run(Begin(infos, leftover), steps).Some? ==> WorldInv(infos, Run(Begin(infos, leftover), steps).value)
  {
    if steps == [] {
      BeginIsSound(infos, leftover);
    } else {
      RunKeepsInv(infos, leftover, steps[..|steps| - 1]);
      if Run(Begin(infos, leftover), steps).Some? {
        WorldStepKeepsInv(infos, Run(Begin(infos, leftover), steps[..|steps| - 1]).value, steps[|steps| - 1]);
      }
    }
  }

  // ---------------------------------------------------------------------
  // What a merge finds
  // ---------------------------------------------------------------------

  /** The document under a node's published name, if there is a readable one. */
  function Published(n: NodeState): Option<TelemetrySummary> {
    match n.files.summary
    case Some(Stored(Whole(d), _)) => Some(d)
    case _ => None
  }

  /** The documents a merge reads at this moment, node by node; missing and torn files are skipped. */
  function DocsOf(nodes: seq<NodeState>): seq<TelemetrySummary> {
    if nodes == [] then [] else
    DocsOf(nodes[..|nodes| - 1])
    + (match Published(nodes[|nodes| - 1]) case None => [] case Some(d) => [d])
  }

  /** Over any run of any number of loggers, killed whenever, every published file is sound. */
  lemma EveryPublishedSummaryIsSound(infos: seq<NodeInfo>, leftover: StatusFile, steps: seq<Step>, i: nat)
    requires Run(Begin(infos, leftover), steps).Some?
    requires i < |infos| && i < |Run(Begin(infos, leftover), steps).value.nodes|
    ensures var n := Run(Begin(infos, leftover), steps).value.nodes[i];
            n.files.summary.Some? ==>
              && Published(n).Some?
              && var d := Published(n).value;
                 || (d.partial && exists k :: 0 <= k <= |n.seen| && d == PartialDoc(infos[i], n.seen[..k], NowOf(d.derived)))
                 || (!d.partial && d == FinalDoc(infos[i], n.seen, NowOf(d.derived), d.outcome))
  {
    RunKeepsInv(infos, leftover, steps);
    var n := Run(Begin(infos, leftover), steps).value.nodes[i];
    assert Inv(infos[i], n);
  }

  /**
   * Success, or failure, is never invented: whatever was lying about before the job, and
   * however loggers and head node interleave, a published summary's exit status is unknown
   * or the very status the head node recorded, and a checkpoint's is always unknown.
   */
  lemma StatusIsNeverInvented(infos: seq<NodeInfo>, leftover: StatusFile, steps: seq<Step>, i: nat)
    requires Run(Begin(infos, leftover), steps).Some?
    requires i < |infos| && i < |Run(Begin(infos, leftover), steps).value.nodes|
    ensures var w := Run(Begin(infos, leftover), steps).value;
            Published(w.nodes[i]).Some? ==>
              var d := Published(w.nodes[i]).value;
              Honest(d.outcome, w.recorded) && (d.partial ==> d.outcome == UNKNOWN)
  {
    RunKeepsInv(infos, leftover, steps);
    var w := Run(Begin(infos, leftover), steps).value;
    assert Inv(infos[i], w.nodes[i]) && Honest(w.nodes[i].summary.outcome, w.recorded);
  }

  // ---------------------------------------------------------------------
  // Two moments of one run
  // ---------------------------------------------------------------------

  ghost predicate WorldLe(v: World, w: World) {
    |v.nodes| == |w.nodes| && forall i :: 0 <= i < |v.nodes| ==> PublishedLe(v.nodes[i], w.nodes[i])
  }

  ghost predicate IntervalsValid(infos: seq<NodeInfo>) {
    forall i :: 0 <= i < |infos| ==> infos[i].interval >= 0.0
  }

  lemma WorldStepGrows(infos: seq<NodeInfo>, w: World, s: Step)
    requires WorldInv(infos, w) && Possible(w, s) && IntervalsValid(infos)
    ensures WorldLe(w, After(w, s))
  {
    forall i | 0 <= i < |w.nodes|
      ensures PublishedLe(w.nodes[i], After(w, s).nodes[i])
    {
      if s.NodeStep? && s.i == i {
        StepGrowsPublished(infos[i], w.nodes[i], s.action);
      } else {
        assert Inv(infos[i], w.nodes[i]);
        SameFileGrows(infos[i], w.nodes[i], w.nodes[i]);
      }
    }
  }

  lemma RunSplits(w: World, steps: seq<Step>, s: Step)
    ensures Run(w, steps + [s]) ==
            (match Run(w, steps)
             case None => None
             case Some(v) => if Possible(v, s) then Some(After(v, s)) else None)
  {
    assert (steps + [s])[..|steps|] == steps;
  }

  lemma WorldLeIsTransitive(u: World, v: World, w: World)
    requires WorldLe(u, v) && WorldLe(v, w)
    ensures WorldLe(u, w)
  {
    forall i | 0 <= i < |u.nodes|
      ensures PublishedLe(u.nodes[i], w.nodes[i])
    {
      PublishedLeIsTransitive(u.nodes[i], v.nodes[i], w.nodes[i]);
    }
  }

  /**
   * As a run goes on, every published summary stays published, only ever grows, and once it
   * is final never changes again.
   */
  lemma {:induction false} PublishedOnlyGrows(infos: seq<NodeInfo>, leftover: StatusFile, steps: seq<Step>, more: seq<Step>)
    requires IntervalsValid(infos) && Run(Begin(infos, leftover), steps + more).Some?
    ensures Run(Begin(infos, leftover), steps).Some?
    ensures WorldLe(Run(Begin(infos, leftover), steps).value, Run(Begin(infos, leftover), steps + more).value)
    decreases |more|
  {
    var start := Begin(infos, leftover);
    if more == [] {
      assert steps + more == steps;
      RunKeepsInv(infos, leftover, steps);
      var w := Run(start, steps).value;
      forall i | 0 <= i < |w.nodes|
        ensures PublishedLe(w.nodes[i], w.nodes[i])
      {
        assert Inv(infos[i], w.nodes[i]);
        SameFileGrows(infos[i], w.nodes[i], w.nodes[i]);
      }
    } else {
      var init, last := more[..|more| - 1], more[|more| - 1];
      assert steps + more == steps + init + [last];
      RunSplits(start, steps + init, last);
      PublishedOnlyGrows(infos, leftover, steps, init);
      RunKeepsInv(infos, leftover, steps + init);
      var v := Run(start, steps + init).value;
      WorldStepGrows(infos, v, last);
      WorldLeIsTransitive(Run(start, steps).value, v, After(v, last));
    }
  }
}
