/** What every step of a logger keeps: the published summary is always absent, a sound checkpoint, or final. */
module NodeSafety {
  import opened Prelude
  import opened Process
  import opened Summary
  import opened Totals
  import opened ExitReason
  import opened NodeProtocol

  /** A checkpoint of a prefix of the samples, or the document of the whole finished run. */
  ghost predicate DocSound(info: NodeInfo, seen: seq<TelemetrySample>, clock: real, d: TelemetrySummary) {
    var k, now := d.derived.samples, NowOf(d.derived);
    && k <= |seen|
    && 0.0 <= now.elapsed <= clock
    && (if d.partial then d == PartialDoc(info, seen[..k], now)
        else d == FinalDoc(info, seen, now, d.outcome) && !Undecided(d.outcome))
  }

  /** What lies under the published name: nothing, or a whole document already safe on disk. */
  ghost predicate PublishedSound(info: NodeInfo, n: NodeState) {
    match n.files.summary
    case None => !n.summaryWritten
    case Some(file) =>
      && file.durable
      && file.content.Whole?
      && DocSound(info, n.seen, n.clock, file.content.doc)
      && (n.summaryWritten <==> !file.content.doc.partial)
      && (n.summaryWritten ==> file.content.doc == n.summary && (n.phase.Stopped? || n.phase.Dead?))
  }

  /** The document being written is the one in memory, complete and current. */
  ghost predicate DocReady(
    info: NodeInfo, seen: seq<TelemetrySample>, clock: real, doc: TelemetrySummary, purpose: Purpose)
  {
    && doc.derived.samples == |seen|
    && doc.derived.durationSec == clock
    && (if purpose.Checkpoint? then doc == PartialDoc(info, seen, NowOf(doc.derived))
        else doc == FinalDoc(info, seen, NowOf(doc.derived), doc.outcome) && !Undecided(doc.outcome))
  }

  ghost predicate TmpSound(tmp: Option<Stored>, doc: TelemetrySummary, stage: Stage) {
    match stage
    case Create => true
    case Write => tmp.Some?
    case Sync => tmp.Some? && tmp.value.content == Whole(doc)
    case Rename => tmp == Some(Stored(Whole(doc), true))
  }

  ghost predicate PhaseSound(info: NodeInfo, n: NodeState) {
    match n.phase
    case Waiting => n == Fresh(info)
    case Sampling => n.summary.outcome == UNKNOWN && !n.summaryWritten
    case Ending => !Undecided(n.summary.outcome) && !n.summaryWritten
    case Dropping => (n.summary.outcome == UNKNOWN || !Undecided(n.summary.outcome)) && !n.summaryWritten
    case Publishing(purpose, stage) =>
      && DocReady(info, n.seen, n.clock, n.summary, purpose)
      && TmpSound(n.files.tmp, n.summary, stage)
      && !n.summaryWritten
    case Stopped => true
    case Dead => true
  }

  ghost predicate Inv(info: NodeInfo, n: NodeState) {
    && n.summary.info == info
    && n.summary.acc == Fold(n.seen, info.interval)
    && n.samples == |n.seen|
    && (forall i :: 0 <= i < |n.seen| ==> NonNegative(n.seen[i]))
    && 0.0 <= n.clock
    && LeftFrom(n.summary.derived, info, n.seen, n.clock)
    && PhaseSound(info, n)
    && PublishedSound(info, n)
  }

  lemma InvInitially(info: NodeInfo)
    ensures Inv(info, Fresh(info))
  {
    NothingIsLeftFromTheStart(info);
  }

  /** Samples taken later do not disturb what was derived or published before. */
  lemma LaterSamplesLeaveDocs(info: NodeInfo, n: NodeState, m: NodeState, sample: TelemetrySample, d: TelemetrySummary)
    requires m.seen == n.seen + [sample] && m.clock == n.clock
    requires DocSound(info, n.seen, n.clock, d) && d.partial
    ensures DocSound(info, m.seen, m.clock, d)
  {
    assert m.seen[..d.derived.samples] == n.seen[..d.derived.samples];
  }

  lemma LaterSamplesLeaveDerived(info: NodeInfo, seen: seq<TelemetrySample>, sample: TelemetrySample, d: Derived, clock: real)
    requires LeftFrom(d, info, seen, clock)
    ensures LeftFrom(d, info, seen + [sample], clock)
  {
    assert (seen + [sample])[..d.samples] == seen[..d.samples];
  }

  lemma AcceptKeepsPublished(info: NodeInfo, n: NodeState, sample: TelemetrySample)
    requires PublishedSound(info, n) && !n.summaryWritten && Enabled(n, Accept(sample))
    ensures PublishedSound(info, Next(n, Accept(sample)))
  {
    if n.files.summary.Some? {
      LaterSamplesLeaveDocs(info, n, Next(n, Accept(sample)), sample, n.files.summary.value.content.doc);
    }
  }

  lemma AcceptKeepsInv(info: NodeInfo, n: NodeState, sample: TelemetrySample)
    requires Inv(info, n) && Enabled(n, Accept(sample))
    ensures Inv(info, Next(n, Accept(sample)))
  {
    FoldStep(n.seen, sample, info.interval);
    LaterSamplesLeaveDerived(info, n.seen, sample, n.summary.derived, n.clock);
    AcceptKeepsPublished(info, n, sample);
  }

  lemma PreparedIsCurrent(info: NodeInfo, n: NodeState, now: Now, partial: bool)
    requires Inv(info, n) && n.clock <= now.elapsed
    ensures var m := Prepared(n, now, partial);
            && m.summary.derived == DerivedOf(info, Fold(n.seen, info.interval), |n.seen|, now)
            && NowOf(m.summary.derived) == now
            && LeftFrom(m.summary.derived, info, n.seen, now.elapsed)
  {
    RecomputeForgets(n.summary.derived, info, n.seen, n.summary.acc, n.samples, now);
    assert n.seen[..|n.seen|] == n.seen;
  }

  lemma CheckpointKeepsInv(info: NodeInfo, n: NodeState, now: Now)
    requires Inv(info, n) && Enabled(n, BeginCheckpoint(now))
    ensures Inv(info, Next(n, BeginCheckpoint(now)))
  {
    PreparedIsCurrent(info, n, now, true);
  }

  lemma FinalKeepsInv(info: NodeInfo, n: NodeState, now: Now, view: StatusView)
    requires Inv(info, n) && Enabled(n, BeginFinal(now, view))
    ensures Inv(info, Next(n, BeginFinal(now, view)))
  {
    PreparedIsCurrent(info, n, now, false);
    ReadingDecides(view);
  }

  /** Moving on without touching anything else keeps the invariant when the new phase asks for nothing new. */
  lemma PhaseChangeKeepsInv(info: NodeInfo, n: NodeState, phase: Phase)
    requires Inv(info, n) && !n.summaryWritten && PhaseSound(info, n.(phase := phase))
    ensures Inv(info, n.(phase := phase))
  {
  }

  /** A failed call leaves the published file alone and the logger where it can go on. */
  lemma FailedFileKeepsInv(info: NodeInfo, n: NodeState)
    requires Inv(info, n) && Enabled(n, File(false))
    ensures Inv(info, Next(n, File(false)))
  {
    assert DocReady(info, n.seen, n.clock, n.summary, n.phase.purpose);
    PhaseChangeKeepsInv(info, n, AfterWrite(n.phase.purpose, false));
  }

  /** A step that touches only the temporary file, and leaves it as the next stage needs it. */
  lemma TmpChangeKeepsInv(info: NodeInfo, n: NodeState, purpose: Purpose, stage: Stage, tmp: Option<Stored>)
    requires Inv(info, n) && n.phase.Publishing? && n.phase.purpose == purpose
    requires TmpSound(tmp, n.summary, stage)
    ensures Inv(info, n.(phase := Publishing(purpose, stage), files := n.files.(tmp := tmp)))
  {
    assert !n.summaryWritten;
  }

  lemma TmpStepKeepsInv(info: NodeInfo, n: NodeState)
    requires Inv(info, n) && Enabled(n, File(true)) && !n.phase.stage.Rename?
    ensures Inv(info, Next(n, File(true)))
  {
    var m := Next(n, File(true));
    var Publishing(purpose, stage) := n.phase;
    assert TmpSound(n.files.tmp, n.summary, stage);
    TmpChangeKeepsInv(info, n, purpose, m.phase.stage, m.files.tmp);
  }

  /** The rename puts a whole and durable document under the published name. */
  lemma RenameKeepsInv(info: NodeInfo, n: NodeState)
    requires Inv(info, n) && Enabled(n, File(true)) && n.phase.stage.Rename?
    ensures Inv(info, Next(n, File(true)))
  {
    assert n.seen[..|n.seen|] == n.seen;
    var m := Next(n, File(true));
    assert m.files.summary == Some(Stored(Whole(n.summary), true));
    assert DocSound(info, m.seen, m.clock, n.summary);
  }

  lemma FileKeepsInv(info: NodeInfo, n: NodeState, ok: bool)
    requires Inv(info, n) && Enabled(n, File(ok))
    ensures Inv(info, Next(n, File(ok)))
  {
    if !ok {
      FailedFileKeepsInv(info, n);
    } else if n.phase.stage.Rename? {
      RenameKeepsInv(info, n);
    } else {
      TmpStepKeepsInv(info, n);
    }
  }

  lemma LaunchKeepsInv(info: NodeInfo, n: NodeState)
    requires Inv(info, n) && Enabled(n, Launch)
    ensures Inv(info, Next(n, Launch))
  {
    PhaseChangeKeepsInv(info, n, Sampling);
  }

  lemma EndKeepsInv(info: NodeInfo, n: NodeState, view: StatusView)
    requires Inv(info, n) && Enabled(n, End(view))
    ensures Inv(info, Next(n, End(view)))
  {
    ReadingDecides(view);
  }

  lemma DeathKeepsInv(info: NodeInfo, n: NodeState, tmp: Option<Stored>)
    requires Inv(info, n)
    ensures Inv(info, n.(phase := Dead, files := n.files.(tmp := tmp)))
  {
  }

  lemma PublishedIsDurable(info: NodeInfo, n: NodeState)
    requires PublishedSound(info, n)
    ensures AfterPowerLoss(n.files.summary) == n.files.summary
  {
  }

  /** Every step keeps the invariant, the kill and the power loss included. */
  lemma StepKeepsInv(info: NodeInfo, n: NodeState, a: Action)
    requires Inv(info, n) && Enabled(n, a)
    ensures Inv(info, Next(n, a))
  {
    match a
    case Launch => LaunchKeepsInv(info, n);
    case Accept(sample) => AcceptKeepsInv(info, n, sample);
    case BeginCheckpoint(now) => CheckpointKeepsInv(info, n, now);
    case File(ok) => FileKeepsInv(info, n, ok);
    case End(view) => EndKeepsInv(info, n, view);
    case Abort => PhaseChangeKeepsInv(info, n, Dropping);
    case BeginFinal(now, view) => FinalKeepsInv(info, n, now, view);
    case Kill => DeathKeepsInv(info, n, n.files.tmp);
    case PowerLoss =>
      // What is published is durable, so losing power changes no more than a kill does.
      PublishedIsDurable(info, n);
      DeathKeepsInv(info, n, AfterPowerLoss(n.files.tmp));
  }

  /** Hence it holds after every possible list of steps. */
  lemma {:induction false} InvAlways(info: NodeInfo, actions: seq<Action>)
    ensures Replay(Fresh(info), actions).Some? ==> Inv(info, Replay(Fresh(info), actions).value)
  {
    if actions == [] {
      InvInitially(info);
    } else {
      var init, last := actions[..|actions| - 1], actions[|actions| - 1];
      InvAlways(info, init);
      if Replay(Fresh(info), actions).Some? {
        StepKeepsInv(info, Replay(Fresh(info), init).value, last);
      }
    }
  }

  /**
   * After any steps whatever, a kill between any two of them included, the node's
   * published summary is absent, or a whole checkpoint marked partial that equals the
   * accumulators folded over a prefix of the accepted samples, or the whole run's
   * document marked complete.
   */
  lemma PublishedIsAlwaysSound(info: NodeInfo, actions: seq<Action>)
    requires Replay(Fresh(info), actions).Some?
    ensures var n := Replay(Fresh(info), actions).value;
            n.files.summary.Some? ==>
              && n.files.summary.value.content.Whole?
              && var d := n.files.summary.value.content.doc;
                 || (d.partial && exists k :: 0 <= k <= |n.seen| && d == PartialDoc(info, n.seen[..k], NowOf(d.derived)))
                 || (!d.partial && d == FinalDoc(info, n.seen, NowOf(d.derived), d.outcome))
  {
    InvAlways(info, actions);
  }

  // ---------------------------------------------------------------------
  // How the published document may change
  // ---------------------------------------------------------------------

  /** Everything the merge takes from the earlier document is a lower bound for the later one. */
  ghost predicate DocLe(a: TelemetrySummary, b: TelemetrySummary) {
    && a.info == b.info
    && AccLe(a.acc, b.acc)
    && a.derived.samples <= b.derived.samples
    && a.derived.durationSec <= b.derived.durationSec
  }

  ghost predicate PublishedLe(n: NodeState, m: NodeState) {
    n.files.summary.Some? && n.files.summary.value.content.Whole? ==>
      && m.files.summary.Some?
      && m.files.summary.value.content.Whole?
      && DocLe(n.files.summary.value.content.doc, m.files.summary.value.content.doc)
      && (!n.files.summary.value.content.doc.partial ==>
            m.files.summary.value.content.doc == n.files.summary.value.content.doc)
  }

  lemma AccLeReflexive(a: Accumulators)
    ensures AccLe(a, a)
  {
    MaxWithIsLeastUpperBound(a.peaks, a.peaks, a.peaks);
  }

  lemma SameFileGrows(info: NodeInfo, n: NodeState, m: NodeState)
    requires Inv(info, n) && m.files.summary == n.files.summary
    ensures PublishedLe(n, m)
  {
    if n.files.summary.Some? {
      AccLeReflexive(n.files.summary.value.content.doc.acc);
    }
  }

  /** A document in the making is at least as far along as the checkpoint it will replace. */
  lemma ReadyDocCovers(info: NodeInfo, n: NodeState, d: TelemetrySummary)
    requires Inv(info, n) && info.interval >= 0.0 && n.phase.Publishing?
    requires DocSound(info, n.seen, n.clock, d) && d.partial
    ensures DocLe(d, n.summary)
  {
    PrefixIsLowerBound(n.seen, d.derived.samples, info.interval);
  }

  lemma RenameGrowsPublished(info: NodeInfo, n: NodeState)
    requires Inv(info, n) && info.interval >= 0.0
    requires n.phase.Publishing? && n.phase.stage.Rename?
    ensures PublishedLe(n, FileStep(n, true))
  {
    assert n.files.tmp == Some(Stored(Whole(n.summary), true));
    if n.files.summary.Some? {
      ReadyDocCovers(info, n, n.files.summary.value.content.doc);
    }
  }

  /** A document is only ever replaced by one at least as far along, and a final one never. */
  lemma StepGrowsPublished(info: NodeInfo, n: NodeState, a: Action)
    requires Inv(info, n) && Enabled(n, a) && info.interval >= 0.0
    ensures PublishedLe(n, Next(n, a))
  {
    if a == File(true) && n.phase.stage.Rename? {
      RenameGrowsPublished(info, n);
    } else {
      assert Next(n, a).files.summary == n.files.summary;
      SameFileGrows(info, n, Next(n, a));
    }
  }

  lemma PublishedLeIsTransitive(a: NodeState, b: NodeState, c: NodeState)
    requires PublishedLe(a, b) && PublishedLe(b, c)
    ensures PublishedLe(a, c)
  {
    if a.files.summary.Some? && a.files.summary.value.content.Whole? {
      AccLeIsTransitive(a.files.summary.value.content.doc.acc, b.files.summary.value.content.doc.acc,
                        c.files.summary.value.content.doc.acc);
    }
  }

  // ---------------------------------------------------------------------
  // Checkpoints do not disturb the result
  // ---------------------------------------------------------------------

  /** The steps that belong to checkpoints, judged by where they were taken. */
  predicate IsCheckpointStep(n: NodeState, a: Action) {
    a.BeginCheckpoint? || (a.File? && n.phase.Publishing? && n.phase.purpose.Checkpoint?)
  }

  /** The same run with checkpointing disabled. */
  function WithoutCheckpoints(n: NodeState, actions: seq<Action>): seq<Action> {
    if actions == [] then [] else
    var init, last := actions[..|actions| - 1], actions[|actions| - 1];
    var before := Replay(n, init);
    WithoutCheckpoints(n, init) + (if before.Some? && IsCheckpointStep(before.value, last) then [] else [last])
  }

  /** A phase as it looks to someone who does not know about checkpoints. */
  function Visible(phase: Phase): Phase {
    if phase.Publishing? && phase.purpose.Checkpoint? then Sampling else phase
  }

  /** A state with checkpoints and one without them, at the same point of the same run. */
  ghost predicate SameRun(n: NodeState, m: NodeState) {
    && m.phase == Visible(n.phase)
    && m.seen == n.seen && m.samples == n.samples && m.summaryWritten == n.summaryWritten
    && m.summary.outcome == n.summary.outcome
    && m.clock <= n.clock
    && (n.phase.Publishing? && !n.phase.purpose.Checkpoint? ==>
          m.summary == n.summary && (!n.phase.stage.Create? ==> m.files.tmp == n.files.tmp))
    && (n.summaryWritten ==> m.files.summary == n.files.summary && m.summary == n.summary)
  }

  lemma FinalKeepsSameRun(info: NodeInfo, n: NodeState, m: NodeState, now: Now, view: StatusView)
    requires Inv(info, n) && Inv(info, m) && SameRun(n, m)
    requires Enabled(n, BeginFinal(now, view))
    ensures Enabled(m, BeginFinal(now, view))
    ensures SameRun(Next(n, BeginFinal(now, view)), Next(m, BeginFinal(now, view)))
  {
    PreparedIsCurrent(info, n, now, false);
    PreparedIsCurrent(info, m, now, false);
  }

  lemma BusyIsUnwritten(info: NodeInfo, n: NodeState)
    requires Inv(info, n)
    ensures n.summaryWritten ==> n.phase.Stopped? || n.phase.Dead?
  {
  }

  lemma FileKeepsSameRun(n: NodeState, m: NodeState, ok: bool)
    requires SameRun(n, m) && !n.summaryWritten
    requires Enabled(n, File(ok)) && !n.phase.purpose.Checkpoint?
    ensures Enabled(m, File(ok)) && SameRun(Next(n, File(ok)), Next(m, File(ok)))
  {
  }

  lemma AcceptKeepsSameRun(n: NodeState, m: NodeState, sample: TelemetrySample)
    requires SameRun(n, m) && !n.summaryWritten && Enabled(n, Accept(sample))
    ensures Enabled(m, Accept(sample)) && SameRun(Next(n, Accept(sample)), Next(m, Accept(sample)))
  {
  }

  lemma StepKeepsSameRun(info: NodeInfo, n: NodeState, m: NodeState, a: Action)
    requires Inv(info, n) && Inv(info, m) && SameRun(n, m)
    requires Enabled(n, a) && !IsCheckpointStep(n, a)
    ensures Enabled(m, a) && SameRun(Next(n, a), Next(m, a))
  {
    BusyIsUnwritten(info, n);
    match a
    case BeginFinal(now, view) => FinalKeepsSameRun(info, n, m, now, view);
    case File(ok) => FileKeepsSameRun(n, m, ok);
    case Accept(sample) => AcceptKeepsSameRun(n, m, sample);
    case PowerLoss => SameRunLosesPower(n, m);
    case _ => OtherStepKeepsSameRun(n, m, a);
  }

  lemma SameRunLosesPower(n: NodeState, m: NodeState)
    requires SameRun(n, m)
    ensures SameRun(Next(n, PowerLoss), Next(m, PowerLoss))
  {
  }

  lemma OtherStepKeepsSameRun(n: NodeState, m: NodeState, a: Action)
    requires SameRun(n, m) && Enabled(n, a) && !IsCheckpointStep(n, a)
    requires n.summaryWritten ==> n.phase.Stopped? || n.phase.Dead?
    requires a.Launch? || a.End? || a.Abort? || a.Kill?
    ensures Enabled(m, a) && SameRun(Next(n, a), Next(m, a))
  {
  }

  lemma CheckpointStepKeepsSameRun(info: NodeInfo, n: NodeState, m: NodeState, a: Action)
    requires Inv(info, n) && SameRun(n, m)
    requires Enabled(n, a) && IsCheckpointStep(n, a)
    ensures SameRun(Next(n, a), m)
  {
    BusyIsUnwritten(info, n);
    if a.BeginCheckpoint? {
      BeginCheckpointIsInvisible(n, m, a.now);
    } else {
      CheckpointFileIsInvisible(n, m, a.ok);
    }
  }

  lemma BeginCheckpointIsInvisible(n: NodeState, m: NodeState, now: Now)
    requires SameRun(n, m) && Enabled(n, BeginCheckpoint(now))
    ensures SameRun(Next(n, BeginCheckpoint(now)), m)
  {
  }

  lemma CheckpointFileIsInvisible(n: NodeState, m: NodeState, ok: bool)
    requires SameRun(n, m) && !n.summaryWritten && n.phase.Publishing? && n.phase.purpose.Checkpoint?
    ensures SameRun(FileStep(n, ok), m)
  {
  }

  lemma {:induction false} DisabledRunFollows(info: NodeInfo, actions: seq<Action>)
    requires Replay(Fresh(info), actions).Some?
    ensures var other := Replay(Fresh(info), WithoutCheckpoints(Fresh(info), actions));
            other.Some? && SameRun(Replay(Fresh(info), actions).value, other.value)
  {
    if actions != [] {
      var init, last := actions[..|actions| - 1], actions[|actions| - 1];
      DisabledRunFollows(info, init);
      InvAlways(info, init);
      var stripped := WithoutCheckpoints(Fresh(info), init);
      InvAlways(info, stripped);
      var n, m := Replay(Fresh(info), init).value, Replay(Fresh(info), stripped).value;
      if IsCheckpointStep(n, last) {
        CheckpointStepKeepsSameRun(info, n, m, last);
        assert WithoutCheckpoints(Fresh(info), actions) == stripped;
      } else {
        StepKeepsSameRun(info, n, m, last);
        ReplayStep(Fresh(info), stripped, m, last);
      }
    }
  }

  /**
   * Checkpointing does not disturb the result: for every run, with any checkpoint schedule
   * and any mix of failed checkpoint writes, the same run with checkpointing disabled is
   * possible and publishes the very same final summary.
   */
  lemma CheckpointsDoNotDisturb(info: NodeInfo, actions: seq<Action>)
    requires Replay(Fresh(info), actions).Some?
    ensures var n := Replay(Fresh(info), actions).value;
            var other := Replay(Fresh(info), WithoutCheckpoints(Fresh(info), actions));
            && other.Some?
            && other.value.seen == n.seen
            && (other.value.summaryWritten <==> n.summaryWritten)
            && (n.summaryWritten ==> other.value.files.summary == n.files.summary)
    ensures forall i :: 0 <= i < |WithoutCheckpoints(Fresh(info), actions)| ==>
              !WithoutCheckpoints(Fresh(info), actions)[i].BeginCheckpoint?
  {
    DisabledRunFollows(info, actions);
    NoCheckpointsLeft(info, actions);
  }

  lemma {:induction false} NoCheckpointsLeft(info: NodeInfo, actions: seq<Action>)
    requires Replay(Fresh(info), actions).Some?
    ensures forall i :: 0 <= i < |WithoutCheckpoints(Fresh(info), actions)| ==>
              !WithoutCheckpoints(Fresh(info), actions)[i].BeginCheckpoint?
  {
    if actions != [] {
      NoCheckpointsLeft(info, actions[..|actions| - 1]);
    }
  }

  // ---------------------------------------------------------------------
  // Which reading of the status file is published
  // ---------------------------------------------------------------------

  /** What the first look at the status file found, if there was one: at the end of the loop, else before a final write. */
  function FirstReading(actions: seq<Action>): Option<StatusView> {
    if actions == [] then None else
    var earlier := FirstReading(actions[..|actions| - 1]);
    if earlier.Some? then earlier else
    match actions[|actions| - 1]
    case End(view) => Some(view)
    case BeginFinal(_, view) => Some(view)
    case _ => None
  }

  /** The outcome says what the file said: the code it held, else no code at all. */
  predicate Says(outcome: Outcome, view: StatusView) {
    && outcome.status == (if view.Recorded? then Some(view.code) else None)
    && (view.Recorded? ==> outcome.reason == DescribeExitCode(view.code))
  }

  predicate FileSays(file: Option<Stored>, reading: Option<StatusView>) {
    file.Some? && file.value.content.Whole? && !file.value.content.doc.partial ==>
      reading.Some? && Says(file.value.content.doc.outcome, reading.value)
  }

  ghost predicate ReadingHeld(n: NodeState, reading: Option<StatusView>) {
    && FileSays(n.files.tmp, reading) && FileSays(n.files.summary, reading)
    && (n.phase.Publishing? ==> (n.summary.partial <==> n.phase.purpose.Checkpoint?))
    && match reading
       case None =>
         && n.summary.outcome == UNKNOWN && !n.phase.Ending?
         && (n.phase.Publishing? ==> n.phase.purpose.Checkpoint?)
       case Some(view) =>
         && Says(n.summary.outcome, view) && !Undecided(n.summary.outcome)
         && !n.phase.Sampling? && !n.phase.Waiting?
         && (n.phase.Publishing? ==> !n.phase.purpose.Checkpoint?)
  }

  lemma StepKeepsReading(n: NodeState, a: Action, before: Option<StatusView>, after: Option<StatusView>)
    requires ReadingHeld(n, before) && Enabled(n, a)
    requires after == if before.Some? then before else
                      match a
                      case End(view) => Some(view)
                      case BeginFinal(_, view) => Some(view)
                      case _ => None
    ensures ReadingHeld(Next(n, a), after)
  {
    if a.End? {
      ReadingDecides(a.view);
    } else if a.BeginFinal? {
      ReadingDecides(a.lateView);
    }
  }

  /**
   * On every run, a published final summary carries the code that the status file held when
   * the logger first looked, described as that code, and no code if none could be read then.
   */
  lemma {:induction false} FirstReadingIsPublished(info: NodeInfo, actions: seq<Action>, n: NodeState)
    requires Replay(Fresh(info), actions) == Some(n)
    ensures ReadingHeld(n, FirstReading(actions))
    ensures FileSays(n.files.summary, FirstReading(actions))
  {
    if actions != [] {
      var init := actions[..|actions| - 1];
      var m := Replay(Fresh(info), init).value;
      FirstReadingIsPublished(info, init, m);
      StepKeepsReading(m, actions[|actions| - 1], FirstReading(init), FirstReading(actions));
    }
  }
}
