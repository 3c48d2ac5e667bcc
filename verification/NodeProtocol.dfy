/**
 * One node's logger as a step machine: what it holds in memory, what lies in its directory,
 * and everything that can happen to either, a kill between any two steps included
 * (`logger.rs`, `output.rs`).
 */
module NodeProtocol {
  import opened Prelude
  import opened Cpu
  import opened Summary
  import opened ExitReason
  import opened Totals

  // ---------------------------------------------------------------------
  // Documents
  // ---------------------------------------------------------------------

  function PctByCpu(secs: seq<real>, duration: real): (out: seq<real>)
    requires duration > 0.0
    ensures |out| == |secs|
  {
    seq(|secs|, i requires 0 <= i < |secs| => secs[i] / duration * 100.0)
  }

  /** `recompute_derived_fields`: some fields are overwritten only when their divisor is positive. */
  function Recompute(d: Derived, info: NodeInfo, acc: Accumulators, samples: nat, now: Now): Derived {
    var t := now.elapsed;
    var avg := if t > 0.0 then acc.coreSeconds / t * 100.0 else d.avgCpuPercent;
    Derived(
      samples,
      t,
      now.wallClock,
      acc.coreSeconds / 3600.0,
      avg,
      if t > 0.0 then CpuEfficiencyPct(avg, |info.allowedCpus|) else d.cpuEfficiencyPctAvg,
      if t > 0.0 then PctByCpu(acc.coreSecondsByCpu, t) else d.avgCpuPercentByCpu,
      acc.percpuPctPeak,
      if info.bookedWalltimeSec > 0 then t / info.bookedWalltimeSec as real * 100.0 else d.walltimeEfficiencyPct,
      if info.bookedMemBytes > 0 then EffectiveMem(acc) as real / info.bookedMemBytes as real * 100.0
      else d.memEfficiencyPct)
  }

  /** The derived fields of a run so far, as a function of that run alone. */
  function DerivedOf(info: NodeInfo, acc: Accumulators, samples: nat, now: Now): Derived {
    Recompute(NOTHING_DERIVED, info, acc, samples, now)
  }

  /** A checkpoint after these samples. */
  function PartialDoc(info: NodeInfo, samples: seq<TelemetrySample>, now: Now): TelemetrySummary {
    var acc := Fold(samples, info.interval);
    TelemetrySummary(info, acc, DerivedOf(info, acc, |samples|, now), UNKNOWN, true)
  }

  /** The document of a finished run. */
  function FinalDoc(info: NodeInfo, samples: seq<TelemetrySample>, now: Now, outcome: Outcome): TelemetrySummary {
    var acc := Fold(samples, info.interval);
    TelemetrySummary(info, acc, DerivedOf(info, acc, |samples|, now), outcome, false)
  }

  function NowOf(d: Derived): Now {
    Now(d.durationSec, d.tEnd)
  }

  /** Derived fields left over from an earlier moment of the same run. */
  predicate LeftFrom(d: Derived, info: NodeInfo, seen: seq<TelemetrySample>, clock: real) {
    && d.samples <= |seen|
    && 0.0 <= d.durationSec <= clock
    && d == DerivedOf(info, Fold(seen[..d.samples], info.interval), d.samples, NowOf(d))
  }

  lemma ZeroQuotient(x: real, y: real)
    requires x == 0.0 && y > 0.0
    ensures x / y * 100.0 == 0.0
  {
  }

  lemma NothingIsLeftFromTheStart(info: NodeInfo)
    ensures LeftFrom(NOTHING_DERIVED, info, [], 0.0)
  {
    if info.bookedWalltimeSec > 0 {
      ZeroQuotient(0.0, info.bookedWalltimeSec as real);
    }
    if info.bookedMemBytes > 0 {
      ZeroQuotient(0.0, info.bookedMemBytes as real);
    }
  }

  /** Recomputing forgets whatever was derived before: clocks do not go back, so a stale field is never kept. */
  lemma RecomputeForgets(d: Derived, info: NodeInfo, seen: seq<TelemetrySample>, acc: Accumulators, samples: nat, now: Now)
    requires LeftFrom(d, info, seen, now.elapsed)
    ensures Recompute(d, info, acc, samples, now) == DerivedOf(info, acc, samples, now)
  {
  }

  // ---------------------------------------------------------------------
  // The exit-status file, as one logger sees it
  // ---------------------------------------------------------------------

  datatype StatusView = NotConfigured | Absent | Unparsable | Recorded(code: int)

  /** `read_exit_status`: a status only ever comes out of a file that parses. */
  function ReadExitStatus(view: StatusView): Outcome {
    match view
    case NotConfigured => Outcome(None, "unknown: no --exit-status-file supplied")
    case Absent => Outcome(None, "unknown: exit status file absent")
    case Unparsable => Outcome(None, "unknown: could not parse exit status file")
    case Recorded(code) => Outcome(Some(code), DescribeExitCode(code))
  }

  /** The one reason a later read may still replace. */
  predicate Undecided(outcome: Outcome) {
    outcome.reason == UNKNOWN.reason
  }

  lemma ReadingDecides(view: StatusView)
    ensures !Undecided(ReadExitStatus(view))
  {
    match view
    case NotConfigured => assert |"unknown: no --exit-status-file supplied"| != |"unknown"|;
    case Absent => assert |"unknown: exit status file absent"| != |"unknown"|;
    case Unparsable => assert |"unknown: could not parse exit status file"| != |"unknown"|;
    case Recorded(code) => ReasonIsNotUnknown(code);
  }

  // ---------------------------------------------------------------------
  // Files
  // ---------------------------------------------------------------------

  /** A file's bytes: a whole document, or anything less (empty, cut short). */
  datatype Content = Torn | Whole(doc: TelemetrySummary)

  /** `durable` once synced: only then does the content survive the node losing power. */
  datatype Stored = Stored(content: Content, durable: bool)

  /** The two names involved: the hidden temporary file and the published summary. */
  datatype Files = Files(tmp: Option<Stored>, summary: Option<Stored>)

  function AfterPowerLoss(file: Option<Stored>): Option<Stored> {
    match file
    case Some(Stored(_, false)) => Some(Stored(Torn, true))
    case _ => file
  }

  // ---------------------------------------------------------------------
  // States and actions
  // ---------------------------------------------------------------------

  /** The steps of `write_json_atomic`. */
  datatype Stage = Create | Write | Sync | Rename

  /** A mid-run checkpoint, the final write, or the retry that `Drop` makes. */
  datatype Purpose = Checkpoint | Final | LastResort

  datatype Phase =
    | Waiting
    | Sampling
    | Ending
    | Dropping
    | Publishing(purpose: Purpose, stage: Stage)
    | Stopped
    | Dead

  datatype NodeState = NodeState(
    phase: Phase,
    summary: TelemetrySummary,
    samples: nat,
    summaryWritten: bool,
    files: Files,
    seen: seq<TelemetrySample>,
    clock: real)

  datatype Action =
    | Launch
    | Accept(sample: TelemetrySample)
    | BeginCheckpoint(now: Now)
    | File(ok: bool)
    | End(view: StatusView)
    | Abort
    | BeginFinal(now: Now, lateView: StatusView)
    | Kill
    | PowerLoss

  function Fresh(info: NodeInfo): NodeState {
    NodeState(Waiting, NewSummary(info), 0, false, Files(None, None), [], 0.0)
  }

  predicate Enabled(n: NodeState, a: Action) {
    match a
    case Launch => n.phase.Waiting?
    case Accept(sample) => n.phase.Sampling? && NonNegative(sample)
    case BeginCheckpoint(now) => n.phase.Sampling? && !n.summaryWritten && n.clock <= now.elapsed
    case File(_) => n.phase.Publishing?
    case End(_) => n.phase.Sampling?
    case Abort => n.phase.Sampling?
    case BeginFinal(now, _) => (n.phase.Ending? || n.phase.Dropping?) && !n.summaryWritten && n.clock <= now.elapsed
    case Kill => true
    case PowerLoss => true
  }

  /** `recompute_derived_fields` followed by setting the partial flag. */
  function Prepared(n: NodeState, now: Now, partial: bool): NodeState {
    n.(summary := n.summary.(
         derived := Recompute(n.summary.derived, n.summary.info, n.summary.acc, n.samples, now),
         partial := partial),
       clock := now.elapsed)
  }

  /** Where a logger goes when its write is over. */
  function AfterWrite(purpose: Purpose, ok: bool): Phase {
    match purpose
    case Checkpoint => Sampling
    case Final => if ok then Stopped else Dropping
    case LastResort => Stopped
  }

  /** One file-system call of `write_json_atomic`, succeeding or failing. */
  function FileStep(n: NodeState, ok: bool): NodeState
    requires n.phase.Publishing?
  {
    var Publishing(purpose, stage) := n.phase;
    if !ok then n.(phase := AfterWrite(purpose, false))
    else
      match stage
      case Create =>
        n.(phase := Publishing(purpose, Write), files := n.files.(tmp := Some(Stored(Torn, false))))
      case Write =>
        n.(phase := Publishing(purpose, Sync), files := n.files.(tmp := Some(Stored(Whole(n.summary), false))))
      case Sync =>
        n.(phase := Publishing(purpose, Rename),
           files := n.files.(tmp := match n.files.tmp case None => None case Some(f) => Some(f.(durable := true))))
      case Rename =>
        n.(phase := AfterWrite(purpose, true),
           files := Files(None, n.files.tmp),
           summaryWritten := n.summaryWritten || !purpose.Checkpoint?)
  }

  function Next(n: NodeState, a: Action): NodeState
    requires Enabled(n, a)
  {
    match a
    case Launch => n.(phase := Sampling)
    case Accept(sample) =>
      n.(summary := n.summary.(acc := Accumulate(n.summary.acc, sample, n.summary.info.interval)),
         samples := n.samples + 1,
         seen := n.seen + [sample])
    case BeginCheckpoint(now) =>
      Prepared(n, now, true).(phase := Publishing(Checkpoint, Create))
    case File(ok) => FileStep(n, ok)
    case End(view) => n.(phase := Ending, summary := n.summary.(outcome := ReadExitStatus(view)))
    case Abort => n.(phase := Dropping)
    case BeginFinal(now, lateView) =>
      var m := Prepared(n, now, false);
      var outcome := if Undecided(m.summary.outcome) then ReadExitStatus(lateView) else m.summary.outcome;
      m.(summary := m.summary.(outcome := outcome),
         phase := Publishing(if n.phase.Ending? then Final else LastResort, Create))
    case Kill => n.(phase := Dead)
    case PowerLoss => n.(phase := Dead, files := Files(AfterPowerLoss(n.files.tmp), AfterPowerLoss(n.files.summary)))
  }

  // ---------------------------------------------------------------------
  // Runs
  // ---------------------------------------------------------------------

  /** Where a list of actions leads, if each of them is possible when its turn comes. */
  function Replay(n: NodeState, actions: seq<Action>): Option<NodeState> {
    if actions == [] then Some(n) else
    match Replay(n, actions[..|actions| - 1])
    case None => None
    case Some(m) => if Enabled(m, actions[|actions| - 1]) then Some(Next(m, actions[|actions| - 1])) else None
  }

  lemma ReplayStep(n: NodeState, actions: seq<Action>, m: NodeState, a: Action)
    requires Replay(n, actions) == Some(m) && Enabled(m, a)
    ensures Replay(n, actions + [a]) == Some(Next(m, a))
  {
    assert (actions + [a])[..|actions|] == actions;
  }
}
