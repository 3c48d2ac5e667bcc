/** The sampling loop itself, as a mutable object driven by an adversarial environment (`logger.rs`). */
module Logger {
  import opened Prelude
  import opened Process
  import opened Gpu
  import opened Cpu
  import opened Summary
  import opened Totals
  import opened NodeProtocol
  import opened NodeSafety
  import opened Script
  import opened Schedule

  /** Nearest whole number of ticks, at least one. */
  function TicksFor(seconds: real, interval: real): (ticks: nat)
    requires interval > 0.0 && seconds >= 0.0
    ensures ticks >= 1
  {
    NonNegativeQuotient(seconds, interval);
    Max((seconds / interval + 0.5).Floor, 1)
  }

  /** How long a number of ticks lasts. */
  function Span(ticks: real, interval: real): real {
    ticks * interval
  }

  /** `ticks` whole ticks come as near to `seconds` as any number does, an exact half counting upwards. */
  predicate IsNearest(ticks: nat, seconds: real, interval: real) {
    Span(ticks as real - 0.5, interval) <= seconds < Span(ticks as real + 0.5, interval)
  }

  /** The tick count is the one nearest to the time asked for, but one even for less than half a tick. */
  lemma TicksAreNearest(seconds: real, interval: real, ticks: nat)
    requires interval > 0.0 && seconds >= 0.0
    ensures ticks == TicksFor(seconds, interval)
       <==> if seconds < Span(0.5, interval) then ticks == 1 else IsNearest(ticks, seconds, interval)
  {
    var q := seconds / interval;
    NonNegativeQuotient(seconds, interval);
    assert seconds == Span(q, interval);
    NearestInTicks(q, seconds, interval, ticks);
    SpanGrows(q, 0.5, interval);
    FloorIs(q + 0.5, ticks);
  }

  lemma FloorIs(x: real, n: int)
    ensures x.Floor == n <==> n as real <= x < n as real + 1.0
  {
  }

  lemma NearestInTicks(q: real, seconds: real, interval: real, ticks: nat)
    requires interval > 0.0 && seconds == Span(q, interval)
    ensures IsNearest(ticks, seconds, interval) <==> ticks as real - 0.5 <= q < ticks as real + 0.5
  {
    SpanGrows(q, ticks as real + 0.5, interval);
    SpanGrows(q, ticks as real - 0.5, interval);
  }

  lemma SpanGrows(a: real, b: real, interval: real)
    requires interval > 0.0
    ensures a < b <==> Span(a, interval) < Span(b, interval)
  {
    if a < b {
      assert (b - a) * interval > 0.0;
    } else {
      assert (a - b) * interval >= 0.0;
    }
  }

  /** The outcome a final write publishes: what the end of the loop found, or a late reading. */
  function Decided(outcome: Outcome, lateView: StatusView): Outcome {
    if Undecided(outcome) then ReadExitStatus(lateView) else outcome
  }

  /** The steps of a logger that begins a checkpoint end in one more step. */
  lemma CheckpointFollows(info: NodeInfo, actions: seq<Action>, n: NodeState, now: Now)
    requires Replay(Fresh(info), actions) == Some(n) && Enabled(n, BeginCheckpoint(now))
    ensures Prepared(n, now, true).summary == PartialDoc(info, n.seen, now)
    ensures Replay(Fresh(info), actions + [BeginCheckpoint(now)])
            == Some(Prepared(n, now, true).(phase := Publishing(Checkpoint, Create)))
  {
    InvAlways(info, actions);
    PreparedIsCurrent(info, n, now, true);
    ReplayStep(Fresh(info), actions, n, BeginCheckpoint(now));
  }

  /** Likewise for a final write. */
  lemma FinalFollows(info: NodeInfo, actions: seq<Action>, n: NodeState, now: Now, lateView: StatusView)
    requires Replay(Fresh(info), actions) == Some(n) && Enabled(n, BeginFinal(now, lateView))
    ensures var outcome := Decided(n.summary.outcome, lateView);
            var m := Prepared(n, now, false);
            && m.summary.(outcome := outcome) == FinalDoc(info, n.seen, now, outcome)
            && Replay(Fresh(info), actions + [BeginFinal(now, lateView)])
               == Some(m.(summary := m.summary.(outcome := outcome),
                          phase := Publishing(if n.phase.Ending? then Final else LastResort, Create)))
  {
    InvAlways(info, actions);
    PreparedIsCurrent(info, n, now, false);
    ReplayStep(Fresh(info), actions, n, BeginFinal(now, lateView));
  }

  /** Likewise for an accepted sample. */
  lemma AcceptFollows(info: NodeInfo, actions: seq<Action>, n: NodeState, sample: TelemetrySample)
    requires Replay(Fresh(info), actions) == Some(n) && Enabled(n, Accept(sample))
    ensures Replay(Fresh(info), actions + [Accept(sample)])
            == Some(n.(summary := n.summary.(acc := Accumulate(n.summary.acc, sample, info.interval)),
                       samples := n.samples + 1,
                       seen := n.seen + [sample]))
  {
    InvAlways(info, actions);
    ReplayStep(Fresh(info), actions, n, Accept(sample));
  }

  lemma AccumulatorsAreFolded(info: NodeInfo, actions: seq<Action>, n: NodeState)
    requires Replay(Fresh(info), actions) == Some(n)
    ensures n.summary.acc == Fold(n.seen, info.interval) && n.samples == |n.seen|
    ensures n.phase.Sampling? ==> !n.summaryWritten
  {
    InvAlways(info, actions);
  }

  lemma RunningIsUnwritten(info: NodeInfo, actions: seq<Action>, n: NodeState)
    requires Replay(Fresh(info), actions) == Some(n)
    ensures n.phase.Sampling? || n.phase.Ending? || n.phase.Dropping? || n.phase.Publishing? ==> !n.summaryWritten
    ensures n.summary.info == info && n.samples == |n.seen|
  {
    InvAlways(info, actions);
  }

  // ---------------------------------------------------------------------
  // The logger
  // ---------------------------------------------------------------------

  class TelemetryLogger {
    var summary: TelemetrySummary
    var samples: nat
    /** Guards against a second summary write. */
    var summaryWritten: bool
    const flushEvery: nat
    /** Ticks between checkpoints; 0 disables them. */
    const summaryEvery: nat
    var checkpointWarned: bool
    var prevCpu: Option<(CpuUsage, real)>
    var prevNet: Option<NetworkStats>
    /** The NDJSON stream, and the node's two summary files. */
    var ndjson: seq<Event>
    var files: Files

    const info: NodeInfo

    /** Where the step machine of the protocol stands, and how it got there. */
    ghost var phase: Phase
    ghost var clock: real
    ghost var actions: seq<Action>
    /** The samples accepted so far. */
    ghost var seen: seq<TelemetrySample>

    ghost function State(): NodeState
      reads this
    {
      NodeState(phase, summary, samples, summaryWritten, files, seen, clock)
    }

    /** The object has got where it is by steps of the protocol. */
    ghost predicate Follows()
      reads this
    {
      Replay(Fresh(info), actions) == Some(State())
    }

    ghost predicate Valid()
      reads this
    {
      Follows() && flushEvery > 0 && info.interval > 0.0
    }

    constructor (start: Start, summaryEverySec: real)
      requires start.info.interval > 0.0
      ensures Valid() && phase == Sampling && actions == [Launch]
      ensures seen == [] && !summaryWritten && files == Files(None, None) && ndjson == [] && clock == 0.0
      ensures info == start.info && prevCpu == start.primed && prevNet == start.net
      ensures summaryEvery == (if summaryEverySec <= 0.0 then 0 else TicksFor(summaryEverySec, info.interval))
      ensures flushEvery == TicksFor(MAX_FLUSH_LAG, info.interval)
    {
      info := start.info;
      summary := NewSummary(start.info);
      samples := 0;
      summaryWritten, checkpointWarned := false, false;
      flushEvery := TicksFor(MAX_FLUSH_LAG, start.info.interval);
      summaryEvery := if summaryEverySec <= 0.0 then 0 else TicksFor(summaryEverySec, start.info.interval);
      prevCpu, prevNet := start.primed, start.net;
      ndjson, files := [], Files(None, None);
      phase, clock, actions, seen := Sampling, 0.0, [Launch], [];
      new;
      ReplayStep(Fresh(info), [], Fresh(info), Launch);
      assert [] + [Launch] == [Launch];
    }

    /** Notes a step of the protocol that the code has just taken. */
    ghost method Took(before: NodeState, a: Action)
      requires Replay(Fresh(info), actions) == Some(before)
      requires Enabled(before, a) && State() == Next(before, a)
      modifies `actions
      ensures Follows() && actions == old(actions) + [a]
    {
      ReplayStep(Fresh(info), actions, before, a);
      actions := actions + [a];
    }

    // -------------------------------------------------------------------
    // Sampling
    // -------------------------------------------------------------------

    /** The scanning loop of one tick. */
    method ScanUntil(scans: seq<Scan>, deadline: real) returns (tree: TreeStats)
      ensures tree == PeakOfScans(NO_STATS, scans, deadline)
    {
      tree := NO_STATS;
      var i := 0;
      while i < |scans|
        invariant i <= |scans|
        invariant PeakOfScans(NO_STATS, scans, deadline) == PeakOfScans(tree, scans[i..], deadline)
      {
        assert scans[i..][1..] == scans[i + 1..];
        tree := MaxWith(tree, scans[i].stats);
        if scans[i].now >= deadline {
          return;
        }
        i := i + 1;
      }
    }

    /**
     * `sample_tick`: a failed reading changes nothing, so no time is lost to it; a good one
     * measures from the carried baselines and becomes the next ones.
     */
    method SampleTick(tick: Tick) returns (r: Result<TelemetrySample>)
      modifies `prevCpu, `prevNet
      ensures r.Ok? <==> tick.cpu.Ok?
      ensures r.Err? ==> prevCpu == old(prevCpu) && prevNet == old(prevNet)
      ensures r.Ok? ==>
                && IsSampleOf(r.value, tick, old(prevCpu), old(prevNet), info)
                && prevCpu == Some((tick.cpu.value, tick.readAt))
                && prevNet == NextBaseline(old(prevNet), tick.net)
    {
      var tree := ScanUntil(tick.scans, tick.start + info.interval);
      if tick.cpu.Err? {
        return Err;
      }
      var usage, at := NO_USAGE, tick.start;
      if prevCpu.Some? {
        usage, at := prevCpu.value.0, prevCpu.value.1;
      }
      var now := tick.cpu.value;
      var dt := MaxReal(tick.readAt - at, 0.0);
      var percpu := PercpuBusyPct(usage.percpuNs, now.percpuNs, dt);
      var pctSum := TotalCpuPct(usage.totalNs, now.totalNs, dt);
      prevCpu := Some((now, tick.readAt));

      var delta := NO_TRAFFIC;
      if tick.net.Some? {
        if prevNet.Some? {
          delta := NetGrowth(prevNet.value, tick.net.value);
        }
        prevNet := tick.net;
      }

      var mem := tick.mem;
      var swap := if mem.Some? then mem.value.swapBytes.GetOr(tree.swapBytes) else tree.swapBytes;
      r := Ok(TelemetrySample(
        dt, pctSum, CpuEfficiencyPct(pctSum, |info.allowedCpus|), percpu, tree.(swapBytes := swap),
        if mem.Some? then Some(mem.value.currentBytes) else None,
        if mem.Some? then mem.value.peakBytes else None,
        if mem.Some? then mem.value.swapBytes else None,
        tick.io, delta, tick.gpu));
    }

    /** `update_summary`, field group by field group. */
    method UpdateSummary(sample: TelemetrySample)
      requires summary.info.interval == info.interval
      modifies `summary
      ensures summary == old(summary).(acc := Accumulate(old(summary.acc), sample, info.interval))
    {
      var s := summary.acc;
      var peaks := MaxWith(s.peaks, sample.tree);
      var mem := MemoryUpdated(s.cgroupMemPeak, sample);
      var memGb := s.cgroupMemPeakGb;
      if mem.Some? {
        memGb := Some(InGb(mem.value));
      }
      var swap := s.cgroupSwapPeak;
      if sample.cgroupSwap.Some? {
        swap := Some(Max(swap.GetOr(0), sample.cgroupSwap.value));
      }
      var io := s.cgroupIo;
      if sample.cgroupIo.Some? {
        io := sample.cgroupIo;
      }
      var gpu := GpuUpdated(s.gpu, sample.gpu);
      var percpuPeak := MaxIntoReals(s.percpuPctPeak, sample.percpuPct);
      var dt := if sample.dt > 0.0 then sample.dt else info.interval;
      var byCpu := AddScaledInto(s.coreSecondsByCpu, sample.percpuPct, dt / 100.0);
      summary := summary.(acc := Accumulators(
        peaks, InGb(peaks.rssBytes),
        MaxReal(s.cpuPctSumPeak, sample.cpuPctSum),
        MaxReal(s.cpuEfficiencyPctPeak, sample.cpuEfficiencyPct),
        percpuPeak, mem, memGb, swap, io, NetAdd(s.net, sample.net), gpu,
        s.coreSeconds + sample.cpuPctSum * dt / 100.0, byCpu));
    }

    /** The cgroup-memory part of `update_summary`: the live figure, then the kernel's own high-water mark. */
    method MemoryUpdated(peak: Option<nat>, sample: TelemetrySample) returns (out: Option<nat>)
      ensures out == PeakWith(PeakWith(peak, sample.cgroupMem), sample.cgroupMemPeak)
    {
      out := peak;
      if sample.cgroupMem.Some? {
        out := Some(Max(out.GetOr(0), sample.cgroupMem.value));
      }
      if sample.cgroupMemPeak.Some? {
        out := Some(Max(out.GetOr(0), sample.cgroupMemPeak.value));
      }
    }

    /** The GPU part of `update_summary`. */
    method GpuUpdated(peaks: GpuPeaks, gpu: GpuStats) returns (out: GpuPeaks)
      ensures out == GpuWith(peaks, gpu)
    {
      var utilization := MaxIntoReals(peaks.utilization, gpu.utilization);
      var used := MaxIntoNats(peaks.memoryUsed, gpu.memoryUsed);
      var total := MaxIntoNats(peaks.memoryTotal, gpu.memoryTotal);
      var temperature := MaxIntoReals(peaks.temperature, gpu.temperature);
      var power := MaxIntoReals(peaks.power, gpu.power);
      var available := OrInto(peaks.powerAvailable, gpu.powerAvailable);
      var indices := if gpu.indices != [] then gpu.indices else peaks.indices;
      out := GpuPeaks(utilization, used, total, temperature, power, available, indices, !gpu.jobScoped);
    }

    // -------------------------------------------------------------------
    // Publishing
    // -------------------------------------------------------------------

    /** `recompute_derived_fields`: each call overwrites the previous derivation. */
    method RecomputeDerivedFields(now: Now)
      requires summary.info == info
      modifies `summary
      ensures summary == old(summary).(
                derived := Recompute(old(summary.derived), info, old(summary.acc), samples, now))
    {
      var duration := now.elapsed;
      var acc, d := summary.acc, summary.derived;
      d := d.(samples := samples, durationSec := duration, tEnd := now.wallClock,
              cpuCoreHours := acc.coreSeconds / 3600.0);
      if duration > 0.0 {
        var avg := acc.coreSeconds / duration * 100.0;
        var byCpu: seq<real> := [];
        for i := 0 to |acc.coreSecondsByCpu|
          invariant byCpu == PctByCpu(acc.coreSecondsByCpu[..i], duration)
        {
          byCpu := byCpu + [acc.coreSecondsByCpu[i] / duration * 100.0];
        }
        assert acc.coreSecondsByCpu[..|acc.coreSecondsByCpu|] == acc.coreSecondsByCpu;
        d := d.(avgCpuPercent := avg, cpuEfficiencyPctAvg := CpuEfficiencyPct(avg, |info.allowedCpus|),
                avgCpuPercentByCpu := byCpu);
      }
      d := d.(treePercpuPctPeak := acc.percpuPctPeak);
      if info.bookedWalltimeSec > 0 {
        d := d.(walltimeEfficiencyPct := duration / info.bookedWalltimeSec as real * 100.0);
      }
      if info.bookedMemBytes > 0 {
        d := d.(memEfficiencyPct := EffectiveMem(acc) as real / info.bookedMemBytes as real * 100.0);
      }
      summary := summary.(derived := d);
    }

    /** A file-system call failed: the attempt is over, and the published name is as it was. */
    ghost method FailedCall()
      requires Follows() && phase.Publishing?
      modifies `phase, `actions
      ensures Follows() && old(actions) <= actions
      ensures phase == AfterWrite(old(phase).purpose, false)
    {
      ghost var before := State();
      phase := AfterWrite(phase.purpose, false);
      Took(before, File(false));
    }

    method CreateTmp()
      requires Follows() && phase.Publishing? && phase.stage.Create?
      modifies `files, `phase, `actions
      ensures Follows() && old(actions) <= actions
      ensures phase == Publishing(old(phase).purpose, Write) && files.summary == old(files.summary)
    {
      ghost var before := State();
      files := files.(tmp := Some(Stored(Torn, false)));
      phase := Publishing(phase.purpose, Write);
      Took(before, File(true));
    }

    method WriteTmp()
      requires Follows() && phase.Publishing? && phase.stage.Write?
      modifies `files, `phase, `actions
      ensures Follows() && old(actions) <= actions
      ensures phase == Publishing(old(phase).purpose, Sync)
      ensures files == Files(Some(Stored(Whole(summary), false)), old(files.summary))
    {
      ghost var before := State();
      files := files.(tmp := Some(Stored(Whole(summary), false)));
      phase := Publishing(phase.purpose, Sync);
      Took(before, File(true));
    }

    method SyncTmp()
      requires Follows() && phase.Publishing? && phase.stage.Sync? && files.tmp.Some?
      modifies `files, `phase, `actions
      ensures Follows() && old(actions) <= actions
      ensures phase == Publishing(old(phase).purpose, Rename)
      ensures files == Files(Some(old(files.tmp.value).(durable := true)), old(files.summary))
    {
      ghost var before := State();
      files := files.(tmp := Some(files.tmp.value.(durable := true)));
      phase := Publishing(phase.purpose, Rename);
      Took(before, File(true));
    }

    method RenameTmp(final: bool)
      requires Follows() && phase.Publishing? && phase.stage.Rename? && final == !phase.purpose.Checkpoint?
      modifies `files, `phase, `actions, `summaryWritten
      ensures Follows() && old(actions) <= actions
      ensures phase == AfterWrite(old(phase).purpose, true)
      ensures files == Files(None, old(files.tmp)) && summaryWritten == (old(summaryWritten) || final)
    {
      ghost var before := State();
      files := Files(None, files.tmp);
      phase := AfterWrite(phase.purpose, true);
      summaryWritten := summaryWritten || final;
      Took(before, File(true));
    }

    /** `write_json_atomic`: the published name changes only by the last call, and only to a whole document. */
    method WriteJsonAtomic(calls: Calls, final: bool) returns (ok: bool)
      requires Follows() && phase.Publishing? && phase.stage.Create? && final == !phase.purpose.Checkpoint?
      modifies `files, `phase, `actions, `summaryWritten
      ensures Follows() && old(actions) <= actions
      ensures ok == calls.AllOk()
      ensures phase == AfterWrite(old(phase).purpose, ok)
      ensures summaryWritten == (old(summaryWritten) || (ok && final))
      ensures files.summary == if ok then Some(Stored(Whole(summary), true)) else old(files.summary)
    {
      if !calls.create {
        FailedCall();
        return false;
      }
      CreateTmp();
      if !calls.write {
        FailedCall();
        return false;
      }
      WriteTmp();
      if !calls.sync {
        FailedCall();
        return false;
      }
      SyncTmp();
      if !calls.rename {
        FailedCall();
        return false;
      }
      RenameTmp(final);
      return true;
    }

    /** Everything before the file is touched: derived fields and the partial flag. */
    method PrepareCheckpoint(now: Now)
      requires Valid() && phase.Sampling? && !summaryWritten && clock <= now.elapsed
      modifies `summary, `clock, `phase, `actions
      ensures Valid() && old(actions) <= actions
      ensures phase == Publishing(Checkpoint, Create) && clock == now.elapsed
      ensures summary == PartialDoc(info, seen, now)
    {
      ghost var before := State();
      RunningIsUnwritten(info, actions, before);
      CheckpointFollows(info, actions, before, now);
      RecomputeDerivedFields(now);
      summary := summary.(partial := true);
      phase, clock := Publishing(Checkpoint, Create), now.elapsed;
      actions := actions + [BeginCheckpoint(now)];
    }

    /** `write_checkpoint_summary`: a placeholder that the final write is still expected to replace. */
    method WriteCheckpointSummary(now: Now, calls: Calls) returns (ok: bool)
      requires Valid() && (summaryWritten || phase.Sampling?) && clock <= now.elapsed
      modifies `summary, `clock, `files, `phase, `actions, `summaryWritten
      ensures Valid() && old(actions) <= actions && summaryWritten == old(summaryWritten)
      ensures old(summaryWritten) ==> ok && State() == old(State())
      ensures !old(summaryWritten) ==>
                && ok == calls.AllOk() && phase.Sampling? && clock == now.elapsed
                && files.summary == if ok then Some(Stored(Whole(PartialDoc(info, seen, now)), true))
                                    else old(files.summary)
    {
      if summaryWritten {
        return true;
      }
      PrepareCheckpoint(now);
      ok := WriteJsonAtomic(calls, false);
    }

    /** An outcome that nothing has settled is read late. */
    method SettleOutcome(lateView: StatusView)
      modifies `summary
      ensures summary == old(summary).(outcome := Decided(old(summary.outcome), lateView))
    {
      if Undecided(summary.outcome) {
        summary := summary.(outcome := ReadExitStatus(lateView));
      }
    }

    /** The final document in memory: the outcome read late if nothing has settled it, the partial flag cleared. */
    method PrepareFinal(now: Now, lateView: StatusView)
      requires Valid() && (phase.Ending? || phase.Dropping?) && !summaryWritten && clock <= now.elapsed
      modifies `summary, `clock, `phase, `actions
      ensures Valid() && old(actions) <= actions
      ensures phase == Publishing(if old(phase).Ending? then Final else LastResort, Create) && clock == now.elapsed
      ensures summary.outcome == Decided(old(summary.outcome), lateView)
      ensures summary == FinalDoc(info, seen, now, summary.outcome)
    {
      ghost var before := State();
      RunningIsUnwritten(info, actions, before);
      FinalFollows(info, actions, before, now, lateView);
      RecomputeDerivedFields(now);
      assert State() == before.(summary := Prepared(before, now, before.summary.partial).summary);
      SettleOutcome(lateView);
      summary := summary.(partial := false);
      phase, clock := Publishing(if phase.Ending? then Final else LastResort, Create), now.elapsed;
      actions := actions + [BeginFinal(now, lateView)];
    }

    /** `write_final_summary`, by the end of `run` or by `Drop`; only the first success counts. */
    method WriteFinalSummary(now: Now, lateView: StatusView, calls: Calls) returns (ok: bool)
      requires Valid() && (summaryWritten || phase.Ending? || phase.Dropping?) && clock <= now.elapsed
      modifies `summary, `clock, `files, `phase, `actions, `summaryWritten
      ensures Valid() && old(actions) <= actions
      ensures old(summaryWritten) ==> ok && State() == old(State())
      ensures !old(summaryWritten) ==>
                && ok == calls.AllOk() && summaryWritten == ok && clock == now.elapsed
                && phase == (if !ok && old(phase).Ending? then Dropping else Stopped)
                && summary.outcome == Decided(old(summary.outcome), lateView)
                && files.summary == if ok then Some(Stored(Whole(FinalDoc(info, seen, now, summary.outcome)), true))
                                    else old(files.summary)
    {
      if summaryWritten {
        return true;
      }
      PrepareFinal(now, lateView);
      ok := WriteJsonAtomic(calls, true);
    }

    /** `emit_job_end`: settles the outcome, then writes the closing line. */
    method EmitJobEnd(finish: Finish)
      requires Valid() && phase.Sampling?
      modifies `summary, `phase, `actions, `ndjson
      ensures Valid() && phase.Ending? && old(actions) <= actions
      ensures summary.outcome == ReadExitStatus(finish.view) && !summaryWritten
      ensures ndjson == old(ndjson) + EndLine(finish, seen, info.interval)
    {
      ghost var before := State();
      AccumulatorsAreFolded(info, actions, before);
      summary := summary.(outcome := ReadExitStatus(finish.view));
      phase := Ending;
      Took(before, End(finish.view));
      if finish.endLineWritten {
        ndjson := ndjson + [JobEnd(samples, summary.acc.coreSeconds, summary.outcome)];
      }
    }

    /** `Drop`: the last-resort write of a run that did not get to finish, or whose final write failed. */
    method Drop(now: Now, view: StatusView, calls: Calls)
      requires Valid() && (phase.Sampling? || phase.Dropping? || (phase.Stopped? && summaryWritten))
      requires clock <= now.elapsed
      modifies `summary, `clock, `files, `phase, `actions, `summaryWritten
      ensures Valid() && phase.Stopped? && old(actions) <= actions
      ensures old(summaryWritten) ==> State() == old(State())
      ensures !old(summaryWritten) ==>
                && summaryWritten == calls.AllOk()
                && summary.outcome == Decided(old(summary.outcome), view)
                && files.summary == if calls.AllOk()
                                    then Some(Stored(Whole(FinalDoc(info, seen, now, summary.outcome)), true))
                                    else old(files.summary)
    {
      InvAlways(info, actions);
      if !summaryWritten {
        ghost var before := State();
        if phase.Sampling? {
          phase := Dropping;
          Took(before, Abort);
        }
        var _ := WriteFinalSummary(now, view, calls);
      }
    }

    // -------------------------------------------------------------------
    // The loop
    // -------------------------------------------------------------------

    /** The sample enters the accumulators and the count. */
    method Accumulated(sample: TelemetrySample)
      requires Valid() && phase.Sampling? && NonNegative(sample)
      modifies `summary, `samples, `seen, `actions
      ensures Valid() && old(actions) <= actions
      ensures seen == old(seen) + [sample] && samples == old(samples) + 1
    {
      AcceptFollows(info, actions, State(), sample);
      RunningIsUnwritten(info, actions, State());
      UpdateSummary(sample);
      samples := samples + 1;
      seen := seen + [sample];
      actions := actions + [Accept(sample)];
    }

    /** What follows a sample that the loop keeps: accumulate it, count it, checkpoint when it is time. */
    method AcceptSample(sample: TelemetrySample, now: Now, calls: Calls)
      requires Valid() && phase.Sampling? && NonNegative(sample) && clock <= now.elapsed
      modifies `summary, `samples, `seen, `clock, `files, `phase, `actions, `checkpointWarned, `summaryWritten
      ensures Valid() && phase.Sampling? && old(actions) <= actions
      ensures seen == old(seen) + [sample] && samples == old(samples) + 1
      ensures old(clock) <= clock <= now.elapsed
      ensures files.summary == if summaryEvery > 0 && samples % summaryEvery == 0 && calls.AllOk()
                               then Some(Stored(Whole(PartialDoc(info, seen, now)), true))
                               else old(files.summary)
    {
      Accumulated(sample);
      RunningIsUnwritten(info, actions, State());
      if summaryEvery > 0 && samples % summaryEvery == 0 {
        var ok := WriteCheckpointSummary(now, calls);
        if !ok {
          checkpointWarned := true;
        }
      }
    }

    ghost predicate OnTime()
      reads this
    {
      OnSchedule(info, actions, State(), summaryEvery)
    }

    /** The same, seen as a turn of the schedule. */
    method AcceptOnTime(sample: TelemetrySample, now: Now, calls: Calls)
      requires Valid() && phase.Sampling? && NonNegative(sample) && clock <= now.elapsed
      modifies `summary, `samples, `seen, `clock, `files, `phase, `actions, `checkpointWarned, `summaryWritten
      ensures Valid() && phase.Sampling?
      ensures seen == old(seen) + [sample] && samples == old(samples) + 1
      ensures old(clock) <= clock <= now.elapsed
      ensures old(OnTime()) && calls.AllOk() ==> OnTime()
    {
      ghost var before, n, onTime := actions, State(), OnTime() && calls.AllOk();
      AcceptSample(sample, now, calls);
      RunningIsUnwritten(info, actions, State());
      if onTime {
        TurnKeepsSchedule(info, before, n, actions, State(), summaryEvery);
      }
    }

    /** One turn of the loop; a turn that stops leaves everything it would have published as it was. */
    method Turn(tick: Tick, c: Counters) returns (stopped: bool, next: Counters)
      requires Valid() && phase.Sampling? && clock <= tick.now.elapsed
      modifies this
      ensures Valid() && phase.Sampling? && old(clock) <= clock <= tick.now.elapsed
      ensures stopped == TurnStops(c, tick, flushEvery)
      ensures stopped ==> State() == old(State()) && actions == old(actions) && ndjson == old(ndjson)
                          && (old(OnTime()) ==> OnTime())
      ensures !stopped ==> next == Turned(c, tick, flushEvery)
      ensures !stopped && tick.cpu.Err? ==>
                && State() == old(State()) && actions == old(actions) && ndjson == old(ndjson)
                && prevCpu == old(prevCpu) && prevNet == old(prevNet)
      ensures !stopped && tick.cpu.Ok? ==>
                && samples == old(samples) + 1
                && |seen| == |old(seen)| + 1 && seen[..|old(seen)|] == old(seen)
                && IsSampleOf(seen[|old(seen)|], tick, old(prevCpu), old(prevNet), info)
                && ndjson == old(ndjson) + (if tick.lineWritten then [JobLog(seen[|old(seen)|])] else [])
                && prevCpu == Some((tick.cpu.value, tick.readAt))
                && prevNet == NextBaseline(old(prevNet), tick.net)
      ensures old(OnTime()) && tick.calls.AllOk() ==> OnTime()
    {
      stopped := false;
      next := c.(ticksSinceStopCheck := c.ticksSinceStopCheck + 1);
      if next.ticksSinceStopCheck >= flushEvery {
        next := next.(ticksSinceStopCheck := 0);
        if tick.statusExists {
          return true, next;
        }
      }
      var sample := SampleTick(tick);
      if sample.Ok? {
        next := next.(errors := 0);
        if tick.lineWritten {
          next := next.(writeErrors := 0);
          ndjson := ndjson + [JobLog(sample.value)];
        } else {
          next := next.(writeErrors := next.writeErrors + 1);
          if next.writeErrors >= MAX_CONSECUTIVE_ERRORS {
            return true, next;
          }
        }
        MeasuredSample(sample.value, WindowOf(old(prevCpu), tick), info.interval);
        AcceptOnTime(sample.value, tick.now, tick.calls);
      } else {
        next := next.(errors := next.errors + 1);
        stopped := next.errors >= MAX_CONSECUTIVE_ERRORS;
      }
    }

    /** Everything the turns before `i` have left behind. */
    ghost predicate Ran(before: seq<Event>, start: Start, script: seq<Tick>, i: nat)
      requires i <= |script|
      reads this
    {
      && SamplesOf(seen, start, script, i) && samples == |seen| == GoodReads(script, i)
      && ndjson == before + LinesOf(seen, script, i)
    }

    /** What the turns before `i` leave behind, should the loop stop here. */
    ghost predicate LoopEnded(before: seq<Event>, start: Start, script: seq<Tick>, i: nat, finish: Finish)
      requires i <= |script|
      reads this
    {
      && Valid() && phase.Sampling? && start.info == info
      && Ran(before, start, script, i)
      && clock <= finish.now.elapsed
      && (summaryEvery > 0 && ChecksSucceed(script, i) ==> OnTime())
    }

    /** And what the loop carries on with otherwise. */
    ghost predicate Looping(before: seq<Event>, start: Start, script: seq<Tick>, i: nat, finish: Finish)
      requires i <= |script|
      reads this
    {
      && LoopEnded(before, start, script, i, finish)
      && prevCpu == CpuBaseline(start.primed, script, i) && prevNet == NetBaseline(start.net, script, i)
      && IsPast(clock, script, i, finish)
    }

    lemma LoopStarts(start: Start, script: seq<Tick>, finish: Finish)
      requires Valid() && actions == [Launch] && start == Start(info, prevCpu, prevNet) && InOrder(script, finish)
      ensures Looping(ndjson, start, script, 0, finish)
    {
      LaunchIsWithin(info, summaryEvery);
      assert State() == Fresh(info).(phase := Sampling);
      assert ndjson + [] == ndjson;
    }

    /** The same turn, with what it adds to the run so far. */
    method CountedTurn(ghost before: seq<Event>, ghost start: Start, script: seq<Tick>, i: nat, c: Counters)
      returns (stopped: bool, next: Counters)
      requires i < |script| && Valid() && phase.Sampling? && clock <= script[i].now.elapsed && start.info == info
      requires Ran(before, start, script, i)
      requires prevCpu == CpuBaseline(start.primed, script, i) && prevNet == NetBaseline(start.net, script, i)
      modifies this
      ensures Valid() && phase.Sampling? && old(clock) <= clock <= script[i].now.elapsed
      ensures stopped == TurnStops(c, script[i], flushEvery)
      ensures stopped ==> Ran(before, start, script, i) && clock == old(clock) && (old(OnTime()) ==> OnTime())
      ensures !stopped ==>
                && next == Turned(c, script[i], flushEvery)
                && Ran(before, start, script, i + 1)
                && prevCpu == CpuBaseline(start.primed, script, i + 1)
                && prevNet == NetBaseline(start.net, script, i + 1)
      ensures old(OnTime()) && script[i].calls.AllOk() ==> OnTime()
    {
      ghost var prev := seen;
      stopped, next := Turn(script[i], c);
      if !stopped {
        TurnSamples(prev, seen, start, script, i);
      }
    }

    /** The same turn, as the next one of a whole run. */
    method TurnOfScript(
      ghost before: seq<Event>, ghost start: Start, script: seq<Tick>, i: nat, c: Counters, ghost finish: Finish)
      returns (stopped: bool, next: Counters)
      requires i < |script| && script[i].running && InOrder(script, finish)
      requires Looping(before, start, script, i, finish) && c == CountersAt(script, flushEvery, i)
      modifies this
      ensures stopped == StopsAt(script, flushEvery, i).Some?
      ensures stopped ==> LoopEnded(before, start, script, i, finish)
      ensures !stopped ==>
                next == CountersAt(script, flushEvery, i + 1) && Looping(before, start, script, i + 1, finish)
    {
      TurnCounts(script, flushEvery, i);
      stopped, next := CountedTurn(before, start, script, i, c);
      TimeGoesOn(clock, script, i, finish);
    }

    /**
     * The loop of `run`: it stops at the first turn that calls for it, with exactly the
     * samples of the good turns before it accepted and their lines written. With checkpoints
     * that succeed, the published file is on schedule throughout.
     */
    method SampleUntilStopped(ghost start: Start, script: seq<Tick>, ghost finish: Finish) returns (ticks: nat)
      requires Valid() && actions == [Launch] && start == Start(info, prevCpu, prevNet) && InOrder(script, finish)
      modifies this
      ensures ticks <= |script| && LoopEnded(old(ndjson), start, script, ticks, finish)
      ensures StopsAt(script, flushEvery, ticks).Some? && NeverStops(script, flushEvery, ticks)
    {
      LoopStarts(start, script, finish);
      var counters := Counters(0, 0, 0);
      ticks := 0;
      while ticks < |script| && script[ticks].running
        invariant ticks <= |script| && flushEvery > 0 && NeverStops(script, flushEvery, ticks)
        invariant Looping(old(ndjson), start, script, ticks, finish)
        invariant counters == CountersAt(script, flushEvery, ticks)
      {
        var stopped;
        stopped, counters := TurnOfScript(old(ndjson), start, script, ticks, counters, finish);
        if stopped {
          break;
        }
        ticks := ticks + 1;
      }
    }

    /** What `run` does once its loop has ended. */
    method Conclude(finish: Finish) returns (ok: bool)
      requires Valid() && phase.Sampling? && clock <= finish.now.elapsed
      modifies `summary, `clock, `files, `phase, `actions, `summaryWritten, `ndjson
      ensures Valid() && old(actions) <= actions
      ensures ok == finish.calls.AllOk() && summaryWritten == ok && phase == (if ok then Stopped else Dropping)
      ensures summary.outcome == ReadExitStatus(finish.view) && clock == finish.now.elapsed
      ensures ndjson == old(ndjson) + EndLine(finish, seen, info.interval)
      ensures ok ==> files.summary
                     == Some(Stored(Whole(FinalDoc(info, seen, finish.now, ReadExitStatus(finish.view))), true))
    {
      EmitJobEnd(finish);
      ReadingDecides(finish.view);
      ok := WriteFinalSummary(finish.now, finish.lateView, finish.calls);
    }

    /** The bound on the lag survives steps that accept nothing. */
    lemma StaysOnSchedule(before: seq<Action>, n: NodeState)
      requires Valid() && Replay(Fresh(info), before) == Some(n) && before <= actions && |n.seen| == |seen|
      requires OnSchedule(info, before, n, summaryEvery)
      ensures AlwaysWithin(info, actions, summaryEvery)
    {
      StretchStaysWithin(info, before, actions, summaryEvery);
    }

    /**
     * `run`: the samples of the loop, one stream of lines, and the document of the whole run
     * published at the end. With checkpoints that succeed, the published file is at every
     * single step at most one period behind.
     */
    method Run(ghost start: Start, script: seq<Tick>, startLineWritten: bool, finish: Finish)
      returns (ok: bool, ticks: nat)
      requires Valid() && actions == [Launch] && ndjson == []
      requires start == Start(info, prevCpu, prevNet) && InOrder(script, finish)
      modifies this
      ensures Valid() && ticks <= |script|
      ensures StopsAt(script, flushEvery, ticks).Some? && NeverStops(script, flushEvery, ticks)
      ensures SamplesOf(seen, start, script, ticks) && samples == |seen| == GoodReads(script, ticks)
      ensures ndjson == StartLine(startLineWritten) + LinesOf(seen, script, ticks)
                        + EndLine(finish, seen, info.interval)
      ensures ok == finish.calls.AllOk() && summaryWritten == ok && phase == (if ok then Stopped else Dropping)
      ensures summary.outcome == ReadExitStatus(finish.view) && clock == finish.now.elapsed
      ensures ok ==> files.summary
                     == Some(Stored(Whole(FinalDoc(info, seen, finish.now, ReadExitStatus(finish.view))), true))
      ensures summaryEvery > 0 && ChecksSucceed(script, ticks) ==> AlwaysWithin(info, actions, summaryEvery)
    {
      ndjson := StartLine(startLineWritten);
      ticks := SampleUntilStopped(start, script, finish);
      ghost var before, n := actions, State();
      ghost var onTime := summaryEvery > 0 && ChecksSucceed(script, ticks);
      ok := Conclude(finish);
      if onTime {
        StaysOnSchedule(before, n);
      }
    }

    /** A whole life: `run`, then `Drop`, which tries once more exactly when the first final write failed. */
    method Live(ghost start: Start, script: seq<Tick>, startLineWritten: bool, finish: Finish) returns (ticks: nat)
      requires Valid() && actions == [Launch] && ndjson == []
      requires start == Start(info, prevCpu, prevNet) && InOrder(script, finish)
      modifies this
      ensures Valid() && phase.Stopped? && ticks <= |script|
      ensures StopsAt(script, flushEvery, ticks).Some?
      ensures SamplesOf(seen, start, script, ticks)
      ensures summaryWritten == (finish.calls.AllOk() || finish.dropCalls.AllOk())
      ensures summaryWritten ==>
                files.summary == Some(Stored(Whole(
                  FinalDoc(info, seen, if finish.calls.AllOk() then finish.now else finish.dropNow,
                           ReadExitStatus(finish.view))), true))
    {
      var ok;
      ok, ticks := Run(start, script, startLineWritten, finish);
      ReadingDecides(finish.view);
      Drop(finish.dropNow, finish.dropView, finish.dropCalls);
    }
  }
}
