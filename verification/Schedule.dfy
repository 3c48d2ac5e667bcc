/** How far the published summary lags behind the samples, at every single step (`logger.rs`). */
module Schedule {
  import opened Prelude
  import opened Summary
  import opened NodeProtocol
  import opened NodeSafety

  // ---------------------------------------------------------------------
  // How far the published file lags
  // ---------------------------------------------------------------------

  /** The published document's sample count; none counts as zero. */
  function SamplesOnDisk(files: Files): nat {
    match files.summary
    case Some(Stored(Whole(d), _)) => d.derived.samples
    case _ => 0
  }

  /** How many accepted samples the published file does not have. */
  function Lag(n: NodeState): int {
    |n.seen| - SamplesOnDisk(n.files)
  }

  lemma DiskNeverLeads(info: NodeInfo, n: NodeState)
    requires Inv(info, n)
    ensures Lag(n) >= 0
  {
  }

  lemma RenameClosesLag(info: NodeInfo, n: NodeState)
    requires Inv(info, n) && n.phase.Publishing? && n.phase.stage.Rename?
    ensures Lag(FileStep(n, true)) == 0
  {
  }

  /** Only accepting a sample widens the lag, and only by one; a kill or a power loss does not. */
  lemma OnlyAcceptWidensLag(info: NodeInfo, n: NodeState, a: Action)
    requires Inv(info, n) && Enabled(n, a)
    ensures if a.Accept? then Lag(Next(n, a)) == Lag(n) + 1 else Lag(Next(n, a)) <= Lag(n)
    ensures |Next(n, a).seen| == |n.seen| + (if a.Accept? then 1 else 0)
  {
    DiskNeverLeads(info, n);
    PublishedIsDurable(info, n);
    if a == File(true) && n.phase.stage.Rename? {
      RenameClosesLag(info, n);
    }
  }

  lemma LagStep(info: NodeInfo, actions: seq<Action>, a: Action)
    requires Replay(Fresh(info), actions + [a]).Some?
    ensures Replay(Fresh(info), actions).Some?
    ensures var n, m := Replay(Fresh(info), actions).value, Replay(Fresh(info), actions + [a]).value;
            |n.seen| <= |m.seen| && Lag(m) <= Lag(n) + (|m.seen| - |n.seen|)
  {
    assert (actions + [a])[..|actions|] == actions;
    var n := Replay(Fresh(info), actions).value;
    InvAlways(info, actions);
    OnlyAcceptWidensLag(info, n, a);
  }

  /** Along some steps the lag grows by no more than the samples accepted on the way. */
  lemma {:induction false} LagAlong(info: NodeInfo, actions: seq<Action>, more: seq<Action>)
    requires Replay(Fresh(info), actions + more).Some?
    ensures Replay(Fresh(info), actions).Some?
    ensures var n, m := Replay(Fresh(info), actions).value, Replay(Fresh(info), actions + more).value;
            && |n.seen| <= |m.seen|
            && Lag(m) <= Lag(n) + (|m.seen| - |n.seen|)
  {
    if more == [] {
      assert actions + more == actions;
    } else {
      var init, last := more[..|more| - 1], more[|more| - 1];
      assert actions + more == actions + init + [last];
      LagStep(info, actions + init, last);
      LagAlong(info, actions, init);
    }
  }

  /** At every single step so far, the lag was within the bound. */
  ghost predicate AlwaysWithin(info: NodeInfo, actions: seq<Action>, bound: nat) {
    forall before: seq<Action> :: before <= actions && Replay(Fresh(info), before).Some? ==>
      Lag(Replay(Fresh(info), before).value) <= bound
  }

  lemma MomentWithin(info: NodeInfo, actions: seq<Action>, more: seq<Action>, before: seq<Action>, bound: nat)
    requires Replay(Fresh(info), actions + more).Some? && Replay(Fresh(info), actions).Some?
    requires actions <= before <= actions + more
    requires var n, m := Replay(Fresh(info), actions).value, Replay(Fresh(info), actions + more).value;
             Lag(n) + (|m.seen| - |n.seen|) <= bound
    ensures Replay(Fresh(info), before).Some? && Lag(Replay(Fresh(info), before).value) <= bound
  {
    var part, rest := before[|actions|..], (actions + more)[|before|..];
    assert before == actions + part;
    assert before + rest == actions + more;
    LagAlong(info, before, rest);
    LagAlong(info, actions, part);
  }

  /** A stretch with few enough new samples stays within the bound at every step. */
  lemma StretchStaysWithin(info: NodeInfo, actions: seq<Action>, later: seq<Action>, bound: nat)
    requires actions <= later && Replay(Fresh(info), later).Some? && Replay(Fresh(info), actions).Some?
    requires AlwaysWithin(info, actions, bound)
    requires var n, m := Replay(Fresh(info), actions).value, Replay(Fresh(info), later).value;
             Lag(n) + (|m.seen| - |n.seen|) <= bound
    ensures AlwaysWithin(info, later, bound)
  {
    var more := later[|actions|..];
    assert later == actions + more;
    forall before: seq<Action> | before <= later && Replay(Fresh(info), before).Some?
      ensures Lag(Replay(Fresh(info), before).value) <= bound
    {
      if |before| > |actions| {
        MomentWithin(info, actions, more, before, bound);
      } else {
        assert before <= actions;
      }
    }
  }

  lemma LaunchIsWithin(info: NodeInfo, bound: nat)
    ensures AlwaysWithin(info, [Launch], bound)
    ensures Replay(Fresh(info), [Launch]) == Some(Fresh(info).(phase := Sampling))
  {
    ReplayStep(Fresh(info), [], Fresh(info), Launch);
    assert [] + [Launch] == [Launch];
    forall before: seq<Action> | before <= [Launch] && Replay(Fresh(info), before).Some?
      ensures Lag(Replay(Fresh(info), before).value) <= bound
    {
      assert before == [] || before == [Launch];
    }
  }

  /** The last multiple of the period at or below a count. */
  function LastMultiple(n: nat, k: nat): (m: nat)
    requires k > 0
    ensures n - k < m <= n
  {
    n - n % k
  }

  lemma NextMultiple(n: nat, k: nat)
    requires k > 0
    ensures LastMultiple(n + 1, k) == if (n + 1) % k == 0 then n + 1 else LastMultiple(n, k)
  {
    NextRemainder(n, k);
  }

  /** Between turns the published file holds the last multiple of the period; at every step, at most one period is missing. */
  ghost predicate OnSchedule(info: NodeInfo, actions: seq<Action>, n: NodeState, period: nat) {
    && period > 0
    && AlwaysWithin(info, actions, period)
    && SamplesOnDisk(n.files) == LastMultiple(|n.seen|, period)
  }

  /** One more sample, and the checkpoint it may call for, keep the schedule. */
  lemma TurnKeepsSchedule(info: NodeInfo, actions: seq<Action>, n: NodeState, later: seq<Action>, m: NodeState, period: nat)
    requires Replay(Fresh(info), actions) == Some(n) && Replay(Fresh(info), later) == Some(m) && actions <= later
    requires OnSchedule(info, actions, n, period)
    requires |m.seen| == |n.seen| + 1
    requires if |m.seen| % period == 0 then SamplesOnDisk(m.files) == |m.seen|
             else m.files.summary == n.files.summary
    ensures OnSchedule(info, later, m, period)
  {
    NextMultiple(|n.seen|, period);
    StretchStaysWithin(info, actions, later, period);
  }

  /** The bound is reached: between accepting a period's last sample and renaming its checkpoint, a whole period is missing. */
  lemma PeriodIsReached(info: NodeInfo, actions: seq<Action>, n: NodeState, period: nat, sample: TelemetrySample)
    requires OnSchedule(info, actions, n, period) && Enabled(n, Accept(sample))
    ensures Lag(Next(n, Accept(sample))) == period <==> (|n.seen| + 1) % period == 0
  {
    NextRemainder(|n.seen|, period);
  }
}
