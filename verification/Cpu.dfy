/** CPU percentages from CPU-time counters (`cpu.rs`), over exact reals. */
module Cpu {
  import opened Prelude

  const NS_PER_SEC: real := 1_000_000_000.0

  /** `CpuUsage`: cumulative nanoseconds, in total and per CPU (empty on cgroup v2). */
  datatype CpuUsage = CpuUsage(totalNs: nat, percpuNs: seq<nat>)

  const NO_USAGE: CpuUsage := CpuUsage(0, [])

  /** Growth of a counter in seconds; a counter that went backwards was reset. */
  function GrowthSec(prevNs: nat, currNs: nat): real {
    SatSub(currNs, prevNs) as real / NS_PER_SEC
  }

  /** The unclamped percentage of one window. */
  function Pct(prevNs: nat, currNs: nat, dt: real): real {
    if dt > 0.0 then SatSub(currNs, prevNs) as real / (dt * NS_PER_SEC) * 100.0 else 0.0
  }

  /** `calculate_total_cpu_pct`: 400 means four busy cores. */
  function TotalCpuPct(prevNs: nat, currNs: nat, dt: real): real {
    if dt <= 0.0 then 0.0 else MaxReal(Pct(prevNs, currNs, dt), 0.0)
  }

  function Clamp(x: real, low: real, high: real): real {
    MinReal(MaxReal(x, low), high)
  }

  /** One CPU's busy percentage: never more than all of the window. */
  function BusyPct(prevNs: nat, currNs: nat, dt: real): real {
    Clamp(Pct(prevNs, currNs, dt), 0.0, 100.0)
  }

  /** `cpu_efficiency_pct`. */
  function CpuEfficiencyPct(pctSum: real, cores: nat): real {
    if cores == 0 then 0.0 else pctSum / cores as real
  }

  /** `calculate_percpu_busy_pct`: one entry per CPU either reading mentions, missing ones reading as zero. */
  method PercpuBusyPct(prev: seq<nat>, curr: seq<nat>, dt: real) returns (result: seq<real>)
    ensures |result| == Max(|prev|, |curr|)
    ensures forall i :: 0 <= i < |result| ==> result[i] == BusyPct(At(prev, i, 0), At(curr, i, 0), dt)
  {
    result := [];
    for i := 0 to Max(|prev|, |curr|)
      invariant |result| == i
      invariant forall k :: 0 <= k < i ==> result[k] == BusyPct(At(prev, k, 0), At(curr, k, 0), dt)
    {
      var prevNs, currNs := At(prev, i, 0), At(curr, i, 0);
      var deltaNs := SatSub(currNs, prevNs);
      var pct := if dt > 0.0 then deltaNs as real / (dt * NS_PER_SEC) * 100.0 else 0.0;
      result := result + [Clamp(pct, 0.0, 100.0)];
    }
  }

  // ---------------------------------------------------------------------
  // From percentages back to seconds
  // ---------------------------------------------------------------------

  lemma QuotientTimes(x: real, y: real)
    requires y != 0.0
    ensures x / y * y == x
  {
  }

  lemma SplitFactor(q: real, dt: real)
    ensures q * (dt * NS_PER_SEC) == q * dt * NS_PER_SEC
  {
  }

  /** Turning a counter's growth into a percentage and back into seconds loses nothing. */
  lemma PctTimesWindow(prevNs: nat, currNs: nat, dt: real)
    requires dt > 0.0
    ensures Pct(prevNs, currNs, dt) * dt / 100.0 == GrowthSec(prevNs, currNs)
    ensures Pct(prevNs, currNs, dt) >= 0.0
  {
    var delta := SatSub(currNs, prevNs) as real;
    var q := delta / (dt * NS_PER_SEC);
    assert dt * NS_PER_SEC > 0.0;
    QuotientTimes(delta, dt * NS_PER_SEC);
    SplitFactor(q, dt);
    NonNegativeQuotient(delta, dt * NS_PER_SEC);
    PercentCancels(q, dt);
  }

  lemma PercentCancels(q: real, dt: real)
    ensures q * 100.0 * dt / 100.0 == q * dt
  {
    assert q * 100.0 * dt == q * dt * 100.0;
  }

  lemma NonNegativeQuotient(x: real, y: real)
    requires x >= 0.0 && y > 0.0
    ensures x / y >= 0.0
  {
  }

  /** The seconds one sample charges in total: exactly the growth, or nothing for an empty window. */
  lemma TotalSeconds(prevNs: nat, currNs: nat, dt: real)
    ensures dt > 0.0 ==> TotalCpuPct(prevNs, currNs, dt) * dt / 100.0 == GrowthSec(prevNs, currNs)
    ensures dt <= 0.0 ==> TotalCpuPct(prevNs, currNs, dt) == 0.0
    ensures TotalCpuPct(prevNs, currNs, dt) >= 0.0
  {
    if dt > 0.0 {
      PctTimesWindow(prevNs, currNs, dt);
    }
  }

  lemma ScaleBounds(p: real, q: real, dt: real)
    requires p <= q && dt >= 0.0
    ensures p * (dt / 100.0) <= q * (dt / 100.0)
  {
  }

  lemma Regroup(p: real, dt: real)
    ensures p * (dt / 100.0) == p * dt / 100.0
  {
  }

  /** The seconds one sample charges to one CPU: the growth, capped at the length of the window. */
  lemma BusySeconds(prevNs: nat, currNs: nat, dt: real)
    ensures dt > 0.0 ==>
              BusyPct(prevNs, currNs, dt) * (dt / 100.0) == MinReal(GrowthSec(prevNs, currNs), dt)
    ensures dt <= 0.0 ==> BusyPct(prevNs, currNs, dt) == 0.0
    ensures 0.0 <= BusyPct(prevNs, currNs, dt) <= 100.0
  {
    if dt > 0.0 {
      PctTimesWindow(prevNs, currNs, dt);
      var pct := Pct(prevNs, currNs, dt);
      Regroup(pct, dt);
      Regroup(100.0, dt);
      if pct <= 100.0 {
        ScaleBounds(pct, 100.0, dt);
      } else {
        ScaleBounds(100.0, pct, dt);
      }
    }
  }
}
