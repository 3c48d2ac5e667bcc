/** GPU visibility, the polling sampler and its background worker (`gpu.rs`). */
module Gpu {
  import opened Prelude
  import opened Text

  /** One entry per GPU in each of eight parallel vectors. */
  datatype GpuStats = GpuStats(
    indices: seq<nat>,
    uuids: seq<string>,
    utilization: seq<real>,
    memoryUsed: seq<nat>,
    memoryTotal: seq<nat>,
    temperature: seq<real>,
    power: seq<real>,
    powerAvailable: seq<bool>,
    jobScoped: bool)
  {
    function Count(): nat {
      |utilization|
    }

    /** The eight vectors are really parallel. */
    predicate Aligned() {
      && |indices| == Count() && |uuids| == Count()
      && |memoryUsed| == Count() && |memoryTotal| == Count()
      && |temperature| == Count() && |power| == Count() && |powerAvailable| == Count()
    }
  }

  function NoGpus(jobScoped: bool): GpuStats {
    GpuStats([], [], [], [], [], [], [], [], jobScoped)
  }

  datatype Visibility = All | NoneVisible | Only(tokens: seq<string>) {
    predicate JobScoped() {
      !All?
    }
  }

  predicate StartsWith(s: string, prefix: string) {
    prefix <= s
  }

  /** A token names a GPU by number, or by a possibly abbreviated UUID. */
  predicate TokenMatches(token: string, index: nat, uuid: string) {
    match ParseU32(token)
    case Some(wanted) => wanted == index
    case None =>
      && uuid != ""
      && (StartsWith(token, "GPU-") || StartsWith(token, "MIG-"))
      && StartsWith(uuid, token)
  }

  function IndexAt(stats: GpuStats, i: nat): nat {
    At(stats.indices, i, i)
  }

  predicate RowMatches(stats: GpuStats, tokens: seq<string>, i: nat) {
    exists k :: 0 <= k < |tokens| && TokenMatches(tokens[k], IndexAt(stats, i), At(stats.uuids, i, ""))
  }

  /** The rows below `n` that some token names, in order. */
  function MatchingRows(stats: GpuStats, tokens: seq<string>, n: nat): seq<nat> {
    if n == 0 then []
    else if RowMatches(stats, tokens, n - 1) then MatchingRows(stats, tokens, n - 1) + [n - 1]
    else MatchingRows(stats, tokens, n - 1)
  }

  /** Exactly the rows some token names, each once and in order. */
  lemma {:induction false} MatchingRowsAreTheVisibleOnes(stats: GpuStats, tokens: seq<string>, n: nat)
    ensures var rows := MatchingRows(stats, tokens, n);
            && (forall i: nat :: i in rows <==> i < n && RowMatches(stats, tokens, i))
            && (forall j, k :: 0 <= j < k < |rows| ==> rows[j] < rows[k])
  {
    if n > 0 {
      MatchingRowsAreTheVisibleOnes(stats, tokens, n - 1);
      var before := MatchingRows(stats, tokens, n - 1);
      assert forall k :: 0 <= k < |before| ==> before[k] in before;
    }
  }

  function Pick<T>(v: seq<T>, rows: seq<nat>, default: T): (out: seq<T>)
    ensures |out| == |rows|
    ensures forall k :: 0 <= k < |rows| ==> out[k] == At(v, rows[k], default)
  {
    seq(|rows|, k requires 0 <= k < |rows| => At(v, rows[k], default))
  }

  /** The chosen rows of every vector at once. */
  function PickRows(stats: GpuStats, rows: seq<nat>): GpuStats {
    GpuStats(
      seq(|rows|, k requires 0 <= k < |rows| => IndexAt(stats, rows[k])),
      Pick(stats.uuids, rows, ""), Pick(stats.utilization, rows, 0.0),
      Pick(stats.memoryUsed, rows, 0), Pick(stats.memoryTotal, rows, 0),
      Pick(stats.temperature, rows, 0.0), Pick(stats.power, rows, 0.0),
      Pick(stats.powerAvailable, rows, false), true)
  }

  function Filtered(stats: GpuStats, visibility: Visibility): GpuStats {
    match visibility
    case All => stats.(jobScoped := false)
    case NoneVisible => NoGpus(true)
    case Only(tokens) => PickRows(stats, MatchingRows(stats, tokens, stats.Count()))
  }

  lemma PickOneMore(stats: GpuStats, rows: seq<nat>, i: nat)
    ensures PickRows(stats, rows + [i]).indices == PickRows(stats, rows).indices + [IndexAt(stats, i)]
    ensures Pick(stats.uuids, rows + [i], "") == Pick(stats.uuids, rows, "") + [At(stats.uuids, i, "")]
    ensures Pick(stats.utilization, rows + [i], 0.0) == Pick(stats.utilization, rows, 0.0) + [At(stats.utilization, i, 0.0)]
    ensures Pick(stats.memoryUsed, rows + [i], 0) == Pick(stats.memoryUsed, rows, 0) + [At(stats.memoryUsed, i, 0)]
    ensures Pick(stats.memoryTotal, rows + [i], 0) == Pick(stats.memoryTotal, rows, 0) + [At(stats.memoryTotal, i, 0)]
    ensures Pick(stats.temperature, rows + [i], 0.0) == Pick(stats.temperature, rows, 0.0) + [At(stats.temperature, i, 0.0)]
    ensures Pick(stats.power, rows + [i], 0.0) == Pick(stats.power, rows, 0.0) + [At(stats.power, i, 0.0)]
    ensures Pick(stats.powerAvailable, rows + [i], false)
         == Pick(stats.powerAvailable, rows, false) + [At(stats.powerAvailable, i, false)]
  {
  }

  method SomeTokenMatches(tokens: seq<string>, index: nat, uuid: string) returns (matched: bool)
    ensures matched <==> exists k :: 0 <= k < |tokens| && TokenMatches(tokens[k], index, uuid)
  {
    for k := 0 to |tokens|
      invariant forall j :: 0 <= j < k ==> !TokenMatches(tokens[j], index, uuid)
    {
      if TokenMatches(tokens[k], index, uuid) {
        return true;
      }
    }
    return false;
  }

  /** `filter_to_visible`. */
  method FilterToVisible(stats: GpuStats, visibility: Visibility) returns (out: GpuStats)
    ensures out == Filtered(stats, visibility)
  {
    out := NoGpus(visibility.JobScoped());
    match visibility
    case All =>
      out := stats.(jobScoped := false);
    case NoneVisible =>
    case Only(tokens) =>
      for i := 0 to stats.Count()
        invariant out == PickRows(stats, MatchingRows(stats, tokens, i))
      {
        var index, uuid := IndexAt(stats, i), At(stats.uuids, i, "");
        var matched := SomeTokenMatches(tokens, index, uuid);
        assert matched <==> RowMatches(stats, tokens, i);
        if matched {
          PickOneMore(stats, MatchingRows(stats, tokens, i), i);
          out := GpuStats(
            out.indices + [index],
            out.uuids + [uuid],
            out.utilization + [At(stats.utilization, i, 0.0)],
            out.memoryUsed + [At(stats.memoryUsed, i, 0)],
            out.memoryTotal + [At(stats.memoryTotal, i, 0)],
            out.temperature + [At(stats.temperature, i, 0.0)],
            out.power + [At(stats.power, i, 0.0)],
            out.powerAvailable + [At(stats.powerAvailable, i, false)],
            out.jobScoped);
        }
      }
  }

  /** Every row of a filtered reading is itself visible, so filtering again changes nothing. */
  lemma {:induction false} FilteringIsIdempotent(stats: GpuStats, visibility: Visibility)
    ensures Filtered(Filtered(stats, visibility), visibility) == Filtered(stats, visibility)
  {
    if visibility.Only? {
      var once := Filtered(stats, visibility);
      var rows := MatchingRows(stats, visibility.tokens, stats.Count());
      MatchingRowsAreTheVisibleOnes(stats, visibility.tokens, stats.Count());
      forall k: nat | k < once.Count()
        ensures RowMatches(once, visibility.tokens, k)
      {
        assert rows[k] in rows;
        assert RowMatches(stats, visibility.tokens, rows[k]);
        assert IndexAt(once, k) == IndexAt(stats, rows[k]);
      }
      AllRowsMatch(once, visibility.tokens, once.Count());
    }
  }

  /** Narrowing to named GPUs leaves eight vectors of one length, even when the tool's own were not. */
  lemma FilteredIsAligned(stats: GpuStats, visibility: Visibility)
    ensures Filtered(stats, visibility).Aligned() <==> !visibility.All? || stats.Aligned()
  {
  }

  /** GPU `i` of one reading and GPU `j` of another are the same in every one of the eight vectors. */
  predicate SameGpu(a: GpuStats, i: nat, b: GpuStats, j: nat)
    requires a.Aligned() && i < a.Count() && b.Aligned() && j < b.Count()
  {
    && a.indices[i] == b.indices[j] && a.uuids[i] == b.uuids[j]
    && a.utilization[i] == b.utilization[j] && a.temperature[i] == b.temperature[j]
    && a.memoryUsed[i] == b.memoryUsed[j] && a.memoryTotal[i] == b.memoryTotal[j]
    && a.power[i] == b.power[j] && a.powerAvailable[i] == b.powerAvailable[j]
  }

  /** Some token names GPU `i` of the reading. */
  predicate IsNamed(stats: GpuStats, tokens: seq<string>, i: nat)
    requires stats.Aligned() && i < stats.Count()
  {
    exists k :: 0 <= k < |tokens| && TokenMatches(tokens[k], stats.indices[i], stats.uuids[i])
  }

  /**
   * `out` consists of whole GPUs of `stats`, those at `rows`: each once, in order, exactly
   * the ones a token names, and with every figure taken from its own vector.
   */
  ghost predicate IsNarrowing(stats: GpuStats, tokens: seq<string>, rows: seq<nat>, out: GpuStats)
    requires stats.Aligned()
  {
    && out.Aligned() && out.jobScoped && out.Count() == |rows|
    && (forall j, k :: 0 <= j < k < |rows| ==> rows[j] < rows[k])
    && (forall i: nat :: i in rows <==> i < stats.Count() && IsNamed(stats, tokens, i))
    && (forall k: nat :: k < |rows| ==> rows[k] < stats.Count() && SameGpu(out, k, stats, rows[k]))
  }

  /** Narrowing a reading keeps the named GPUs whole. */
  lemma NarrowingKeepsGpusWhole(stats: GpuStats, tokens: seq<string>) returns (rows: seq<nat>)
    requires stats.Aligned()
    ensures IsNarrowing(stats, tokens, rows, Filtered(stats, Only(tokens)))
  {
    rows := MatchingRows(stats, tokens, stats.Count());
    MatchingRowsAreTheVisibleOnes(stats, tokens, stats.Count());
    forall i: nat | i < stats.Count()
      ensures RowMatches(stats, tokens, i) <==> IsNamed(stats, tokens, i)
    {
      assert IndexAt(stats, i) == stats.indices[i] && At(stats.uuids, i, "") == stats.uuids[i];
    }
    forall k: nat | k < |rows|
      ensures rows[k] < stats.Count() && SameGpu(Filtered(stats, Only(tokens)), k, stats, rows[k])
    {
      assert rows[k] in rows;
    }
  }

  /** A token that is a number names the GPU with that number and no other, however it is padded. */
  lemma NumberNamesOneGpu(n: nat, width: nat, index: nat, uuid: string)
    requires n <= U32_MAX
    ensures TokenMatches(Padded(n, width), index, uuid) <==> index == n
  {
    ParseOfPadded(n, width, U32_MAX);
  }

  /** A token that starts as a UUID does names the GPUs whose UUID it abbreviates. */
  lemma AbbreviationNamesByUuid(kind: string, rest: string, index: nat, uuid: string)
    requires kind == "GPU-" || kind == "MIG-"
    ensures TokenMatches(kind + rest, index, uuid) <==> kind + rest <= uuid
  {
    var token := kind + rest;
    assert token[0] == kind[0];
    assert ParseU32(token).None?;
    assert kind <= token;
  }

  lemma {:induction false} AllRowsMatch(stats: GpuStats, tokens: seq<string>, n: nat)
    requires forall i: nat :: i < n ==> RowMatches(stats, tokens, i)
    ensures MatchingRows(stats, tokens, n) == seq(n, k => k)
  {
    if n > 0 {
      AllRowsMatch(stats, tokens, n - 1);
    }
  }

  // ---------------------------------------------------------------------
  // The polling sampler
  // ---------------------------------------------------------------------

  datatype Backend = Nvidia | Amd

  /** What the two vendor tools would answer if they were run now. */
  datatype Tools = Tools(nvidia: Option<GpuStats>, amd: Option<GpuStats>)

  /** The vendor tool run by a poll and what it said; `None` when nothing usable was found. */
  function Probe(backend: Option<Backend>, tools: Tools): (r: (Option<Backend>, Option<GpuStats>))
    ensures r.1.Some? ==> r.0.Some?
  {
    match backend
    case Some(Nvidia) => (backend, tools.nvidia)
    case Some(Amd) => (backend, tools.amd)
    case None =>
      if tools.nvidia.Some? && tools.nvidia.value.Count() > 0 then (Some(Nvidia), tools.nvidia)
      else if tools.amd.Some? && tools.amd.value.Count() > 0 then (Some(Amd), tools.amd)
      else (None, None)
  }

  predicate ReportsGpus(answer: Option<GpuStats>) {
    answer.Some? && answer.value.Count() > 0
  }

  /**
   * The NVIDIA tool is preferred and the AMD tool is asked only when it has nothing to
   * report; a vendor is settled on exactly when one of them reports GPUs, and once settled
   * its tool alone is asked, even when it fails or reports none.
   */
  lemma VendorIsSettledOnce(backend: Option<Backend>, tools: Tools)
    ensures var (settled, answer) := Probe(backend, tools);
            && (backend.Some? ==> settled == backend)
            && (backend.None? ==>
                  && (settled == Some(Nvidia) <==> ReportsGpus(tools.nvidia))
                  && (settled == Some(Amd) <==> !ReportsGpus(tools.nvidia) && ReportsGpus(tools.amd)))
            && (settled == Some(Nvidia) ==> answer == tools.nvidia)
            && (settled == Some(Amd) ==> answer == tools.amd)
            && (settled.None? ==> answer.None?)
  {
  }

  /** A poll: when it was made, and what the tools it ran had to say. */
  datatype Poll = Poll(at: real, answer: Option<GpuStats>)

  /** The sampler's fields, and every poll it has made. */
  datatype Sampler = Sampler(
    available: Option<bool>,
    lastPoll: Option<real>,
    cached: GpuStats,
    backend: Option<Backend>,
    polls: seq<Poll>)
  {
    predicate Disabled() {
      available == Some(false)
    }
  }

  function FreshSampler(visibility: Visibility): Sampler {
    Sampler(None, None, NoGpus(visibility.JobScoped()), None, [])
  }

  predicate Due(s: Sampler, interval: real, now: real) {
    s.lastPoll.None? || now - s.lastPoll.value >= interval
  }

  /** The reading a poll produces: the tool's answer narrowed to the job, or nothing. */
  function Reading(raw: Option<GpuStats>, visibility: Visibility): GpuStats {
    match raw
    case Some(stats) => Filtered(stats, visibility)
    case None => NoGpus(visibility.JobScoped())
  }

  /** What one call does to the sampler and what it returns. */
  function Sampled(s: Sampler, interval: real, visibility: Visibility, now: real, tools: Tools): (Sampler, GpuStats) {
    if s.Disabled() then (s, NoGpus(visibility.JobScoped()))
    else if visibility.NoneVisible? then (s.(available := Some(false)), NoGpus(true))
    else if !Due(s, interval, now) then (s, s.cached)
    else
      var (backend, raw) := Probe(s.backend, tools);
      var out := Reading(raw, visibility);
      (Sampler(Some(out.Count() > 0), Some(now), out, backend, s.polls + [Poll(now, raw)]), out)
  }

  /** `GpuSampler`: asks the vendor tools now and then, and repeats the last answer in between. */
  class GpuSampler {
    var available: Option<bool>
    const interval: real
    var lastPoll: Option<real>
    var cached: GpuStats
    const visibility: Visibility
    var backend: Option<Backend>
    ghost var polls: seq<Poll>

    ghost function State(): Sampler
      reads this
    {
      Sampler(available, lastPoll, cached, backend, polls)
    }

    constructor (intervalSec: real, visibility: Visibility)
      ensures State() == FreshSampler(visibility)
      ensures this.visibility == visibility && interval == MaxReal(intervalSec, 0.0)
    {
      available, lastPoll, backend := None, None, None;
      interval := MaxReal(intervalSec, 0.0);
      cached := NoGpus(visibility.JobScoped());
      this.visibility := visibility;
      polls := [];
    }

    /** `sample`. */
    method Sample(now: real, tools: Tools) returns (out: GpuStats)
      modifies this
      ensures (State(), out) == Sampled(old(State()), interval, visibility, now, tools)
    {
      if available == Some(false) {
        return NoGpus(visibility.JobScoped());
      }
      if visibility == NoneVisible {
        available := Some(false);
        return NoGpus(visibility.JobScoped());
      }
      if !(lastPoll.None? || now - lastPoll.value >= interval) {
        return cached;
      }
      lastPoll := Some(now);
      var reading := None;
      match backend {
        case Some(Nvidia) => reading := tools.nvidia;
        case Some(Amd) => reading := tools.amd;
        case None =>
          if tools.nvidia.Some? && tools.nvidia.value.Count() > 0 {
            backend, reading := Some(Nvidia), tools.nvidia;
          } else if tools.amd.Some? && tools.amd.value.Count() > 0 {
            backend, reading := Some(Amd), tools.amd;
          }
      }
      polls := polls + [Poll(now, reading)];
      match reading {
        case Some(raw) =>
          out := FilterToVisible(raw, visibility);
          available := Some(out.Count() > 0);
          cached := out;
        case None =>
          available := Some(false);
          cached := NoGpus(visibility.JobScoped());
          out := cached;
      }
    }
  }

  // ---------------------------------------------------------------------
  // The background worker and its latest-value cell
  // ---------------------------------------------------------------------

  /** The worker owns the sampler; telemetry ticks only ever read the cell. */
  datatype Worker = Worker(sampler: Sampler, cell: GpuStats, exited: bool)

  function FreshWorker(visibility: Visibility): Worker {
    Worker(FreshSampler(visibility), NoGpus(visibility.JobScoped()), false)
  }

  /** One turn of the worker's loop: the clock and the tools are the environment's choice. */
  datatype Turn = Turn(now: real, tools: Tools, handleDropped: bool)

  function WorkerNext(w: Worker, interval: real, visibility: Visibility, turn: Turn): Worker {
    if w.exited then w
    else if turn.handleDropped || w.sampler.Disabled() then w.(exited := true)
    else
      var (s, out) := Sampled(w.sampler, interval, visibility, turn.now, turn.tools);
      Worker(s, out, false)
  }

  function RunWorker(w: Worker, interval: real, visibility: Visibility, turns: seq<Turn>): Worker {
    if turns == [] then w
    else WorkerNext(RunWorker(w, interval, visibility, turns[..|turns| - 1]), interval, visibility, turns[|turns| - 1])
  }

  ghost predicate PollsSpaced(s: Sampler, interval: real) {
    && (s.polls == [] <==> s.lastPoll.None?)
    && (s.polls != [] ==> s.lastPoll == Some(s.polls[|s.polls| - 1].at))
    && (forall i :: 0 < i < |s.polls| ==> s.polls[i].at - s.polls[i - 1].at >= interval)
  }

  /** A reading that is labelled truthfully and already narrowed to the job's GPUs. */
  ghost predicate Truthful(reading: GpuStats, visibility: Visibility) {
    (reading.jobScoped <==> visibility.JobScoped()) && Filtered(reading, visibility) == reading
  }

  /** The reading that the latest poll produced; before the first one, the empty reading. */
  function LatestReading(s: Sampler, visibility: Visibility): GpuStats {
    if s.polls == [] then NoGpus(visibility.JobScoped())
    else Reading(s.polls[|s.polls| - 1].answer, visibility)
  }

  ghost predicate SamplerSound(s: Sampler, interval: real, visibility: Visibility) {
    && s.cached == LatestReading(s, visibility)
    && Truthful(s.cached, visibility)
    && PollsSpaced(s, interval)
    && (visibility.NoneVisible? ==> s.polls == [])
    && (s.Disabled() ==> s.cached.Count() == 0)
  }

  lemma ReadingsAreTruthful(raw: Option<GpuStats>, visibility: Visibility)
    ensures Truthful(Reading(raw, visibility), visibility)
  {
    FilteringNothing(visibility);
    if raw.Some? {
      FilteringIsIdempotent(raw.value, visibility);
    }
  }

  lemma SamplingKeepsSound(s: Sampler, interval: real, visibility: Visibility, now: real, tools: Tools)
    requires SamplerSound(s, interval, visibility) && (visibility.NoneVisible? ==> s.cached.Count() == 0)
    ensures SamplerSound(Sampled(s, interval, visibility, now, tools).0, interval, visibility)
  {
    ReadingsAreTruthful(Probe(s.backend, tools).1, visibility);
  }

  /**
   * On every run, whatever the tools answer and however turns are timed: the cell holds
   * what the tools answered at the latest poll, narrowed to the job's GPUs (before the first
   * poll, the empty reading); its scope label is truthful; polls are at least the interval
   * apart and never made for a job without GPUs; and a disabled worker shows no GPUs.
   */
  lemma {:induction false} CellHoldsLatestReading(interval: real, visibility: Visibility, turns: seq<Turn>)
    ensures var w := RunWorker(FreshWorker(visibility), interval, visibility, turns);
            && w.cell == LatestReading(w.sampler, visibility)
            && w.cell == w.sampler.cached
            && SamplerSound(w.sampler, interval, visibility)
  {
    if turns == [] {
      FilteringNothing(visibility);
    } else {
      var before, turn := turns[..|turns| - 1], turns[|turns| - 1];
      CellHoldsLatestReading(interval, visibility, before);
      WorkerKeepsSound(RunWorker(FreshWorker(visibility), interval, visibility, before), interval, visibility, turn);
    }
  }

  lemma WorkerKeepsSound(w: Worker, interval: real, visibility: Visibility, turn: Turn)
    requires w.cell == w.sampler.cached && SamplerSound(w.sampler, interval, visibility)
    ensures var v := WorkerNext(w, interval, visibility, turn);
            v.cell == v.sampler.cached && SamplerSound(v.sampler, interval, visibility)
  {
    if !w.exited && !turn.handleDropped && !w.sampler.Disabled() {
      if visibility.NoneVisible? {
        assert w.cell == NoGpus(true);
      }
      SamplingKeepsSound(w.sampler, interval, visibility, turn.now, turn.tools);
    }
  }

  lemma FilteringNothing(visibility: Visibility)
    ensures Filtered(NoGpus(visibility.JobScoped()), visibility) == NoGpus(visibility.JobScoped())
  {
  }

  /** Disabling is absorbing: no later turn runs a tool or changes what ticks read. */
  lemma {:induction false} DisabledIsForEver(interval: real, visibility: Visibility, turns: seq<Turn>, more: seq<Turn>)
    requires RunWorker(FreshWorker(visibility), interval, visibility, turns).sampler.Disabled()
    ensures var before := RunWorker(FreshWorker(visibility), interval, visibility, turns);
            var after := RunWorker(FreshWorker(visibility), interval, visibility, turns + more);
            && after.sampler == before.sampler && after.cell == before.cell
            && (more != [] ==> after.exited)
  {
    if more == [] {
      assert turns + more == turns;
    } else {
      DisabledIsForEver(interval, visibility, turns, more[..|more| - 1]);
      assert (turns + more)[..|turns + more| - 1] == turns + more[..|more| - 1];
    }
  }

  /** A vendor, once settled on, is the one asked in every later turn. */
  lemma {:induction false} VendorIsForEver(interval: real, visibility: Visibility, turns: seq<Turn>, more: seq<Turn>)
    requires RunWorker(FreshWorker(visibility), interval, visibility, turns).sampler.backend.Some?
    ensures RunWorker(FreshWorker(visibility), interval, visibility, turns + more).sampler.backend
         == RunWorker(FreshWorker(visibility), interval, visibility, turns).sampler.backend
  {
    if more == [] {
      assert turns + more == turns;
    } else {
      VendorIsForEver(interval, visibility, turns, more[..|more| - 1]);
      assert (turns + more)[..|turns + more| - 1] == turns + more[..|more| - 1];
    }
  }

  /** Whether a running worker asks a tool at this turn: it never has, or the interval has passed. */
  predicate MustPoll(polls: seq<Poll>, interval: real, now: real) {
    polls == [] || now - polls[|polls| - 1].at >= interval
  }

  /**
   * Between polls nothing changes; a poll is remembered with the time of its turn and what
   * was answered, and stops the worker exactly when it leaves the job without GPUs.
   */
  lemma TurnPollsWhenDue(interval: real, visibility: Visibility, turns: seq<Turn>, turn: Turn)
    requires !RunWorker(FreshWorker(visibility), interval, visibility, turns).exited
    requires !RunWorker(FreshWorker(visibility), interval, visibility, turns).sampler.Disabled()
    requires !turn.handleDropped && !visibility.NoneVisible?
    ensures var before := RunWorker(FreshWorker(visibility), interval, visibility, turns);
            var after := RunWorker(FreshWorker(visibility), interval, visibility, turns + [turn]);
            if MustPoll(before.sampler.polls, interval, turn.now) then
              && (exists answer :: after.sampler.polls == before.sampler.polls + [Poll(turn.now, answer)])
              && (after.sampler.Disabled() <==> after.cell.Count() == 0)
            else after == before
  {
    CellHoldsLatestReading(interval, visibility, turns);
    assert (turns + [turn])[..|turns|] == turns;
    var s := RunWorker(FreshWorker(visibility), interval, visibility, turns).sampler;
    assert MustPoll(s.polls, interval, turn.now) <==> Due(s, interval, turn.now);
  }
}
