/** CPU lists such as `0-3,8,10-11` (`cgroup.rs`). */
module Cpuset {
  import opened Prelude
  import opened Text
  import opened Sorting

  /** What one comma-separated part of a list says. */
  datatype Part = Blank | Malformed | Range(low: nat, high: nat)

  function ReadPart(text: string): Part {
    var part := Trim(text);
    if part == "" then Blank else
    match SplitOnce(part, '-')
    case Some((a, b)) =>
      (match (ParseU32(Trim(a)), ParseU32(Trim(b)))
       case (Some(low), Some(high)) => if high < low then Malformed else Range(low, high)
       case _ => Malformed)
    case None =>
      (match ParseU32(part)
       case Some(cpu) => Range(cpu, cpu)
       case None => Malformed)
  }

  predicate Covers(part: Part, cpu: nat) {
    part.Range? && part.low <= cpu <= part.high
  }

  /** The parts of a whole list. */
  function PartsOf(s: string): seq<string> {
    Split(Trim(s), ',')
  }

  ghost predicate Written(parts: seq<string>, cpu: nat) {
    exists i :: 0 <= i < |parts| && Covers(ReadPart(parts[i]), cpu)
  }

  ghost predicate StrictlyIncreasing(cpus: seq<nat>) {
    forall i, j :: 0 <= i < j < |cpus| ==> cpus[i] < cpus[j]
  }

  ghost predicate NoneMalformed(parts: seq<string>) {
    forall i :: 0 <= i < |parts| ==> !ReadPart(parts[i]).Malformed?
  }

  /**
   * What reading a list must give: an error exactly when some part is malformed or no CPU
   * is written; otherwise the strictly increasing list of exactly the CPUs written.
   */
  ghost predicate IsReadingOf(s: string, r: Result<seq<nat>>) {
    var parts := PartsOf(s);
    match r
    case Err => !NoneMalformed(parts) || (forall cpu :: !Written(parts, cpu))
    case Ok(cpus) =>
      && NoneMalformed(parts)
      && cpus != []
      && StrictlyIncreasing(cpus)
      && (forall cpu :: cpu in cpus <==> Written(parts, cpu))
  }

  function AtMost(a: nat, b: nat): bool {
    a <= b
  }

  /** `cpus.dedup()` on a sorted list. */
  method Dedup(sorted: seq<nat>) returns (out: seq<nat>)
    requires SortedBy(sorted, AtMost)
    ensures StrictlyIncreasing(out)
    ensures forall x :: x in out <==> x in sorted
  {
    out := [];
    for i := 0 to |sorted|
      invariant StrictlyIncreasing(out)
      invariant forall x :: x in out <==> x in sorted[..i]
      invariant i > 0 ==> out != [] && out[|out| - 1] == sorted[i - 1]
    {
      if out == [] || out[|out| - 1] != sorted[i] {
        assert forall k :: 0 <= k < |out| ==> out[k] in out && out[k] in sorted[..i];
        assert forall x :: x in sorted[..i] ==> AtMost(x, sorted[i]);
        assert i > 0 ==> AtMost(sorted[i - 1], sorted[i]);
        out := out + [sorted[i]];
      }
      assert sorted[..i + 1] == sorted[..i] + [sorted[i]];
    }
    assert sorted[..|sorted|] == sorted;
  }

  /** `parse_cpuset_list`. */
  method ParseCpusetList(s: string) returns (r: Result<seq<nat>>)
    ensures IsReadingOf(s, r)
  {
    var parts := PartsOf(s);
    var cpus: seq<nat> := [];
    for i := 0 to |parts|
      invariant NoneMalformed(parts[..i])
      invariant forall cpu :: cpu in cpus <==> Written(parts[..i], cpu)
    {
      var part := ReadPart(parts[i]);
      assert parts[..i + 1] == parts[..i] + [parts[i]];
      WrittenGrows(parts[..i], parts[i]);
      match part
      case Blank =>
      case Malformed =>
        return Err;
      case Range(low, high) =>
        var range := seq(high + 1 - low, k requires k >= 0 => low + k);
        forall cpu | low <= cpu <= high
          ensures cpu in range
        {
          assert range[cpu - low] == cpu;
        }
        cpus := cpus + range;
    }
    assert parts[..|parts|] == parts;
    SortIsSortedPermutation(cpus, AtMost);
    ghost var sorted := StableSort(cpus, AtMost);
    assert forall x :: x in sorted <==> x in multiset(sorted);
    assert forall x :: x in cpus <==> x in multiset(cpus);
    cpus := Dedup(StableSort(cpus, AtMost));
    if cpus == [] {
      return Err;
    }
    r := Ok(cpus);
  }

  lemma WrittenGrows(parts: seq<string>, part: string)
    ensures forall cpu :: Written(parts + [part], cpu) <==> Written(parts, cpu) || Covers(ReadPart(part), cpu)
  {
    var all := parts + [part];
    forall cpu
      ensures Written(all, cpu) <==> Written(parts, cpu) || Covers(ReadPart(part), cpu)
    {
      if Written(parts, cpu) {
        var i :| 0 <= i < |parts| && Covers(ReadPart(parts[i]), cpu);
        assert all[i] == parts[i];
      }
      if Covers(ReadPart(part), cpu) {
        assert all[|parts|] == part;
      }
    }
  }

  // ---------------------------------------------------------------------
  // The canonical text and its reading
  // ---------------------------------------------------------------------

  /** The maximal runs of consecutive ids in an increasing list. */
  function Runs(cpus: seq<nat>): (runs: seq<(nat, nat)>)
    ensures cpus != [] ==> runs != [] && runs[|runs| - 1].1 == cpus[|cpus| - 1]
  {
    if cpus == [] then [] else Extend(Runs(cpus[..|cpus| - 1]), cpus[|cpus| - 1])
  }

  /** A further id either lengthens the last run by one or opens a run of its own. */
  function Extend(runs: seq<(nat, nat)>, cpu: nat): (longer: seq<(nat, nat)>)
    ensures longer != [] && longer[|longer| - 1].1 == cpu
  {
    if runs != [] && runs[|runs| - 1].1 + 1 == cpu then
      runs[..|runs| - 1] + [(runs[|runs| - 1].0, cpu)]
    else runs + [(cpu, cpu)]
  }

  function PrintRun(run: (nat, nat)): string {
    if run.0 == run.1 then Digits(run.0) else Digits(run.0) + "-" + Digits(run.1)
  }

  function PrintRuns(runs: seq<(nat, nat)>): (parts: seq<string>)
    ensures |parts| == |runs|
    ensures forall i :: 0 <= i < |runs| ==> parts[i] == PrintRun(runs[i])
  {
    seq(|runs|, i requires 0 <= i < |runs| => PrintRun(runs[i]))
  }

  /** The kernel's own way of writing a set of CPUs. */
  function PrintCpus(cpus: seq<nat>): string {
    Join(PrintRuns(Runs(cpus)), ",")
  }

  predicate InRun(run: (nat, nat), cpu: nat) {
    run.0 <= cpu <= run.1
  }

  /** No run is inverted, and none goes past `max`. */
  ghost predicate Upright(runs: seq<(nat, nat)>, max: nat) {
    forall i :: 0 <= i < |runs| ==> runs[i].0 <= runs[i].1 <= max
  }

  ghost predicate Bounded(cpus: seq<nat>, max: nat) {
    forall i :: 0 <= i < |cpus| ==> cpus[i] <= max
  }

  ghost predicate InRuns(runs: seq<(nat, nat)>, cpu: nat) {
    exists i :: 0 <= i < |runs| && InRun(runs[i], cpu)
  }

  lemma InRunsGrows(runs: seq<(nat, nat)>, run: (nat, nat), cpu: nat)
    ensures InRuns(runs + [run], cpu) <==> InRuns(runs, cpu) || InRun(run, cpu)
  {
    var all := runs + [run];
    if InRuns(runs, cpu) {
      var i :| 0 <= i < |runs| && InRun(runs[i], cpu);
      assert all[i] == runs[i];
    }
    if InRun(run, cpu) {
      assert all[|runs|] == run;
    }
  }

  lemma ExtendCovers(runs: seq<(nat, nat)>, last: nat, max: nat, cpu: nat)
    requires Upright(runs, max) && last <= max
    ensures Upright(Extend(runs, last), max)
    ensures InRuns(Extend(runs, last), cpu) <==> InRuns(runs, cpu) || cpu == last
  {
    if runs != [] && runs[|runs| - 1].1 + 1 == last {
      var front, run := runs[..|runs| - 1], runs[|runs| - 1];
      assert runs == front + [run];
      InRunsGrows(front, run, cpu);
      InRunsGrows(front, (run.0, last), cpu);
    } else {
      InRunsGrows(runs, (last, last), cpu);
    }
  }

  /** The runs cover exactly the list. */
  lemma {:induction false} RunsCover(cpus: seq<nat>, max: nat)
    requires Bounded(cpus, max)
    ensures Upright(Runs(cpus), max)
    ensures forall cpu :: cpu in cpus <==> InRuns(Runs(cpus), cpu)
  {
    if cpus != [] {
      var init, last := cpus[..|cpus| - 1], cpus[|cpus| - 1];
      RunsCover(init, max);
      ExtendCovers(Runs(init), last, max, 0);
      forall cpu
        ensures cpu in cpus <==> InRuns(Runs(cpus), cpu)
      {
        ExtendCovers(Runs(init), last, max, cpu);
        assert cpus == init + [last];
      }
    }
  }

  lemma NumeralReadsBack(n: nat)
    requires n <= U32_MAX
    ensures var d := Digits(n);
            ParseU32(d) == Some(n) && Trim(d) == d && IsTrimmed(d) && '-' !in d && ',' !in d
  {
    PaddedToNothing(n);
    ParseOfPadded(n, 0, U32_MAX);
    TrimOfTrimmed(Digits(n));
  }

  lemma PrintedRunReadsBack(run: (nat, nat))
    requires run.0 <= run.1 <= U32_MAX
    ensures ReadPart(PrintRun(run)) == Range(run.0, run.1)
    ensures IsTrimmed(PrintRun(run)) && PrintRun(run) != "" && ',' !in PrintRun(run)
  {
    var a, b := Digits(run.0), Digits(run.1);
    NumeralReadsBack(run.0);
    NumeralReadsBack(run.1);
    if run.0 == run.1 {
      SplitOnceWithoutSeparator(a, '-');
    } else {
      var text := a + "-" + b;
      assert text[0] == a[0] && text[|text| - 1] == b[|b| - 1];
      TrimOfTrimmed(text);
      SplitOnceAtSeparator(a, b, '-');
    }
  }

  lemma {:induction false} JoinIsTrimmed(parts: seq<string>)
    requires parts != []
    requires forall i :: 0 <= i < |parts| ==> IsTrimmed(parts[i]) && parts[i] != ""
    ensures IsTrimmed(Join(parts, ",")) && Join(parts, ",") != ""
    ensures Join(parts, ",")[0] == parts[0][0]
  {
    if |parts| > 1 {
      JoinIsTrimmed(parts[1..]);
      var tail := Join(parts[1..], ",");
      var text := Join(parts, ",");
      assert text[|text| - 1] == tail[|tail| - 1];
    }
  }

  lemma {:induction false} SameElementsSameList(a: seq<nat>, b: seq<nat>)
    requires StrictlyIncreasing(a) && StrictlyIncreasing(b)
    requires forall x :: x in a <==> x in b
    ensures a == b
  {
    if a != [] {
      assert a[0] in a;
    }
    if b != [] {
      assert b[0] in b;
    }
    if a != [] && b != [] {
      var x, y := a[|a| - 1], b[|b| - 1];
      assert x in a && y in b;
      assert x == y;
      var c, d := a[..|a| - 1], b[..|b| - 1];
      forall z
        ensures z in c <==> z in d
      {
        assert z in c <==> z in a && z < x;
        assert z in d <==> z in b && z < y;
      }
      SameElementsSameList(c, d);
      assert a == c + [x] && b == d + [y];
    }
  }

  lemma PrintedListSplits(cpus: seq<nat>)
    requires cpus != [] && Bounded(cpus, U32_MAX)
    ensures var runs := Runs(cpus);
            var parts := PartsOf(PrintCpus(cpus));
            && |parts| == |runs|
            && (forall i :: 0 <= i < |runs| ==> ReadPart(parts[i]) == Range(runs[i].0, runs[i].1))
  {
    var runs := Runs(cpus);
    var parts := PrintRuns(runs);
    RunsCover(cpus, U32_MAX);
    forall i | 0 <= i < |runs|
      ensures ReadPart(parts[i]) == Range(runs[i].0, runs[i].1)
      ensures IsTrimmed(parts[i]) && parts[i] != "" && ',' !in parts[i]
    {
      PrintedRunReadsBack(runs[i]);
    }
    JoinIsTrimmed(parts);
    TrimOfTrimmed(PrintCpus(cpus));
    SplitOfJoin(parts, ',');
  }

  lemma PartsCoverRuns(runs: seq<(nat, nat)>, parts: seq<string>, cpu: nat)
    requires |parts| == |runs|
    requires forall i :: 0 <= i < |runs| ==> ReadPart(parts[i]) == Range(runs[i].0, runs[i].1)
    ensures InRuns(runs, cpu) <==> Written(parts, cpu)
  {
    assert forall i :: 0 <= i < |runs| ==> (InRun(runs[i], cpu) <==> Covers(ReadPart(parts[i]), cpu));
  }

  lemma PrintedListIsWritten(cpus: seq<nat>, cpu: nat)
    requires cpus != [] && Bounded(cpus, U32_MAX)
    ensures cpu in cpus <==> Written(PartsOf(PrintCpus(cpus)), cpu)
  {
    RunsCover(cpus, U32_MAX);
    PrintedListSplits(cpus);
    PartsCoverRuns(Runs(cpus), PartsOf(PrintCpus(cpus)), cpu);
  }

  lemma PrintedListIsWellFormed(cpus: seq<nat>)
    requires cpus != [] && Bounded(cpus, U32_MAX)
    ensures NoneMalformed(PartsOf(PrintCpus(cpus)))
  {
    PrintedListSplits(cpus);
  }

  /**
   * Reading inverts the canonical printer: whatever reading the contract allows for the
   * printed text of a non-empty set of u32 ids, it is the set itself in increasing order.
   */
  lemma CpusetRoundTrips(cpus: seq<nat>, r: Result<seq<nat>>)
    requires cpus != [] && StrictlyIncreasing(cpus) && Bounded(cpus, U32_MAX)
    requires IsReadingOf(PrintCpus(cpus), r)
    ensures r == Ok(cpus)
  {
    PrintedListIsWellFormed(cpus);
    var text := PrintCpus(cpus);
    forall cpu
      ensures cpu in cpus <==> Written(PartsOf(text), cpu)
    {
      PrintedListIsWritten(cpus, cpu);
    }
    assert cpus[0] in cpus;
    assert Written(PartsOf(text), cpus[0]);
    if r.Ok? {
      SameElementsSameList(cpus, r.value);
    }
  }
}
