/** Choosing among the cgroups a job may be in (`cgroup.rs`). */
module Ranking {
  import opened Prelude
  import opened Text
  import opened Sorting
  import opened Cgroup

  datatype Candidate = Candidate(source: string, content: string)

  /** `splitn(3, ':')`: the first two fields and whatever follows them. */
  function ThreeFields(line: string): Option<(string, string, string)> {
    match SplitOnce(line, ':')
    case None => None
    case Some((hierarchy, rest)) =>
      (match SplitOnce(rest, ':')
       case None => None
       case Some((controllers, path)) => Some((hierarchy, controllers, path)))
  }

  function V1Path(lines: seq<string>, controller: string): Option<string> {
    if lines == [] then None else
    match ThreeFields(lines[0])
    case None => None
    case Some((_, controllers, path)) =>
      if controller in Split(controllers, ',') then Some(path) else V1Path(lines[1..], controller)
  }

  function V2Path(lines: seq<string>): Option<string> {
    if lines == [] then None else
    match ThreeFields(lines[0])
    case None => None
    case Some((hierarchy, controllers, path)) =>
      if hierarchy == "0" && controllers == "" then Some(path) else V2Path(lines[1..])
  }

  /** `content.lines()`: a carriage return goes only together with the line feed after it. */
  function Lines(content: string): seq<string> {
    var parts := Split(content, '\n');
    var ended, last := parts[..|parts| - 1], parts[|parts| - 1];
    seq(|ended|, i requires 0 <= i < |ended| =>
      if ended[i] != "" && ended[i][|ended[i]| - 1] == '\r' then ended[i][..|ended[i]| - 1] else ended[i])
    + (if last == "" then [] else [last])
  }

  /** `representative_rel_path`. */
  function RepresentativePath(content: string): string {
    var lines := Lines(content);
    if V1Path(lines, "cpuacct").Some? then V1Path(lines, "cpuacct").value
    else if V1Path(lines, "cpu").Some? then V1Path(lines, "cpu").value
    else V2Path(lines).GetOr("")
  }

  predicate Contains(s: string, part: string) {
    exists i :: 0 <= i <= |s| && part <= s[i..]
  }

  predicate IsRootPath(rel: string) {
    TrimSlashes(rel) == ""
  }

  const ROOT_BUCKET: nat := 2

  function Bucket(rel: string, key: string): nat {
    if IsRootPath(rel) then ROOT_BUCKET
    else if key != "" && Contains(rel, key) then 0
    else 1
  }

  /** A candidate with what it is judged by. */
  datatype Scored = Scored(bucket: nat, depth: nat, index: nat, candidate: Candidate)

  function Score(candidates: seq<Candidate>, i: nat, key: string): Scored
    requires i < |candidates|
  {
    var rel := RepresentativePath(candidates[i].content);
    Scored(Bucket(rel, key), |Components(TrimSlashes(rel))|, i, candidates[i])
  }

  function Scores(candidates: seq<Candidate>, key: string): (scored: seq<Scored>)
    ensures |scored| == |candidates|
    ensures forall i :: 0 <= i < |candidates| ==> scored[i] == Score(candidates, i, key)
  {
    seq(|candidates|, i requires 0 <= i < |candidates| => Score(candidates, i, key))
  }

  /** Lower bucket first, then the deeper path, then the earlier candidate. */
  function Better(a: Scored, b: Scored): bool {
    || a.bucket < b.bucket
    || (a.bucket == b.bucket && a.depth > b.depth)
    || (a.bucket == b.bucket && a.depth == b.depth && a.index <= b.index)
  }

  function Ranked(candidates: seq<Candidate>, jobId: string): seq<Scored> {
    StableSort(Scores(candidates, JobIdKey(jobId)), Better)
  }

  /** A path that consists of separators only: the root, which is the whole node. */
  ghost predicate IsRoot(path: string) {
    forall c :: c in path ==> c == '/'
  }

  /** A path in which the job's key occurs. */
  ghost predicate NamesJob(path: string, key: string) {
    key != "" && exists before: string, after: string :: path == before + key + after
  }

  /** Both are roots, or both name the job, or both do neither. */
  ghost predicate SameKind(x: string, y: string, key: string) {
    (IsRoot(x) <==> IsRoot(y)) && (!IsRoot(x) ==> (NamesJob(x, key) <==> NamesJob(y, key)))
  }

  /**
   * What it takes for candidate `a` to stand before candidate `b`, by their paths alone: no
   * root before a path that is none; no path without the job's key before one with it; of
   * the same kind the one with more components first; and of equally many the earlier one.
   */
  ghost predicate MayPrecede(candidates: seq<Candidate>, key: string, a: nat, b: nat)
    requires a < |candidates| && b < |candidates|
  {
    var x, y := RepresentativePath(candidates[a].content), RepresentativePath(candidates[b].content);
    && (IsRoot(x) ==> IsRoot(y))
    && (!IsRoot(x) && !IsRoot(y) && NamesJob(y, key) ==> NamesJob(x, key))
    && (SameKind(x, y, key) ==> |Components(x)| >= |Components(y)|)
    && (SameKind(x, y, key) && |Components(x)| == |Components(y)| ==> a < b)
  }

  /** Every candidate once, each standing rightly before all those after it. */
  ghost predicate IsRanking(candidates: seq<Candidate>, key: string, order: seq<nat>, ranked: seq<Candidate>) {
    && |order| == |candidates| == |ranked|
    && (forall i :: 0 <= i < |order| ==> order[i] < |candidates| && ranked[i] == candidates[order[i]])
    && (forall i, j :: 0 <= i < j < |order| ==> order[i] != order[j] && MayPrecede(candidates, key, order[i], order[j]))
  }

  lemma {:induction false} OnlySlashes(s: string)
    ensures TrimSlashesStart(s) == "" <==> IsRoot(s)
  {
    if s != "" {
      assert s[0] in s;
      if s[0] == SLASH {
        OnlySlashes(s[1..]);
        assert forall c :: c in s <==> c == s[0] || c in s[1..];
      }
    }
  }

  lemma {:induction false} TrimEndKeepsFirst(s: string)
    requires s != "" && s[0] != SLASH
    ensures TrimSlashesEnd(s) != ""
  {
    if s[|s| - 1] == SLASH {
      TrimEndKeepsFirst(s[..|s| - 1]);
    }
  }

  lemma {:induction false} TrimStartStops(s: string)
    ensures TrimSlashesStart(s) == "" || TrimSlashesStart(s)[0] != SLASH
  {
    if s != "" && s[0] == SLASH {
      TrimStartStops(s[1..]);
    }
  }

  lemma RootsAreSlashes(path: string)
    ensures IsRootPath(path) <==> IsRoot(path)
  {
    OnlySlashes(path);
    TrimStartStops(path);
    if TrimSlashesStart(path) != "" {
      TrimEndKeepsFirst(TrimSlashesStart(path));
    }
  }

  lemma OccursAt(path: string, key: string, i: nat)
    requires key != "" && i <= |path| && key <= path[i..]
    ensures NamesJob(path, key)
  {
    var before, after := path[..i], path[i + |key|..];
    assert path == before + key + after;
  }

  lemma ContainsWhere(path: string, key: string, before: string, after: string)
    requires path == before + key + after
    ensures Contains(path, key)
  {
    assert path[|before|..] == key + after;
  }

  lemma ContainsMeansOccurs(path: string, key: string)
    ensures key != "" && Contains(path, key) <==> NamesJob(path, key)
  {
    if key != "" && Contains(path, key) {
      var i :| 0 <= i <= |path| && key <= path[i..];
      OccursAt(path, key, i);
    }
    if NamesJob(path, key) {
      var before: string, after: string :| path == before + key + after;
      ContainsWhere(path, key, before, after);
    }
  }

  lemma BucketsMean(x: string, y: string, key: string)
    ensures Bucket(x, key) <= Bucket(y, key)
            <==> (IsRoot(x) ==> IsRoot(y)) && (!IsRoot(x) && !IsRoot(y) && NamesJob(y, key) ==> NamesJob(x, key))
    ensures Bucket(x, key) == Bucket(y, key) <==> SameKind(x, y, key)
  {
    RootsAreSlashes(x);
    RootsAreSlashes(y);
    ContainsMeansOccurs(x, key);
    ContainsMeansOccurs(y, key);
  }

  lemma ComponentsAfterSlash(s: string)
    requires s != "" && s[0] == SLASH
    ensures Components(s) == Components(s[1..])
  {
    JoinOfSplit(s, SLASH);
    JoinOfSplit(s[1..], SLASH);
    assert Split(s, SLASH) == [""] + Split(s[1..], SLASH);
    assert ([""] + Split(s[1..], SLASH))[1..] == Split(s[1..], SLASH);
  }

  lemma NonEmptyOfCons(p: string, rest: seq<string>)
    requires SlashFree([p] + rest) && SlashFree(rest)
    ensures NonEmptyOf([p] + rest) == (if p == "" then [] else [p]) + NonEmptyOf(rest)
  {
    assert ([p] + rest)[1..] == rest;
  }

  lemma ConcatIsAssociative(a: seq<string>, b: seq<string>, c: seq<string>)
    ensures a + b + c == a + (b + c)
  {
  }

  lemma {:induction false} NonEmptyOfConcat(a: seq<string>, b: seq<string>)
    requires SlashFree(a) && SlashFree(b)
    ensures SlashFree(a + b)
    ensures NonEmptyOf(a + b) == NonEmptyOf(a) + NonEmptyOf(b)
    decreases |a|, 0
  {
    SlashFreeConcat(a, b);
    if a == [] {
      assert a + b == b;
    } else {
      var p, rest := a[0], a[1..];
      assert a == [p] + rest;
      ConcatIsAssociative([p], rest, b);
      NonEmptyOfLonger(p, rest, b);
    }
  }

  lemma {:induction false} NonEmptyOfLonger(p: string, rest: seq<string>, b: seq<string>)
    requires SlashFree([p] + rest) && SlashFree(b)
    ensures SlashFree([p] + (rest + b))
    ensures NonEmptyOf([p] + (rest + b)) == NonEmptyOf([p] + rest) + NonEmptyOf(b)
    decreases |rest|, 1
  {
    SlashFreeConcat([p], rest);
    SlashFreeConcat(rest, b);
    SlashFreeConcat([p], rest + b);
    NonEmptyOfConcat(rest, b);
    NonEmptyOfCons(p, rest);
    NonEmptyOfCons(p, rest + b);
    ConcatIsAssociative(if p == "" then [] else [p], NonEmptyOf(rest), NonEmptyOf(b));
  }

  lemma SlashFreeConcat(a: seq<string>, b: seq<string>)
    ensures SlashFree(a + b) <==> SlashFree(a) && SlashFree(b)
  {
    assert forall p :: p in a + b <==> p in a || p in b;
  }

  lemma ComponentsBeforeSlash(s: string)
    ensures Components(s + [SLASH]) == Components(s)
  {
    JoinOfSplit(s, SLASH);
    JoinOfSplit(s + [SLASH], SLASH);
    SplitOfConcat(s, "", SLASH);
    assert s + [SLASH] + "" == s + [SLASH];
    NonEmptyOfConcat(Split(s, SLASH), [""]);
    assert NonEmptyOf([""]) == [];
  }

  lemma {:induction false} ComponentsOfStart(s: string)
    ensures Components(TrimSlashesStart(s)) == Components(s)
  {
    if s != "" && s[0] == SLASH {
      ComponentsOfStart(s[1..]);
      ComponentsAfterSlash(s);
    }
  }

  lemma {:induction false} ComponentsOfEnd(s: string)
    ensures Components(TrimSlashesEnd(s)) == Components(s)
  {
    if s != "" && s[|s| - 1] == SLASH {
      ComponentsOfEnd(s[..|s| - 1]);
      ComponentsBeforeSlash(s[..|s| - 1]);
      assert s == s[..|s| - 1] + [SLASH];
    }
  }

  /** Separators at the ends do not count. */
  lemma ComponentsOfTrimmed(s: string)
    ensures Components(TrimSlashes(s)) == Components(s)
  {
    ComponentsOfStart(s);
    ComponentsOfEnd(TrimSlashesStart(s));
  }

  lemma BetterMayPrecede(candidates: seq<Candidate>, key: string, a: nat, b: nat)
    requires a < |candidates| && b < |candidates| && a != b
    requires Better(Score(candidates, a, key), Score(candidates, b, key))
    ensures MayPrecede(candidates, key, a, b)
  {
    var x, y := RepresentativePath(candidates[a].content), RepresentativePath(candidates[b].content);
    BucketsMean(x, y, key);
    ComponentsOfTrimmed(x);
    ComponentsOfTrimmed(y);
  }

  lemma RankedIsRanking(candidates: seq<Candidate>, jobId: string, ranked: seq<Candidate>)
    requires |ranked| == |Ranked(candidates, jobId)|
    requires forall i :: 0 <= i < |ranked| ==> ranked[i] == Ranked(candidates, jobId)[i].candidate
    ensures exists order: seq<nat> :: IsRanking(candidates, JobIdKey(jobId), order, ranked)
  {
    var key, best := JobIdKey(jobId), Ranked(candidates, jobId);
    RankingIsStable(candidates, jobId);
    var order: seq<nat> := seq(|best|, i requires 0 <= i < |best| => best[i].index);
    ScoredOrderIsRanking(candidates, key, best, order, ranked);
  }

  lemma ScoredOrderIsRanking(
    candidates: seq<Candidate>, key: string, best: seq<Scored>, order: seq<nat>, ranked: seq<Candidate>)
    requires multiset(best) == multiset(Scores(candidates, key))
    requires forall i, j :: 0 <= i < j < |best| ==> Better(best[i], best[j]) && best[i].index != best[j].index
    requires |order| == |ranked| == |best|
    requires forall i :: 0 <= i < |best| ==> order[i] == best[i].index && ranked[i] == best[i].candidate
    ensures IsRanking(candidates, key, order, ranked)
  {
    SameLength(best, Scores(candidates, key));
    forall i | 0 <= i < |best|
      ensures best[i].index < |candidates| && best[i] == Score(candidates, best[i].index, key)
    {
      RankedIsScored(Scores(candidates, key), best, candidates, key, i);
    }
    forall i, j | 0 <= i < j < |order|
      ensures order[i] != order[j] && MayPrecede(candidates, key, order[i], order[j])
    {
      assert Better(best[i], best[j]);
      BetterMayPrecede(candidates, key, order[i], order[j]);
    }
  }

  lemma SameLength(a: seq<Scored>, b: seq<Scored>)
    requires multiset(a) == multiset(b)
    ensures |a| == |b|
  {
    assert |multiset(a)| == |a| && |multiset(b)| == |b|;
  }

  lemma RankedIsScored(scored: seq<Scored>, best: seq<Scored>, candidates: seq<Candidate>, key: string, i: nat)
    requires scored == Scores(candidates, key) && multiset(best) == multiset(scored) && i < |best|
    ensures best[i].index < |candidates| && best[i] == Score(candidates, best[i].index, key)
  {
    assert best[i] in multiset(scored);
    var k :| 0 <= k < |scored| && scored[k] == best[i];
  }

  /** `rank_candidates`. */
  method RankCandidates(candidates: seq<Candidate>, jobId: string) returns (ranked: seq<Candidate>)
    ensures |ranked| == |candidates| == |Ranked(candidates, jobId)|
    ensures forall i :: 0 <= i < |ranked| ==> ranked[i] == Ranked(candidates, jobId)[i].candidate
    ensures exists order: seq<nat> :: IsRanking(candidates, JobIdKey(jobId), order, ranked)
  {
    var key := JobIdKey(jobId);
    var scored: seq<Scored> := [];
    for i := 0 to |candidates|
      invariant |scored| == i
      invariant forall k :: 0 <= k < i ==> scored[k] == Score(candidates, k, key)
    {
      scored := scored + [Score(candidates, i, key)];
    }
    assert scored == Scores(candidates, key);
    SortIsSortedPermutation(scored, Better);
    var order := StableSort(scored, Better);
    ranked := seq(|order|, i requires 0 <= i < |order| => order[i].candidate);
    RankedIsRanking(candidates, jobId, ranked);
  }

  /**
   * The ranking is a permutation of the candidates: a path naming the job precedes one
   * that does not, deeper paths come first among those, and equals keep their order.
   */
  lemma RankingIsStable(candidates: seq<Candidate>, jobId: string)
    ensures var ranked := Ranked(candidates, jobId);
            && multiset(ranked) == multiset(Scores(candidates, JobIdKey(jobId)))
            && (forall i, j :: 0 <= i < j < |ranked| ==>
                  Better(ranked[i], ranked[j]) && ranked[i].index != ranked[j].index)
  {
    var scored := Scores(candidates, JobIdKey(jobId));
    SortIsSortedPermutation(scored, Better);
    IndicesStayDistinct(scored, Ranked(candidates, jobId));
  }

  predicate RootCandidate(s: Scored) {
    IsRootPath(RepresentativePath(s.candidate.content))
  }

  /** A root cgroup, which is the whole node, never precedes any other candidate. */
  lemma RootsComeLast(candidates: seq<Candidate>, jobId: string, i: nat, j: nat)
    requires i < j < |Ranked(candidates, jobId)|
    requires RootCandidate(Ranked(candidates, jobId)[i])
    ensures RootCandidate(Ranked(candidates, jobId)[j])
  {
    var scored := Scores(candidates, JobIdKey(jobId));
    var ranked := Ranked(candidates, jobId);
    RankingIsStable(candidates, jobId);
    assert ranked[i] in multiset(scored) && ranked[j] in multiset(scored);
    assert Better(ranked[i], ranked[j]);
  }

  /** A permutation of a list of distinct elements still has distinct elements. */
  lemma IndicesStayDistinct(scored: seq<Scored>, ranked: seq<Scored>)
    requires forall i :: 0 <= i < |scored| ==> scored[i].index == i
    requires multiset(ranked) == multiset(scored)
    ensures forall i, j :: 0 <= i < j < |ranked| ==> ranked[i].index != ranked[j].index
  {
    forall i, j | 0 <= i < j < |ranked|
      ensures ranked[i].index != ranked[j].index
    {
      var x, y := ranked[i], ranked[j];
      assert x in multiset(scored) && y in multiset(scored);
      if x.index == y.index {
        assert x == y;
        TwiceInRanked(ranked, i, j);
        OnceInScored(scored, x);
      }
    }
  }

  lemma TwiceInRanked(s: seq<Scored>, i: nat, j: nat)
    requires i < j < |s| && s[i] == s[j]
    ensures multiset(s)[s[i]] >= 2
  {
    assert s == s[..i] + [s[i]] + s[i + 1..j] + [s[j]] + s[j + 1..];
  }

  lemma {:induction false} OnceInScored(s: seq<Scored>, x: Scored)
    requires forall i :: 0 <= i < |s| ==> s[i].index == i
    ensures multiset(s)[x] <= 1
  {
    if s != [] {
      var init := s[..|s| - 1];
      OnceInScored(init, x);
      assert s == init + [s[|s| - 1]];
      if s[|s| - 1] == x {
        assert x !in init;
      }
    }
  }

  // ---------------------------------------------------------------------
  // The path a candidate is judged by
  // ---------------------------------------------------------------------

  /** A line of a cgroup file. */
  datatype Entry = Entry(hierarchy: string, controllers: seq<string>, path: string) {
    predicate Valid() {
      && ':' !in hierarchy && '\n' !in hierarchy && '\n' !in path
      && (path == "" || path[|path| - 1] != '\r')
      && (forall c :: c in controllers ==> ':' !in c && ',' !in c && '\n' !in c && c != "")
    }

    function Print(): string {
      hierarchy + ":" + (Join(controllers, ",") + ":" + path)
    }

    /** On the unified hierarchy. */
    predicate Unified() {
      hierarchy == "0" && controllers == []
    }
  }

  ghost predicate AllValid(entries: seq<Entry>) {
    forall i :: 0 <= i < |entries| ==> entries[i].Valid()
  }

  function PrintEntries(entries: seq<Entry>): string {
    if entries == [] then "" else entries[0].Print() + "\n" + PrintEntries(entries[1..])
  }

  function PrintedLines(entries: seq<Entry>): (lines: seq<string>)
    ensures |lines| == |entries|
    ensures forall i :: 0 <= i < |entries| ==> lines[i] == entries[i].Print()
  {
    seq(|entries|, i requires 0 <= i < |entries| => entries[i].Print())
  }

  lemma {:induction false} JoinHasOnly(parts: seq<string>, sep: char, c: char)
    requires c != sep && forall p :: p in parts ==> c !in p
    ensures c !in Join(parts, [sep])
  {
    if |parts| > 1 {
      assert forall p :: p in parts[1..] ==> p in parts;
      JoinHasOnly(parts[1..], sep, c);
    } else if |parts| == 1 {
      assert parts[0] in parts;
    }
  }

  lemma EntryReadsBack(e: Entry)
    requires e.Valid()
    ensures ThreeFields(e.Print()) == Some((e.hierarchy, Join(e.controllers, ","), e.path))
  {
    JoinHasOnly(e.controllers, ',', ':');
    SplitOnceAtSeparator(e.hierarchy, Join(e.controllers, ",") + ":" + e.path, ':');
    SplitOnceAtSeparator(Join(e.controllers, ","), e.path, ':');
  }

  lemma ControllersReadBack(controllers: seq<string>, controller: string)
    requires forall c :: c in controllers ==> ',' !in c && c != ""
    requires controller != ""
    ensures controller in Split(Join(controllers, ","), ',') <==> controller in controllers
    ensures Join(controllers, ",") == "" <==> controllers == []
  {
    if controllers == [] {
      assert Split("", ',') == [""];
    } else {
      SplitOfJoin(controllers, ',');
      assert controllers[0] in controllers;
    }
  }

  /** The first of some entries that a test accepts. */
  function FirstPath(entries: seq<Entry>, accepts: Entry -> bool): Option<string> {
    if entries == [] then None
    else if accepts(entries[0]) then Some(entries[0].path)
    else FirstPath(entries[1..], accepts)
  }

  function Lists(controller: string): Entry -> bool {
    (e: Entry) => controller in e.controllers
  }

  function OnUnified(e: Entry): bool {
    e.Unified()
  }

  lemma {:induction false} V1PathOfLines(entries: seq<Entry>, controller: string)
    requires AllValid(entries) && controller != ""
    ensures V1Path(PrintedLines(entries), controller) == FirstPath(entries, Lists(controller))
  {
    if entries != [] {
      V1PathOfLines(entries[1..], controller);
      assert entries[0].Valid();
      EntryReadsBack(entries[0]);
      ControllersReadBack(entries[0].controllers, controller);
      assert PrintedLines(entries)[1..] == PrintedLines(entries[1..]);
    }
  }

  lemma {:induction false} V2PathOfLines(entries: seq<Entry>)
    requires AllValid(entries)
    ensures V2Path(PrintedLines(entries)) == FirstPath(entries, OnUnified)
  {
    if entries != [] {
      V2PathOfLines(entries[1..]);
      assert entries[0].Valid();
      EntryReadsBack(entries[0]);
      ControllersReadBack(entries[0].controllers, "cpu");
      assert PrintedLines(entries)[1..] == PrintedLines(entries[1..]);
    }
  }

  lemma EntryIsALine(e: Entry)
    requires e.Valid()
    ensures '\n' !in e.Print() && e.Print() != "" && e.Print()[|e.Print()| - 1] != '\r'
  {
    JoinHasOnly(e.controllers, ',', '\n');
    var text := e.Print();
    assert text[|text| - 1] == if e.path == "" then ':' else e.path[|e.path| - 1];
  }

  lemma {:induction false} SplitOfEntries(entries: seq<Entry>)
    requires AllValid(entries)
    ensures Split(PrintEntries(entries), '\n') == PrintedLines(entries) + [""]
  {
    if entries != [] {
      assert entries[0].Valid();
      EntryIsALine(entries[0]);
      SplitOfEntries(entries[1..]);
      SplitOfLine(entries[0].Print(), PrintEntries(entries[1..]), PrintedLines(entries[1..]));
      assert PrintedLines(entries) == [entries[0].Print()] + PrintedLines(entries[1..]);
    }
  }

  lemma SplitOfLine(line: string, rest: string, lines: seq<string>)
    requires '\n' !in line && Split(rest, '\n') == lines + [""]
    ensures Split(line + "\n" + rest, '\n') == [line] + lines + [""]
  {
    SplitAtSeparator(line, rest, '\n');
    assert [line] + (lines + [""]) == [line] + lines + [""];
  }

  lemma LinesOfParts(content: string, ended: seq<string>)
    requires Split(content, '\n') == ended + [""]
    requires forall i :: 0 <= i < |ended| ==> ended[i] != "" && ended[i][|ended[i]| - 1] != '\r'
    ensures Lines(content) == ended
  {
    var parts := ended + [""];
    assert parts[..|parts| - 1] == ended && parts[|parts| - 1] == "";
    assert ended + [] == ended;
  }

  lemma LinesOfEntries(entries: seq<Entry>)
    requires AllValid(entries)
    ensures Lines(PrintEntries(entries)) == PrintedLines(entries)
  {
    SplitOfEntries(entries);
    forall i | 0 <= i < |entries|
      ensures PrintedLines(entries)[i] != "" && PrintedLines(entries)[i][|PrintedLines(entries)[i]| - 1] != '\r'
    {
      assert entries[i].Valid();
      EntryIsALine(entries[i]);
    }
    LinesOfParts(PrintEntries(entries), PrintedLines(entries));
  }

  /**
   * On a cgroup file with any number of entries, the path a candidate is judged by is that
   * of the first entry for `cpuacct`, else of the first for `cpu`, else of the unified
   * hierarchy, and nothing when there is none of these.
   */
  lemma JudgedByCpuacctFirst(entries: seq<Entry>)
    requires AllValid(entries)
    ensures var acct, cpu := FirstPath(entries, Lists("cpuacct")), FirstPath(entries, Lists("cpu"));
            RepresentativePath(PrintEntries(entries))
            == if acct.Some? then acct.value else if cpu.Some? then cpu.value else FirstPath(entries, OnUnified).GetOr("")
  {
    LinesOfEntries(entries);
    V1PathOfLines(entries, "cpuacct");
    V1PathOfLines(entries, "cpu");
    V2PathOfLines(entries);
  }
}
