/** Choosing the job's cgroup and never leaving it (`cgroup.rs`). */
module Cgroup {
  import opened Prelude
  import opened Text

  const SLASH: char := '/'

  /** `s.trim_matches('/')`. */
  function TrimSlashes(s: string): string {
    TrimSlashesEnd(TrimSlashesStart(s))
  }

  function TrimSlashesStart(s: string): string {
    if s != "" && s[0] == SLASH then TrimSlashesStart(s[1..]) else s
  }

  function TrimSlashesEnd(s: string): string {
    if s != "" && s[|s| - 1] == SLASH then TrimSlashesEnd(s[..|s| - 1]) else s
  }

  /** `controller_is_job_scoped`: equal paths, or a textual prefix followed by a separator. */
  predicate JobScoped(controller: string, job: string) {
    var c, j := TrimSlashes(controller), TrimSlashes(job);
    c != "" && j != "" && (c == j || j + "/" <= c)
  }

  // ---------------------------------------------------------------------
  // Paths as lists of components
  // ---------------------------------------------------------------------

  predicate IsComponent(s: string) {
    s != "" && SLASH !in s
  }

  predicate AreComponents(parts: seq<string>) {
    forall i :: 0 <= i < |parts| ==> IsComponent(parts[i])
  }

  /** The normalised path with these components, the root being `/`. */
  function PathOf(parts: seq<string>): string {
    "/" + Join(parts, "/")
  }

  /** `path.split('/').filter(|s| !s.is_empty())`. */
  function Components(path: string): (parts: seq<string>)
    ensures AreComponents(parts)
  {
    JoinOfSplit(path, SLASH);
    NonEmptyOf(Split(path, SLASH))
  }

  predicate SlashFree(parts: seq<string>) {
    forall p :: p in parts ==> SLASH !in p
  }

  function NonEmptyOf(parts: seq<string>): (kept: seq<string>)
    requires SlashFree(parts)
    ensures AreComponents(kept)
  {
    if parts == [] then []
    else (if parts[0] == "" then [] else [parts[0]]) + NonEmptyOf(parts[1..])
  }

  lemma {:induction false} NonEmptyOfComponents(parts: seq<string>)
    requires AreComponents(parts)
    ensures SlashFree(parts) && NonEmptyOf(parts) == parts
  {
    if parts != [] {
      NonEmptyOfComponents(parts[1..]);
      assert parts == [parts[0]] + parts[1..];
    }
  }

  /** The parts of a text with one more character in front. */
  function InFront(c: char, parts: seq<string>, sep: char): seq<string>
    requires parts != []
  {
    if c == sep then [""] + parts else [[c] + parts[0]] + parts[1..]
  }

  lemma SplitOfCons(c: char, s: string, sep: char)
    ensures Split([c] + s, sep) == InFront(c, Split(s, sep), sep)
  {
    assert ([c] + s)[1..] == s;
  }

  lemma InFrontOfConcat(c: char, a: seq<string>, b: seq<string>, sep: char)
    requires a != []
    ensures InFront(c, a + b, sep) == InFront(c, a, sep) + b
  {
  }

  lemma ConsOfConcat(c: char, s: string, t: string, u: string)
    ensures [c] + s + t + u == [c] + (s + t + u)
  {
  }

  lemma SplitOfLonger(c: char, s: string, b: string, sep: char)
    requires Split(s + [sep] + b, sep) == Split(s, sep) + Split(b, sep)
    ensures Split([c] + s + [sep] + b, sep) == Split([c] + s, sep) + Split(b, sep)
  {
    SplitOfCons(c, s, sep);
    SplitOfCons(c, s + [sep] + b, sep);
    InFrontOfConcat(c, Split(s, sep), Split(b, sep), sep);
    ConsOfConcat(c, s, [sep], b);
  }

  lemma {:induction false} SplitOfConcat(a: string, b: string, sep: char)
    ensures Split(a + [sep] + b, sep) == Split(a, sep) + Split(b, sep)
    decreases |a|
  {
    if a == "" {
      assert a + [sep] + b == [sep] + b;
      SplitOfCons(sep, b, sep);
    } else {
      SplitOfConcat(a[1..], b, sep);
      SplitOfLonger(a[0], a[1..], b, sep);
      assert a == [a[0]] + a[1..];
    }
  }

  lemma {:induction false} JoinOfConcat(a: seq<string>, b: seq<string>, sep: string)
    requires a != [] && b != []
    ensures Join(a + b, sep) == Join(a, sep) + sep + Join(b, sep)
  {
    if |a| == 1 {
      assert (a + b)[1..] == b;
    } else {
      JoinOfConcat(a[1..], b, sep);
      assert (a + b)[1..] == a[1..] + b;
      assert a[0] + sep + (Join(a[1..], sep) + sep + Join(b, sep)) == a[0] + sep + Join(a[1..], sep) + sep + Join(b, sep);
    }
  }

  lemma {:induction false} JoinEnds(parts: seq<string>)
    requires parts != [] && AreComponents(parts)
    ensures var s := Join(parts, "/");
            s != "" && s[0] != SLASH && s[|s| - 1] != SLASH
  {
    assert IsComponent(parts[0]) && parts[0][0] in parts[0];
    if |parts| == 1 {
      assert parts[0][|parts[0]| - 1] in parts[0];
    } else {
      JoinEnds(parts[1..]);
      var tail := Join(parts[1..], "/");
      var s := Join(parts, "/");
      assert s[|s| - 1] == tail[|tail| - 1];
    }
  }

  lemma TrimOfPath(parts: seq<string>)
    requires AreComponents(parts)
    ensures TrimSlashes(PathOf(parts)) == Join(parts, "/")
    ensures Join(parts, "/") == "" <==> parts == []
  {
    var s := Join(parts, "/");
    if parts != [] {
      JoinEnds(parts);
    }
    assert PathOf(parts)[1..] == s;
    assert TrimSlashesStart(s) == s;
  }

  lemma SplitOfPath(parts: seq<string>)
    requires parts != [] && AreComponents(parts)
    ensures Split(Join(parts, "/"), SLASH) == parts
  {
    forall p | p in parts
      ensures SLASH !in p
    {
      var i :| 0 <= i < |parts| && parts[i] == p;
      assert IsComponent(parts[i]);
    }
    SplitOfJoin(parts, SLASH);
  }

  /** Reading the components of a normalised path gives them back. */
  lemma ComponentsOfPath(parts: seq<string>)
    requires AreComponents(parts)
    ensures Components(PathOf(parts)) == parts
  {
    var path := PathOf(parts);
    JoinOfSplit(path, SLASH);
    if parts == [] {
      assert path == "/" && path[1..] == "";
      assert Split(path, SLASH) == ["", ""];
      assert ["", ""][1..] == [""];
      assert [""][1..] == [];
    } else {
      SplitOfPath(parts);
      assert path[1..] == Join(parts, "/");
      assert Split(path, SLASH) == [""] + parts;
      NonEmptyOfComponents(parts);
      assert ([""] + parts)[1..] == parts;
    }
  }

  lemma TextPrefixIsPrefix(controller: seq<string>, job: seq<string>)
    requires AreComponents(controller) && AreComponents(job) && controller != [] && job != []
    requires Join(job, "/") + "/" <= Join(controller, "/")
    ensures job <= controller
  {
    SplitOfPath(controller);
    SplitOfPath(job);
    var c, j := Join(controller, "/"), Join(job, "/");
    var rest := c[|j| + 1..];
    assert c == j + [SLASH] + rest;
    SplitOfConcat(j, rest, SLASH);
    assert controller == job + Split(rest, SLASH);
  }

  lemma PrefixIsTextPrefix(controller: seq<string>, job: seq<string>)
    requires job != [] && job <= controller && job != controller
    ensures Join(job, "/") + "/" <= Join(controller, "/")
  {
    var below := controller[|job|..];
    assert controller == job + below;
    JoinOfConcat(job, below, "/");
  }

  lemma SameTextIsSamePath(controller: seq<string>, job: seq<string>)
    requires AreComponents(controller) && AreComponents(job) && controller != [] && job != []
    requires Join(job, "/") == Join(controller, "/")
    ensures job == controller
  {
    SplitOfPath(controller);
    SplitOfPath(job);
  }

  /** On normalised paths the textual test is exactly the component-wise prefix test. */
  lemma ScopedIsPrefix(controller: seq<string>, job: seq<string>)
    requires AreComponents(controller) && AreComponents(job)
    ensures JobScoped(PathOf(controller), PathOf(job)) <==> job != [] && job <= controller
  {
    TrimOfPath(controller);
    TrimOfPath(job);
    if JobScoped(PathOf(controller), PathOf(job)) {
      if Join(job, "/") == Join(controller, "/") {
        SameTextIsSamePath(controller, job);
      } else {
        TextPrefixIsPrefix(controller, job);
      }
    }
    if job != [] && job <= controller && job != controller {
      PrefixIsTextPrefix(controller, job);
    }
  }

  /** Being scoped to is a partial order on the cgroups below the root, which itself is never scoped. */
  lemma ScopedIsPartialOrder(a: seq<string>, b: seq<string>, c: seq<string>)
    requires AreComponents(a) && AreComponents(b) && AreComponents(c)
    ensures JobScoped(PathOf(a), PathOf(a)) <==> a != []
    ensures JobScoped(PathOf(a), PathOf(b)) && JobScoped(PathOf(b), PathOf(a)) ==> a == b
    ensures JobScoped(PathOf(a), PathOf(b)) && JobScoped(PathOf(b), PathOf(c)) ==> JobScoped(PathOf(a), PathOf(c))
    ensures !JobScoped(PathOf(a), PathOf([])) && !JobScoped(PathOf([]), PathOf(a))
  {
    ScopedIsPrefix(a, a);
    ScopedIsPrefix(a, b);
    ScopedIsPrefix(b, a);
    ScopedIsPrefix(b, c);
    ScopedIsPrefix(a, c);
    ScopedIsPrefix(a, []);
    ScopedIsPrefix([], a);
  }

  // ---------------------------------------------------------------------
  // The Slurm job root
  // ---------------------------------------------------------------------

  function LeadingDigits(s: string): string {
    if s != "" && IsDigit(s[0]) then [s[0]] + LeadingDigits(s[1..]) else ""
  }

  /** `job_id_key`. */
  function JobIdKey(jobId: string): string {
    if LeadingDigits(jobId) == "" then Trim(jobId) else LeadingDigits(jobId)
  }

  function JobComponent(jobId: string): string {
    "job_" + JobIdKey(jobId)
  }

  predicate HasNumericKey(jobId: string) {
    JobIdKey(jobId) != "" && AllDigits(JobIdKey(jobId))
  }

  /** The key is the number a job id starts with, or the trimmed id when it starts with none. */
  lemma KeyIsTheNumber(digits: string, rest: string)
    requires AllDigits(digits) && (rest == "" || !IsDigit(rest[0]))
    ensures JobIdKey(digits + rest) == if digits != "" then digits else Trim(rest)
  {
    LeadingDigitsStop(digits, rest);
    assert digits == "" ==> digits + rest == rest;
  }

  lemma {:induction false} LeadingDigitsStop(digits: string, rest: string)
    requires AllDigits(digits) && (rest == "" || !IsDigit(rest[0]))
    ensures LeadingDigits(digits + rest) == digits
  {
    if digits == "" {
      assert digits + rest == rest;
    } else {
      LeadingDigitsStop(digits[1..], rest);
      assert (digits + rest)[1..] == digits[1..] + rest;
      assert digits == [digits[0]] + digits[1..];
    }
  }

  /** `n` is the length of the shortest prefix that ends in exactly the job's component. */
  ghost predicate IsJobRoot(parts: seq<string>, jobId: string, n: nat) {
    && 0 < n <= |parts|
    && parts[n - 1] == JobComponent(jobId)
    && (forall k :: 0 <= k < n - 1 ==> parts[k] != JobComponent(jobId))
  }

  /**
   * `slurm_job_root_rel`: the shortest prefix of the path ending in exactly `job_<id>`,
   * and nothing exactly when no component is that or the id has no number.
   */
  method SlurmJobRoot(rel: string, jobId: string) returns (root: Option<string>)
    ensures root.Some? ==>
              HasNumericKey(jobId) &&
              exists n: nat :: IsJobRoot(Components(rel), jobId, n) && root.value == PathOf(Components(rel)[..n])
    ensures root.None? <==> !HasNumericKey(jobId) || JobComponent(jobId) !in Components(rel)
  {
    var key := JobIdKey(jobId);
    if key == "" || !AllDigits(key) {
      return None;
    }
    var parts := Components(rel);
    var components: seq<string> := [];
    for i := 0 to |parts|
      invariant components == parts[..i]
      invariant JobComponent(jobId) !in components
    {
      components := components + [parts[i]];
      assert parts[..i + 1] == parts[..i] + [parts[i]];
      if parts[i] == "job_" + key {
        assert IsJobRoot(parts, jobId, i + 1) && parts[i] in parts;
        return Some("/" + Join(components, "/"));
      }
    }
    assert parts[..|parts|] == parts;
    return None;
  }

  /**
   * From anywhere at or below a job's root, with any number of further components, the
   * search comes back to that same root, and the place it started from counts as scoped to
   * it; nothing above the root does.
   */
  lemma DescendantsResolveToRoot(parts: seq<string>, jobId: string, n: nat, below: seq<string>)
    requires AreComponents(parts) && AreComponents(below) && IsJobRoot(parts, jobId, n)
    ensures var inside := parts[..n] + below;
            && IsJobRoot(Components(PathOf(inside)), jobId, n)
            && Components(PathOf(inside))[..n] == parts[..n]
            && JobScoped(PathOf(inside), PathOf(parts[..n]))
    ensures forall k :: 0 <= k < n ==> !JobScoped(PathOf(parts[..k]), PathOf(parts[..n]))
  {
    var inside := parts[..n] + below;
    assert AreComponents(inside);
    ComponentsOfPath(inside);
    assert inside[..n] == parts[..n];
    ScopedIsPrefix(inside, parts[..n]);
    forall k | 0 <= k < n
      ensures !JobScoped(PathOf(parts[..k]), PathOf(parts[..n]))
    {
      ScopedIsPrefix(parts[..k], parts[..n]);
    }
  }
}
