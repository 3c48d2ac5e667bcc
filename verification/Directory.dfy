/** Which files of the shared directory a merge reads (`merge.rs`, `manifest.rs`). */
module Directory {
  import opened Prelude
  import opened Sorting
  import opened Naming
  import opened Manifest
  import opened Summary
  import opened Merge

  /** What a merge can tell about a file: the `job_id` of its JSON text, and the summary it holds. */
  datatype FileInfo = FileInfo(isFile: bool, jobIdField: Option<string>, doc: Option<TelemetrySummary>)

  type Dir = map<string, FileInfo>

  /** Names are single components, and a summary's own job id is the field the scan reads. */
  ghost predicate Coherent(dir: Dir) {
    forall n :: n in dir ==>
      && FileName(n) == Some(n)
      && (dir[n].doc.Some? ==> dir[n].jobIdField == Some(dir[n].doc.value.info.jobId))
  }

  /** The part of `JobManifest` that a merge uses. */
  datatype JobManifest = JobManifest(jobId: string, files: seq<Entry>)

  /** The manifest is believed only when it names this very job. */
  predicate Trusted(manifest: Option<JobManifest>, jobId: string) {
    manifest.Some? && manifest.value.jobId == jobId
  }

  /** What all of a job's conventional file names start with. */
  function JobStem(jobId: string): string {
    "psutil_" + Sanitise(jobId)
  }

  /** `merged_summary_filename`. */
  function MergedName(jobId: string): string {
    JobStem(jobId) + SUMMARY_SUFFIX
  }

  predicate EndsWith(s: string, suffix: string) {
    |suffix| <= |s| && s[|s| - |suffix|..] == suffix
  }

  // ---------------------------------------------------------------------
  // What is to be found
  // ---------------------------------------------------------------------

  predicate IsPlainFile(dir: Dir, name: string) {
    FileName(name) == Some(name) && name in dir && dir[name].isFile
  }

  predicate NamedLikeSummary(name: string, jobId: string) {
    EndsWith(name, SUMMARY_SUFFIX) && name != MergedName(jobId)
  }

  /** By name or by content, a file that seems to belong to the job. */
  predicate LooksLikeOurs(dir: Dir, name: string, jobId: string)
    requires name in dir
  {
    NamedLikeSummary(name, jobId) && (JobStem(jobId) + "_" <= name || dir[name].jobIdField == Some(jobId))
  }

  ghost predicate Wanted(dir: Dir, manifest: Option<JobManifest>, jobId: string, name: string) {
    if Trusted(manifest, jobId) then
      IsPlainFile(dir, name) && exists i :: 0 <= i < |manifest.value.files| && manifest.value.files[i].summary == name
    else name in dir && LooksLikeOurs(dir, name, jobId)
  }

  ghost predicate StrictlySorted(names: seq<string>) {
    forall i, j :: 0 <= i < j < |names| ==> LexLess(names[i], names[j])
  }

  /** Exactly the wanted names, each once and in order. */
  ghost predicate IsFinding(dir: Dir, manifest: Option<JobManifest>, jobId: string, names: seq<string>) {
    StrictlySorted(names) && forall n :: n in names <==> Wanted(dir, manifest, jobId, n)
  }

  // ---------------------------------------------------------------------
  // Finding it
  // ---------------------------------------------------------------------

  predicate NotAfter(a: string, b: string) {
    !LexLess(b, a)
  }

  lemma NotAfterIsTotal()
    ensures TotalPreorder(NotAfter)
  {
    forall a, b
      ensures NotAfter(a, b) || NotAfter(b, a)
    {
      LexIsTotal(a, b);
    }
    forall a, b, c | NotAfter(a, b) && NotAfter(b, c)
      ensures NotAfter(a, c)
    {
      LexIsTotal(a, b);
      LexIsTotal(b, c);
      LexIsTotal(a, c);
      if LexLess(c, a) {
        if LexLess(a, b) {
          LexIsTransitive(c, a, b);
        }
      }
    }
  }

  lemma {:induction false} DistinctByCount(names: seq<string>)
    ensures Distinct(names) <==> forall x :: multiset(names)[x] <= 1
  {
    if names != [] {
      var init, last := names[..|names| - 1], names[|names| - 1];
      DistinctByCount(init);
      assert names == init + [last];
      assert multiset(names) == multiset(init) + multiset{last};
      assert last in init <==> last in multiset(init);
      if Distinct(names) {
        assert last !in init;
      }
      if forall x :: multiset(names)[x] <= 1 {
        assert multiset(names)[last] <= 1;
        assert forall x :: multiset(init)[x] <= multiset(names)[x];
      }
    }
  }

  lemma SortedDistinctIsStrict(names: seq<string>)
    requires SortedBy(names, NotAfter) && Distinct(names)
    ensures StrictlySorted(names)
  {
    forall i, j | 0 <= i < j < |names|
      ensures LexLess(names[i], names[j])
    {
      LexIsTotal(names[i], names[j]);
      assert NotAfter(names[i], names[j]);
    }
  }

  /** `found.sort()`, for names that occur once each. */
  lemma SortOfDistinct(names: seq<string>)
    requires Distinct(names)
    ensures StrictlySorted(StableSort(names, NotAfter))
    ensures forall x :: x in StableSort(names, NotAfter) <==> x in names
  {
    NotAfterIsTotal();
    SortIsSortedPermutation(names, NotAfter);
    var sorted := StableSort(names, NotAfter);
    DistinctByCount(names);
    DistinctByCount(sorted);
    SortedDistinctIsStrict(sorted);
    assert forall x :: x in sorted <==> x in multiset(sorted);
    assert forall x :: x in names <==> x in multiset(names);
  }

  /** `found.dedup()` after `found.sort()`. */
  method SortAndDedup(names: seq<string>) returns (out: seq<string>)
    ensures StrictlySorted(out)
    ensures forall x :: x in out <==> x in names
  {
    var sorted := StableSort(names, NotAfter);
    NotAfterIsTotal();
    SortIsSortedPermutation(names, NotAfter);
    out := [];
    for i := 0 to |sorted|
      invariant forall x :: x in out <==> x in sorted[..i]
      invariant if i == 0 then out == [] else out != [] && out[|out| - 1] == sorted[i - 1]
      invariant SortedBy(out, NotAfter) && Distinct(out)
    {
      if out == [] || out[|out| - 1] != sorted[i] {
        KeepsOrder(out, sorted, i);
        out := out + [sorted[i]];
      }
      assert sorted[..i + 1] == sorted[..i] + [sorted[i]];
    }
    assert sorted[..|sorted|] == sorted;
    SortedDistinctIsStrict(out);
    SameMembers(sorted, names);
  }

  lemma SameMembers(a: seq<string>, b: seq<string>)
    requires multiset(a) == multiset(b)
    ensures forall x :: x in a <==> x in b
  {
    assert forall x :: x in a <==> x in multiset(a);
    assert forall x :: x in b <==> x in multiset(b);
  }

  lemma KeepsOrder(out: seq<string>, sorted: seq<string>, i: nat)
    requires i < |sorted| && SortedBy(sorted, NotAfter)
    requires SortedBy(out, NotAfter) && Distinct(out)
    requires forall x :: x in out <==> x in sorted[..i]
    requires out != [] ==> i > 0 && out[|out| - 1] == sorted[i - 1] && out[|out| - 1] != sorted[i]
    ensures SortedBy(out + [sorted[i]], NotAfter) && Distinct(out + [sorted[i]])
  {
    forall k | 0 <= k < |out|
      ensures NotAfter(out[k], sorted[i]) && out[k] != sorted[i]
    {
      assert out[k] in sorted[..i];
      assert NotAfter(sorted[i - 1], sorted[i]);
      assert k < |out| - 1 ==> NotAfter(out[k], out[|out| - 1]);
      LexIsTotal(out[k], sorted[i]);
      LexIsTotal(sorted[i - 1], sorted[i]);
      LexIsTotal(out[k], sorted[i - 1]);
    }
  }

  /** What reading a directory gives: every name once, in no particular order. */
  ghost predicate IsListing(dir: Dir, listing: seq<string>) {
    Distinct(listing) && forall n :: n in listing <==> n in dir
  }

  /** The manifest's own entries, those that are plain files here. */
  method ListedFiles(dir: Dir, files: seq<Entry>) returns (found: seq<string>)
    ensures forall n :: n in found <==>
              IsPlainFile(dir, n) && exists i :: 0 <= i < |files| && files[i].summary == n
  {
    found := [];
    for k := 0 to |files|
      invariant forall n :: n in found <==> IsPlainFile(dir, n) && exists i :: 0 <= i < k && files[i].summary == n
    {
      var name := files[k].summary;
      if IsPlainFile(dir, name) {
        found := found + [name];
      }
    }
  }

  /** The directory's entries that look like the job's. */
  method ScannedFiles(dir: Dir, listing: seq<string>, jobId: string) returns (found: seq<string>)
    requires IsListing(dir, listing)
    ensures Distinct(found)
    ensures forall n :: n in found <==> n in dir && LooksLikeOurs(dir, n, jobId)
  {
    found := [];
    for k := 0 to |listing|
      invariant Distinct(found)
      invariant forall n :: n in found <==> n in listing[..k] && LooksLikeOurs(dir, n, jobId)
    {
      var name := listing[k];
      assert listing[..k + 1] == listing[..k] + [name];
      assert name in listing && name !in listing[..k];
      if LooksLikeOurs(dir, name, jobId) {
        assert forall i :: 0 <= i < |found| ==> found[i] in found;
        found := found + [name];
      }
    }
    assert listing[..|listing|] == listing;
  }

  /** `find_node_summaries`: by the manifest if it can be trusted, else by scanning. */
  method FindNodeSummaries(dir: Dir, listing: Option<seq<string>>, manifest: Option<JobManifest>, jobId: string)
    returns (r: Result<seq<string>>)
    requires listing.Some? ==> IsListing(dir, listing.value)
    ensures r.Err? <==> !Trusted(manifest, jobId) && listing.None?
    ensures r.Ok? ==> IsFinding(dir, manifest, jobId, r.value)
  {
    if manifest.Some? && manifest.value.jobId == jobId {
      var listed := ListedFiles(dir, manifest.value.files);
      var names := SortAndDedup(listed);
      return Ok(names);
    }
    if listing.None? {
      return Err;
    }
    var found := ScannedFiles(dir, listing.value, jobId);
    SortOfDistinct(found);
    r := Ok(StableSort(found, NotAfter));
  }

  // ---------------------------------------------------------------------
  // Loading it
  // ---------------------------------------------------------------------

  /** A file that holds a summary of exactly this job. */
  predicate Loads(dir: Dir, name: string, jobId: string) {
    name in dir && dir[name].doc.Some? && dir[name].doc.value.info.jobId == jobId
  }

  function LoadedFrom(dir: Dir, names: seq<string>, jobId: string): (docs: seq<TelemetrySummary>)
    ensures forall i :: 0 <= i < |docs| ==> docs[i].info.jobId == jobId
  {
    if names == [] then [] else
    var last := names[|names| - 1];
    LoadedFrom(dir, names[..|names| - 1], jobId) + (if Loads(dir, last, jobId) then [dir[last].doc.value] else [])
  }

  function FailedFrom(dir: Dir, names: seq<string>, jobId: string): seq<string> {
    if names == [] then [] else
    var last := names[|names| - 1];
    FailedFrom(dir, names[..|names| - 1], jobId) + (if Loads(dir, last, jobId) then [] else [last])
  }

  /** `load_node_summaries`: one unusable file never sinks the others. */
  method LoadNodeSummaries(dir: Dir, names: seq<string>, jobId: string)
    returns (docs: seq<TelemetrySummary>, failures: seq<string>)
    ensures docs == LoadedFrom(dir, names, jobId) && failures == FailedFrom(dir, names, jobId)
    ensures |docs| + |failures| == |names|
  {
    docs, failures := [], [];
    for k := 0 to |names|
      invariant docs == LoadedFrom(dir, names[..k], jobId) && failures == FailedFrom(dir, names[..k], jobId)
      invariant |docs| + |failures| == k
    {
      assert names[..k + 1][..k] == names[..k];
      if names[k] in dir && dir[names[k]].doc.Some? && dir[names[k]].doc.value.info.jobId == jobId {
        docs := docs + [dir[names[k]].doc.value];
      } else {
        failures := failures + [names[k]];
      }
    }
    assert names[..|names|] == names;
  }

  // ---------------------------------------------------------------------
  // What that means
  // ---------------------------------------------------------------------

  lemma HeadIsLeast(a: seq<string>, b: seq<string>)
    requires a != [] && b != [] && StrictlySorted(a) && StrictlySorted(b)
    requires forall x :: x in a <==> x in b
    ensures a[0] == b[0]
  {
    assert a[0] in b && b[0] in a;
    var i :| 0 <= i < |b| && b[i] == a[0];
    var j :| 0 <= j < |a| && a[j] == b[0];
    LexIsTotal(a[0], b[0]);
  }

  /** A finding does not depend on the order in which the directory was listed. */
  lemma {:induction false} SortedNamesAreDetermined(a: seq<string>, b: seq<string>)
    requires StrictlySorted(a) && StrictlySorted(b)
    requires forall x :: x in a <==> x in b
    ensures a == b
  {
    assert a != [] ==> a[0] in a;
    assert b != [] ==> b[0] in b;
    if a != [] {
      HeadIsLeast(a, b);
      forall x
        ensures x in a[1..] <==> x in b[1..]
      {
        TailOfSorted(a, x);
        TailOfSorted(b, x);
      }
      SortedNamesAreDetermined(a[1..], b[1..]);
      assert a == [a[0]] + a[1..] && b == [b[0]] + b[1..];
    }
  }

  lemma TailOfSorted(a: seq<string>, x: string)
    requires a != [] && StrictlySorted(a)
    ensures x in a[1..] <==> x in a && x != a[0]
  {
    LexIsTotal(a[0], a[0]);
    assert a == [a[0]] + a[1..];
  }

  lemma FindingIsDetermined(dir: Dir, manifest: Option<JobManifest>, jobId: string, a: seq<string>, b: seq<string>)
    requires IsFinding(dir, manifest, jobId, a) && IsFinding(dir, manifest, jobId, b)
    ensures a == b
  {
    SortedNamesAreDetermined(a, b);
  }

  /**
   * Without a manifest, what is loaded is exactly the readable summaries of this very job,
   * whatever the files are called, except one under the merge's own name: neighbouring job
   * ids are never confused, and the conventional prefix only adds files to complain about.
   */
  lemma ScanLoadsExactlyTheJob(dir: Dir, manifest: Option<JobManifest>, jobId: string, names: seq<string>, n: string)
    requires Coherent(dir) && !Trusted(manifest, jobId) && IsFinding(dir, manifest, jobId, names)
    ensures n in names && Loads(dir, n, jobId) <==> Loads(dir, n, jobId) && NamedLikeSummary(n, jobId)
  {
  }

  /** A name listed by a manifest is never a path out of the merge directory. */
  lemma FoundNamesStayInside(dir: Dir, manifest: Option<JobManifest>, jobId: string, names: seq<string>, n: string)
    requires Coherent(dir) && IsFinding(dir, manifest, jobId, names) && n in names
    ensures n in dir && '/' !in n && Ordinary(n)
  {
    assert Wanted(dir, manifest, jobId, n);
    FileNameIsOrdinary(n);
  }

  lemma SameStem(a: string, b: string)
    ensures a + SUMMARY_SUFFIX == b + SUMMARY_SUFFIX <==> a == b
    ensures EndsWith(a + SUMMARY_SUFFIX, SUMMARY_SUFFIX)
  {
    SuffixIsInjective(a, b);
  }

  /**
   * The scan finds the summary that a logger wrote beside its output exactly when the
   * output's base name is not `psutil_<job id>`, for then the summary bears the name of
   * the merged result.
   */
  lemma ScanFindsLoggerUnless(dir: Dir, manifest: Option<JobManifest>, jobId: string, outfile: string, name: string)
    requires !Trusted(manifest, jobId)
    requires FileName(DefaultSummaryPath(outfile)) == Some(name)
    requires name in dir && dir[name].jobIdField == Some(jobId)
    ensures Wanted(dir, manifest, jobId, name) <==> FileName(outfile).GetOr("") != JobStem(jobId)
  {
    SummaryBaseName(outfile);
    SameStem(FileName(outfile).GetOr(""), JobStem(jobId));
  }

  /** With the manifest of the job, a merge reads exactly what the loggers on its hosts have published. */
  lemma ManifestFindsTheLoggers(dir: Dir, output: string, hosts: seq<string>, jobId: string, user: string, name: string)
    requires forall rank :: 0 <= rank < |hosts| ==> FileName(Expand(output, hosts[rank], jobId, user)).Some?
    ensures Wanted(dir, Some(JobManifest(jobId, BuildManifest(output, hosts, jobId, user))), jobId, name)
            <==> && IsPlainFile(dir, name)
                 && exists rank: nat :: rank < |hosts|
                      && FileName(SummaryPath(None, output, hosts[rank], jobId, user)) == Some(name)
  {
    var files := BuildManifest(output, hosts, jobId, user);
    forall rank: nat | rank < |hosts|
      ensures FileName(SummaryPath(None, output, hosts[rank], jobId, user)) == Some(files[rank].summary)
    {
      ManifestAgreesWithLoggers(output, hosts, rank, jobId, user);
    }
  }

  /** The job's manifest lists a node's summary under the name of the merged result. */
  predicate ListsMerged(manifest: Option<JobManifest>, jobId: string) {
    Trusted(manifest, jobId) &&
    exists i :: 0 <= i < |manifest.value.files| && manifest.value.files[i].summary == MergedName(jobId)
  }

  lemma MergedNameIsPlain(jobId: string)
    ensures FileName(MergedName(jobId)) == Some(MergedName(jobId))
  {
    SanitisedIsSafe(jobId);
    SafeHasNoBraces(Sanitise(jobId));
    assert forall i :: 0 <= i < |"psutil_"| ==> "psutil_"[i] != '/';
    SuffixedIsOrdinary(JobStem(jobId));
    FileNameOfOrdinary("", MergedName(jobId));
    assert "" + MergedName(jobId) == MergedName(jobId);
  }

  lemma MergedIsWantedWhenListed(dir: Dir, merged: FileInfo, manifest: Option<JobManifest>, jobId: string)
    requires merged.isFile
    ensures Wanted(dir[MergedName(jobId) := merged], manifest, jobId, MergedName(jobId)) <==> ListsMerged(manifest, jobId)
  {
    MergedNameIsPlain(jobId);
  }

  lemma OtherNamesStayWanted(dir: Dir, merged: FileInfo, manifest: Option<JobManifest>, jobId: string, n: string)
    requires n != MergedName(jobId)
    ensures Wanted(dir[MergedName(jobId) := merged], manifest, jobId, n)
            <==> Wanted(dir - {MergedName(jobId)}, manifest, jobId, n)
  {
    var again, without := dir[MergedName(jobId) := merged], dir - {MergedName(jobId)};
    assert (n in again <==> n in without) && (n in without ==> again[n] == without[n]);
  }

  /**
   * Merging again finds just the files that are there without the merged result, if and only
   * if no trusted manifest lists a node's summary under the merged result's name.
   */
  lemma MergedResultIsNotFound(dir: Dir, merged: FileInfo, manifest: Option<JobManifest>, jobId: string)
    requires merged.isFile
    ensures (forall n :: Wanted(dir[MergedName(jobId) := merged], manifest, jobId, n)
                         <==> Wanted(dir - {MergedName(jobId)}, manifest, jobId, n))
            <==> !ListsMerged(manifest, jobId)
  {
    MergedIsWantedWhenListed(dir, merged, manifest, jobId);
    assert !Wanted(dir - {MergedName(jobId)}, manifest, jobId, MergedName(jobId));
    forall n | n != MergedName(jobId)
      ensures Wanted(dir[MergedName(jobId) := merged], manifest, jobId, n)
              <==> Wanted(dir - {MergedName(jobId)}, manifest, jobId, n)
    {
      OtherNamesStayWanted(dir, merged, manifest, jobId, n);
    }
  }

  /** Where it does list it, the merge writes over that node's summary, and reads its own result back the next time. */
  lemma MergeOverwritesNode(dir: Dir, merged: FileInfo, manifest: Option<JobManifest>, jobId: string, names: seq<string>)
    requires merged.isFile && merged.doc.None? && ListsMerged(manifest, jobId)
    requires IsFinding(dir[MergedName(jobId) := merged], manifest, jobId, names)
    ensures MergedName(jobId) in names && !Loads(dir[MergedName(jobId) := merged], MergedName(jobId), jobId)
  {
    MergedIsWantedWhenListed(dir, merged, manifest, jobId);
  }

  lemma LastOfLiteral(text: string, stem: string)
    requires '/' in text && LastSegment(text) == stem
    ensures LastTokens([Literal(text)]) == [Literal(stem)]
  {
    assert [Literal(text)] == [] + [Literal(text)];
    LastTokensOfAppend([], Literal(text));
  }

  lemma LastOfStem(dir: string, stem: string, text: string)
    requires text == dir + stem && dir != "" && dir[|dir| - 1] == '/' && '/' !in stem
    ensures LastTokens([Literal(text), JobId]) == [Literal(stem), JobId]
  {
    assert text[|dir| - 1] == '/';
    LastSegmentIs(dir, stem);
    LastOfLiteral(text, stem);
    assert [Literal(text), JobId] == [Literal(text)] + [JobId];
    LastTokensOfAppend([Literal(text)], JobId);
  }

  lemma StemTemplate()
    ensures LastTokens([Literal("out/psutil_"), JobId]) == [Literal("psutil_"), JobId]
    ensures WellFormed([Literal("out/psutil_"), JobId])
  {
    StemParts("out/", "psutil_", "out/psutil_");
    LastOfStem("out/", "psutil_", "out/psutil_");
  }

  lemma StemParts(dir: string, stem: string, text: string)
    requires dir == "out/" && stem == "psutil_" && text == "out/psutil_"
    ensures text == dir + stem && dir[|dir| - 1] == '/' && '/' !in stem && NoBraces(text)
  {
    assert forall i :: 0 <= i < |stem| ==> stem[i] != '/';
  }

  lemma StemIsName(h: string, j: string, u: string)
    requires j != ""
    ensures Substitute([Literal("psutil_"), JobId], h, j, u) == "psutil_" + j && Ordinary("psutil_" + j)
  {
    assert [Literal("psutil_"), JobId] == [Literal("psutil_")] + [JobId];
    SubstituteAppend([Literal("psutil_")], [JobId], h, j, u);
    SingleToken(Literal("psutil_"), h, j, u);
    SingleToken(JobId, h, j, u);
    assert |"psutil_" + j| > 2;
  }

  /** The output `out/psutil_{jobid}` is such a case, on every host. */
  lemma OutputNamedAfterJob(hosts: seq<string>, rank: nat, jobId: string, user: string)
    requires rank < |hosts|
    ensures var output := Render([Literal("out/psutil_"), JobId]);
            var files := BuildManifest(output, hosts, jobId, user);
            && files[rank].summary == MergedName(jobId)
            && ListsMerged(Some(JobManifest(jobId, files)), jobId)
  {
    var template := [Literal("out/psutil_"), JobId];
    var files := BuildManifest(Render(template), hosts, jobId, user);
    StemTemplate();
    SanitisedIsSafe(jobId);
    StemIsName(Sanitise(hosts[rank]), Sanitise(jobId), Sanitise(user));
    LastSegmentCommutes(template, hosts[rank], jobId, user);
    OrdinaryPathNames(Expand(Render(template), hosts[rank], jobId, user));
    assert files[rank].summary == MergedName(jobId);
  }
}
