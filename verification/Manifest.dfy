/** The job manifest and the paths the loggers write (`manifest.rs`, `cli.rs`, `logger-rs.sh`). */
module Manifest {
  import opened Prelude
  import opened Naming

  const SUMMARY_SUFFIX: string := ".summary.json"

  // ---------------------------------------------------------------------
  // The logger's side
  // ---------------------------------------------------------------------

  /** A path without the trailing separators and `/.` that do not count as components. */
  function Stripped(path: string): string {
    if |path| > 1 && path[|path| - 1] == '/' then Stripped(path[..|path| - 1])
    else if |path| > 1 && path[|path| - 2] == '/' && path[|path| - 1] == '.' then Stripped(path[..|path| - 1])
    else path
  }

  /** `Path::with_file_name`, up to the spelling of separators. */
  function WithFileName(path: string, name: string): string {
    if FileName(path).Some? then DirPart(Stripped(path)) + name
    else if path == "" || path[|path| - 1] == '/' then path + name
    else path + "/" + name
  }

  /** `default_summary_path`. */
  function DefaultSummaryPath(outfile: string): string {
    WithFileName(outfile, FileName(outfile).GetOr("") + SUMMARY_SUFFIX)
  }

  /** `Args::summary_path`: an explicit summary option wins over the derived path. */
  function SummaryPath(explicit: Option<string>, output: string, host: string, jobId: string, user: string): string {
    match explicit
    case Some(template) => Expand(template, host, jobId, user)
    case None => DefaultSummaryPath(Expand(output, host, jobId, user))
  }

  // ---------------------------------------------------------------------
  // The manifest's side
  // ---------------------------------------------------------------------

  datatype Entry = Entry(hostname: string, nodeRank: nat, log: string, summary: string)

  function EntryFor(output: string, hosts: seq<string>, rank: nat, jobId: string, user: string): Entry
    requires rank < |hosts|
  {
    var log := FileNameOf(Expand(output, hosts[rank], jobId, user));
    Entry(hosts[rank], rank, log, log + SUMMARY_SUFFIX)
  }

  /** The `files` list of `build_manifest`. */
  function BuildManifest(output: string, hosts: seq<string>, jobId: string, user: string): (files: seq<Entry>)
    ensures |files| == |hosts|
  {
    seq(|hosts|, rank requires 0 <= rank < |hosts| => EntryFor(output, hosts, rank, jobId, user))
  }

  // ---------------------------------------------------------------------
  // Agreement
  // ---------------------------------------------------------------------

  lemma SuffixedIsOrdinary(name: string)
    requires '/' !in name
    ensures Ordinary(name + SUMMARY_SUFFIX) && '/' !in name + SUMMARY_SUFFIX
  {
    assert |name + SUMMARY_SUFFIX| > 2;
    assert forall i :: 0 <= i < |SUMMARY_SUFFIX| ==> SUMMARY_SUFFIX[i] != '/';
  }

  lemma FileNameAfterWith(path: string, name: string)
    requires Ordinary(name) && '/' !in name
    ensures FileName(WithFileName(path, name)) == Some(name)
  {
    LastSegmentSplits(Stripped(path));
    FileNameOfOrdinary(DirPart(Stripped(path)), name);
    if path == "" || path[|path| - 1] == '/' {
      FileNameOfOrdinary(path, name);
    } else {
      FileNameOfOrdinary(path + "/", name);
    }
  }

  /** The summary's base name is the log's with the suffix, or the bare suffix when there is none. */
  lemma SummaryBaseName(outfile: string)
    ensures FileName(DefaultSummaryPath(outfile)) == Some(FileName(outfile).GetOr("") + SUMMARY_SUFFIX)
  {
    FileNameIsOrdinary(outfile);
    SuffixedIsOrdinary(FileName(outfile).GetOr(""));
    FileNameAfterWith(outfile, FileName(outfile).GetOr("") + SUMMARY_SUFFIX);
  }

  /**
   * For every template and every list of hosts: the manifest has one entry per host, in
   * order, and that entry names exactly the files the logger on that host writes, if and
   * only if the logger's output path ends in a file name at all.
   */
  lemma ManifestAgreesWithLoggers(output: string, hosts: seq<string>, rank: nat, jobId: string, user: string)
    requires rank < |hosts|
    ensures var entry := BuildManifest(output, hosts, jobId, user)[rank];
            var outfile := Expand(output, hosts[rank], jobId, user);
            var summary := SummaryPath(None, output, hosts[rank], jobId, user);
            && entry.hostname == hosts[rank] && entry.nodeRank == rank
            && (FileName(outfile) == Some(entry.log) && FileName(summary) == Some(entry.summary)
                <==> FileName(outfile).Some?)
  {
    SummaryBaseName(Expand(output, hosts[rank], jobId, user));
  }

  lemma OrdinaryPathNames(path: string)
    requires Ordinary(LastSegment(path))
    ensures FileName(path) == Some(LastSegment(path))
    ensures FileName(DefaultSummaryPath(path)) == Some(LastSegment(path) + SUMMARY_SUFFIX)
  {
    LastSegmentSplits(path);
    FileNameOfOrdinary(DirPart(path), LastSegment(path));
    SummaryBaseName(path);
  }

  /** In particular whenever the expanded last component is an ordinary name, and then both names come from it. */
  lemma ManifestNamesComeFromLastComponent(
    template: seq<Token>, hosts: seq<string>, rank: nat, jobId: string, user: string)
    requires WellFormed(template) && rank < |hosts|
    requires Ordinary(Expand(LastSegment(Render(template)), hosts[rank], jobId, user))
    ensures var entry := BuildManifest(Render(template), hosts, jobId, user)[rank];
            var name := Expand(LastSegment(Render(template)), hosts[rank], jobId, user);
            && entry.log == name && entry.summary == name + SUMMARY_SUFFIX
            && FileName(Expand(Render(template), hosts[rank], jobId, user)) == Some(name)
            && FileName(SummaryPath(None, Render(template), hosts[rank], jobId, user)) == Some(name + SUMMARY_SUFFIX)
  {
    var path := Expand(Render(template), hosts[rank], jobId, user);
    LastSegmentCommutes(template, hosts[rank], jobId, user);
    OrdinaryPathNames(path);
  }

  lemma {:induction false} HostFreeSubstitute(template: seq<Token>, h1: string, h2: string, j: string, u: string)
    requires Host !in template
    ensures Substitute(template, h1, j, u) == Substitute(template, h2, j, u)
  {
    if template != [] {
      assert template[0] in template;
      HostFreeSubstitute(template[1..], h1, h2, j, u);
    }
  }

  /**
   * Two nodes whose names differ after sanitising are told different files if and only if the
   * template's last component names the host, whenever their last components are ordinary.
   */
  lemma ManifestNamesAreDistinct(template: seq<Token>, hosts: seq<string>, i: nat, j: nat, jobId: string, user: string)
    requires WellFormed(template)
    requires i < |hosts| && j < |hosts| && Sanitise(hosts[i]) != Sanitise(hosts[j])
    requires Ordinary(LastSegment(Expand(Render(template), hosts[i], jobId, user)))
    requires Ordinary(LastSegment(Expand(Render(template), hosts[j], jobId, user)))
    ensures var files := BuildManifest(Render(template), hosts, jobId, user);
            && (files[i].log != files[j].log <==> Host in LastTokens(template))
            && (files[i].summary != files[j].summary <==> Host in LastTokens(template))
  {
    var files := BuildManifest(Render(template), hosts, jobId, user);
    SuffixIsInjective(files[i].log, files[j].log);
    if Host in LastTokens(template) {
      HostsGetDifferentNames(template, hosts[i], hosts[j], jobId, user);
    } else {
      HostFreeSubstitute(LastTokens(template), Sanitise(hosts[i]), Sanitise(hosts[j]), Sanitise(jobId), Sanitise(user));
      LastSegmentCommutes(template, hosts[i], jobId, user);
      LastSegmentCommutes(template, hosts[j], jobId, user);
      OrdinaryPathNames(Expand(Render(template), hosts[i], jobId, user));
      OrdinaryPathNames(Expand(Render(template), hosts[j], jobId, user));
    }
  }

  lemma SuffixIsInjective(a: string, b: string)
    ensures a + SUMMARY_SUFFIX == b + SUMMARY_SUFFIX ==> a == b
  {
    assert (a + SUMMARY_SUFFIX)[..|a|] == a;
    assert (b + SUMMARY_SUFFIX)[..|b|] == b;
  }

  // ---------------------------------------------------------------------
  // The wrapper's own template
  // ---------------------------------------------------------------------

  /** `${output%.*}` and `${output##*.}`: what stands before and after the last dot. */
  function AfterLastDot(s: string): string {
    if s == "" || s[|s| - 1] == '.' then "" else AfterLastDot(s[..|s| - 1]) + [s[|s| - 1]]
  }

  function BeforeLastDot(s: string): string
    requires '.' in s
  {
    if s[|s| - 1] == '.' then s[..|s| - 1] else BeforeLastDot(s[..|s| - 1])
  }

  /** The output template of a multi-node job that did not mention the host (logger-rs.sh). */
  function WrapperOutput(output: string): string {
    if '.' in output then BeforeLastDot(output) + "_" + "{host}" + "." + AfterLastDot(output)
    else output + "_" + "{host}"
  }

  lemma {:induction false} LastDotSplits(x: string, y: string)
    requires '.' !in y
    ensures BeforeLastDot(x + "." + y) == x && AfterLastDot(x + "." + y) == y
  {
    var s := x + "." + y;
    if y == "" {
      assert s == x + ".";
    } else {
      var init := y[..|y| - 1];
      LastDotSplits(x, init);
      assert s[..|s| - 1] == x + "." + init;
      assert y[|y| - 1] in y;
      assert y == init + [y[|y| - 1]];
    }
  }

  /** The pieces of the rewritten template, for one whose last dot stands between `x` and `y`. */
  function WithHost(before: seq<Token>, x: string, y: string, after: seq<Token>): seq<Token> {
    before + [Literal(x + "_"), Host, Literal("." + y)] + after
  }

  lemma SeparatorIn(init: seq<Token>, last: Token)
    ensures '/' in Render(init + [last]) <==> '/' in Render(init) || (last.Literal? && '/' in last.text)
  {
    RenderAppend(init, [last]);
    SingleToken(last, "", "", "");
    if !last.Literal? {
      HoleHasNoSeparator(last);
    }
  }

  predicate HasSeparator(template: seq<Token>) {
    template != [] &&
    (HasSeparator(template[..|template| - 1])
     || (template[|template| - 1].Literal? && '/' in template[|template| - 1].text))
  }

  lemma {:induction false} SeparatorInRender(template: seq<Token>)
    ensures HasSeparator(template) <==> '/' in Render(template)
  {
    if template != [] {
      var init, last := template[..|template| - 1], template[|template| - 1];
      SeparatorInRender(init);
      SeparatorIn(init, last);
      assert template == init + [last];
    }
  }

  lemma SeparatorInAppend(init: seq<Token>, last: Token)
    ensures HasSeparator(init + [last]) <==> HasSeparator(init) || (last.Literal? && '/' in last.text)
  {
    assert (init + [last])[..|init|] == init;
  }

  /** The last tokens after one more, from those before it. */
  function OneMore(last: Token, before: seq<Token>): seq<Token> {
    if last.Literal? && '/' in last.text then [Literal(LastSegment(last.text))] else before + [last]
  }

  lemma OneMoreOf(whole: seq<Token>, part: seq<Token>, front: seq<Token>, init: seq<Token>, last: Token, separated: bool)
    requires whole == if separated then part else front + init
    ensures OneMore(last, whole)
            == if separated || (last.Literal? && '/' in last.text) then OneMore(last, part) else front + (init + [last])
  {
    assert front + init + [last] == front + (init + [last]);
  }

  lemma LastTokensOfLonger(a: seq<Token>, init: seq<Token>, last: Token)
    requires LastTokens(a + init) == if HasSeparator(init) then LastTokens(init) else LastTokens(a) + init
    ensures var b := init + [last];
            LastTokens(a + init + [last]) == if HasSeparator(b) then LastTokens(b) else LastTokens(a) + b
  {
    OneMoreOf(LastTokens(a + init), LastTokens(init), LastTokens(a), init, last, HasSeparator(init));
    LastTokensOfAppend(a + init, last);
    LastTokensOfAppend(init, last);
    SeparatorInAppend(init, last);
  }

  ghost predicate JoinsAt(a: seq<Token>, b: seq<Token>, ab: seq<Token>) {
    LastTokens(ab) == if HasSeparator(b) then LastTokens(b) else LastTokens(a) + b
  }

  lemma JoinsLonger(a: seq<Token>, init: seq<Token>, last: Token, b: seq<Token>, ab: seq<Token>)
    requires JoinsAt(a, init, a + init) && b == init + [last] && ab == a + init + [last]
    ensures JoinsAt(a, b, ab)
  {
    LastTokensOfLonger(a, init, last);
  }

  lemma {:induction false} LastTokensOfConcat(a: seq<Token>, b: seq<Token>)
    ensures JoinsAt(a, b, a + b)
    ensures LastTokens(a + b) == if HasSeparator(b) then LastTokens(b) else LastTokens(a) + b
  {
    if b == [] {
      assert a + b == a;
      assert LastTokens(a) + [] == LastTokens(a);
    } else {
      var init, last := b[..|b| - 1], b[|b| - 1];
      LastTokensOfConcat(a, init);
      assert b == init + [last] && a + b == a + init + [last];
      JoinsLonger(a, init, last, b, a + b);
    }
  }

  lemma LastTokensOfAppend(init: seq<Token>, last: Token)
    ensures LastTokens(init + [last]) == OneMore(last, LastTokens(init))
  {
    assert (init + [last])[..|init|] == init;
  }

  lemma {:induction false} LastTokensOnlyFrom(template: seq<Token>)
    requires Host !in template
    ensures Host !in LastTokens(template)
  {
    if template != [] {
      var init, last := template[..|template| - 1], template[|template| - 1];
      assert template == init + [last];
      LastTokensOnlyFrom(init);
    }
  }

  lemma HostInLastTokens(before: seq<Token>, after: seq<Token>)
    requires Host !in after
    ensures Host in LastTokens(before + [Host] + after) <==> '/' !in Render(after)
  {
    LastTokensOfConcat(before + [Host], after);
    LastTokensOnlyFrom(after);
    SeparatorInRender(after);
    assert !HasSeparator([Host]);
    LastTokensOfConcat(before, [Host]);
    assert Host in [Host];
  }

  lemma RenderOfFive(before: seq<Token>, a: Token, b: Token, c: Token, after: seq<Token>)
    ensures Render(before + [a] + [b] + [c] + after)
            == Render(before) + Render([a]) + Render([b]) + Render([c]) + Render(after)
  {
    RenderAppend(before, [a]);
    RenderAppend(before + [a], [b]);
    RenderAppend(before + [a] + [b], [c]);
    RenderAppend(before + [a] + [b] + [c], after);
  }

  lemma RenderOfWithHost(before: seq<Token>, x: string, y: string, after: seq<Token>)
    ensures Render(WithHost(before, x, y, after)) == Render(before) + (x + "_") + "{host}" + ("." + y) + Render(after)
  {
    var a, b, c := Literal(x + "_"), Host, Literal("." + y);
    assert WithHost(before, x, y, after) == before + [a] + [b] + [c] + after;
    RenderOfFive(before, a, b, c, after);
    SingleToken(a, "", "", "");
    SingleToken(b, "", "", "");
    SingleToken(c, "", "", "");
  }

  lemma Regrouped(p: string, x: string, h: string, y: string, q: string)
    ensures p + x + "_" + h + "." + (y + q) == p + (x + "_") + h + ("." + y) + q
    ensures p + (x + "." + y) + q == p + x + "." + (y + q)
  {
    assert p + x + "_" == p + (x + "_");
    var front := p + x + "_" + h;
    assert front + "." + (y + q) == front + ("." + y) + q;
  }

  /** The wrapper's edit of the text is that edit of the template. */
  lemma WrapperEditsTemplate(before: seq<Token>, x: string, y: string, after: seq<Token>)
    requires '.' !in y && '.' !in Render(after)
    ensures WrapperOutput(Render(before + [Literal(x + "." + y)] + after)) == Render(WithHost(before, x, y, after))
  {
    var middle := Literal(x + "." + y);
    RenderAppend(before, [middle]);
    RenderAppend(before + [middle], after);
    SingleToken(middle, "", "", "");
    var head, tail := Render(before) + x, y + Render(after);
    Regrouped(Render(before), x, "{host}", y, Render(after));
    assert (head + "." + tail)[|head|] == '.';
    LastDotSplits(head, tail);
    RenderOfWithHost(before, x, y, after);
  }

  /** Where the host then stands: in the last component exactly when no separator follows the last dot. */
  lemma WrapperTemplateVaries(before: seq<Token>, x: string, y: string, after: seq<Token>)
    requires WellFormed(before) && WellFormed(after) && NoBraces(x) && NoBraces(y) && Host !in after
    ensures var result := WithHost(before, x, y, after);
            && WellFormed(result) && Host in result
            && (Host in LastTokens(result) <==> '/' !in y && '/' !in Render(after))
  {
    var result := WithHost(before, x, y, after);
    var head, rest := before + [Literal(x + "_")], [Literal("." + y)] + after;
    assert result == head + [Host] + rest;
    HostInLastTokens(head, rest);
    SeparatorAfterDot(y, after);
    assert result[|before| + 1] == Host;
  }

  lemma SeparatorAfterDot(y: string, after: seq<Token>)
    ensures '/' in Render([Literal("." + y)] + after) <==> '/' in y || '/' in Render(after)
  {
    RenderAppend([Literal("." + y)], after);
    SingleToken(Literal("." + y), "", "", "");
    assert '/' in "." + y <==> '/' in y;
  }

  lemma RenderOfTwoMore(template: seq<Token>, a: Token, b: Token)
    ensures Render(template + [a, b]) == Render(template) + a.Text() + b.Text()
  {
    assert template + [a, b] == template + [a] + [b];
    RenderAppend(template, [a]);
    RenderAppend(template + [a], [b]);
    SingleToken(a, "", "", "");
    SingleToken(b, "", "", "");
  }

  lemma HostAtTheEnd(template: seq<Token>, a: Token)
    ensures Host in LastTokens(template + [a, Host])
  {
    assert template + [a, Host] == template + [a] + [Host];
    LastTokensOfAppend(template + [a], Host);
  }

  /** An output without any dot is extended at its end. */
  lemma WrapperExtendsTemplate(template: seq<Token>)
    requires WellFormed(template) && '.' !in Render(template)
    ensures var result := template + [Literal("_"), Host];
            && WrapperOutput(Render(template)) == Render(result)
            && WellFormed(result) && Host in LastTokens(result)
  {
    RenderOfTwoMore(template, Literal("_"), Host);
    HostAtTheEnd(template, Literal("_"));
  }

  lemma DotInAppend(init: seq<Token>, last: Token)
    ensures '.' in Render(init + [last]) <==> '.' in Render(init) || (last.Literal? && '.' in last.text)
  {
    RenderAppend(init, [last]);
    SingleToken(last, "", "", "");
    if !last.Literal? {
      HoleHasNoDot(last);
    }
  }

  lemma HoleHasNoDot(token: Token)
    requires !token.Literal?
    ensures '.' !in token.Text()
  {
    match token
    case Host => assert forall i :: 0 <= i < 6 ==> "{host}"[i] != '.';
    case JobId => assert forall i :: 0 <= i < 7 ==> "{jobid}"[i] != '.';
    case User => assert forall i :: 0 <= i < 6 ==> "{user}"[i] != '.';
  }

  /** A text with a dot falls apart at its last one. */
  lemma {:induction false} LastDotParts(s: string)
    requires '.' in s
    ensures s == BeforeLastDot(s) + "." + AfterLastDot(s) && '.' !in AfterLastDot(s)
  {
    if s[|s| - 1] != '.' {
      var init, last := s[..|s| - 1], s[|s| - 1];
      assert s == init + [last];
      LastDotParts(init);
      assert BeforeLastDot(init) + "." + (AfterLastDot(init) + [last]) == init + [last];
    } else {
      assert s == s[..|s| - 1] + "." + "";
    }
  }

  /** A template with a dot falls apart at the piece that holds its last one, which is never a placeholder. */
  lemma {:induction false} LastDotOfTemplate(template: seq<Token>)
    returns (before: seq<Token>, x: string, y: string, after: seq<Token>)
    requires '.' in Render(template)
    ensures template == before + [Literal(x + "." + y)] + after
    ensures '.' !in y && '.' !in Render(after)
  {
    var init, last := template[..|template| - 1], template[|template| - 1];
    assert template == init + [last];
    DotInAppend(init, last);
    if last.Literal? && '.' in last.text {
      before, x, y, after := init, BeforeLastDot(last.text), AfterLastDot(last.text), [];
      LastDotParts(last.text);
    } else {
      var rest;
      before, x, y, rest := LastDotOfTemplate(init);
      after := rest + [last];
      DotInAppend(rest, last);
    }
  }

  /** What follows the last dot of the text, whichever pieces it is made of. */
  lemma TailOfParts(before: seq<Token>, x: string, y: string, after: seq<Token>)
    requires '.' !in y && '.' !in Render(after)
    ensures '.' in Render(before + [Literal(x + "." + y)] + after)
    ensures AfterLastDot(Render(before + [Literal(x + "." + y)] + after)) == y + Render(after)
  {
    var middle := Literal(x + "." + y);
    RenderAppend(before, [middle]);
    RenderAppend(before + [middle], after);
    SingleToken(middle, "", "", "");
    Regrouped(Render(before), x, "", y, Render(after));
    var head, tail := Render(before) + x, y + Render(after);
    assert (head + "." + tail)[|head|] == '.';
    LastDotSplits(head, tail);
  }

  /** The host comes after the last separator: it stands at the end, or no separator follows the last dot. */
  predicate HostGoesLast(output: string) {
    '.' in output ==> '/' !in AfterLastDot(output)
  }

  /** Every output template without a host is rewritten to one with it, in the place just said. */
  lemma WrapperRewrites(template: seq<Token>) returns (result: seq<Token>)
    requires WellFormed(template) && Host !in template
    ensures WrapperOutput(Render(template)) == Render(result) && WellFormed(result)
    ensures Host in LastTokens(result) <==> HostGoesLast(Render(template))
  {
    if '.' in Render(template) {
      var before, x, y, after := LastDotOfTemplate(template);
      result := WithHost(before, x, y, after);
      PartsAreWellFormed(template, before, x, y, after);
      WrapperEditsTemplate(before, x, y, after);
      WrapperTemplateVaries(before, x, y, after);
      TailOfParts(before, x, y, after);
    } else {
      result := template + [Literal("_"), Host];
      WrapperExtendsTemplate(template);
    }
  }

  lemma PartsAreWellFormed(template: seq<Token>, before: seq<Token>, x: string, y: string, after: seq<Token>)
    requires WellFormed(template) && Host !in template
    requires template == before + [Literal(x + "." + y)] + after
    ensures WellFormed(before) && WellFormed(after) && NoBraces(x) && NoBraces(y) && Host !in after
  {
    assert template[|before|] == Literal(x + "." + y);
    assert forall i :: 0 <= i < |before| ==> before[i] == template[i];
    assert forall i :: 0 <= i < |after| ==> after[i] == template[|before| + 1 + i];
    PartsHaveNoBraces(x, y);
  }

  lemma PartsHaveNoBraces(x: string, y: string)
    requires NoBraces(x + "." + y)
    ensures NoBraces(x) && NoBraces(y)
  {
    var s := x + "." + y;
    assert forall c :: c in x || c in y ==> c in s;
  }

  /**
   * In a job of several nodes whose output does not mention the host, the wrapper puts it in;
   * yet the names the manifest lists for two nodes coincide exactly when a separator follows
   * the output's last dot.
   */
  lemma WrapperNamesAreDistinct(template: seq<Token>, hosts: seq<string>, i: nat, j: nat, jobId: string, user: string)
    requires WellFormed(template) && Host !in template
    requires i < |hosts| && j < |hosts| && Sanitise(hosts[i]) != Sanitise(hosts[j])
    requires Ordinary(LastSegment(Expand(WrapperOutput(Render(template)), hosts[i], jobId, user)))
    requires Ordinary(LastSegment(Expand(WrapperOutput(Render(template)), hosts[j], jobId, user)))
    ensures var files := BuildManifest(WrapperOutput(Render(template)), hosts, jobId, user);
            files[i].log != files[j].log <==> HostGoesLast(Render(template))
  {
    var result := WrapperRewrites(template);
    ManifestNamesAreDistinct(result, hosts, i, j, jobId, user);
  }

  lemma LastTokensOfShared()
    ensures LastTokens(WithHost([], "/data", "d/log", [])) == [Literal("log")]
  {
    LogParts();
    assert WithHost([], "/data", "d/log", []) == [Literal("/data_"), Host] + [Literal(".d/log")];
    LastTokensOfAppend([Literal("/data_"), Host], Literal(".d/log"));
  }

  lemma SharedTemplate()
    ensures WrapperOutput("/data.d/log") == Render(WithHost([], "/data", "d/log", []))
    ensures WellFormed(WithHost([], "/data", "d/log", []))
  {
    var template := [Literal("/data.d/log")];
    LogParts();
    SingleToken(template[0], "", "", "");
    assert [] + template + [] == template;
    WrapperEditsTemplate([], "/data", "d/log", []);
    WrapperTemplateVaries([], "/data", "d/log", []);
  }

  lemma OneLiteralNames(template: seq<Token>, name: string, host: string, jobId: string, user: string)
    requires WellFormed(template) && LastTokens(template) == [Literal(name)] && Ordinary(name)
    ensures FileNameOf(Expand(Render(template), host, jobId, user)) == name
  {
    LastSegmentCommutes(template, host, jobId, user);
    SingleToken(Literal(name), Sanitise(host), Sanitise(jobId), Sanitise(user));
    OrdinaryPathNames(Expand(Render(template), host, jobId, user));
  }

  /** For instance every node of a job with the output `/data.d/log` is told the same file. */
  lemma SharedName(hosts: seq<string>, rank: nat, jobId: string, user: string)
    requires rank < |hosts|
    ensures BuildManifest(WrapperOutput("/data.d/log"), hosts, jobId, user)[rank].log == "log"
  {
    LogParts();
    SharedTemplate();
    LastTokensOfShared();
    OneLiteralNames(WithHost([], "/data", "d/log", []), "log", hosts[rank], jobId, user);
  }

  lemma LogParts()
    ensures "/data" + "." + "d/log" == "/data.d/log" && "." + "d/log" == ".d/log" && "/data" + "_" == "/data_"
    ensures '.' !in "d/log" && NoBraces("/data") && NoBraces("d/log") && '/' in ".d/log"
    ensures LastSegment(".d/log") == "log" && Ordinary("log") && Render([]) == ""
  {
    LastSegmentIs(".d/", "log");
    assert ".d/" + "log" == ".d/log";
    assert forall i :: 0 <= i < 5 ==> "d/log"[i] != '.';
    assert ".d/log"[2] == '/';
  }
}
