/** Output names: sanitising, template expansion, paths and the manifest (`host.rs`, `cli.rs`, `manifest.rs`). */
module Naming {
  import opened Prelude
  import opened Text

  // ---------------------------------------------------------------------
  // Replacing and sanitising
  // ---------------------------------------------------------------------

  /** `s.replace(pattern, with)`: leftmost matches first, never overlapping. */
  function Replace(s: string, pattern: string, with: string): string
    requires pattern != ""
    decreases |s|
  {
    if s == "" then ""
    else if pattern <= s then with + Replace(s[|pattern|..], pattern, with)
    else [s[0]] + Replace(s[1..], pattern, with)
  }

  predicate IsSafe(c: char) {
    || 'a' <= c <= 'z' || 'A' <= c <= 'Z' || '0' <= c <= '9'
    || c == '-' || c == '_' || c == '.'
  }

  function Cleaned(name: string): (r: string)
    ensures |r| == |name|
    ensures forall i :: 0 <= i < |r| ==> r[i] == if IsSafe(name[i]) then name[i] else '_'
  {
    seq(|name|, i requires 0 <= i < |name| => if IsSafe(name[i]) then name[i] else '_')
  }

  /** `sanitise_for_filename`. */
  function Sanitise(name: string): string {
    var cleaned := Replace(Cleaned(name), "..", "__");
    if cleaned == "" then "unknown" else cleaned
  }

  predicate AllSafe(s: string) {
    forall i :: 0 <= i < |s| ==> IsSafe(s[i])
  }

  predicate NoDotDot(s: string) {
    forall i :: 0 <= i < |s| - 1 ==> !(s[i] == '.' && s[i + 1] == '.')
  }

  lemma {:induction false} ReplaceDots(s: string)
    requires AllSafe(s)
    ensures var r := Replace(s, "..", "__");
            && AllSafe(r) && NoDotDot(r) && |r| == |s|
            && (s != "" && r[0] == '.' ==> s[0] == '.' && (|s| > 1 ==> s[1] != '.'))
    decreases |s|
  {
    if s != "" {
      var r := Replace(s, "..", "__");
      if ".." <= s {
        ReplaceDots(s[2..]);
        assert r == "__" + Replace(s[2..], "..", "__");
      } else {
        ReplaceDots(s[1..]);
        assert r == [s[0]] + Replace(s[1..], "..", "__");
        if |s| > 1 && s[0] == '.' {
          assert s[..2] == [s[0], s[1]];
          assert s[1] != '.';
        }
      }
    }
  }

  lemma {:induction false} ReplaceNothing(s: string)
    requires NoDotDot(s)
    ensures Replace(s, "..", "__") == s
  {
    if s != "" {
      assert |s| > 1 ==> !(s[0] == '.' && s[1] == '.');
      assert !(".." <= s);
      ReplaceNothing(s[1..]);
    }
  }

  /** A sanitised name is a non-empty file-name fragment that sanitising leaves alone. */
  lemma SanitisedIsSafe(name: string)
    ensures var r := Sanitise(name);
            r != "" && AllSafe(r) && NoDotDot(r) && Sanitise(r) == r
    ensures name != "" ==> |Sanitise(name)| == |name|
    ensures name == "" ==> Sanitise(name) == "unknown"
  {
    ReplaceDots(Cleaned(name));
    var r := Sanitise(name);
    assert Cleaned(r) == r;
    ReplaceNothing(r);
  }

  /** How many dots end right before position `i`. */
  function DotsBefore(s: string, i: nat): nat
    requires i <= |s|
  {
    if i > 0 && s[i - 1] == '.' then 1 + DotsBefore(s, i - 1) else 0
  }

  /** Nothing pairs off the dot at `i`: an even number of dots comes before it and none after it. */
  predicate IsLoneDot(s: string, i: nat)
    requires i < |s|
  {
    s[i] == '.' && DotsBefore(s, i) % 2 == 0 && (i + 1 < |s| ==> s[i + 1] != '.')
  }

  lemma {:induction false} DotsBeforeTail(s: string, k: nat, i: nat)
    requires k + i <= |s|
    ensures DotsBefore(s, k + i) == DotsBefore(s[k..], i) + if DotsBefore(s[k..], i) == i then DotsBefore(s, k) else 0
    ensures DotsBefore(s[k..], i) <= i && (DotsBefore(s[k..], i) == i > 0 ==> s[k] == '.')
  {
    if i > 0 && s[k + i - 1] == '.' {
      DotsBeforeTail(s, k, i - 1);
    }
  }

  /** Neither a dot pair nor any other first character changes which dots of the rest stand alone. */
  lemma LoneDotOfTail(s: string, k: nat, i: nat)
    requires k == (if |s| > 1 && s[0] == '.' && s[1] == '.' then 2 else 1) && k <= i < |s|
    ensures IsLoneDot(s[k..], i - k) == IsLoneDot(s, i)
  {
    DotsBeforeTail(s, k, i - k);
    assert DotsBefore(s, 1) == if s[0] == '.' then 1 else 0;
    assert k == 2 ==> DotsBefore(s, k) == 2;
    assert s[k..][i - k] == s[i];
  }

  lemma ReplaceStep(s: string) returns (k: nat)
    requires s != ""
    ensures k == (if |s| > 1 && s[0] == '.' && s[1] == '.' then 2 else 1)
    ensures Replace(s, "..", "__") == (if k == 2 then "__" else [s[0]]) + Replace(s[k..], "..", "__")
  {
    k := if ".." <= s then 2 else 1;
    if |s| > 1 {
      assert s[..2] == [s[0], s[1]];
    }
  }

  lemma {:induction false} ReplacedDots(s: string, i: nat)
    requires i < |s|
    ensures |Replace(s, "..", "__")| == |s|
    ensures Replace(s, "..", "__")[i] == if s[i] == '.' && !IsLoneDot(s, i) then '_' else s[i]
    decreases |s|
  {
    var k := ReplaceStep(s);
    if k < |s| {
      ReplacedDots(s[k..], if i < k then 0 else i - k);
    }
    if i >= k {
      LoneDotOfTail(s, k, i);
      assert s[k..][i - k] == s[i];
    } else {
      assert DotsBefore(s, i) == i;
    }
  }

  /**
   * Character by character: ASCII letters, digits, hyphens and underscores stay; a dot stays
   * unless it pairs up with a neighbour, pairs being taken from the left of each run of dots;
   * anything else becomes an underscore.
   */
  lemma SanitisedText(name: string, i: nat)
    requires i < |name|
    ensures |Sanitise(name)| == |name|
    ensures var c := name[i];
            Sanitise(name)[i]
              == if 'a' <= c <= 'z' || 'A' <= c <= 'Z' || '0' <= c <= '9' || c == '-' || c == '_' || IsLoneDot(name, i)
                 then c else '_'
  {
    ReplacedDots(Cleaned(name), i);
    DotsOfCleaned(name, i);
  }

  lemma {:induction false} DotsOfCleaned(name: string, i: nat)
    requires i <= |name|
    ensures DotsBefore(Cleaned(name), i) == DotsBefore(name, i)
  {
    if i > 0 {
      DotsOfCleaned(name, i - 1);
    }
  }

  // ---------------------------------------------------------------------
  // Templates
  // ---------------------------------------------------------------------

  /** A template whose braces occur only in the three placeholders, piece by piece. */
  datatype Token = Literal(text: string) | Host | JobId | User {
    function Text(): string {
      match this
      case Literal(text) => text
      case Host => "{host}"
      case JobId => "{jobid}"
      case User => "{user}"
    }
  }

  predicate NoBraces(s: string) {
    '{' !in s && '}' !in s
  }

  predicate WellFormed(template: seq<Token>) {
    forall i :: 0 <= i < |template| && template[i].Literal? ==> NoBraces(template[i].text)
  }

  /** The template as it is written. */
  function Render(template: seq<Token>): string {
    if template == [] then "" else template[0].Text() + Render(template[1..])
  }

  /** `expand_placeholders`: three replacements, one after the other. */
  function Expand(template: string, host: string, jobId: string, user: string): string {
    Replace(Replace(Replace(template, "{host}", Sanitise(host)), "{jobid}", Sanitise(jobId)), "{user}", Sanitise(user))
  }

  /** What one piece of a template turns into. */
  function PieceOf(token: Token, host: string, jobId: string, user: string): string {
    match token
    case Literal(text) => text
    case Host => host
    case JobId => jobId
    case User => user
  }

  /** All placeholders filled in at once. */
  function Substitute(template: seq<Token>, host: string, jobId: string, user: string): string {
    if template == [] then ""
    else PieceOf(template[0], host, jobId, user) + Substitute(template[1..], host, jobId, user)
  }

  /** One placeholder turned into literal text. */
  function Fill(template: seq<Token>, hole: Token, value: string): (filled: seq<Token>)
    ensures |filled| == |template|
  {
    if template == [] then []
    else [if template[0] == hole then Literal(value) else template[0]] + Fill(template[1..], hole, value)
  }

  /** Text without an opening brace is skipped by a search for something that starts with one. */
  lemma {:induction false} ReplaceSkips(a: string, b: string, pattern: string, with: string)
    requires pattern != "" && pattern[0] == '{' && '{' !in a
    ensures Replace(a + b, pattern, with) == a + Replace(b, pattern, with)
    decreases |a|
  {
    if a == "" {
      assert a + b == b;
    } else {
      var s := a + b;
      assert s[0] == a[0] && a[0] in a;
      assert s[1..] == a[1..] + b;
      ReplaceSkips(a[1..], b, pattern, with);
    }
  }

  lemma OtherPatternIsSkipped(other: string, pattern: string, rest: string, with: string)
    requires |other| > 1 && |pattern| > 1 && pattern[0] == '{' && '{' !in other[1..] && other[1] != pattern[1]
    ensures Replace(other + rest, pattern, with) == other + Replace(rest, pattern, with)
  {
    var s, tail := other + rest, other[1..];
    assert s[1] == other[1];
    assert s[1..] == tail + rest;
    ReplaceSkips(tail, rest, pattern, with);
    assert other == [other[0]] + tail;
  }

  lemma OtherHoleIsSkipped(token: Token, hole: Token, rest: string, with: string)
    requires !token.Literal? && !hole.Literal? && token != hole
    ensures Replace(token.Text() + rest, hole.Text(), with) == token.Text() + Replace(rest, hole.Text(), with)
  {
    OtherPatternIsSkipped(token.Text(), hole.Text(), rest, with);
  }

  /** Replacing one placeholder in the text is filling it in the template. */
  lemma {:induction false} ReplaceFills(template: seq<Token>, hole: Token, value: string)
    requires WellFormed(template) && !hole.Literal? && NoBraces(value)
    ensures Replace(Render(template), hole.Text(), value) == Render(Fill(template, hole, value))
    ensures WellFormed(Fill(template, hole, value))
    decreases |template|
  {
    if template != [] {
      var rest := Render(template[1..]);
      var filled := Fill(template, hole, value);
      ReplaceFills(template[1..], hole, value);
      assert filled[1..] == Fill(template[1..], hole, value);
      if template[0] == hole {
        assert Render(template)[|hole.Text()|..] == rest;
      } else if template[0].Literal? {
        ReplaceSkips(template[0].text, rest, hole.Text(), value);
      } else {
        OtherHoleIsSkipped(template[0], hole, rest, value);
      }
    }
  }

  lemma {:induction false} FillingAllSubstitutes(template: seq<Token>, host: string, jobId: string, user: string)
    ensures Render(Fill(Fill(Fill(template, Host, host), JobId, jobId), User, user))
         == Substitute(template, host, jobId, user)
  {
    if template != [] {
      FillingAllSubstitutes(template[1..], host, jobId, user);
      var one := Fill(template, Host, host);
      var two := Fill(one, JobId, jobId);
      var three := Fill(two, User, user);
      assert one[1..] == Fill(template[1..], Host, host);
      assert two[1..] == Fill(one[1..], JobId, jobId);
      assert three[1..] == Fill(two[1..], User, user);
    }
  }

  lemma SafeHasNoBraces(s: string)
    requires AllSafe(s)
    ensures NoBraces(s) && '/' !in s
  {
  }

  /** The three sequential replacements equal one simultaneous substitution. */
  lemma ExpandIsSimultaneous(template: seq<Token>, host: string, jobId: string, user: string)
    requires WellFormed(template)
    ensures Expand(Render(template), host, jobId, user)
         == Substitute(template, Sanitise(host), Sanitise(jobId), Sanitise(user))
  {
    var h, j, u := Sanitise(host), Sanitise(jobId), Sanitise(user);
    SanitisedIsSafe(host);
    SanitisedIsSafe(jobId);
    SanitisedIsSafe(user);
    SafeHasNoBraces(h);
    SafeHasNoBraces(j);
    SafeHasNoBraces(u);
    var one := Fill(template, Host, h);
    var two := Fill(one, JobId, j);
    ReplaceFills(template, Host, h);
    ReplaceFills(one, JobId, j);
    ReplaceFills(two, User, u);
    FillingAllSubstitutes(template, h, j, u);
  }

  lemma ReplaceHead(pattern: string, rest: string, with: string)
    requires pattern != ""
    ensures Replace(pattern + rest, pattern, with) == with + Replace(rest, pattern, with)
  {
    assert (pattern + rest)[|pattern|..] == rest;
  }

  // ---------------------------------------------------------------------
  // What expansion preserves
  // ---------------------------------------------------------------------

  function CountOf(s: string, c: char): nat {
    multiset(s)[c]
  }

  lemma CountOfConcat(a: string, b: string, c: char)
    ensures CountOf(a + b, c) == CountOf(a, c) + CountOf(b, c)
    ensures CountOf(a, c) == 0 <==> c !in a
  {
    assert c in a <==> c in multiset(a);
  }

  lemma HoleHasNoSeparator(token: Token)
    requires !token.Literal?
    ensures '/' !in token.Text()
  {
    match token
    case Host => assert forall i :: 0 <= i < 6 ==> "{host}"[i] != '/';
    case JobId => assert forall i :: 0 <= i < 7 ==> "{jobid}"[i] != '/';
    case User => assert forall i :: 0 <= i < 6 ==> "{user}"[i] != '/';
  }

  lemma PieceKeeps(token: Token, h: string, j: string, u: string)
    requires AllSafe(h) && AllSafe(j) && AllSafe(u)
    requires token.Literal? ==> NoBraces(token.text)
    ensures CountOf(PieceOf(token, h, j, u), '/') == CountOf(token.Text(), '/')
    ensures NoBraces(PieceOf(token, h, j, u))
  {
    SafeHasNoBraces(h);
    SafeHasNoBraces(j);
    SafeHasNoBraces(u);
    var piece := PieceOf(token, h, j, u);
    if !token.Literal? {
      HoleHasNoSeparator(token);
      assert AllSafe(piece) && '/' !in piece;
      CountOfConcat(token.Text(), "", '/');
      CountOfConcat(piece, "", '/');
    }
  }

  lemma {:induction false} SubstituteKeeps(template: seq<Token>, h: string, j: string, u: string)
    requires WellFormed(template) && AllSafe(h) && AllSafe(j) && AllSafe(u)
    ensures CountOf(Substitute(template, h, j, u), '/') == CountOf(Render(template), '/')
    ensures NoBraces(Substitute(template, h, j, u))
  {
    if template != [] {
      SubstituteKeeps(template[1..], h, j, u);
      PieceKeeps(template[0], h, j, u);
      CountOfConcat(PieceOf(template[0], h, j, u), Substitute(template[1..], h, j, u), '/');
      CountOfConcat(template[0].Text(), Render(template[1..]), '/');
    }
  }

  /** No placeholder survives and no path separator is gained or lost. */
  lemma ExpandKeepsSeparators(template: seq<Token>, host: string, jobId: string, user: string)
    requires WellFormed(template)
    ensures var path := Expand(Render(template), host, jobId, user);
            NoBraces(path) && CountOf(path, '/') == CountOf(Render(template), '/')
  {
    SanitisedIsSafe(host);
    SanitisedIsSafe(jobId);
    SanitisedIsSafe(user);
    ExpandIsSimultaneous(template, host, jobId, user);
    SubstituteKeeps(template, Sanitise(host), Sanitise(jobId), Sanitise(user));
  }

  lemma {:induction false} LengthOfSubstitute(template: seq<Token>, h1: string, h2: string, j: string, u: string)
    requires |h1| <= |h2|
    ensures |Substitute(template, h1, j, u)| <= |Substitute(template, h2, j, u)|
    ensures |h1| < |h2| && Host in template ==> |Substitute(template, h1, j, u)| < |Substitute(template, h2, j, u)|
  {
    if template != [] {
      LengthOfSubstitute(template[1..], h1, h2, j, u);
      assert Host in template ==> template[0] == Host || Host in template[1..];
    }
  }

  lemma {:induction false} SameLengthHosts(template: seq<Token>, h1: string, h2: string, j: string, u: string)
    requires |h1| == |h2| && Host in template
    requires Substitute(template, h1, j, u) == Substitute(template, h2, j, u)
    ensures h1 == h2
  {
    var a, b := Substitute(template, h1, j, u), Substitute(template, h2, j, u);
    var resta, restb := Substitute(template[1..], h1, j, u), Substitute(template[1..], h2, j, u);
    if template[0] == Host {
      assert a[..|h1|] == h1 && b[..|h2|] == h2;
    } else {
      assert Host in template[1..];
      var first := PieceOf(template[0], h1, j, u);
      assert a == first + resta && b == first + restb;
      assert a[|first|..] == resta && b[|first|..] == restb;
      SameLengthHosts(template[1..], h1, h2, j, u);
    }
  }

  /** A template that mentions the host sends different hosts to different names. */
  lemma SubstituteIsInjective(template: seq<Token>, h1: string, h2: string, j: string, u: string)
    requires Host in template && h1 != h2
    ensures Substitute(template, h1, j, u) != Substitute(template, h2, j, u)
  {
    if Substitute(template, h1, j, u) == Substitute(template, h2, j, u) {
      if |h1| < |h2| {
        LengthOfSubstitute(template, h1, h2, j, u);
      } else if |h2| < |h1| {
        LengthOfSubstitute(template, h2, h1, j, u);
      } else {
        SameLengthHosts(template, h1, h2, j, u);
      }
    }
  }

  // ---------------------------------------------------------------------
  // Paths
  // ---------------------------------------------------------------------

  /** The text after the last separator. */
  function LastSegment(path: string): string {
    if path == "" || path[|path| - 1] == '/' then ""
    else LastSegment(path[..|path| - 1]) + [path[|path| - 1]]
  }

  /** The text up to and including the last separator. */
  function DirPart(path: string): string {
    if path == "" || path[|path| - 1] == '/' then path else DirPart(path[..|path| - 1])
  }

  /** A component that names a file. */
  predicate Ordinary(segment: string) {
    segment != "" && segment != "." && segment != ".."
  }

  /** The last of the components that count: empty ones never do, `.` only in first place. */
  function LastNormal(segments: seq<string>): Option<string> {
    if segments == [] then None else
    var last := segments[|segments| - 1];
    if last == "" || (last == "." && |segments| > 1) then LastNormal(segments[..|segments| - 1])
    else if Ordinary(last) then Some(last)
    else None
  }

  /** `Path::file_name`. */
  function FileName(path: string): Option<string> {
    LastNormal(Split(path, '/'))
  }

  /** `file_name_of`. */
  function FileNameOf(path: string): string {
    FileName(path).GetOr(path)
  }

  lemma {:induction false} LastSegmentSplits(path: string)
    ensures path == DirPart(path) + LastSegment(path)
    ensures '/' !in LastSegment(path)
    ensures DirPart(path) == "" || DirPart(path)[|DirPart(path)| - 1] == '/'
    ensures DirPart(path) == "" <==> '/' !in path
  {
    if path != "" && path[|path| - 1] != '/' {
      LastSegmentSplits(path[..|path| - 1]);
      assert path == path[..|path| - 1] + [path[|path| - 1]];
    }
  }

  lemma LastSegmentGrows(path: string, c: char)
    requires c != '/'
    ensures LastSegment(path + [c]) == LastSegment(path) + [c] && DirPart(path + [c]) == DirPart(path)
  {
    assert (path + [c])[..|path|] == path;
  }

  lemma {:induction false} LastSegmentIs(dir: string, name: string)
    requires '/' !in name && (dir == "" || dir[|dir| - 1] == '/')
    ensures LastSegment(dir + name) == name && DirPart(dir + name) == dir
    decreases |name|
  {
    if name == "" {
      assert dir + name == dir;
    } else {
      var init, c := name[..|name| - 1], name[|name| - 1];
      LastSegmentIs(dir, init);
      LastSegmentGrows(dir + init, c);
      assert dir + name == dir + init + [c];
    }
  }

  /** Splitting a path ends in its last segment, with everything else before it. */
  lemma {:induction false} SplitEndsInLastSegment(dir: string, name: string)
    requires '/' !in name && (dir == "" || dir[|dir| - 1] == '/')
    ensures var parts := Split(dir + name, '/');
            && parts[|parts| - 1] == name
            && (dir == "" <==> |parts| == 1)
    decreases |dir|
  {
    var path := dir + name;
    if dir == "" {
      assert path == name;
      SplitWithoutSeparator(name, '/');
    } else {
      assert path[1..] == dir[1..] + name;
      SplitEndsInLastSegment(dir[1..], name);
      var rest := Split(path[1..], '/');
      if path[0] != '/' {
        assert |dir| > 1;
      }
    }
  }

  lemma {:induction false} LastNormalIsOrdinary(segments: seq<string>)
    ensures LastNormal(segments).Some? ==>
              Ordinary(LastNormal(segments).value) && LastNormal(segments).value in segments
  {
    if segments != [] {
      LastNormalIsOrdinary(segments[..|segments| - 1]);
    }
  }

  lemma FileNameIsOrdinary(path: string)
    ensures FileName(path).Some? ==> Ordinary(FileName(path).value) && '/' !in FileName(path).value
  {
    LastNormalIsOrdinary(Split(path, '/'));
    JoinOfSplit(path, '/');
  }

  lemma FileNameOfOrdinary(dir: string, name: string)
    requires '/' !in name && (dir == "" || dir[|dir| - 1] == '/') && Ordinary(name)
    ensures FileName(dir + name) == Some(name)
  {
    SplitEndsInLastSegment(dir, name);
  }

  /**
   * The base name is the text after the last separator exactly when that text is an
   * ordinary component, or the path has no separator at all.
   */
  lemma BaseNameIsLastSegment(path: string)
    ensures FileNameOf(path) == LastSegment(path) <==> Ordinary(LastSegment(path)) || '/' !in path
  {
    LastSegmentSplits(path);
    FileNameIsOrdinary(path);
    var dir, last := DirPart(path), LastSegment(path);
    SplitEndsInLastSegment(dir, last);
    if Ordinary(last) {
      FileNameOfOrdinary(dir, last);
    } else if '/' !in path {
      assert path == last;
    }
  }

  // ---------------------------------------------------------------------
  // The last component of a template
  // ---------------------------------------------------------------------

  /** The part of a template after its last separator. */
  function LastTokens(template: seq<Token>): seq<Token> {
    if template == [] then [] else
    var init, last := template[..|template| - 1], template[|template| - 1];
    if last.Literal? && '/' in last.text then [Literal(LastSegment(last.text))]
    else LastTokens(init) + [last]
  }

  lemma Regroup(a: string, b: string, c: string)
    ensures a + (b + c) == a + b + c
  {
  }

  lemma {:induction false} SubstituteAppend(a: seq<Token>, b: seq<Token>, h: string, j: string, u: string)
    ensures Substitute(a + b, h, j, u) == Substitute(a, h, j, u) + Substitute(b, h, j, u)
  {
    if a == [] {
      assert a + b == b;
    } else {
      SubstituteAppend(a[1..], b, h, j, u);
      assert (a + b)[1..] == a[1..] + b;
      Regroup(PieceOf(a[0], h, j, u), Substitute(a[1..], h, j, u), Substitute(b, h, j, u));
    }
  }

  /** Writing a template out is filling it in with the placeholders' own spelling. */
  lemma {:induction false} RenderIsSubstitute(template: seq<Token>, h: string, j: string, u: string)
    requires h == Host.Text() && j == JobId.Text() && u == User.Text()
    ensures Render(template) == Substitute(template, h, j, u)
  {
    if template != [] {
      RenderIsSubstitute(template[1..], h, j, u);
    }
  }

  lemma RenderAppend(a: seq<Token>, b: seq<Token>)
    ensures Render(a + b) == Render(a) + Render(b)
  {
    var h, j, u := Host.Text(), JobId.Text(), User.Text();
    RenderIsSubstitute(a, h, j, u);
    RenderIsSubstitute(b, h, j, u);
    RenderIsSubstitute(a + b, h, j, u);
    SubstituteAppend(a, b, h, j, u);
  }

  lemma SegmentAfterDir(a: string, dir: string, name: string)
    requires dir != "" && dir[|dir| - 1] == '/' && '/' !in name
    ensures LastSegment(a + (dir + name)) == name
  {
    Regroup(a, dir, name);
    LastSegmentIs(a + dir, name);
  }

  lemma LastSegmentAfter(a: string, b: string)
    ensures '/' in b ==> LastSegment(a + b) == LastSegment(b)
    ensures '/' !in b ==> LastSegment(a + b) == LastSegment(a) + b
  {
    if '/' in b {
      LastSegmentSplits(b);
      SegmentAfterDir(a, DirPart(b), LastSegment(b));
    } else {
      LastSegmentSplits(a);
      Regroup(DirPart(a), LastSegment(a), b);
      LastSegmentIs(DirPart(a), LastSegment(a) + b);
    }
  }

  lemma SingleToken(token: Token, h: string, j: string, u: string)
    ensures Render([token]) == token.Text() && Substitute([token], h, j, u) == PieceOf(token, h, j, u)
  {
    assert Render([token]) == token.Text() + Render([token][1..]);
    assert Substitute([token], h, j, u) == PieceOf(token, h, j, u) + Substitute([token][1..], h, j, u);
  }

  /** Taking the last segment commutes with writing a template out. */
  lemma {:induction false} LastSegmentOfRender(template: seq<Token>)
    ensures LastSegment(Render(template)) == Render(LastTokens(template))
  {
    if template != [] {
      var init, last := template[..|template| - 1], template[|template| - 1];
      assert template == init + [last];
      LastSegmentOfRender(init);
      RenderAppend(init, [last]);
      SingleToken(last, "", "", "");
      LastSegmentAfter(Render(init), last.Text());
      if last.Literal? && '/' in last.text {
        SingleToken(Literal(LastSegment(last.text)), "", "", "");
      } else {
        RenderAppend(LastTokens(init), [last]);
        if !last.Literal? {
          HoleHasNoSeparator(last);
        }
      }
    }
  }

  /** And with filling it in, since no value brings a separator along. */
  lemma {:induction false} LastSegmentOfSubstitute(template: seq<Token>, h: string, j: string, u: string)
    requires '/' !in h && '/' !in j && '/' !in u
    ensures LastSegment(Substitute(template, h, j, u)) == Substitute(LastTokens(template), h, j, u)
  {
    if template != [] {
      var init, last := template[..|template| - 1], template[|template| - 1];
      assert template == init + [last];
      LastSegmentOfSubstitute(init, h, j, u);
      SubstituteAppend(init, [last], h, j, u);
      SingleToken(last, h, j, u);
      LastSegmentAfter(Substitute(init, h, j, u), PieceOf(last, h, j, u));
      if last.Literal? && '/' in last.text {
        SingleToken(Literal(LastSegment(last.text)), h, j, u);
      } else {
        SubstituteAppend(LastTokens(init), [last], h, j, u);
      }
    }
  }

  lemma {:induction false} LastTokensWellFormed(template: seq<Token>)
    requires WellFormed(template)
    ensures WellFormed(LastTokens(template))
  {
    if template != [] {
      var init, last := template[..|template| - 1], template[|template| - 1];
      LastTokensWellFormed(init);
      if last.Literal? {
        LastSegmentSplits(last.text);
        assert forall c :: c in LastSegment(last.text) ==> c in last.text;
      }
    }
  }

  /** Expanding and then taking the last segment is expanding the last segment. */
  lemma LastSegmentCommutes(template: seq<Token>, host: string, jobId: string, user: string)
    requires WellFormed(template)
    ensures var path := Expand(Render(template), host, jobId, user);
            && LastSegment(path) == Expand(LastSegment(Render(template)), host, jobId, user)
            && LastSegment(path) == Substitute(LastTokens(template), Sanitise(host), Sanitise(jobId), Sanitise(user))
  {
    SanitisedIsSafe(host);
    SanitisedIsSafe(jobId);
    SanitisedIsSafe(user);
    ExpandIsSimultaneous(template, host, jobId, user);
    SafeHasNoBraces(Sanitise(host));
    SafeHasNoBraces(Sanitise(jobId));
    SafeHasNoBraces(Sanitise(user));
    LastSegmentOfRender(template);
    LastSegmentOfSubstitute(template, Sanitise(host), Sanitise(jobId), Sanitise(user));
    LastTokensWellFormed(template);
    ExpandIsSimultaneous(LastTokens(template), host, jobId, user);
  }

  /**
   * Taking the base name commutes with expansion exactly when the expanded last component
   * is an ordinary file name, or the template has no separator.
   */
  lemma BaseNameCommutes(template: seq<Token>, host: string, jobId: string, user: string)
    requires WellFormed(template)
    ensures var last := Expand(LastSegment(Render(template)), host, jobId, user);
            FileNameOf(Expand(Render(template), host, jobId, user)) == last
            <==> Ordinary(last) || '/' !in Render(template)
  {
    var path := Expand(Render(template), host, jobId, user);
    LastSegmentCommutes(template, host, jobId, user);
    BaseNameIsLastSegment(path);
    ExpandKeepsSeparators(template, host, jobId, user);
    CountOfConcat(path, "", '/');
    CountOfConcat(Render(template), "", '/');
  }

  lemma DotIsKept()
    ensures Sanitise(".") == "." && !Ordinary(".") && !Ordinary("..")
  {
    assert Cleaned(".") == ".";
    ReplaceNothing(".");
  }

  lemma LastTokensWithHole(init: seq<Token>, hole: Token)
    requires !hole.Literal?
    ensures LastTokens(init + [hole]) == LastTokens(init) + [hole]
  {
    assert (init + [hole])[..|init|] == init;
  }

  lemma DirectoryTokens(dir: string, holes: seq<Token>)
    requires dir != "" && dir[|dir| - 1] == '/'
    ensures LastTokens([Literal(dir)]) == [Literal("")] && '/' in Render([Literal(dir)] + holes)
  {
    assert [Literal(dir)][..0] == [];
    RenderAppend([Literal(dir)], holes);
    SingleToken(Literal(dir), "", "", "");
    assert dir[|dir| - 1] in dir;
  }

  lemma TwoHolesSubstitute(a: Token, b: Token, h: string, j: string, u: string)
    ensures Substitute([Literal("")] + [a] + [b], h, j, u) == PieceOf(a, h, j, u) + PieceOf(b, h, j, u)
  {
    SubstituteAppend([Literal("")] + [a], [b], h, j, u);
    SubstituteAppend([Literal("")], [a], h, j, u);
    SingleToken(Literal(""), h, j, u);
    SingleToken(a, h, j, u);
    SingleToken(b, h, j, u);
    assert "" + PieceOf(a, h, j, u) == PieceOf(a, h, j, u);
  }

  /** A job id of `.` makes the last component one that is no file name. */
  lemma DottedJobIdDoesNotCommute(host: string, user: string)
    ensures var template := [Literal("out/"), JobId];
            var last := Expand(LastSegment(Render(template)), host, ".", user);
            last == "." && FileNameOf(Expand(Render(template), host, ".", user)) != last
  {
    var template := [Literal("out/"), JobId];
    assert template == [Literal("out/")] + [JobId];
    DirectoryTokens("out/", [JobId]);
    LastTokensWithHole([Literal("out/")], JobId);
    DotIsKept();
    LastSegmentCommutes(template, host, ".", user);
    SubstituteAppend([Literal("")], [JobId], Sanitise(host), ".", Sanitise(user));
    SingleToken(Literal(""), Sanitise(host), ".", Sanitise(user));
    SingleToken(JobId, Sanitise(host), ".", Sanitise(user));
    assert "" + "." == ".";
    BaseNameCommutes(template, host, ".", user);
  }

  /** So do a host and a user that are both `.`, although neither value contains two dots. */
  lemma TwoDotsDoNotCommute(jobId: string)
    ensures var template := [Literal("out/"), Host, User];
            var last := Expand(LastSegment(Render(template)), ".", jobId, ".");
            last == ".." && FileNameOf(Expand(Render(template), ".", jobId, ".")) != last
  {
    var template := [Literal("out/"), Host, User];
    assert template == [Literal("out/")] + [Host, User];
    DirectoryTokens("out/", [Host, User]);
    assert [Literal("out/")] + [Host, User] == [Literal("out/")] + [Host] + [User];
    LastTokensWithHole([Literal("out/")], Host);
    LastTokensWithHole([Literal("out/")] + [Host], User);
    DotIsKept();
    LastSegmentCommutes(template, ".", jobId, ".");
    TwoHolesSubstitute(Host, User, ".", Sanitise(jobId), ".");
    assert "." + "." == "..";
    BaseNameCommutes(template, ".", jobId, ".");
  }

  /** Hosts that still differ after sanitising get different base names, whenever names are ordinary. */
  lemma HostsGetDifferentNames(template: seq<Token>, host1: string, host2: string, jobId: string, user: string)
    requires WellFormed(template) && Host in LastTokens(template)
    requires Sanitise(host1) != Sanitise(host2)
    ensures var path1 := Expand(Render(template), host1, jobId, user);
            var path2 := Expand(Render(template), host2, jobId, user);
            && LastSegment(path1) != LastSegment(path2)
            && (Ordinary(LastSegment(path1)) && Ordinary(LastSegment(path2)) ==>
                  FileNameOf(path1) != FileNameOf(path2))
  {
    LastSegmentCommutes(template, host1, jobId, user);
    LastSegmentCommutes(template, host2, jobId, user);
    SubstituteIsInjective(LastTokens(template), Sanitise(host1), Sanitise(host2), Sanitise(jobId), Sanitise(user));
    BaseNameIsLastSegment(Expand(Render(template), host1, jobId, user));
    BaseNameIsLastSegment(Expand(Render(template), host2, jobId, user));
  }
}
