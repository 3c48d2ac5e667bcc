/** When three replacements one after the other are one simultaneous substitution, on every text whatever (`cli.rs`). */
module Braces {
  import opened Naming

  // ---------------------------------------------------------------------
  // One pass over raw text
  // ---------------------------------------------------------------------

  /** The placeholder that a text starts with, or else its first character. */
  function First(s: string): (token: Token)
    requires s != ""
    ensures token.Text() != "" && token.Text() <= s
    ensures token.Literal? ==>
              token.text == [s[0]] && !(Host.Text() <= s) && !(JobId.Text() <= s) && !(User.Text() <= s)
  {
    if Host.Text() <= s then Host
    else if JobId.Text() <= s then JobId
    else if User.Text() <= s then User
    else Literal([s[0]])
  }

  function Rest(s: string): (rest: string)
    requires s != ""
    ensures |rest| < |s| && s == First(s).Text() + rest
  {
    s[|First(s).Text()|..]
  }

  /** A text cut into placeholders and single characters, from left to right. */
  function Parse(s: string): seq<Token>
    decreases |s|
  {
    if s == "" then [] else [First(s)] + Parse(Rest(s))
  }

  /** Every placeholder that stands in the text itself, filled in at once. */
  function OnePass(s: string, host: string, jobId: string, user: string): string
    decreases |s|
  {
    if s == "" then "" else PieceOf(First(s), host, jobId, user) + OnePass(Rest(s), host, jobId, user)
  }

  /** How often `s.replace(pattern, _)` finds something to replace. */
  function Count(s: string, pattern: string): nat
    requires pattern != ""
    decreases |s|
  {
    if s == "" then 0
    else if pattern <= s then 1 + Count(s[|pattern|..], pattern)
    else Count(s[1..], pattern)
  }

  function Holes(tokens: seq<Token>, hole: Token): nat {
    if tokens == [] then 0 else (if tokens[0] == hole then 1 else 0) + Holes(tokens[1..], hole)
  }

  /** Patterns whose only opening brace comes first, so that no two occurrences overlap. */
  predicate IsBraced(pattern: string) {
    |pattern| > 1 && pattern[0] == '{' && '{' !in pattern[1..]
  }

  lemma HolesAreBraced(hole: Token)
    requires !hole.Literal?
    ensures IsBraced(hole.Text())
  {
  }

  // ---------------------------------------------------------------------
  // Counting and replacing
  // ---------------------------------------------------------------------

  lemma BracedPrefix(a: string, pattern: string, b: string)
    requires IsBraced(pattern) && a != ""
    ensures pattern <= a + pattern + b <==> pattern <= a
  {
    var s := a + pattern + b;
    assert s[|a|] == pattern[0];
    if |a| < |pattern| {
      assert pattern[1..][|a| - 1] == pattern[|a|];
    }
  }

  /** What a replacement turns the front of a text into, and how much of the text that is. */
  function Head(s: string, pattern: string, with: string): string
    requires s != ""
  {
    if pattern <= s then with else [s[0]]
  }

  function Jump(s: string, pattern: string): (n: nat)
    requires s != "" && pattern != ""
    ensures 0 < n <= |s|
  {
    if pattern <= s then |pattern| else 1
  }

  lemma OneJump(s: string, pattern: string, with: string)
    requires s != "" && pattern != ""
    ensures Replace(s, pattern, with) == Head(s, pattern, with) + Replace(s[Jump(s, pattern)..], pattern, with)
    ensures Count(s, pattern) == (if pattern <= s then 1 else 0) + Count(s[Jump(s, pattern)..], pattern)
  {
  }

  lemma FourParts(a: string, b: string, c: string, d: string)
    ensures a + (b + c + d) == a + b + c + d
  {
  }

  /** An occurrence of the pattern separates what stands before it from what stands after it. */
  lemma {:induction false} OccurrenceSplits(a: string, pattern: string, b: string, with: string)
    requires IsBraced(pattern)
    ensures Count(a + pattern + b, pattern) == Count(a, pattern) + 1 + Count(b, pattern)
    ensures Replace(a + pattern + b, pattern, with) == Replace(a, pattern, with) + with + Replace(b, pattern, with)
    decreases |a|
  {
    if a == "" {
      var s := a + pattern + b;
      assert s == pattern + b && s[|pattern|..] == b;
    } else {
      OccurrenceSplits(a[Jump(a, pattern)..], pattern, b, with);
      OccurrenceStep(a, pattern, b, with);
    }
  }

  /** The text in front of an occurrence is cut up as if it stood alone. */
  lemma FrontIsAlone(a: string, pattern: string, b: string, with: string)
    requires IsBraced(pattern) && a != ""
    ensures var s := a + pattern + b;
            && (pattern <= s <==> pattern <= a)
            && Head(s, pattern, with) == Head(a, pattern, with)
            && s[Jump(s, pattern)..] == a[Jump(a, pattern)..] + pattern + b
  {
    BracedPrefix(a, pattern, b);
  }

  lemma Assemble(whole: string, front: string, head: string, x: string, y: string, z: string)
    requires whole == head + (x + y + z) && front == head + x
    ensures whole == front + y + z
  {
    FourParts(head, x, y, z);
  }

  lemma OccurrenceStep(a: string, pattern: string, b: string, with: string)
    requires IsBraced(pattern) && a != ""
    requires var rest := a[Jump(a, pattern)..];
             && Count(rest + pattern + b, pattern) == Count(rest, pattern) + 1 + Count(b, pattern)
             && Replace(rest + pattern + b, pattern, with) == Replace(rest, pattern, with) + with + Replace(b, pattern, with)
    ensures Count(a + pattern + b, pattern) == Count(a, pattern) + 1 + Count(b, pattern)
    ensures Replace(a + pattern + b, pattern, with) == Replace(a, pattern, with) + with + Replace(b, pattern, with)
  {
    var s, rest := a + pattern + b, a[Jump(a, pattern)..];
    FrontIsAlone(a, pattern, b, with);
    OneJump(s, pattern, with);
    OneJump(a, pattern, with);
    Assemble(Replace(s, pattern, with), Replace(a, pattern, with), Head(a, pattern, with),
             Replace(rest, pattern, with), with, Replace(b, pattern, with));
  }

  lemma {:induction false} NothingToReplace(s: string, pattern: string, with: string)
    requires pattern != "" && Count(s, pattern) == 0
    ensures Replace(s, pattern, with) == s
  {
    if s != "" {
      NothingToReplace(s[1..], pattern, with);
    }
  }

  /** One occurrence among the pieces, when what follows is already understood. */
  lemma HoleStep(a: string, pattern: string, rest: string, with: string, filled: string, holes: nat)
    requires IsBraced(pattern) && Count(rest, pattern) >= holes
    requires Count(rest, pattern) == holes ==> Replace(rest, pattern, with) == filled
    ensures Count(a + (pattern + rest), pattern) >= holes + 1
    ensures Count(a + (pattern + rest), pattern) == holes + 1 ==>
              Replace(a + (pattern + rest), pattern, with) == a + (with + filled)
  {
    OccurrenceSplits(a, pattern, rest, with);
    Regroup(a, pattern, rest);
    if Count(a, pattern) == 0 {
      NothingToReplace(a, pattern, with);
    }
    Regroup(a, with, filled);
  }

  /**
   * Behind any text `a`, the pattern is found at least once for every hole; when it is found
   * no more often than that, replacing it fills exactly the holes.
   */
  lemma {:induction false} ReplaceFillsHoles(a: string, tokens: seq<Token>, hole: Token, pattern: string, with: string)
    requires !hole.Literal? && pattern == hole.Text() && IsBraced(pattern)
    ensures Count(a + Render(tokens), pattern) >= Holes(tokens, hole)
    ensures Count(a + Render(tokens), pattern) == Holes(tokens, hole) ==>
              Replace(a + Render(tokens), pattern, with) == a + Render(Fill(tokens, hole, with))
    decreases |tokens|
  {
    if tokens == [] {
      assert a + Render(tokens) == a;
      if Count(a, pattern) == 0 {
        NothingToReplace(a, pattern, with);
      }
    } else {
      var text, rest := tokens[0].Text(), Render(tokens[1..]);
      var filled := Render(Fill(tokens[1..], hole, with));
      FillOfCons(tokens, hole, with);
      if tokens[0] == hole {
        ReplaceFillsHoles("", tokens[1..], hole, pattern, with);
        assert "" + rest == rest && "" + filled == filled;
        HoleStep(a, pattern, rest, with, filled, Holes(tokens[1..], hole));
      } else {
        ReplaceFillsHoles(a + text, tokens[1..], hole, pattern, with);
        Regroup(a, text, rest);
        Regroup(a, text, filled);
      }
    }
  }

  lemma FillOfCons(tokens: seq<Token>, hole: Token, with: string)
    requires tokens != [] && !hole.Literal?
    ensures Render(Fill(tokens, hole, with))
            == (if tokens[0] == hole then with else tokens[0].Text()) + Render(Fill(tokens[1..], hole, with))
  {
    assert Fill(tokens, hole, with)[1..] == Fill(tokens[1..], hole, with);
  }

  lemma {:induction false} FillKeepsOtherHoles(tokens: seq<Token>, hole: Token, other: Token, with: string)
    requires !hole.Literal? && !other.Literal? && hole != other
    ensures Holes(Fill(tokens, hole, with), other) == Holes(tokens, other)
  {
    if tokens != [] {
      FillKeepsOtherHoles(tokens[1..], hole, other, with);
      assert Fill(tokens, hole, with)[1..] == Fill(tokens[1..], hole, with);
    }
  }

  // ---------------------------------------------------------------------
  // The text and its pieces
  // ---------------------------------------------------------------------

  lemma {:induction false} CountSkips(a: string, b: string, pattern: string)
    requires IsBraced(pattern) && '{' !in a
    ensures Count(a + b, pattern) == Count(b, pattern)
    decreases |a|
  {
    if a == "" {
      assert a + b == b;
    } else {
      var s := a + b;
      assert s[0] == a[0] && a[0] in a;
      assert s[1..] == a[1..] + b;
      CountSkips(a[1..], b, pattern);
    }
  }

  lemma CountSkipsOther(other: string, b: string, pattern: string)
    requires IsBraced(pattern) && IsBraced(other) && other[1] != pattern[1]
    ensures Count(other + b, pattern) == Count(b, pattern)
  {
    var s, tail := other + b, other[1..];
    assert s[1] == other[1];
    assert s[1..] == tail + b;
    CountSkips(tail, b, pattern);
  }

  lemma {:induction false} ParseFindsEverything(s: string, hole: Token)
    requires !hole.Literal?
    ensures Render(Parse(s)) == s
    ensures Count(s, hole.Text()) == Holes(Parse(s), hole)
    decreases |s|
  {
    if s != "" {
      var first, rest := First(s), Rest(s);
      ParseFindsEverything(rest, hole);
      assert Parse(s)[1..] == Parse(rest);
      if first.Literal? {
        assert s[1..] == rest;
      } else if first != hole {
        HolesDiffer(first, hole);
        CountSkipsOther(first.Text(), rest, hole.Text());
      }
    }
  }

  lemma HolesDiffer(a: Token, b: Token)
    requires !a.Literal? && !b.Literal? && a != b
    ensures IsBraced(a.Text()) && IsBraced(b.Text()) && a.Text()[1] != b.Text()[1]
  {
    HolesAreBraced(a);
    HolesAreBraced(b);
  }

  lemma {:induction false} OnePassSubstitutes(s: string, h: string, j: string, u: string)
    ensures OnePass(s, h, j, u) == Substitute(Parse(s), h, j, u)
    decreases |s|
  {
    if s != "" {
      OnePassSubstitutes(Rest(s), h, j, u);
      assert Parse(s)[1..] == Parse(Rest(s));
    }
  }

  /** For templates whose braces occur only in placeholders, the pieces of the text are the template's own. */
  lemma {:induction false} OnePassOfTemplate(template: seq<Token>, h: string, j: string, u: string)
    requires WellFormed(template)
    ensures OnePass(Render(template), h, j, u) == Substitute(template, h, j, u)
    decreases |template|
  {
    if template != [] {
      var text, rest := template[0].Text(), Render(template[1..]);
      OnePassOfTemplate(template[1..], h, j, u);
      if template[0].Literal? {
        OnePassSkips(text, rest, h, j, u);
      } else {
        FirstIsHole(template[0], rest);
      }
    }
  }

  lemma FirstIsHole(hole: Token, rest: string)
    requires !hole.Literal?
    ensures First(hole.Text() + rest) == hole && Rest(hole.Text() + rest) == rest
  {
    var s, first := hole.Text() + rest, First(hole.Text() + rest);
    assert hole.Text() <= s;
    if !first.Literal? && first != hole {
      HolesDiffer(first, hole);
    }
  }

  /** Replacing one placeholder of a text, as filling it in among the text's pieces. */
  lemma ReplaceInText(s: string, hole: Token, other: Token, with: string)
    requires !hole.Literal? && !other.Literal? && hole != other
    ensures Replace(s, hole.Text(), with) == Render(Fill(Parse(s), hole, with))
    ensures Count(Replace(s, hole.Text(), with), other.Text()) >= Count(s, other.Text())
  {
    HolesDiffer(hole, other);
    ParseFindsEverything(s, hole);
    ParseFindsEverything(s, other);
    var tokens := Parse(s);
    ReplaceFillsHoles("", tokens, hole, hole.Text(), with);
    assert "" + s == s && "" + Render(Fill(tokens, hole, with)) == Render(Fill(tokens, hole, with));
    FillKeepsOtherHoles(tokens, hole, other, with);
    var filled := Fill(tokens, hole, with);
    ReplaceFillsHoles("", filled, other, other.Text(), with);
    assert "" + Render(filled) == Render(filled);
  }

  // ---------------------------------------------------------------------
  // Braces are used up
  // ---------------------------------------------------------------------

  lemma {:induction false} ReplaceUsesBraces(s: string, pattern: string, with: string)
    requires IsBraced(pattern) && '{' !in with
    ensures CountOf(Replace(s, pattern, with), '{') + Count(s, pattern) == CountOf(s, '{')
    decreases |s|
  {
    if s == "" {
      CountOfConcat("", "", '{');
    } else {
      var n := if pattern <= s then |pattern| else 1;
      var head, rest := s[..n], s[n..];
      ReplaceUsesBraces(rest, pattern, with);
      assert s == head + rest;
      CountOfConcat(head, rest, '{');
      if pattern <= s {
        assert head == pattern;
        OneBrace(pattern);
        CountOfConcat(with, Replace(rest, pattern, with), '{');
      } else {
        assert head == [s[0]];
        CountOfConcat([s[0]], Replace(rest, pattern, with), '{');
      }
    }
  }

  lemma OneBrace(pattern: string)
    requires IsBraced(pattern)
    ensures CountOf(pattern, '{') == 1
  {
    assert pattern == [pattern[0]] + pattern[1..];
    CountOfConcat([pattern[0]], pattern[1..], '{');
  }

  lemma {:induction false} SubstituteUsesBraces(tokens: seq<Token>, h: string, j: string, u: string)
    requires '{' !in h && '{' !in j && '{' !in u
    ensures CountOf(Substitute(tokens, h, j, u), '{') + Holes(tokens, Host) + Holes(tokens, JobId) + Holes(tokens, User)
            == CountOf(Render(tokens), '{')
  {
    if tokens == [] {
      CountOfConcat("", "", '{');
    } else {
      SubstituteUsesBraces(tokens[1..], h, j, u);
      PieceUsesBrace(tokens[0], h, j, u);
      CountOfConcat(PieceOf(tokens[0], h, j, u), Substitute(tokens[1..], h, j, u), '{');
      CountOfConcat(tokens[0].Text(), Render(tokens[1..]), '{');
    }
  }

  lemma PieceUsesBrace(token: Token, h: string, j: string, u: string)
    requires '{' !in h && '{' !in j && '{' !in u
    ensures CountOf(PieceOf(token, h, j, u), '{') + (if token.Literal? then 0 else 1) == CountOf(token.Text(), '{')
  {
    var piece := PieceOf(token, h, j, u);
    if !token.Literal? {
      HolesAreBraced(token);
      OneBrace(token.Text());
      CountOfConcat(piece, "", '{');
    }
  }

  // ---------------------------------------------------------------------
  // Exactly when the order does not show
  // ---------------------------------------------------------------------

  /** The fills add no placeholder that a later one would take for the template's own. */
  predicate AddsNone(template: string, h: string, j: string) {
    var one := Replace(template, Host.Text(), h);
    var two := Replace(one, JobId.Text(), j);
    && Count(one, JobId.Text()) == Count(template, JobId.Text())
    && Count(two, User.Text()) == Count(template, User.Text())
  }

  lemma SequentialIsOnePass(template: string, h: string, j: string, u: string)
    requires AddsNone(template, h, j)
    ensures var two := Replace(Replace(template, Host.Text(), h), JobId.Text(), j);
            Replace(two, User.Text(), u) == OnePass(template, h, j, u)
  {
    var tokens := Parse(template);
    ParseFindsEverything(template, JobId);
    ParseFindsEverything(template, User);
    ReplaceInText(template, Host, JobId, h);
    var one := Fill(tokens, Host, h);
    NextFill(one, JobId, j);
    FillKeepsOtherHoles(tokens, Host, JobId, h);
    FillKeepsOtherHoles(tokens, Host, User, h);
    var two := Fill(one, JobId, j);
    NextFill(two, User, u);
    FillKeepsOtherHoles(one, JobId, User, j);
    FillingAllSubstitutes(tokens, h, j, u);
    OnePassSubstitutes(template, h, j, u);
  }

  lemma NextFill(tokens: seq<Token>, hole: Token, with: string)
    requires !hole.Literal?
    ensures Count(Render(tokens), hole.Text()) == Holes(tokens, hole) ==>
              Replace(Render(tokens), hole.Text(), with) == Render(Fill(tokens, hole, with))
  {
    HolesAreBraced(hole);
    ReplaceFillsHoles("", tokens, hole, hole.Text(), with);
    assert "" + Render(tokens) == Render(tokens);
    assert "" + Render(Fill(tokens, hole, with)) == Render(Fill(tokens, hole, with));
  }

  /** Equal results have used up equally many braces, and each fill finds at least what the template had. */
  lemma OnePassAddsNone(template: string, h: string, j: string, u: string)
    requires '{' !in h && '{' !in j && '{' !in u
    requires var two := Replace(Replace(template, Host.Text(), h), JobId.Text(), j);
             Replace(two, User.Text(), u) == OnePass(template, h, j, u)
    ensures AddsNone(template, h, j)
  {
    var a, b, c := Host.Text(), JobId.Text(), User.Text();
    HolesAreBraced(Host);
    HolesAreBraced(JobId);
    HolesAreBraced(User);
    var one := Replace(template, a, h);
    var two := Replace(one, b, j);
    ReplaceUsesBraces(template, a, h);
    ReplaceUsesBraces(one, b, j);
    ReplaceUsesBraces(two, c, u);
    ParseFindsEverything(template, Host);
    ParseFindsEverything(template, JobId);
    ParseFindsEverything(template, User);
    SubstituteUsesBraces(Parse(template), h, j, u);
    OnePassSubstitutes(template, h, j, u);
    ReplaceInText(template, Host, JobId, h);
    ReplaceInText(template, Host, User, h);
    ReplaceInText(one, JobId, User, j);
  }

  /**
   * For every template, braces anywhere: the three replacements give what one simultaneous
   * substitution gives if and only if filling in the host adds no `{jobid}`, and filling in
   * the host and the job id adds no `{user}`, to those the template has itself.
   */
  lemma ExpandIsOnePassExactly(template: string, host: string, jobId: string, user: string)
    ensures Expand(template, host, jobId, user) == OnePass(template, Sanitise(host), Sanitise(jobId), Sanitise(user))
            <==> AddsNone(template, Sanitise(host), Sanitise(jobId))
  {
    var h, j, u := Sanitise(host), Sanitise(jobId), Sanitise(user);
    SanitisedIsSafe(host);
    SanitisedIsSafe(jobId);
    SanitisedIsSafe(user);
    SafeHasNoBraces(h);
    SafeHasNoBraces(j);
    SafeHasNoBraces(u);
    if AddsNone(template, h, j) {
      SequentialIsOnePass(template, h, j, u);
    }
    if Expand(template, host, jobId, user) == OnePass(template, h, j, u) {
      OnePassAddsNone(template, h, j, u);
    }
  }

  lemma ReplaceAbsent(s: string, pattern: string, with: string)
    requires pattern != "" && pattern[0] == '{' && '{' !in s
    ensures Replace(s, pattern, with) == s
  {
    ReplaceSkips(s, "", pattern, with);
    assert s + "" == s;
  }

  /** A brace that opens no placeholder, in front of one that does. */
  lemma ReplaceAfterStrayBrace(middle: string, pattern: string, rest: string, with: string)
    requires |pattern| > 1 && pattern[0] == '{' && '{' !in middle && '{' !in rest
    requires middle != "" && middle[0] != pattern[1]
    ensures Replace("{" + (middle + (pattern + rest)), pattern, with) == "{" + (middle + (with + rest))
  {
    var tail := middle + (pattern + rest);
    var s := "{" + tail;
    assert s[1] == middle[0];
    assert s[1..] == tail;
    ReplaceSkips(middle, pattern + rest, pattern, with);
    ReplaceHead(pattern, rest, with);
    ReplaceAbsent(rest, pattern, with);
  }

  /** It does fail: a host can complete a placeholder that the template does not have. */
  lemma StrayBraceIsNotSimultaneous(user: string)
    ensures Expand("{jo{host}}", "bid", "7", user) == "7"
    ensures OnePass("{jo{host}}", "bid", "7", Sanitise(user)) == "{jobid}"
    ensures !AddsNone("{jo{host}}", "bid", "7")
  {
    ShortNamesAreKept();
    StrayBraceExpands(Sanitise(user));
    StrayBraceInOnePass("{jo{host}}", "{jobid}", "7", Sanitise(user));
    if AddsNone("{jo{host}}", "bid", "7") {
      SequentialIsOnePass("{jo{host}}", "bid", "7", Sanitise(user));
    }
    assert |"7"| != |"{jobid}"|;
  }

  lemma ShortNamesAreKept()
    ensures Sanitise("bid") == "bid" && Sanitise("7") == "7"
  {
    assert Cleaned("bid") == "bid" && Cleaned("7") == "7";
    ReplaceNothing("bid");
    ReplaceNothing("7");
  }

  lemma StrayBraceExpands(u: string)
    ensures Replace(Replace(Replace("{jo{host}}", "{host}", "bid"), "{jobid}", "7"), "{user}", u) == "7"
  {
    ReplaceAfterStrayBrace("jo", "{host}", "}", "bid");
    assert "{" + ("jo" + ("{host}" + "}")) == "{jo{host}}";
    assert "{" + ("jo" + ("bid" + "}")) == "{jobid}";
    ReplaceHead("{jobid}", "", "7");
    assert "{jobid}" + "" == "{jobid}";
    ReplaceAbsent("7", "{user}", u);
  }

  lemma {:induction false} OnePassSkips(a: string, b: string, h: string, j: string, u: string)
    requires '{' !in a
    ensures OnePass(a + b, h, j, u) == a + OnePass(b, h, j, u)
    decreases |a|
  {
    if a == "" {
      assert a + b == b;
    } else {
      var s := a + b;
      assert s[0] == a[0] && a[0] in a;
      HolesAreBraced(Host);
      HolesAreBraced(JobId);
      HolesAreBraced(User);
      assert First(s) == Literal([s[0]]);
      assert Rest(s) == a[1..] + b;
      OnePassSkips(a[1..], b, h, j, u);
      Regroup([a[0]], a[1..], OnePass(b, h, j, u));
      assert a == [a[0]] + a[1..];
    }
  }

  lemma OnePassAfterStrayBrace(s: string, middle: string, t: string, rest: string, h: string, j: string, u: string)
    requires '{' !in middle && '{' !in rest && t == Host.Text() + rest && s == "{" + (middle + t)
    requires First(s).Literal?
    ensures OnePass(s, h, j, u) == "{" + (middle + (h + rest))
  {
    assert Rest(s) == middle + t;
    OnePassSkips(middle, t, h, j, u);
    assert Host.Text() <= t && Rest(t) == rest;
    OnePassSkips(rest, "", h, j, u);
    assert rest + "" == rest;
  }

  lemma NoHoleHere(s: string)
    requires |s| > 3 && s[1] == 'j' && s[3] != 'b'
    ensures First(s).Literal?
  {
    assert Host.Text()[1] == 'h' && JobId.Text()[3] == 'b' && User.Text()[1] == 'u';
  }

  lemma TemplateInParts(s: string, result: string)
    requires s == "{jo{host}}" && result == "{jobid}"
    ensures s == "{" + ("jo" + (Host.Text() + "}")) && result == "{" + ("jo" + ("bid" + "}"))
  {
  }

  lemma StrayBraceInOnePass(s: string, result: string, j: string, u: string)
    requires s == "{jo{host}}" && result == "{jobid}"
    ensures OnePass(s, "bid", j, u) == result
  {
    NoHoleHere(s);
    TemplateInParts(s, result);
    OnePassAfterStrayBrace(s, "jo", Host.Text() + "}", "}", "bid", j, u);
  }
}
