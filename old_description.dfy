/**
 * ExtractProblemDescription of the older parser package: two regular
 * expressions that capture the description's HTML, each followed by the same
 * clean-up chain, and a walk over the parsed page when neither matches.
 */
module OldDescription {
  import opened GoStrings

  // The clean-up chain of the two regular-expression branches.

  /** The length of a `<br\s*\/?>` tag at the front of s, or 0. */
  function BreakTagLength(s: string): (n: nat)
    ensures n <= |s|
  {
    if "<br" <= s then
      var k := 3 + RegexSpaceRun(s[3..]);
      if k < |s| && s[k] == '>' then k + 1
      else if k + 1 < |s| && s[k] == '/' && s[k + 1] == '>' then k + 2
      else 0
    else 0
  }

  /** The length of a match of `<br\s*\/?>|<p>|</p>` at the front of s, or 0. */
  function BreakAt(s: string): (n: nat)
    ensures n <= |s|
  {
    if BreakTagLength(s) > 0 then BreakTagLength(s)
    else if "<p>" <= s then 3
    else if "</p>" <= s then 4
    else 0
  }

  /** Every `<br>`, `<p>` and `</p>` replaced by a newline. */
  function BreaksToNewlines(s: string): string
    decreases |s|
  {
    if s == "" then ""
    else if BreakAt(s) > 0 then "\n" + BreaksToNewlines(s[BreakAt(s)..])
    else [s[0]] + BreaksToNewlines(s[1..])
  }

  /** Every `<[^>]*>` replaced by a space. */
  function TagsToSpaces(s: string): string
    decreases |s|
  {
    if s == "" then ""
    else if s[0] == '<' && Index(s, ">") >= 0 then
      IndexChar(s, '>');
      " " + TagsToSpaces(s[Index(s, ">") + 1..])
    else [s[0]] + TagsToSpaces(s[1..])
  }

  /** The five entity replacements, in the order the source applies them. */
  function DecodeEntities(s: string): string {
    var a := ReplaceAll(s, "&nbsp;", " ");
    var b := ReplaceAll(a, "&lt;", "<");
    var c := ReplaceAll(b, "&gt;", ">");
    var d := ReplaceAll(c, "&amp;", "&");
    ReplaceAll(d, "&quot;", "\"")
  }

  /** Every run of `\s` characters replaced by one space. */
  function CollapseSpaces(s: string): string
    decreases |s|
  {
    if s == "" then ""
    else if IsRegexSpace(s[0]) then " " + CollapseSpaces(s[RegexSpaceRun(s)..])
    else [s[0]] + CollapseSpaces(s[1..])
  }

  /** The position of the last newline of s, or -1. */
  function LastNewline(s: string): (r: int)
    ensures -1 <= r < |s|
    ensures r >= 0 ==> s[r] == '\n' && forall k :: r < k < |s| ==> s[k] != '\n'
    ensures r < 0 ==> '\n' !in s
  {
    if s == "" then -1
    else if s[|s| - 1] == '\n' then |s| - 1
    else
      var r := LastNewline(s[..|s| - 1]);
      assert r < 0 ==> forall k :: 0 <= k < |s| ==> s[k] != '\n' by {
        if r < 0 {
          forall k | 0 <= k < |s| ensures s[k] != '\n' {
            if k < |s| - 1 {
              assert s[k] == s[..|s| - 1][k];
            }
          }
        }
      }
      r
  }

  /**
   * Every match of `\n\s*\n` replaced by two newlines. The `\s*` is greedy
   * and gives back characters until a newline follows, so a match runs from
   * a newline to the last newline of the white-space run after it.
   */
  function CollapseBlankLines(s: string): string
    decreases |s|
  {
    if s == "" then ""
    else
      var j := BlankRunEnd(s);
      if j >= 0 then "\n\n" + CollapseBlankLines(s[j + 2..])
      else [s[0]] + CollapseBlankLines(s[1..])
  }

  /**
   * Where a match of `\n\s*\n` at the head of s ends: the index in s[1..]
   * of the last newline of the white-space run after a leading newline, or
   * -1 when s does not start such a match.
   */
  function BlankRunEnd(s: string): (j: int)
    ensures j >= 0 ==> s != "" && s[0] == '\n' && j + 2 <= |s| && s[j + 1] == '\n'
    ensures j >= 0 ==> forall i :: 1 <= i < j + 2 ==> IsRegexSpace(s[i])
  {
    if s == "" || s[0] != '\n' then -1
    else
      RegexSpaceRunShape(s[1..]);
      var run := s[1..1 + RegexSpaceRun(s[1..])];
      var j := LastNewline(run);
      assert j >= 0 ==> forall i :: 1 <= i < j + 2 ==> s[i] == run[i - 1];
      j
  }

  /** The clean-up applied to a captured description (both regex branches). */
  function CleanDescription(capture: string): string {
    TrimSpace(CollapseBlankLines(CollapseSpaces(DecodeEntities(TagsToSpaces(BreaksToNewlines(capture))))))
  }

  /** No two neighbouring characters of s are both `\s` characters. */
  ghost predicate NoDoubleSpace(s: string) {
    forall i, j :: 0 <= i < j < |s| && j == i + 1 ==> !(IsRegexSpace(s[i]) && IsRegexSpace(s[j]))
  }

  /** After collapsing, no newline is left and no two `\s` characters touch. */
  lemma {:induction false} CollapseSpacesShape(s: string)
    ensures '\n' !in CollapseSpaces(s)
    ensures NoDoubleSpace(CollapseSpaces(s))
    ensures CollapseSpaces(s) != "" ==> (IsRegexSpace(CollapseSpaces(s)[0]) <==> IsRegexSpace(s[0]))
    decreases |s|
  {
    if s != "" {
      if IsRegexSpace(s[0]) {
        var n := RegexSpaceRun(s);
        var rest := s[n..];
        RegexSpaceRunShape(s);
        CollapseSpacesShape(rest);
        var r := CollapseSpaces(rest);
        assert r != "" ==> !IsRegexSpace(r[0]);
        assert CollapseSpaces(s) == " " + r;
      } else {
        CollapseSpacesShape(s[1..]);
        assert CollapseSpaces(s) == [s[0]] + CollapseSpaces(s[1..]);
      }
    }
  }

  /** The blank-line pass leaves a string without newlines alone. */
  lemma {:induction false} CollapseBlankLinesNoNewline(s: string)
    requires '\n' !in s
    ensures CollapseBlankLines(s) == s
    decreases |s|
  {
    if s != "" {
      CollapseBlankLinesNoNewline(s[1..]);
    }
  }

  /**
   * A description taken by either regex branch holds no newline, no two
   * neighbouring `\s` characters, and no white space at either end: the
   * space-collapsing pass has already removed every newline the break pass
   * put in, so the blank-line pass changes nothing.
   */
  lemma {:induction false} CleanDescriptionShape(capture: string)
    ensures Tidy(CleanDescription(capture))
  {
    CleanedShape(DecodeEntities(TagsToSpaces(BreaksToNewlines(capture))));
  }

  /** No newline, no two neighbouring `\s` characters, no white space at either end. */
  ghost predicate Tidy(r: string) {
    && '\n' !in r
    && NoDoubleSpace(r)
    && (r != "" ==> !IsSpace(r[0]) && !IsSpace(r[|r| - 1]))
  }

  lemma {:induction false} CleanedShape(x: string)
    ensures Tidy(TrimSpace(CollapseBlankLines(CollapseSpaces(x))))
  {
    var c := CollapseSpaces(x);
    CollapseSpacesShape(x);
    CollapseBlankLinesNoNewline(c);
    TrimKeeps(c);
  }

  /** Trimming a text without newlines or neighbouring `\s` characters leaves it tidy. */
  lemma {:induction false} TrimKeeps(c: string)
    requires '\n' !in c && NoDoubleSpace(c)
    ensures Tidy(TrimSpace(c))
  {
    var k := TrimSpaceInfix(c);
    InfixKeeps(c, TrimSpace(c), k);
  }

  /** A run of characters of c is free of newlines and of neighbouring `\s` characters. */
  lemma {:induction false} InfixKeeps(c: string, r: string, k: nat)
    requires k + |r| <= |c| && r == c[k..k + |r|]
    requires '\n' !in c && NoDoubleSpace(c)
    ensures '\n' !in r && NoDoubleSpace(r)
  {
    forall i, j | 0 <= i < j < |r| && j == i + 1
      ensures !(IsRegexSpace(r[i]) && IsRegexSpace(r[j]))
    {
      assert r[i] == c[k + i] && r[j] == c[k + j];
    }
    forall i | 0 <= i < |r|
      ensures r[i] != '\n'
    {
      assert r[i] == c[k + i];
    }
  }

  // The decoding order. Character references are meant to be decoded one
  // level deep: decoding an escaped text should give the text back.

  /** The escape for each of the four characters that HTML text escapes. */
  function EscapeChar(c: char): string {
    if c == '&' then "&amp;"
    else if c == '<' then "&lt;"
    else if c == '>' then "&gt;"
    else if c == '"' then "&quot;"
    else [c]
  }

  /** A text as HTML writes it. */
  function Escape(s: string): string {
    if s == "" then "" else EscapeChar(s[0]) + Escape(s[1..])
  }

  /** The source's order decodes "&amp;quot;" twice: an escaped "&quot;" comes back as a quote. */
  lemma {:induction false} DecodeEntitiesTwice()
    ensures Escape("&quot;") == "&amp;quot;"
    ensures DecodeEntities(Escape("&quot;")) == "\""
  {
    EscapedQuote();
    DecodedTwice();
  }

  lemma {:induction false} EscapedQuote()
    ensures Escape("&quot;") == "&amp;quot;"
  {
    assert Escape("&quot;") == "&amp;" + Escape("quot;");
    assert Escape("quot;") == "quot;" by {
      assert Escape("quot;") == "q" + Escape("uot;");
      assert Escape("uot;") == "u" + Escape("ot;");
      assert Escape("ot;") == "o" + Escape("t;");
      assert Escape("t;") == "t" + Escape(";");
      assert Escape(";") == ";" + Escape("");
    }
  }

  lemma {:induction false} DecodedTwice()
    ensures DecodeEntities("&amp;quot;") == "\""
  {
    DecodedTwiceAt("&amp;quot;", "&quot;");
  }

  lemma {:induction false} DecodedTwiceAt(e: string, q: string)
    requires e == "&amp;quot;" && q == "&quot;"
    ensures DecodeEntities(e) == "\""
  {
    SkipReplace(e, "&nbsp;", " ");
    SkipReplace(e, "&lt;", "<");
    SkipReplace(e, "&gt;", ">");
    AmpQuot(e, q);
    assert q[6..] == "";
    assert ReplaceAll(q, "&quot;", "\"") == "\"" + ReplaceAll(q[6..], "&quot;", "\"");
  }

  lemma {:induction false} AmpQuot(e: string, q: string)
    requires e == "&amp;quot;" && q == "&quot;"
    ensures ReplaceAll(e, "&amp;", "&") == q
  {
    assert "&amp;" <= e;
    assert e[5..] == "quot;";
    ReplaceAllAbsent(e[5..], "&amp;", "&");
  }

  /** A string made of "&amp;quot;": patterns with another second letter do not occur. */
  lemma {:induction false} SkipReplace(e: string, pattern: string, rep: string)
    requires e == "&amp;quot;"
    requires |pattern| >= 2 && pattern[0] == '&' && pattern[1] != 'a'
    ensures ReplaceAll(e, pattern, rep) == e
  {
    assert !(pattern <= e);
    ReplaceAllAbsent(e[1..], pattern, rep);
  }

  /** The corrected order: "&amp;" last, so nothing it produces is decoded again. */
  function DecodeEntitiesFixed(s: string): string {
    var a := ReplaceAll(s, "&nbsp;", " ");
    var b := ReplaceAll(a, "&lt;", "<");
    var c := ReplaceAll(b, "&gt;", ">");
    var d := ReplaceAll(c, "&quot;", "\"");
    ReplaceAll(d, "&amp;", "&")
  }

  /** The text with the characters in `done` already decoded and the rest still escaped. */
  function Partly(s: string, done: set<char>): string {
    if s == "" then "" else (if s[0] in done then [s[0]] else EscapeChar(s[0])) + Partly(s[1..], done)
  }

  lemma {:induction false} PartlyNone(s: string)
    ensures Partly(s, {}) == Escape(s)
  {
    if s != "" {
      PartlyNone(s[1..]);
    }
  }

  lemma {:induction false} PartlyAll(s: string)
    ensures Partly(s, {'&', '<', '>', '"'}) == s
  {
    if s != "" {
      PartlyAll(s[1..]);
      assert [s[0]] + s[1..] == s;
    }
  }

  /**
   * One decoding step: with '&' still escaped, replacing the escape of c by
   * c decodes exactly the occurrences of c.
   */
  lemma {:induction false} DecodeStep(s: string, done: set<char>, c: char)
    requires '&' !in done && c in {'<', '>', '"'}
    ensures ReplaceAll(Partly(s, done), EscapeChar(c), [c]) == Partly(s, done + {c})
    decreases |s|
  {
    if s != "" {
      DecodeStep(s[1..], done, c);
      DecodeHead(s, done, c);
    }
  }

  lemma {:induction false} DecodeHead(s: string, done: set<char>, c: char)
    requires s != "" && '&' !in done && c in {'<', '>', '"'}
    requires ReplaceAll(Partly(s[1..], done), EscapeChar(c), [c]) == Partly(s[1..], done + {c})
    ensures ReplaceAll(Partly(s, done), EscapeChar(c), [c]) == Partly(s, done + {c})
  {
    var pat := EscapeChar(c);
    var head := if s[0] in done then [s[0]] else EscapeChar(s[0]);
    var rest := Partly(s[1..], done);
    assert Partly(s, done) == head + rest;
    if s[0] == c && c !in done {
      assert head == pat;
      assert (head + rest)[|pat|..] == rest;
    } else if s[0] in done || s[0] !in {'&', '<', '>', '"'} {
      assert head == [s[0]] && s[0] != '&';
      ReplaceAllPast(head, rest, pat, [c]);
    } else {
      EscapeShape(s[0], c);
      EscapePast(head, rest, pat, [c]);
    }
  }

  /** Escapes start with '&', hold no other '&', and differ in their second letter. */
  lemma {:induction false} EscapeShape(a: char, b: char)
    requires a in {'&', '<', '>', '"'} && b in {'&', '<', '>', '"'} && a != b
    ensures |EscapeChar(a)| >= 2 && |EscapeChar(b)| >= 2
    ensures EscapeChar(a)[0] == '&' && '&' !in EscapeChar(a)[1..]
    ensures EscapeChar(b)[0] == '&'
    ensures EscapeChar(a)[1] != EscapeChar(b)[1]
  {
  }

  /** ReplaceAll passes over an escape other than the pattern. */
  lemma {:induction false} EscapePast(head: string, rest: string, pat: string, rep: string)
    requires |head| >= 2 && head[0] == '&' && '&' !in head[1..]
    requires |pat| >= 2 && pat[0] == '&' && head[1] != pat[1]
    ensures ReplaceAll(head + rest, pat, rep) == head + ReplaceAll(rest, pat, rep)
  {
    var t := head + rest;
    assert t[1] == head[1];
    ReplaceAllSkip(t, pat, rep);
    assert t[1..] == head[1..] + rest;
    ReplaceAllPast(head[1..], rest, pat, rep);
    assert head == [head[0]] + head[1..];
  }

  /** Where the pattern does not start, ReplaceAll keeps the first character and goes on. */
  lemma {:induction false} ReplaceAllSkip(t: string, pat: string, rep: string)
    requires |t| >= 2 && |pat| >= 2 && t[1] != pat[1]
    ensures ReplaceAll(t, pat, rep) == [t[0]] + ReplaceAll(t[1..], pat, rep)
  {
    assert !(pat <= t);
  }

  /** The last step: decoding "&amp;" when every other character is done. */
  lemma {:induction false} DecodeAmp(s: string)
    ensures ReplaceAll(Partly(s, {'<', '>', '"'}), "&amp;", "&") == Partly(s, {'&', '<', '>', '"'})
    decreases |s|
  {
    if s != "" {
      var done := {'<', '>', '"'};
      var head := if s[0] in done then [s[0]] else EscapeChar(s[0]);
      var rest := Partly(s[1..], done);
      DecodeAmp(s[1..]);
      assert Partly(s, done) == head + rest;
      if s[0] == '&' {
        assert (head + rest)[5..] == rest;
      } else {
        assert head == [s[0]];
        ReplaceAllPast(head, rest, "&amp;", "&");
      }
    }
  }

  /** With "&amp;" decoded last, decoding gives back any escaped text. */
  lemma {:induction false} DecodeEscapeFixed(s: string)
    ensures DecodeEntitiesFixed(Escape(s)) == s
  {
    PartlyNone(s);
    var e := Partly(s, {});
    assert !Contains(e, "&nbsp;") by {
      NoNbspEscape(s);
    }
    DecodeStep(s, {}, '<');
    DecodeStep(s, {'<'}, '>');
    DecodeStep(s, {'<', '>'}, '"');
    assert {} + {'<'} == {'<'};
    assert {'<'} + {'>'} == {'<', '>'};
    assert {'<', '>'} + {'"'} == {'<', '>', '"'};
    DecodeAmp(s);
    PartlyAll(s);
  }

  /** An escaped text never holds "&nbsp;": after every '&' comes 'a', 'l', 'g' or 'q'. */
  lemma {:induction false} NoNbspEscape(s: string)
    ensures !Contains(Partly(s, {}), "&nbsp;")
    decreases |s|
  {
    if s != "" {
      NoNbspEscape(s[1..]);
      var head := EscapeChar(s[0]);
      var rest := Partly(s[1..], {});
      assert Partly(s, {}) == head + rest;
      NoNbspIn(head, rest);
    }
  }

  lemma {:induction false} NoNbspIn(head: string, rest: string)
    requires head == "&amp;" || head == "&lt;" || head == "&gt;" || head == "&quot;" || (|head| == 1 && head[0] != '&')
    requires !Contains(rest, "&nbsp;")
    ensures !Contains(head + rest, "&nbsp;")
    decreases |head|
  {
    var t := head + rest;
    if |head| == 1 {
      assert t[0] == head[0];
    } else {
      assert t[1] == head[1];
    }
    if |head| == 1 {
      assert t[1..] == rest;
    } else {
      var tail := head[1..];
      assert t[1..] == tail + rest;
      NoNbspTail(tail, rest);
    }
  }

  lemma {:induction false} NoNbspTail(tail: string, rest: string)
    requires '&' !in tail
    requires !Contains(rest, "&nbsp;")
    ensures !Contains(tail + rest, "&nbsp;")
    decreases |tail|
  {
    if tail != "" {
      assert (tail + rest)[0] != '&';
      assert (tail + rest)[1..] == tail[1..] + rest;
      NoNbspTail(tail[1..], rest);
    } else {
      assert tail + rest == rest;
    }
  }
}
