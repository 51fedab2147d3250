/**
 * The parts of Go's `strings`, `strconv` and `unicode` packages that the
 * extraction code leans on, written over Dafny strings (sequences of Unicode
 * scalar values), together with the facts about them that the rest of the
 * model uses.
 */
module GoStrings {

  datatype Option<T> = None | Some(value: T)

  /** unicode.IsSpace: the characters strings.TrimSpace removes. */
  predicate IsSpace(c: char) {
    || c == ' ' || c == '\t' || c == '\n' || c == '\U{000B}' || c == '\U{000C}' || c == '\r'
    || c == '\U{0085}' || c == '\U{00A0}' || c == '\U{1680}'
    || ('\U{2000}' <= c <= '\U{200A}')
    || c == '\U{2028}' || c == '\U{2029}' || c == '\U{202F}' || c == '\U{205F}' || c == '\U{3000}'
  }

  /** The `\s` class of Go's regexp package (RE2): [\t\n\f\r ]. */
  predicate IsRegexSpace(c: char) {
    c == ' ' || c == '\t' || c == '\n' || c == '\U{000C}' || c == '\r'
  }

  /** A string that strings.TrimSpace turns into "". */
  predicate IsBlank(s: string) {
    forall i :: 0 <= i < |s| ==> IsSpace(s[i])
  }

  function TrimLeftSpace(s: string): (r: string)
    ensures |r| <= |s| && r == s[|s| - |r|..]
    ensures r == "" || !IsSpace(r[0])
    ensures forall i :: 0 <= i < |s| - |r| ==> IsSpace(s[i])
  {
    if s != "" && IsSpace(s[0]) then TrimLeftSpace(s[1..]) else s
  }

  function TrimRightSpace(s: string): (r: string)
    ensures |r| <= |s| && r == s[..|r|]
    ensures r == "" || !IsSpace(r[|r| - 1])
    ensures forall i :: |r| <= i < |s| ==> IsSpace(s[i])
  {
    if s != "" && IsSpace(s[|s| - 1]) then TrimRightSpace(s[..|s| - 1]) else s
  }

  /** strings.TrimSpace: drop leading and trailing white space. */
  function TrimSpace(s: string): (r: string)
    ensures |r| <= |s|
    ensures r == "" <==> IsBlank(s)
    ensures r != "" ==> !IsSpace(r[0]) && !IsSpace(r[|r| - 1])
    ensures s != "" && !IsSpace(s[0]) && !IsSpace(s[|s| - 1]) ==> r == s
  {
    var l := TrimLeftSpace(s);
    var r := TrimRightSpace(l);
    assert r == "" ==> l == "";
    r
  }

  /** The characters of TrimSpace(s) are a contiguous run of s. */
  lemma {:induction false} TrimSpaceInfix(s: string) returns (k: nat)
    ensures k + |TrimSpace(s)| <= |s| && TrimSpace(s) == s[k..k + |TrimSpace(s)|]
  {
    var l := TrimLeftSpace(s);
    k := |s| - |l|;
    assert TrimSpace(s) == l[..|TrimSpace(s)|];
  }

  /** strings.TrimRight with a cut set. */
  function TrimRightSet(s: string, cutset: set<char>): (r: string)
    ensures |r| <= |s| && r == s[..|r|]
    ensures r == "" || r[|r| - 1] !in cutset
  {
    if s != "" && s[|s| - 1] in cutset then TrimRightSet(s[..|s| - 1], cutset) else s
  }

  /** The number of ASCII spaces a string starts with (the indentation loops of the source). */
  function LeadingSpaces(s: string): (n: nat)
    ensures n <= |s|
    ensures forall i :: 0 <= i < n ==> s[i] == ' '
    ensures n < |s| ==> s[n] != ' '
  {
    if s != "" && s[0] == ' ' then 1 + LeadingSpaces(s[1..]) else 0
  }

  /** strings.Repeat(" ", n) */
  function Spaces(n: nat): (r: string)
    ensures |r| == n && forall i :: 0 <= i < n ==> r[i] == ' '
  {
    seq(n, _ => ' ')
  }

  /** A line rebuilt as its leading ASCII spaces followed by its trimmed remainder. */
  function Reindent(line: string): (r: string)
    ensures IsBlank(r) <==> IsBlank(line)
    ensures line == "" ==> r == ""
    ensures LeadingSpaces(r) == LeadingSpaces(line)
  {
    var k, t := LeadingSpaces(line), TrimSpace(line);
    ReindentFacts(line, k, t);
    Spaces(k) + t
  }

  lemma {:induction false} ReindentFacts(line: string, k: nat, t: string)
    requires k == LeadingSpaces(line) && t == TrimSpace(line)
    ensures IsBlank(Spaces(k) + t) <==> IsBlank(line)
    ensures line == "" ==> Spaces(k) + t == ""
    ensures LeadingSpaces(Spaces(k) + t) == k
  {
    SpacedLeading(k, t);
    if t != "" {
      assert (Spaces(k) + t)[k] == t[0];
    }
  }

  /** Rebuilding keeps the indentation and the trimmed text, and a second rebuild changes nothing. */
  lemma {:induction false} ReindentShape(line: string)
    ensures LeadingSpaces(Reindent(line)) == LeadingSpaces(line)
    ensures TrimSpace(Reindent(line)) == TrimSpace(line)
    ensures Reindent(Reindent(line)) == Reindent(line)
  {
    var k, t := LeadingSpaces(line), TrimSpace(line);
    var r := Reindent(line);
    assert r == Spaces(k) + t;
    TrimSpacedPrefix(k, t);
    assert Reindent(r) == Spaces(LeadingSpaces(r)) + TrimSpace(r);
  }

  /** Spaces in front of an already trimmed text are all TrimSpace removes. */
  lemma {:induction false} TrimSpacedPrefix(k: nat, t: string)
    requires t == "" || (!IsSpace(t[0]) && !IsSpace(t[|t| - 1]))
    ensures TrimLeftSpace(Spaces(k) + t) == t
    ensures TrimSpace(Spaces(k) + t) == t
  {
    if k > 0 {
      assert (Spaces(k) + t)[1..] == Spaces(k - 1) + t;
      TrimSpacedPrefix(k - 1, t);
    } else {
      assert Spaces(k) + t == t;
    }
  }

  /** k spaces in front of a text that does not start with a space are exactly its indentation. */
  lemma {:induction false} SpacedLeading(k: nat, t: string)
    requires t == "" || !IsSpace(t[0])
    ensures LeadingSpaces(Spaces(k) + t) == k
  {
    var r := Spaces(k) + t;
    LeadingSpacesAtLeast(r, k);
    if t != "" {
      assert r[k] == t[0];
    }
  }

  /** TrimSpace and Reindent never bring in a character the line lacks. */
  lemma {:induction false} TrimSpaceKeepsOut(line: string, c: char)
    requires c !in line
    ensures c !in TrimSpace(line) && c !in Reindent(line)
  {
    var k := TrimSpaceInfix(line);
    if c != ' ' {
      assert forall i :: 0 <= i < |Reindent(line)| ==> Reindent(line)[i] == ' ' || Reindent(line)[i] in TrimSpace(line);
    }
  }

  /** A count that stops at the first non-space is the indentation. */
  lemma {:induction false} LeadingSpacesExact(s: string, n: nat)
    requires n <= |s| && forall i :: 0 <= i < n ==> s[i] == ' '
    requires n == |s| || s[n] != ' '
    ensures n == LeadingSpaces(s)
  {
    LeadingSpacesAtLeast(s, n);
  }

  lemma {:induction false} LeadingSpacesAtLeast(s: string, n: nat)
    requires n <= |s| && forall i :: 0 <= i < n ==> s[i] == ' '
    ensures n <= LeadingSpaces(s)
  {
    if n > 0 {
      LeadingSpacesAtLeast(s[1..], n - 1);
    }
  }

  predicate HasPrefix(s: string, prefix: string) {
    prefix <= s
  }

  predicate HasSuffix(s: string, suffix: string) {
    |suffix| <= |s| && s[|s| - |suffix|..] == suffix
  }

  /** strings.Contains */
  predicate Contains(s: string, sub: string)
    decreases |s|
  {
    sub <= s || (s != "" && Contains(s[1..], sub))
  }

  lemma {:induction false} ContainsAt(s: string, sub: string, i: nat)
    requires i + |sub| <= |s| && s[i..i + |sub|] == sub
    ensures Contains(s, sub)
  {
    if i > 0 {
      ContainsAt(s[1..], sub, i - 1);
    }
  }

  lemma {:induction false} ContainsWitness(s: string, sub: string) returns (i: nat)
    requires Contains(s, sub)
    ensures i + |sub| <= |s| && s[i..i + |sub|] == sub
    decreases |s|
  {
    if sub <= s {
      i := 0;
    } else {
      var j := ContainsWitness(s[1..], sub);
      i := j + 1;
    }
  }

  /** A string that contains a + b contains a. */
  lemma {:induction false} ContainsPrefixOf(s: string, a: string, b: string)
    requires Contains(s, a + b)
    ensures Contains(s, a)
  {
    var i := ContainsWitness(s, a + b);
    assert s[i..i + |a|] == (a + b)[..|a|];
    ContainsAt(s, a, i);
  }

  lemma {:induction false} ContainsConcat(a: string, b: string, sub: string)
    requires Contains(a, sub) || Contains(b, sub)
    ensures Contains(a + b, sub)
  {
    if Contains(a, sub) {
      var i := ContainsWitness(a, sub);
      assert (a + b)[i..i + |sub|] == a[i..i + |sub|];
      ContainsAt(a + b, sub, i);
    } else {
      var i := ContainsWitness(b, sub);
      assert (a + b)[|a| + i..|a| + i + |sub|] == b[i..i + |sub|];
      ContainsAt(a + b, sub, |a| + i);
    }
  }

  /** A one-character needle is found exactly when the character occurs. */
  lemma {:induction false} ContainsChar(s: string, c: char)
    ensures Contains(s, [c]) <==> c in s
  {
    if Contains(s, [c]) {
      var i := ContainsWitness(s, [c]);
      assert s[i] == c;
    }
    if c in s {
      var i :| 0 <= i < |s| && s[i] == c;
      assert s[i..i + 1] == [c];
      ContainsAt(s, [c], i);
    }
  }

  /** sub occurs in s starting at position j. */
  predicate OccursAt(s: string, sub: string, j: int) {
    0 <= j && j + |sub| <= |s| && s[j..j + |sub|] == sub
  }

  /** strings.Index: the first position of sub in s, or -1. */
  function Index(s: string, sub: string): (r: int)
    ensures -1 <= r && (r >= 0 ==> OccursAt(s, sub, r))
    ensures r == -1 <==> !Contains(s, sub)
    ensures forall j :: 0 <= j && (r < 0 || j < r) ==> !OccursAt(s, sub, j)
    decreases |s|
  {
    if sub <= s then
      assert OccursAt(s, sub, 0);
      0
    else if s == "" then -1
    else
      var k := Index(s[1..], sub);
      IndexShift(s, sub, if k < 0 then |s| else k);
      if k < 0 then -1
      else
        assert OccursAt(s, sub, k + 1) by {
          assert s[k + 1..k + 1 + |sub|] == s[1..][k..k + |sub|];
        }
        k + 1
  }

  /** Index of a single character: the first position holding it, and none before. */
  lemma {:induction false} IndexChar(s: string, c: char)
    ensures Index(s, [c]) >= 0 ==> Index(s, [c]) < |s| && s[Index(s, [c])] == c
    ensures forall k :: 0 <= k < |s| && (Index(s, [c]) < 0 || k < Index(s, [c])) ==> s[k] != c
  {
    var i := Index(s, [c]);
    if i >= 0 {
      assert s[i..i + 1] == [c];
    }
    forall k | 0 <= k < |s| && (i < 0 || k < i)
      ensures s[k] != c
    {
      assert !OccursAt(s, [c], k);
      assert s[k..k + 1] == [s[k]];
    }
  }

  lemma {:induction false} IndexShift(s: string, sub: string, k: nat)
    requires s != "" && !(sub <= s)
    requires forall j :: 0 <= j < k ==> !OccursAt(s[1..], sub, j)
    ensures forall j :: 0 <= j < k + 1 ==> !OccursAt(s, sub, j)
  {
    forall j | 0 <= j < k + 1
      ensures !OccursAt(s, sub, j)
    {
      if j > 0 && j + |sub| <= |s| {
        assert s[j..j + |sub|] == s[1..][j - 1..j - 1 + |sub|];
        assert !OccursAt(s[1..], sub, j - 1);
      } else if j == 0 && |sub| <= |s| {
        assert s[..|sub|] == s[0..|sub|];
      }
    }
  }

  /** strings.ReplaceAll for a non-empty pattern: leftmost, non-overlapping. */
  function ReplaceAll(s: string, pattern: string, replacement: string): (r: string)
    requires pattern != ""
    ensures !Contains(s, pattern) ==> r == s
    decreases |s|
  {
    if pattern <= s then replacement + ReplaceAll(s[|pattern|..], pattern, replacement)
    else if s == "" then ""
    else [s[0]] + ReplaceAll(s[1..], pattern, replacement)
  }

  /** ReplaceAll leaves a text alone when the pattern's first character is not in it. */
  lemma {:induction false} ReplaceAllAbsent(t: string, pattern: string, rep: string)
    requires pattern != "" && pattern[0] !in t
    ensures ReplaceAll(t, pattern, rep) == t
    decreases |t|
  {
    if t != "" {
      ReplaceAllAbsent(t[1..], pattern, rep);
    }
  }

  /** ReplaceAll passes over a run that does not contain the pattern's first character. */
  lemma {:induction false} ReplaceAllPast(t: string, rest: string, pattern: string, rep: string)
    requires pattern != "" && pattern[0] !in t
    ensures ReplaceAll(t + rest, pattern, rep) == t + ReplaceAll(rest, pattern, rep)
    decreases |t|
  {
    if t != "" {
      assert (t + rest)[0] == t[0];
      assert !(pattern <= t + rest);
      assert (t + rest)[1..] == t[1..] + rest;
      ReplaceAllPast(t[1..], rest, pattern, rep);
      assert ReplaceAll(t + rest, pattern, rep) == [t[0]] + ReplaceAll(t[1..] + rest, pattern, rep);
      assert t == [t[0]] + t[1..];
    } else {
      assert t + rest == rest;
    }
  }

  /** strings.ReplaceAll for a one-character pattern and a one-character replacement. */
  function ReplaceChar(s: string, c: char, d: char): (r: string)
    ensures |r| == |s|
    ensures forall i :: 0 <= i < |s| ==> r[i] == if s[i] == c then d else s[i]
  {
    seq(|s|, i requires 0 <= i < |s| => if s[i] == c then d else s[i])
  }

  /** strings.Join */
  function Join(parts: seq<string>, sep: string): (r: string)
  {
    if |parts| == 0 then ""
    else if |parts| == 1 then parts[0]
    else parts[0] + sep + Join(parts[1..], sep)
  }

  /** All parts glued together (strings.Join with an empty separator, or a Builder). */
  function Concat(parts: seq<string>): (r: string)
  {
    if |parts| == 0 then "" else Concat(parts[..|parts| - 1]) + parts[|parts| - 1]
  }

  lemma {:induction false} ConcatAppend(a: seq<string>, b: seq<string>)
    ensures Concat(a + b) == Concat(a) + Concat(b)
    decreases |b|
  {
    if |b| > 0 {
      assert (a + b)[..|a + b| - 1] == a + b[..|b| - 1];
      ConcatAppend(a, b[..|b| - 1]);
    } else {
      assert a + b == a;
    }
  }

  /** The characters of s other than c, in order. */
  function Without(s: string, c: char): (r: string)
    ensures c !in r
  {
    if s == "" then "" else (if s[0] == c then "" else [s[0]]) + Without(s[1..], c)
  }

  lemma {:induction false} ConcatCons(x: string, xs: seq<string>)
    ensures Concat([x] + xs) == x + Concat(xs)
  {
    ConcatAppend([x], xs);
    assert Concat([x]) == Concat([]) + x;
  }

  /** The length of the longest run of `\s` characters at the front of s. */
  function RegexSpaceRun(s: string): (n: nat)
    ensures n <= |s|
  {
    if s != "" && IsRegexSpace(s[0]) then 1 + RegexSpaceRun(s[1..]) else 0
  }

  lemma {:induction false} RegexSpaceRunShape(s: string)
    ensures forall i :: 0 <= i < RegexSpaceRun(s) ==> IsRegexSpace(s[i])
    ensures RegexSpaceRun(s) < |s| ==> !IsRegexSpace(s[RegexSpaceRun(s)])
    decreases |s|
  {
    if s != "" && IsRegexSpace(s[0]) {
      RegexSpaceRunShape(s[1..]);
    }
  }

  lemma {:induction false} JoinAppend(a: seq<string>, b: seq<string>, sep: string)
    requires |a| > 0 && |b| > 0
    ensures Join(a + b, sep) == Join(a, sep) + sep + Join(b, sep)
    decreases |a|
  {
    assert (a + b)[0] == a[0];
    if |a| == 1 {
      assert (a + b)[1..] == b;
      assert Join(a + b, sep) == a[0] + sep + Join(b, sep);
    } else {
      assert (a + b)[1..] == a[1..] + b;
      JoinAppend(a[1..], b, sep);
      assert Join(a + b, sep) == a[0] + sep + Join(a[1..] + b, sep);
      assert Join(a, sep) == a[0] + sep + Join(a[1..], sep);
    }
  }

  /** Join of a non-empty list starts with its first part and ends with its last. */
  lemma {:induction false} JoinEnds(parts: seq<string>, sep: string)
    requires |parts| > 0
    ensures parts[0] <= Join(parts, sep)
    ensures HasSuffix(Join(parts, sep), parts[|parts| - 1])
  {
    if |parts| > 1 {
      JoinEnds(parts[1..], sep);
    }
  }

  /** strings.Split with a one-character separator. */
  function Split(s: string, c: char): (parts: seq<string>)
    ensures |parts| >= 1
    ensures forall i :: 0 <= i < |parts| ==> c !in parts[i]
    ensures Join(parts, [c]) == s
    decreases |s|
  {
    if s == "" then [""]
    else
      var rest := Split(s[1..], c);
      if s[0] == c then
        assert ([""] + rest)[1..] == rest;
        [""] + rest
      else
        var parts := [[s[0]] + rest[0]] + rest[1..];
        assert |rest| > 1 ==> Join(rest, [c]) == rest[0] + [c] + Join(rest[1..], [c]);
        assert |rest| > 1 ==> parts[1..] == rest[1..];
        parts
  }

  /** Splitting a join gives back the parts when no part holds the separator. */
  lemma {:induction false} SplitJoin(parts: seq<string>, c: char)
    requires |parts| > 0
    requires forall i :: 0 <= i < |parts| ==> c !in parts[i]
    ensures Split(Join(parts, [c]), c) == parts
    decreases |parts|, |parts[0]|
  {
    var s := Join(parts, [c]);
    if |parts| == 1 {
      SplitNoSep(parts[0], c);
    } else if parts[0] == "" {
      assert s == [c] + Join(parts[1..], [c]);
      assert s[1..] == Join(parts[1..], [c]);
      SplitJoin(parts[1..], c);
    } else {
      var p' := [parts[0][1..]] + parts[1..];
      assert p'[1..] == parts[1..];
      assert Join(p', [c]) == parts[0][1..] + [c] + Join(parts[1..], [c]);
      assert s == [parts[0][0]] + Join(p', [c]);
      assert s[1..] == Join(p', [c]);
      SplitJoin(p', c);
      assert parts[0] == [parts[0][0]] + parts[0][1..];
      assert s[0] == parts[0][0] && s[0] != c;
      assert parts == [[parts[0][0]] + p'[0]] + p'[1..];
    }
  }

  lemma {:induction false} SplitNoSep(s: string, c: char)
    requires c !in s
    ensures Split(s, c) == [s]
    decreases |s|
  {
    if s != "" {
      SplitNoSep(s[1..], c);
    }
  }

  /** A string that ends with the separator splits into a list ending with "". */
  lemma {:induction false} SplitTrailing(s: string, c: char)
    ensures Split(s + [c], c) == Split(s, c) + [""]
  {
    var p := Split(s, c);
    JoinAppend(p, [""], [c]);
    assert Join(p + [""], [c]) == s + [c];
    assert forall i :: 0 <= i < |p + [""]| ==> c !in (p + [""])[i];
    SplitJoin(p + [""], c);
  }

  /** strings.Split with a separator of any non-empty length. */
  function SplitOn(s: string, sep: string): (parts: seq<string>)
    requires sep != ""
    ensures |parts| >= 1
    decreases |s|
  {
    var i := Index(s, sep);
    if i < 0 then [s] else [s[..i]] + SplitOn(s[i + |sep|..], sep)
  }

  /** ASCII upper-case letters lowered, plus the two non-ASCII letters whose lower case is ASCII. */
  function LowerChar(c: char): char {
    if 'A' <= c <= 'Z' then (c as int + 32) as char
    else if c == '\U{212A}' then 'k'
    else if c == '\U{0130}' then 'i'
    else c
  }

  /** strings.ToLower, exact for every ASCII needle the source looks for. */
  function ToLower(s: string): (r: string)
    ensures |r| == |s| && forall i :: 0 <= i < |s| ==> r[i] == LowerChar(s[i])
  {
    seq(|s|, i requires 0 <= i < |s| => LowerChar(s[i]))
  }

  function DigitChar(d: nat): char
    requires d < 10
  {
    "0123456789"[d]
  }

  /** strconv.Itoa / fmt's %d for a non-negative number. */
  function Itoa(n: nat): (r: string)
    ensures r != "" && forall i :: 0 <= i < |r| ==> '0' <= r[i] <= '9'
  {
    if n < 10 then [DigitChar(n)] else Itoa(n / 10) + [DigitChar(n % 10)]
  }

  /** The number of bytes Go's len() reports for the UTF-8 encoding of a string. */
  function Utf8Len(s: string): (n: nat)
    ensures |s| <= n <= 4 * |s|
  {
    if s == "" then 0
    else
      var c := s[0] as int;
      (if c < 0x80 then 1 else if c < 0x800 then 2 else if c < 0x10000 then 3 else 4) + Utf8Len(s[1..])
  }
}
