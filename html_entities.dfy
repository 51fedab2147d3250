/**
 * html.UnescapeString, reduced to a fixed table of character references.
 * One left-to-right pass: a decoded '&' is never decoded again, so an
 * escaped entity ("&amp;lt;") comes out one level deep ("&lt;").
 */
module Html {
  import opened GoStrings

  /** Every character that occurs in an entity name of the table below. */
  const EntityAlphabet: string := "&amp;lt;gt;quot;#34;#39;apos;nbsp;"

  /**
   * The entity s starts with, as the length of its name and the character it
   * stands for: &amp; &lt; &gt; &quot; &#34; &#39; &apos; &nbsp;.
   */
  function EntityAt(s: string): (m: Option<(nat, char)>)
    ensures m.Some? ==> 0 < m.value.0 <= |s|
  {
    if "&amp;" <= s then Some((5, '&'))
    else if "&lt;" <= s then Some((4, '<'))
    else if "&gt;" <= s then Some((4, '>'))
    else if "&quot;" <= s then Some((6, '"'))
    else if "&#34;" <= s then Some((5, '"'))
    else if "&#39;" <= s then Some((5, '\''))
    else if "&apos;" <= s then Some((6, '\''))
    else if "&nbsp;" <= s then Some((6, '\U{00A0}'))
    else None
  }

  /** html.UnescapeString over the entity table. */
  function Unescape(s: string): (r: string)
    ensures |r| <= |s|
    ensures r == "" <==> s == ""
    decreases |s|
  {
    if s == "" then ""
    else
      match EntityAt(s)
      case Some(e) => [e.1] + Unescape(s[e.0..])
      case None => [s[0]] + Unescape(s[1..])
  }

  /** A name that does not contain c is a prefix of a + [c] + b exactly when it is one of a. */
  lemma {:induction false} PrefixAround(name: string, a: string, c: char, b: string)
    requires c !in name
    ensures name <= a + [c] + b <==> name <= a
  {
    if |name| > |a| {
      assert name[|a|] != (a + [c] + b)[|a|];
    }
  }

  /** A character outside every entity name cannot be where a match ends. */
  lemma {:induction false} EntityAtBefore(a: string, c: char, b: string)
    requires c !in EntityAlphabet
    ensures EntityAt(a + [c] + b) == EntityAt(a)
  {
    PrefixAround("&amp;", a, c, b);
    PrefixAround("&lt;", a, c, b);
    PrefixAround("&gt;", a, c, b);
    PrefixAround("&quot;", a, c, b);
    PrefixAround("&#34;", a, c, b);
    PrefixAround("&#39;", a, c, b);
    PrefixAround("&apos;", a, c, b);
    PrefixAround("&nbsp;", a, c, b);
  }

  /** The number of characters Unescape consumes at the front of a non-empty string. */
  function StepLength(s: string): (n: nat)
    requires s != ""
    ensures 0 < n <= |s|
  {
    match EntityAt(s)
    case Some(e) => e.0
    case None => 1
  }

  /** The character Unescape produces first for a non-empty string. */
  function UnescapeHead(s: string): char
    requires s != ""
  {
    match EntityAt(s)
    case Some(e) => e.1
    case None => s[0]
  }

  lemma {:induction false} UnescapeUnfold(s: string)
    requires s != ""
    ensures Unescape(s) == [UnescapeHead(s)] + Unescape(s[StepLength(s)..])
  {
  }

  /** Decoding works piecewise around a character that no entity contains. */
  lemma {:induction false} UnescapeAround(a: string, c: char, b: string)
    requires c !in EntityAlphabet
    ensures Unescape(a + [c] + b) == Unescape(a) + [c] + Unescape(b)
    decreases |a|
  {
    if a == "" {
      assert a + [c] + b == [c] + b;
      UnescapeAroundFirst(c, b);
    } else {
      UnescapeAround(a[StepLength(a)..], c, b);
      UnescapeAroundStep(a, c, b);
    }
  }

  lemma {:induction false} UnescapeAroundFirst(c: char, b: string)
    requires c !in EntityAlphabet
    ensures Unescape([c] + b) == [c] + Unescape(b)
  {
    EntityAtBefore("", c, b);
    assert "" + [c] + b == [c] + b;
    assert EntityAt("") == None;
    UnescapeUnfold([c] + b);
    assert ([c] + b)[1..] == b;
  }

  lemma {:induction false} UnescapeAroundStep(a: string, c: char, b: string)
    requires c !in EntityAlphabet && a != ""
    requires Unescape(a[StepLength(a)..] + [c] + b) == Unescape(a[StepLength(a)..]) + [c] + Unescape(b)
    ensures Unescape(a + [c] + b) == Unescape(a) + [c] + Unescape(b)
  {
    var s := a + [c] + b;
    var n := StepLength(a);
    HeadAround(a, c, b);
    SliceAround(a, c, b, n);
    UnescapeUnfold(s);
    UnescapeUnfold(a);
    var h, u, ub := UnescapeHead(a), Unescape(a[n..]), Unescape(b);
    calc {
      Unescape(s);
      [h] + Unescape(a[n..] + [c] + b);
      [h] + (u + [c] + ub);
      { SeqAssoc([h], u, [c], ub); }
      ([h] + u) + [c] + ub;
    }
  }

  lemma {:induction false} SliceAround(a: string, c: char, b: string, n: nat)
    requires n <= |a|
    ensures (a + [c] + b)[n..] == a[n..] + [c] + b
  {
  }

  lemma {:induction false} HeadAround(a: string, c: char, b: string)
    requires c !in EntityAlphabet && a != ""
    ensures StepLength(a + [c] + b) == StepLength(a)
    ensures UnescapeHead(a + [c] + b) == UnescapeHead(a)
  {
    EntityAtBefore(a, c, b);
  }

  lemma {:induction false} SeqAssoc(p: string, x: string, q: string, y: string)
    ensures p + (x + q + y) == (p + x) + q + y
  {
  }

  /** A trailing newline survives decoding. */
  lemma {:induction false} UnescapeTrailingNewline(a: string)
    ensures Unescape(a + "\n") == Unescape(a) + "\n"
  {
    UnescapeAround(a, '\n', "");
    assert a + "\n" == a + ['\n'] + "";
  }
}
