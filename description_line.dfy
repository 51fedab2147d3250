/**
 * The per-line cleanup inside FormatDescription of the newer package
 * (pkg/leetcode_to_anki/leetcode_parser.go): the `src` of each `<img ...>`
 * tag is pointed at a saved image, img tags are parked behind
 * `__IMG_TAG_i__` placeholders while every other tag is stripped, put back,
 * and three entities are decoded.
 *
 * The three regular expressions involved (`<img[^>]*>`, `src="([^"]*)"` and
 * `<[^>]*>`) are written out as the leftmost-first scans they perform.
 */
module DescriptionLine {
  import opened GoStrings
  import opened Html

  /** A line cut at its `<img ...>` tags. */
  datatype Piece = Text(text: string) | Img(tag: string)

  /**
   * The leftmost match of `<img[^>]*>`: where it starts and one past its '>'.
   * When "<img" has no '>' after it, no later "<img" has one either.
   */
  function FindImg(s: string): (m: Option<(nat, nat)>)
    ensures m.Some? ==> m.value.0 + 5 <= m.value.1 <= |s|
    ensures m.Some? ==> "<img" <= s[m.value.0..] && s[m.value.1 - 1] == '>'
    ensures m.Some? ==> forall k :: m.value.0 <= k < m.value.1 - 1 ==> s[k] != '>'
  {
    var i := Index(s, "<img");
    if i < 0 then None
    else
      var j := Index(s[i + 4..], ">");
      if j < 0 then None
      else
        ImgMatch(s, i, j);
        Some((i, i + 4 + j + 1))
  }

  /** The facts FindImg promises, for "<img" at `i` and the first '>' `j` places after it. */
  lemma ImgMatch(s: string, i: nat, j: int)
    requires OccursAt(s, "<img", i) && j == Index(s[i + 4..], ">") && j >= 0
    ensures i + 4 + j + 1 <= |s| && "<img" <= s[i..] && s[i + 4 + j] == '>'
    ensures forall k :: i <= k < i + 4 + j ==> s[k] != '>'
  {
    IndexChar(s[i + 4..], '>');
    assert s[i..][..4] == s[i..i + 4];
    assert s[i..i + 4] == "<img";
    forall k | i <= k < i + 4 + j
      ensures s[k] != '>'
    {
      if k < i + 4 {
        assert s[k] == s[i..i + 4][k - i];
      } else {
        assert s[k] == s[i + 4..][k - (i + 4)];
      }
    }
  }

  /** The line split at the successive, non-overlapping img matches. */
  function ImgPieces(s: string): (ps: seq<Piece>)
    ensures |ps| > 0
    decreases |s|
  {
    match FindImg(s)
    case None => [Text(s)]
    case Some(m) => [Text(s[..m.0]), Img(s[m.0..m.1])] + ImgPieces(s[m.1..])
  }

  /** The pieces written back out. */
  function Glue(ps: seq<Piece>): string {
    if ps == [] then ""
    else (match ps[0] case Text(t) => t case Img(t) => t) + Glue(ps[1..])
  }

  /** Cutting a line at its img tags loses nothing. */
  lemma {:induction false} GlueImgPieces(s: string)
    ensures Glue(ImgPieces(s)) == s
    decreases |s|
  {
    match FindImg(s)
    case None =>
    case Some(m) =>
      GlueImgPieces(s[m.1..]);
      GlueCut(s, m.0, m.1, ImgPieces(s[m.1..]));
  }

  /** The text before a tag, the tag and pieces gluing back to the rest give the whole line. */
  lemma {:induction false} GlueCut(s: string, i: nat, j: nat, rest: seq<Piece>)
    requires i <= j <= |s| && Glue(rest) == s[j..]
    ensures Glue([Text(s[..i]), Img(s[i..j])] + rest) == s
  {
    var ps := [Text(s[..i]), Img(s[i..j])] + rest;
    assert ps[1..][1..] == rest;
    assert s == s[..i] + s[i..j] + s[j..];
  }

  /** Every Img piece is a whole `<img ...>` tag: it starts with "<img", ends with its only '>'. */
  lemma {:induction false} ImgPiecesAreTags(s: string)
    ensures ImgTagsOnly(ImgPieces(s))
    decreases |s|
  {
    match FindImg(s)
    case None =>
    case Some(m) =>
      ImgPiecesAreTags(s[m.1..]);
      CutIsImgTag(s, m.0, m.1);
      var ps := [Text(s[..m.0]), Img(s[m.0..m.1])] + ImgPieces(s[m.1..]);
      assert ps[1..][1..] == ImgPieces(s[m.1..]);
  }

  /** A slice starting with "<img" whose only '>' is its last character is an img tag. */
  lemma {:induction false} CutIsImgTag(s: string, i: nat, j: nat)
    requires i + 5 <= j <= |s| && "<img" <= s[i..] && s[j - 1] == '>'
    requires forall k :: i <= k < j - 1 ==> s[k] != '>'
    ensures IsImgTag(s[i..j])
  {
    var t := s[i..j];
    assert "<img" <= t by {
      assert t[..4] == s[i..][..4];
    }
    assert forall k :: 0 <= k < |t| - 1 ==> t[k] == s[i + k];
  }

  predicate IsImgTag(t: string) {
    && "<img" <= t && |t| >= 5 && t[|t| - 1] == '>'
    && forall k :: 0 <= k < |t| - 1 ==> t[k] != '>'
  }

  predicate ImgTagsOnly(ps: seq<Piece>) {
    ps == [] || ((ps[0].Img? ==> IsImgTag(ps[0].tag)) && ImgTagsOnly(ps[1..]))
  }

  /**
   * The leftmost `src="..."` of a tag: where it starts and the length of the
   * quoted value. If the first `src="` has no closing quote, no later one has.
   */
  function FindSrc(tag: string): (m: Option<(nat, nat)>)
    ensures m.Some? ==> m.value.0 + 5 + m.value.1 + 1 <= |tag|
    ensures m.Some? ==> OccursAt(tag, "src=\"", m.value.0) && tag[m.value.0 + 5 + m.value.1] == '"'
    ensures m.Some? ==> Index(tag, "src=\"") == m.value.0
    ensures m.Some? ==> forall k :: m.value.0 + 5 <= k < m.value.0 + 5 + m.value.1 ==> tag[k] != '"'
  {
    var k := Index(tag, "src=\"");
    if k < 0 then None
    else
      var q := Index(tag[k + 5..], "\"");
      if q < 0 then None
      else
        IndexChar(tag[k + 5..], '"');
        assert forall j :: k + 5 <= j < k + 5 + q ==> tag[j] == tag[k + 5..][j - (k + 5)];
        Some((k, q))
  }

  /** strings.Replace(s, target, with, 1): the first occurrence of target replaced. */
  function ReplaceFirst(s: string, target: string, with: string): string {
    var i := Index(s, target);
    if i < 0 then s else s[..i] + with + s[i + |target|..]
  }

  /** An image saved under one of the given names, chosen by `pick` (the source takes whichever name its map yields first). */
  function PickName(names: seq<string>, pick: nat): string
    requires |names| > 0
  {
    names[pick % |names|]
  }

  /**
   * The callback for one img tag: an inline (`data:image/`) or remote
   * (`http`) src is replaced by `src="<name>"` for a saved image name.
   */
  function RewriteTag(tag: string, names: seq<string>, pick: nat): string {
    RewriteFound(tag, FindSrc(tag), names, pick)
  }

  /** The callback once the src attribute has been looked up. */
  function RewriteFound(tag: string, found: Option<(nat, nat)>, names: seq<string>, pick: nat): string
    requires found.Some? ==> found.value.0 + 5 + found.value.1 + 1 <= |tag|
  {
    match found
    case None => tag
    case Some(m) =>
      if Replaceable(tag[m.0 + 5..m.0 + 5 + m.1]) && |names| > 0 then SetSrc(tag, m.0, m.1, PickName(names, pick))
      else tag
  }

  /** A src the callback replaces: inline image data or a remote address. */
  predicate Replaceable(src: string) {
    HasPrefix(src, "data:image/") || HasPrefix(src, "http")
  }

  /** The first occurrence of the `src="..."` attribute at k, with a value of length q, replaced by `src="f"`. */
  function SetSrc(tag: string, k: nat, q: nat, f: string): string
    requires k + 5 + q + 1 <= |tag|
  {
    ReplaceFirst(tag, tag[k..k + 5 + q + 1], "src=\"" + f + "\"")
  }

  /**
   * An inline (`data:image/`) or remote (`http`) src becomes `src="f"` for a
   * saved name f when there are saved names; the rest of the tag is kept.
   */
  lemma {:induction false} RewriteTagReplacesSrc(tag: string, names: seq<string>, pick: nat, k: nat, q: nat)
    requires FindSrc(tag) == Some((k, q)) && |names| > 0
    requires Replaceable(tag[k + 5..k + 5 + q])
    ensures exists f :: f in names && RewriteTag(tag, names, pick) == tag[..k] + "src=\"" + f + "\"" + tag[k + 5 + q + 1..]
  {
    var f := PickName(names, pick);
    RewriteTagSets(tag, names, pick, k, q);
    SetSrcAt(tag, k, q, f);
    ConcatFour(tag[..k], "src=\"", f, "\"", tag[k + 5 + q + 1..]);
    assert f in names;
  }

  /** A replaceable src with saved names is set to the picked name. */
  lemma {:induction false} RewriteTagSets(tag: string, names: seq<string>, pick: nat, k: nat, q: nat)
    requires FindSrc(tag) == Some((k, q)) && |names| > 0
    requires Replaceable(tag[k + 5..k + 5 + q])
    ensures k + 5 + q + 1 <= |tag|
    ensures RewriteTag(tag, names, pick) == SetSrc(tag, k, q, PickName(names, pick))
  {
    RewriteFoundSets(tag, Some((k, q)), names, pick);
  }

  /** RewriteFound on a found replaceable src with saved names. */
  lemma {:induction false} RewriteFoundSets(tag: string, found: Option<(nat, nat)>, names: seq<string>, pick: nat)
    requires found.Some? && found.value.0 + 5 + found.value.1 + 1 <= |tag| && |names| > 0
    requires Replaceable(tag[found.value.0 + 5..found.value.0 + 5 + found.value.1])
    ensures RewriteFound(tag, found, names, pick) == SetSrc(tag, found.value.0, found.value.1, PickName(names, pick))
  {
  }

  /** The attribute FindSrc found is where ReplaceFirst replaces. */
  lemma {:induction false} SetSrcAt(tag: string, k: nat, q: nat, f: string)
    requires k + 5 + q + 1 <= |tag| && Index(tag, "src=\"") == k && OccursAt(tag, "src=\"", k)
    ensures SetSrc(tag, k, q, f) == tag[..k] + ("src=\"" + f + "\"") + tag[k + 5 + q + 1..]
  {
    var whole := tag[k..k + 5 + q + 1];
    assert "src=\"" <= whole;
    FirstOccurrenceOfExtension(tag, "src=\"", whole, k);
  }

  lemma {:induction false} ConcatFour(a: string, b: string, c: string, d: string, e: string)
    ensures a + (b + c + d) + e == a + b + c + d + e
  {
  }

  /** Any other tag, and every tag when no image was saved, is left as it is. */
  lemma {:induction false} RewriteTagKeeps(tag: string, names: seq<string>, pick: nat)
    requires
      || FindSrc(tag).None? || |names| == 0
      || (var m := FindSrc(tag).value; !Replaceable(tag[m.0 + 5..m.0 + 5 + m.1]))
    ensures RewriteTag(tag, names, pick) == tag
  {
  }

  /** A string that starts with p is first found where p is first found, if it occurs there. */
  lemma {:induction false} FirstOccurrenceOfExtension(s: string, p: string, w: string, k: nat)
    requires p <= w && Index(s, p) == k && OccursAt(s, w, k)
    ensures Index(s, w) == k
  {
    forall j | 0 <= j < k
      ensures !OccursAt(s, w, j)
    {
      assert !OccursAt(s, p, j);
      if j + |w| <= |s| {
        assert s[j..j + |w|][..|p|] == s[j..j + |p|];
      }
    }
  }

  /** Every img tag of the line passed through the callback; the text between tags kept. */
  function RewriteImgs(line: string, names: seq<string>, pick: nat): string {
    Glue(RewritePieces(ImgPieces(line), names, pick))
  }

  function RewritePieces(ps: seq<Piece>, names: seq<string>, pick: nat): (r: seq<Piece>)
    ensures |r| == |ps|
  {
    if ps == [] then []
    else
      (match ps[0] case Text(t) => [Text(t)] case Img(t) => [Img(RewriteTag(t, names, pick))])
      + RewritePieces(ps[1..], names, pick)
  }

  /** The i-th placeholder. */
  function Placeholder(i: nat): string {
    "__IMG_TAG_" + Itoa(i) + "__"
  }

  /** The pieces with the k-th and later img tags replaced by numbered placeholders. */
  function Marked(ps: seq<Piece>, k: nat): string {
    if ps == [] then ""
    else
      match ps[0]
      case Text(t) => t + Marked(ps[1..], k)
      case Img(_) => Placeholder(k) + Marked(ps[1..], k + 1)
  }

  /** The img tags in order. */
  function Tags(ps: seq<Piece>): seq<string> {
    if ps == [] then []
    else (match ps[0] case Text(_) => [] case Img(t) => [t]) + Tags(ps[1..])
  }

  /** Go's `<[^>]*>` ReplaceAllString with "": each '<' up to the next '>' removed, leftmost first. */
  function StripTags(s: string): (r: string)
    ensures |r| <= |s|
    decreases |s|
  {
    var i := Index(s, "<");
    if i < 0 then s
    else
      var j := Index(s[i..], ">");
      if j < 0 then s else s[..i] + StripTags(s[i + j + 1..])
  }

  /** No complete tag survives stripping: no '<' has a '>' anywhere after it. */
  lemma {:induction false} StripTagsRemovesTags(s: string)
    ensures forall i, j :: 0 <= i < j < |StripTags(s)| && StripTags(s)[i] == '<' ==> StripTags(s)[j] != '>'
    decreases |s|, 1
  {
    var i := Index(s, "<");
    IndexChar(s, '<');
    if i >= 0 {
      var j := Index(s[i..], ">");
      IndexChar(s[i..], '>');
      if j < 0 {
        assert forall k :: i < k < |s| ==> s[k] == s[i..][k - i];
      } else {
        StripStep(s, i, j);
      }
    }
  }

  lemma {:induction false} StripStep(s: string, i: nat, j: nat)
    requires i < |s| && Index(s, "<") == i && Index(s[i..], ">") == j
    requires forall k :: 0 <= k < i ==> s[k] != '<'
    ensures forall a, b :: 0 <= a < b < |StripTags(s)| && StripTags(s)[a] == '<' ==> StripTags(s)[b] != '>'
    decreases |s|, 0
  {
    var rest := s[i + j + 1..];
    StripTagsRemovesTags(rest);
    StripUnfold(s, i, j);
    NoTagAfter(s[..i], StripTags(rest));
  }

  /** One strip step: the text before the first '<' kept, the tag dropped. */
  lemma {:induction false} StripUnfold(s: string, i: nat, j: nat)
    requires i < |s| && Index(s, "<") == i && Index(s[i..], ">") == j
    ensures StripTags(s) == s[..i] + StripTags(s[i + j + 1..])
  {
    var u := StripTags(s[i + j + 1..]);
    assert StripTags(s) == s[..i] + u;
  }

  /** A text without '<' in front of a tag-free text leaves it tag-free. */
  lemma {:induction false} NoTagAfter(p: string, u: string)
    requires forall k :: 0 <= k < |p| ==> p[k] != '<'
    requires forall a, b :: 0 <= a < b < |u| && u[a] == '<' ==> u[b] != '>'
    ensures forall a, b :: 0 <= a < b < |p + u| && (p + u)[a] == '<' ==> (p + u)[b] != '>'
  {
    var r := p + u;
    forall a, b | 0 <= a < b < |r| && r[a] == '<'
      ensures r[b] != '>'
    {
      assert a >= |p|;
      assert r[a] == u[a - |p|] && r[b] == u[b - |p|];
    }
  }

  /** The restore loop after n rounds: placeholders 0 .. n-1 replaced by their tags. */
  function Restore(s: string, tags: seq<string>, n: nat): string
    requires n <= |tags|
  {
    if n == 0 then s else ReplaceAll(Restore(s, tags, n - 1), Placeholder(n - 1), tags[n - 1])
  }

  /** The three entity replacements, in the source's order. */
  function DecodeBasic(s: string): string {
    ReplaceAll(ReplaceAll(ReplaceAll(s, "&lt;", "<"), "&gt;", ">"), "&amp;", "&")
  }

  /** The whole cleanup of one (already src-rewritten) line. */
  function CleanLine(line: string): string {
    var ps := ImgPieces(line);
    var tags := Tags(ps);
    TrimSpace(DecodeBasic(Restore(StripTags(Marked(ps, 0)), tags, |tags|)))
  }

  /**
   * An img tag survives the cleanup while the tags around it are removed: on
   * a line holding one `<img ...>` tag, where every '<' before the tag is
   * closed by a '>' before the tag and neither stripped side spells a
   * placeholder, the tag comes back through its `__IMG_TAG_0__` placeholder
   * unchanged between the two stripped sides, and the line is then only
   * entity-decoded and trimmed.
   */
  lemma {:induction false} ImgTagSurvives(a: string, t: string, b: string)
    requires IsImgTag(t) && !Contains(a, "<img") && !Contains(b, "<img")
    requires TagClosed(a)
    requires !Contains(StripTags(a), "__IMG_TAG_") && !Contains(StripTags(b), "__IMG_TAG_")
    ensures CleanLine(a + t + b) == TrimSpace(DecodeBasic(StripTags(a) + t + StripTags(b)))
  {
    OneImgPieces(a, t, b);
    var p := Placeholder(0);
    OneImgMarked(a, t, b, p);
    OneImgStripped(a, p, b);
    var m := StripTags(a) + p + StripTags(b);
    assert Restore(m, [t], 1) == ReplaceAll(m, p, t);
    OneImgRestored(StripTags(a), t, StripTags(b));
  }

  /** Every '<' of the text is closed by a '>' later in the same text. */
  predicate TagClosed(a: string) {
    forall i :: 0 <= i < |a| && a[i] == '<' ==> '>' in a[i + 1..]
  }

  /** A line with one img tag and no other "<img" cuts into text, tag, text. */
  lemma {:induction false} OneImgPieces(a: string, t: string, b: string)
    requires IsImgTag(t) && !Contains(a, "<img") && !Contains(b, "<img")
    ensures ImgPieces(a + t + b) == [Text(a), Img(t), Text(b)]
  {
    var s := a + t + b;
    FindImgAt(a, t, b);
    assert s[..|a|] == a && s[|a|..|a| + |t|] == t && s[|a| + |t|..] == b;
    assert FindImg(b) == None;
  }

  /** Marking text, tag, text puts the first placeholder in the tag's place. */
  lemma {:induction false} OneImgMarked(a: string, t: string, b: string, p: string)
    requires p == Placeholder(0)
    ensures Tags([Text(a), Img(t), Text(b)]) == [t]
    ensures Marked([Text(a), Img(t), Text(b)], 0) == a + p + b
  {
    var ps := [Text(a), Img(t), Text(b)];
    assert ps[1..] == [Img(t), Text(b)] && ps[1..][1..] == [Text(b)] && [Text(b)][1..] == [];
    assert Tags([Text(b)]) == [];
    assert Tags(ps[1..]) == [t];
    assert Marked([Text(b)], 1) == b;
    assert Marked(ps[1..], 0) == p + b;
  }

  /** Stripping text, placeholder, text strips each side; the placeholder holds no '<'. */
  lemma {:induction false} OneImgStripped(a: string, p: string, b: string)
    requires TagClosed(a) && p == Placeholder(0)
    ensures StripTags(a + p + b) == StripTags(a) + p + StripTags(b)
  {
    PlaceholderNoOpen(p);
    assert a + p + b == a + (p + b);
    StripConcat(a, p + b);
    StripPast(p, b);
    Regroup3(StripTags(a + p + b), StripTags(a), p, StripTags(b), StripTags(p + b));
  }

  /** The first placeholder holds no '<'. */
  lemma {:induction false} PlaceholderNoOpen(p: string)
    requires p == Placeholder(0)
    ensures '<' !in p
  {
    assert p == "__IMG_TAG_0__" by {
      assert Itoa(0) == "0";
    }
  }

  /** Regrouping a concatenation whose right part is itself a concatenation. */
  lemma {:induction false} Regroup3(r: string, u: string, v: string, w: string, x: string)
    requires r == u + x && x == v + w
    ensures r == u + v + w
  {
  }

  /** The one placeholder between texts that do not spell "__IMG_TAG_" is replaced by the tag. */
  lemma {:induction false} OneImgRestored(x: string, t: string, y: string)
    requires !Contains(x, "__IMG_TAG_") && !Contains(y, "__IMG_TAG_")
    ensures ReplaceAll(x + Placeholder(0) + y, Placeholder(0), t) == x + t + y
  {
    var p := Placeholder(0);
    PlaceholderFirst(x, y);
    assert x + p + y == x + (p + y);
    ReplaceAllSkip(x, p + y, p, t);
    assert p <= p + y && (p + y)[|p|..] == y;
    assert ReplaceAll(p + y, p, t) == t + ReplaceAll(y, p, t);
    assert p[..10] == "__IMG_TAG_" by {
      assert p == "__IMG_TAG_0__" by {
        assert Itoa(0) == "0";
      }
    }
    if Contains(y, p) {
      ContainsPrefix(y, p, "__IMG_TAG_");
    }
  }

  /** No occurrence of the first placeholder starts inside a text that does not spell "__IMG_TAG_". */
  lemma {:induction false} PlaceholderFirst(x: string, y: string)
    requires !Contains(x, "__IMG_TAG_")
    ensures forall j :: 0 <= j < |x| ==> !OccursAt(x + Placeholder(0) + y, Placeholder(0), j)
  {
    var p := Placeholder(0);
    assert p == "__IMG_TAG_0__" by {
      assert Itoa(0) == "0";
    }
    var s := x + p + y;
    forall j | 0 <= j < |x|
      ensures !OccursAt(s, p, j)
    {
      if j + 10 <= |x| {
        if x[j..j + 10] == p[..10] {
          ContainsAt(x, "__IMG_TAG_", j);
        } else if j + 13 <= |s| {
          assert s[j..j + 10] == x[j..j + 10];
          assert s[j..j + 13][..10] == s[j..j + 10];
        }
      } else {
        var l := |x| - j;
        assert s[|x| + 2] == 'I';
        assert p[l + 2] != 'I';
        if j + 13 <= |s| {
          assert s[j..j + 13][l + 2] == s[|x| + 2];
        }
      }
    }
  }

  /** A text that holds sub holds every prefix of sub. */
  lemma {:induction false} ContainsPrefix(s: string, sub: string, q: string)
    requires q <= sub && Contains(s, sub)
    ensures Contains(s, q)
    decreases |s|
  {
    if sub <= s {
      assert q <= s by {
        assert s[..|q|] == sub[..|q|];
      }
    } else {
      ContainsPrefix(s[1..], sub, q);
    }
  }

  /** ReplaceAll passes over a text where no occurrence of the pattern starts. */
  lemma {:induction false} ReplaceAllSkip(x: string, rest: string, pattern: string, rep: string)
    requires pattern != ""
    requires forall j :: 0 <= j < |x| ==> !OccursAt(x + rest, pattern, j)
    ensures ReplaceAll(x + rest, pattern, rep) == x + ReplaceAll(rest, pattern, rep)
    decreases |x|
  {
    if x != "" {
      SkipShift(x, rest, pattern);
      ReplaceAllSkip(x[1..], rest, pattern, rep);
      SkipOne(x, rest, pattern, rep);
    } else {
      assert x + rest == rest;
    }
  }

  /** No occurrence at the start, and none starting inside the rest of x. */
  lemma {:induction false} SkipShift(x: string, rest: string, pattern: string)
    requires x != ""
    requires forall j :: 0 <= j < |x| ==> !OccursAt(x + rest, pattern, j)
    ensures !(pattern <= x + rest)
    ensures forall j :: 0 <= j < |x| - 1 ==> !OccursAt(x[1..] + rest, pattern, j)
  {
    var s := x + rest;
    assert !(pattern <= s) by {
      assert !OccursAt(s, pattern, 0);
      if |pattern| <= |s| {
        assert s[..|pattern|] == s[0..|pattern|];
      }
    }
    assert s[1..] == x[1..] + rest;
    forall j | 0 <= j < |x| - 1
      ensures !OccursAt(x[1..] + rest, pattern, j)
    {
      assert !OccursAt(s, pattern, j + 1);
    }
  }

  /** ReplaceAll keeps a first character where the pattern does not start. */
  lemma {:induction false} SkipOne(x: string, rest: string, pattern: string, rep: string)
    requires pattern != "" && x != "" && !(pattern <= x + rest)
    requires ReplaceAll(x[1..] + rest, pattern, rep) == x[1..] + ReplaceAll(rest, pattern, rep)
    ensures ReplaceAll(x + rest, pattern, rep) == x + ReplaceAll(rest, pattern, rep)
  {
    var s := x + rest;
    assert s[1..] == x[1..] + rest;
    ReplaceAllKeeps(s, pattern, rep);
    Regroup3(ReplaceAll(s, pattern, rep), [x[0]], x[1..], ReplaceAll(rest, pattern, rep), ReplaceAll(s[1..], pattern, rep));
    assert [x[0]] + x[1..] == x;
  }

  /** ReplaceAll keeps the first character when the pattern does not start there. */
  lemma {:induction false} ReplaceAllKeeps(s: string, pattern: string, rep: string)
    requires pattern != "" && s != "" && !(pattern <= s)
    ensures ReplaceAll(s, pattern, rep) == [s[0]] + ReplaceAll(s[1..], pattern, rep)
  {
  }

  /** Index of a character: the first position holding it. */
  lemma {:induction false} IndexIs(s: string, c: char, i: nat)
    requires i < |s| && s[i] == c
    requires forall k :: 0 <= k < i ==> s[k] != c
    ensures Index(s, [c]) == i
  {
    IndexChar(s, c);
  }

  /** The first '<' closed by the first '>' after it: that tag goes, the text before it stays. */
  lemma {:induction false} StripAt(s: string, i: nat, j: nat, before: string, after: string)
    requires i + j < |s| && s[i] == '<' && s[i + j] == '>'
    requires forall k :: 0 <= k < i ==> s[k] != '<'
    requires forall k :: i <= k < i + j ==> s[k] != '>'
    requires before == s[..i] && after == s[i + j + 1..]
    ensures StripTags(s) == before + StripTags(after)
  {
    IndexIs(s, '<', i);
    IndexIs(s[i..], '>', j);
    StripUnfold(s, i, j);
  }

  /** A first '<' with no '>' after it: nothing is stripped. */
  lemma {:induction false} StripOpen(s: string, i: nat)
    requires i < |s| && s[i] == '<'
    requires forall k :: 0 <= k < i ==> s[k] != '<'
    requires forall k :: i <= k < |s| ==> s[k] != '>'
    ensures StripTags(s) == s
  {
    IndexIs(s, '<', i);
    IndexChar(s[i..], '>');
  }

  /** Stripping passes over a text without '<'. */
  lemma {:induction false} StripPast(x: string, m: string)
    requires '<' !in x
    ensures StripTags(x + m) == x + StripTags(m)
  {
    IndexChar(m, '<');
    var i := Index(m, "<");
    if i < 0 {
      NoLessThan(m);
      assert '<' !in x + m;
      NoLessThan(x + m);
    } else {
      IndexChar(m[i..], '>');
      var j := Index(m[i..], ">");
      forall k | i <= k < |m| && (j < 0 || k < i + j)
        ensures m[k] != '>'
      {
        assert m[k] == m[i..][k - i];
      }
      if j < 0 {
        StripPastOpen(x, m, i);
      } else {
        assert m[i + j] == m[i..][j];
        StripPastAt(x, m, i, j);
      }
    }
  }

  /** The first '<' of x + m is the first '<' of m, moved along by |x|. */
  lemma {:induction false} FirstOpenAfter(x: string, m: string, i: nat)
    requires '<' !in x && i < |m|
    requires forall k :: 0 <= k < i ==> m[k] != '<'
    ensures forall k :: 0 <= k < |x| + i ==> (x + m)[k] != '<'
  {
    var s := x + m;
    forall k | 0 <= k < |x| + i
      ensures s[k] != '<'
    {
      if k < |x| {
        assert s[k] == x[k];
      } else {
        assert s[k] == m[k - |x|];
      }
    }
  }

  /** Stripping passes over x when the first '<' of m is never closed. */
  lemma {:induction false} StripPastOpen(x: string, m: string, i: nat)
    requires '<' !in x && i < |m| && m[i] == '<'
    requires forall k :: 0 <= k < i ==> m[k] != '<'
    requires forall k :: i <= k < |m| ==> m[k] != '>'
    ensures StripTags(x + m) == x + StripTags(m)
  {
    var s := x + m;
    FirstOpenAfter(x, m, i);
    StripOpen(m, i);
    forall k | |x| + i <= k < |s|
      ensures s[k] != '>'
    {
      assert s[k] == m[k - |x|];
    }
    StripOpen(s, |x| + i);
  }

  /** Stripping passes over x when the first '<' of m is closed j characters later. */
  lemma {:induction false} StripPastAt(x: string, m: string, i: nat, j: nat)
    requires '<' !in x && i + j < |m| && m[i] == '<' && m[i + j] == '>'
    requires forall k :: 0 <= k < i ==> m[k] != '<'
    requires forall k :: i <= k < i + j ==> m[k] != '>'
    ensures StripTags(x + m) == x + StripTags(m)
  {
    var s := x + m;
    FirstOpenAfter(x, m, i);
    forall k | |x| + i <= k < |x| + i + j
      ensures s[k] != '>'
    {
      assert s[k] == m[k - |x|];
    }
    assert s[|x| + i + j] == m[i + j];
    var rest := m[i + j + 1..];
    assert s[|x| + i + j + 1..] == rest;
    assert s[..|x| + i] == x + m[..i];
    StripAt(s, |x| + i, j, x + m[..i], rest);
    StripAt(m, i, j, m[..i], rest);
    Reassociate(StripTags(s), x, m[..i], StripTags(rest), StripTags(m));
  }

  /** Regrouping a three-part concatenation. */
  lemma {:induction false} Reassociate(r: string, x: string, u: string, v: string, w: string)
    requires r == (x + u) + v && w == u + v
    ensures r == x + w
  {
  }

  /** A text whose tags all close strips on its own, whatever follows it. */
  lemma {:induction false} StripConcat(a: string, m: string)
    requires TagClosed(a)
    ensures StripTags(a + m) == StripTags(a) + StripTags(m)
    decreases |a|
  {
    var i := FirstOpen(a);
    if i < 0 {
      StripPast(a, m);
      NoLessThan(a);
    } else {
      var j := ClosedStep(a, i);
      StripConcat(a[i + j + 1..], m);
      StripConcatStep(a, m, i, j);
    }
  }

  /** Index(a, "<") with what it means. */
  lemma {:induction false} FirstOpen(a: string) returns (i: int)
    ensures i < 0 ==> '<' !in a
    ensures i >= 0 ==> i < |a| && a[i] == '<' && forall k :: 0 <= k < i ==> a[k] != '<'
  {
    IndexChar(a, '<');
    i := Index(a, "<");
  }

  /** The '<' at i of a tag-closed text is closed j characters later, and what follows is tag-closed. */
  lemma {:induction false} ClosedStep(a: string, i: nat) returns (j: nat)
    requires TagClosed(a) && i < |a| && a[i] == '<'
    ensures i + j < |a| && a[i + j] == '>'
    ensures forall k :: i <= k < i + j ==> a[k] != '>'
    ensures TagClosed(a[i + j + 1..])
  {
    assert '>' in a[i + 1..];
    j := FirstClose(a, i);
    TagClosedSuffix(a, i + j + 1);
  }

  /** The first '>' after the '<' at i, which the text holds. */
  lemma {:induction false} FirstClose(a: string, i: nat) returns (j: nat)
    requires i < |a| && a[i] == '<' && '>' in a[i + 1..]
    ensures i + j < |a| && a[i + j] == '>'
    ensures forall k :: i <= k < i + j ==> a[k] != '>'
  {
    var w :| 0 <= w < |a[i + 1..]| && a[i + 1..][w] == '>';
    assert a[i..][w + 1] == '>';
    IndexChar(a[i..], '>');
    j := Index(a[i..], ">");
    assert a[i + j] == a[i..][j];
    forall k | i <= k < i + j
      ensures a[k] != '>'
    {
      assert a[k] == a[i..][k - i];
    }
  }

  /** One step of StripConcat: the first tag of a is stripped the same way with m after it. */
  lemma {:induction false} StripConcatStep(a: string, m: string, i: nat, j: nat)
    requires i + j < |a| && a[i] == '<' && a[i + j] == '>'
    requires forall k :: 0 <= k < i ==> a[k] != '<'
    requires forall k :: i <= k < i + j ==> a[k] != '>'
    requires StripTags(a[i + j + 1..] + m) == StripTags(a[i + j + 1..]) + StripTags(m)
    ensures StripTags(a + m) == StripTags(a) + StripTags(m)
  {
    var rest := a[i + j + 1..];
    StripAt(a, i, j, a[..i], rest);
    StripAtConcat(a, m, i, j);
    Regroup(StripTags(a + m), StripTags(a), a[..i], StripTags(rest), StripTags(m));
  }

  /** The first tag of a, with m after it, is stripped as in a alone. */
  lemma {:induction false} StripAtConcat(a: string, m: string, i: nat, j: nat)
    requires i + j < |a| && a[i] == '<' && a[i + j] == '>'
    requires forall k :: 0 <= k < i ==> a[k] != '<'
    requires forall k :: i <= k < i + j ==> a[k] != '>'
    ensures StripTags(a + m) == a[..i] + StripTags(a[i + j + 1..] + m)
  {
    var s := a + m;
    assert s[..i] == a[..i];
    assert s[i + j + 1..] == a[i + j + 1..] + m;
    StripAt(s, i, j, a[..i], a[i + j + 1..] + m);
  }

  /** Regrouping a three-part concatenation the other way. */
  lemma {:induction false} Regroup(r: string, q: string, u: string, v: string, w: string)
    requires r == u + (v + w) && q == u + v
    ensures r == q + w
  {
  }

  /** What follows a tag-closed prefix point is tag-closed. */
  lemma {:induction false} TagClosedSuffix(a: string, n: nat)
    requires n <= |a| && TagClosed(a)
    ensures TagClosed(a[n..])
  {
    var r := a[n..];
    forall i | 0 <= i < |r| && r[i] == '<'
      ensures '>' in r[i + 1..]
    {
      assert r[i] == a[n + i];
      assert r[i + 1..] == a[n + i + 1..];
    }
  }

  /** The leftmost img match of a line whose text before the tag holds no "<img". */
  lemma {:induction false} FindImgAt(a: string, t: string, b: string)
    requires IsImgTag(t) && !Contains(a, "<img")
    ensures FindImg(a + t + b) == Some((|a|, |a| + |t|))
  {
    OpenAt(a, t, b);
    AfterOpen(a, t, b);
    CloseAt(t, b);
    FindImgIs(a + t + b, |a|, |t| - 5);
  }

  /** What follows "<img" in `a + t + b`. */
  lemma AfterOpen(a: string, t: string, b: string)
    requires |t| >= 4
    ensures (a + t + b)[|a| + 4..] == t[4..] + b
  {
  }

  /** FindImg once both of its searches are known. */
  lemma {:induction false} FindImgIs(s: string, i: nat, j: nat)
    requires Index(s, "<img") == i && i + 4 <= |s| && Index(s[i + 4..], ">") == j
    ensures FindImg(s) == Some((i, i + 4 + j + 1))
  {
  }

  /** "<img" first occurs where the tag starts. */
  lemma {:induction false} OpenAt(a: string, t: string, b: string)
    requires IsImgTag(t) && !Contains(a, "<img")
    ensures Index(a + t + b, "<img") == |a|
  {
    var s := a + t + b;
    assert OccursAt(s, "<img", |a|) by {
      assert s[|a|..|a| + 4] == t[..4];
    }
    forall j | 0 <= j < |a| && j + 4 <= |s|
      ensures !OccursAt(s, "<img", j)
    {
      if j + 4 <= |a| {
        if OccursAt(s, "<img", j) {
          assert a[j..j + 4] == s[j..j + 4];
          ContainsAt(a, "<img", j);
        }
      } else {
        assert s[j..j + 4][|a| - j] == t[0] == '<';
      }
    }
  }

  /** After "<img", the first '>' is the tag's last character. */
  lemma {:induction false} CloseAt(t: string, b: string)
    requires IsImgTag(t)
    ensures Index(t[4..] + b, ">") == |t| - 5
  {
    var u := t[4..] + b;
    IndexChar(u, '>');
    assert u[|t| - 5] == '>';
    assert forall k :: 0 <= k < |t| - 5 ==> u[k] == t[k + 4];
  }

  /** Stripping leaves a text without '<' alone. */
  lemma {:induction false} NoLessThan(m: string)
    requires '<' !in m
    ensures StripTags(m) == m
  {
    IndexChar(m, '<');
  }

  /** The restore loop. */
  method RestoreTags(line: string, imgTags: seq<string>) returns (r: string)
    ensures r == Restore(line, imgTags, |imgTags|)
  {
    r := line;
    var i := 0;
    while i < |imgTags|
      invariant i <= |imgTags|
      invariant r == Restore(line, imgTags, i)
    {
      r := ReplaceAll(r, Placeholder(i), imgTags[i]);
      i := i + 1;
    }
  }

  /** The cleanup as the source performs it. */
  method CleanDescriptionLine(line: string) returns (r: string)
    ensures r == CleanLine(line)
  {
    var ps := ImgPieces(line);
    var imgTags := Tags(ps);
    r := Marked(ps, 0);
    r := StripTags(r);
    r := RestoreTags(r, imgTags);
    r := ReplaceAll(r, "&lt;", "<");
    r := ReplaceAll(r, "&gt;", ">");
    r := ReplaceAll(r, "&amp;", "&");
    r := TrimSpace(r);
  }
}
