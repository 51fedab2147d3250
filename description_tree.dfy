/**
 * The last resort of the older parser's ExtractProblemDescription: a walk
 * over the parsed page that takes the text of the first description div,
 * and the choice between that description and the page's meta description.
 */
module DescriptionTree {
  import opened GoStrings
  import opened Html
  import opened OldDescription

  /** An attribute of an element. */
  datatype Attr = Attr(key: string, val: string)

  /**
   * A node of the parsed page. Text nodes carry their text; elements their
   * tag, attributes and children; every other kind of node (the document,
   * comments, doctypes) only its children.
   */
  datatype Node =
    | Text(data: string)
    | Element(tag: string, attrs: seq<Attr>, children: seq<Node>)
    | Other(children: seq<Node>)

  /** The children of a node; a text node has none. */
  function Children(n: Node): (cs: seq<Node>)
    ensures forall c :: c in cs ==> c < n
  {
    if n.Text? then [] else n.children
  }

  /** getAttr: the value of the first attribute with the key, or "". */
  function GetAttr(attrs: seq<Attr>, key: string): string {
    if attrs == [] then ""
    else if attrs[0].key == key then attrs[0].val
    else GetAttr(attrs[1..], key)
  }

  /** GetAttr finds the first attribute with the key, and "" when there is none. */
  lemma {:induction false} GetAttrFirst(attrs: seq<Attr>, key: string)
    ensures (forall i :: 0 <= i < |attrs| ==> attrs[i].key != key) ==> GetAttr(attrs, key) == ""
    ensures forall i :: 0 <= i < |attrs| && attrs[i].key == key && FirstKey(attrs, key, i) ==> GetAttr(attrs, key) == attrs[i].val
  {
    if attrs != [] && attrs[0].key != key {
      GetAttrFirst(attrs[1..], key);
      assert forall i :: 1 <= i < |attrs| ==> attrs[1..][i - 1] == attrs[i];
    }
  }

  /** No attribute before position i has the key. */
  predicate FirstKey(attrs: seq<Attr>, key: string, i: int) {
    forall j :: 0 <= j < i && j < |attrs| ==> attrs[j].key != key
  }

  /** A div whose class or data-track-load marks it as holding the description. */
  predicate IsDescriptionDiv(n: Node) {
    && n.Element?
    && n.tag == "div"
    && (|| Contains(GetAttr(n.attrs, "class"), "question-content")
        || Contains(GetAttr(n.attrs, "class"), "description")
        || Contains(GetAttr(n.attrs, "data-track-load"), "description_content"))
  }

  // extractTextFromNode

  /** An element whose start writes a newline. */
  predicate BreaksBefore(n: Node) {
    n.Element? && (n.tag == "br" || n.tag == "p" || n.tag == "div")
  }

  /** An element whose end writes a newline. */
  predicate BreaksAfter(n: Node) {
    n.Element? && (n.tag == "p" || n.tag == "div")
  }

  /** What the traversal writes for a node: its text, with newlines around breaking elements. */
  function Raw(n: Node): string
    decreases n, 1
  {
    match n
    case Text(data) => data
    case Element(_, _, cs) =>
      (if BreaksBefore(n) then "\n" else "") + RawAll(cs) + (if BreaksAfter(n) then "\n" else "")
    case Other(cs) => RawAll(cs)
  }

  function RawAll(ns: seq<Node>): string
    decreases ns, 0
  {
    if ns == [] then "" else RawAll(ns[..|ns| - 1]) + Raw(ns[|ns| - 1])
  }

  /** The text nodes under a node, in document order. */
  function TextOf(n: Node): string
    decreases n, 1
  {
    match n
    case Text(data) => data
    case Element(_, _, cs) => TextsOf(cs)
    case Other(cs) => TextsOf(cs)
  }

  function TextsOf(ns: seq<Node>): string
    decreases ns, 0
  {
    if ns == [] then "" else TextsOf(ns[..|ns| - 1]) + TextOf(ns[|ns| - 1])
  }

  /** extractTextFromNode: the written text with blank lines collapsed, trimmed. */
  function NodeText(n: Node): string {
    TrimSpace(CollapseBlankLines(Raw(n)))
  }

  /** The characters of s that are not white space. */
  function Visible(s: string): string {
    if s == "" then "" else (if IsSpace(s[0]) then "" else [s[0]]) + Visible(s[1..])
  }

  lemma {:induction false} VisibleAppend(a: string, b: string)
    ensures Visible(a + b) == Visible(a) + Visible(b)
    decreases |a|
  {
    if a == "" {
      assert a + b == b;
    } else {
      assert (a + b)[0] == a[0];
      assert (a + b)[1..] == a[1..] + b;
      VisibleAppend(a[1..], b);
    }
  }

  lemma {:induction false} VisibleBlank(s: string)
    requires IsBlank(s)
    ensures Visible(s) == ""
    decreases |s|
  {
    if s != "" {
      VisibleBlank(s[1..]);
    }
  }

  /** Trimming drops only white space. */
  lemma {:induction false} VisibleTrim(s: string)
    ensures Visible(TrimSpace(s)) == Visible(s)
  {
    VisibleTrimLeft(s);
    VisibleTrimRight(TrimLeftSpace(s));
    assert TrimSpace(s) == TrimRightSpace(TrimLeftSpace(s));
  }

  lemma {:induction false} VisibleTrimLeft(s: string)
    ensures Visible(TrimLeftSpace(s)) == Visible(s)
    decreases |s|
  {
    if s != "" && IsSpace(s[0]) {
      VisibleTrimLeft(s[1..]);
    }
  }

  lemma {:induction false} VisibleTrimRight(s: string)
    ensures Visible(TrimRightSpace(s)) == Visible(s)
    decreases |s|
  {
    if s != "" && IsSpace(s[|s| - 1]) {
      var init := s[..|s| - 1];
      VisibleTrimRight(init);
      assert s == init + [s[|s| - 1]];
      VisibleAppend(init, [s[|s| - 1]]);
      assert Visible([s[|s| - 1]]) == "" + Visible([]);
    }
  }

  /** Collapsing blank lines drops only white space. */
  lemma {:induction false} VisibleCollapse(s: string)
    ensures Visible(CollapseBlankLines(s)) == Visible(s)
    decreases |s|
  {
    if s != "" {
      var j := BlankRunEnd(s);
      if j >= 0 {
        VisibleCollapse(s[j + 2..]);
        CollapseJump(s, j);
      } else {
        VisibleCollapse(s[1..]);
        CollapseKeep(s);
      }
    }
  }

  /** A run of blank lines replaced by one empty line keeps the visible text. */
  lemma {:induction false} CollapseJump(s: string, j: int)
    requires j == BlankRunEnd(s) && j >= 0
    requires Visible(CollapseBlankLines(s[j + 2..])) == Visible(s[j + 2..])
    ensures Visible(CollapseBlankLines(s)) == Visible(s)
  {
    var head, tail := s[..j + 2], s[j + 2..];
    CollapseJumps(s, j);
    BlankHead(s, j);
    assert s == head + tail;
    VisibleAppend(head, tail);
    VisibleBlank(head);
    VisibleAppend("\n\n", CollapseBlankLines(tail));
    VisibleBlank("\n\n");
  }

  lemma {:induction false} CollapseJumps(s: string, j: int)
    requires j == BlankRunEnd(s) && j >= 0
    ensures CollapseBlankLines(s) == "\n\n" + CollapseBlankLines(s[j + 2..])
  {
  }

  /** The matched run of blank lines is white space. */
  lemma {:induction false} BlankHead(s: string, j: int)
    requires j == BlankRunEnd(s) && j >= 0
    ensures IsBlank(s[..j + 2])
  {
    var head := s[..j + 2];
    forall i | 0 <= i < j + 2
      ensures IsSpace(head[i])
    {
      assert head[i] == s[i];
    }
  }

  /** A character the collapse copies keeps its place in the visible text. */
  lemma {:induction false} CollapseKeep(s: string)
    requires s != "" && BlankRunEnd(s) < 0
    requires Visible(CollapseBlankLines(s[1..])) == Visible(s[1..])
    ensures Visible(CollapseBlankLines(s)) == Visible(s)
  {
    CollapseCopies(s);
    VisibleCons(s[0], CollapseBlankLines(s[1..]));
    VisibleCons(s[0], s[1..]);
    assert s == [s[0]] + s[1..];
  }

  lemma {:induction false} CollapseCopies(s: string)
    requires s != "" && BlankRunEnd(s) < 0
    ensures CollapseBlankLines(s) == [s[0]] + CollapseBlankLines(s[1..])
  {
  }

  lemma {:induction false} VisibleCons(x: char, t: string)
    ensures Visible([x] + t) == (if IsSpace(x) then "" else [x]) + Visible(t)
  {
    assert ([x] + t)[1..] == t;
  }

  /** The traversal adds only newlines to the text nodes' text. */
  lemma {:induction false} RawVisible(n: Node)
    ensures Visible(Raw(n)) == Visible(TextOf(n))
    decreases n, 1
  {
    match n
    case Text(_) =>
    case Element(_, _, cs) =>
      var pre := if BreaksBefore(n) then "\n" else "";
      var post := if BreaksAfter(n) then "\n" else "";
      RawAllVisible(cs);
      VisibleAppend(pre + RawAll(cs), post);
      VisibleAppend(pre, RawAll(cs));
      VisibleBlank(pre);
      VisibleBlank(post);
    case Other(cs) =>
      RawAllVisible(cs);
  }

  lemma {:induction false} RawAllVisible(ns: seq<Node>)
    ensures Visible(RawAll(ns)) == Visible(TextsOf(ns))
    decreases ns, 0
  {
    if ns != [] {
      var last := ns[|ns| - 1];
      RawAllVisible(ns[..|ns| - 1]);
      RawVisible(last);
      VisibleAppend(RawAll(ns[..|ns| - 1]), Raw(last));
      VisibleAppend(TextsOf(ns[..|ns| - 1]), TextOf(last));
    }
  }

  /** extractTextFromNode keeps every non-space character of the text under the node, in order, and adds none. */
  lemma {:induction false} NodeTextVisible(n: Node)
    ensures Visible(NodeText(n)) == Visible(TextOf(n))
  {
    VisibleTrim(CollapseBlankLines(Raw(n)));
    VisibleCollapse(Raw(n));
    RawVisible(n);
  }

  /** extractTextFromNode: the traversal into a buffer, then the clean-up. */
  method ExtractTextFromNode(n: Node) returns (content: string)
    ensures content == NodeText(n)
  {
    var text := Traverse(n, "");
    assert text == Raw(n);
    content := TrimSpace(CollapseBlankLines(text));
  }

  /** The recursive traversal: appends what the node writes to `text`. */
  method Traverse(node: Node, text: string) returns (out: string)
    ensures out == text + Raw(node)
    decreases node
  {
    var pre := if node.Text? then node.data else if BreaksBefore(node) then "\n" else "";
    out := text + pre;
    var cs := Children(node);
    var i := 0;
    while i < |cs|
      invariant 0 <= i <= |cs|
      invariant out == text + pre + RawAll(cs[..i])
    {
      assert cs[i] in cs;
      out := Traverse(cs[i], out);
      RawAllSnoc(cs, i);
      i := i + 1;
    }
    assert cs[..i] == cs;
    if BreaksAfter(node) {
      out := out + "\n";
    }
    RawParts(node, pre);
  }

  /** RawAll of one more node. */
  lemma {:induction false} RawAllSnoc(cs: seq<Node>, i: nat)
    requires i < |cs|
    ensures RawAll(cs[..i + 1]) == RawAll(cs[..i]) + Raw(cs[i])
  {
    assert cs[..i + 1][..i] == cs[..i];
  }

  /** What a node writes: its opening part, its children, its closing newline. */
  lemma {:induction false} RawParts(node: Node, pre: string)
    requires pre == if node.Text? then node.data else if BreaksBefore(node) then "\n" else ""
    ensures Raw(node) == pre + RawAll(Children(node)) + (if BreaksAfter(node) then "\n" else "")
  {
    if node.Text? {
      assert Children(node) == [];
    }
  }

  // findDescriptionDiv

  /**
   * The walk with its captured result threaded through: once a description
   * is found every further call returns at once; a matching div gives its
   * text and is not searched inside.
   */
  function Find(n: Node, description: string): string
    decreases n, 1
  {
    if description != "" then description
    else if IsDescriptionDiv(n) then NodeText(n)
    else
      match n
      case Text(_) => description
      case Element(_, _, cs) => FindAll(cs, description)
      case Other(cs) => FindAll(cs, description)
  }

  function FindAll(ns: seq<Node>, description: string): string
    decreases ns, 0
  {
    if ns == [] then description else FindAll(ns[1..], Find(ns[0], description))
  }

  /** The matching divs in document order, leaving out those inside a matching div. */
  function MatchedDivs(n: Node): seq<Node>
    decreases n, 1
  {
    if IsDescriptionDiv(n) then [n]
    else
      match n
      case Text(_) => []
      case Element(_, _, cs) => MatchedAll(cs)
      case Other(cs) => MatchedAll(cs)
  }

  function MatchedAll(ns: seq<Node>): seq<Node>
    decreases ns, 0
  {
    if ns == [] then [] else MatchedDivs(ns[0]) + MatchedAll(ns[1..])
  }

  /** The text of each div, in order. */
  function DivTexts(ds: seq<Node>, text: Node -> string): (ts: seq<string>)
    ensures |ts| == |ds|
  {
    if ds == [] then [] else [text(ds[0])] + DivTexts(ds[1..], text)
  }

  /** The first text that is not empty, or "". */
  function FirstNonEmpty(ts: seq<string>): string {
    if ts == [] then ""
    else if ts[0] != "" then ts[0]
    else FirstNonEmpty(ts[1..])
  }

  /** The text of the first of the divs whose text is not empty, or "". */
  function FirstText(ds: seq<Node>): string {
    FirstNonEmpty(DivTexts(ds, NodeText))
  }

  lemma {:induction false} MatchedAreDivs(n: Node)
    ensures forall d :: d in MatchedDivs(n) ==> IsDescriptionDiv(d)
    decreases n, 1
  {
    if !IsDescriptionDiv(n) && !n.Text? {
      MatchedAllAreDivs(n.children);
    }
  }

  lemma {:induction false} MatchedAllAreDivs(ns: seq<Node>)
    ensures forall d :: d in MatchedAll(ns) ==> IsDescriptionDiv(d)
    decreases ns, 0
  {
    if ns != [] {
      MatchedAreDivs(ns[0]);
      MatchedAllAreDivs(ns[1..]);
    }
  }

  lemma {:induction false} DivTextsAt(ds: seq<Node>, text: Node -> string)
    ensures forall i :: 0 <= i < |ds| ==> DivTexts(ds, text)[i] == text(ds[i])
  {
    if ds != [] {
      DivTextsAt(ds[1..], text);
      assert forall i :: 1 <= i < |ds| ==> ds[1..][i - 1] == ds[i];
    }
  }

  /** FirstNonEmpty is the first text that is not empty, and "" exactly when there is none. */
  lemma {:induction false} FirstNonEmptyIs(ts: seq<string>)
    ensures FirstNonEmpty(ts) == "" <==> forall i :: 0 <= i < |ts| ==> ts[i] == ""
    ensures FirstNonEmpty(ts) != "" ==>
      exists i :: 0 <= i < |ts| && FirstNonEmpty(ts) == ts[i] && forall j :: 0 <= j < i ==> ts[j] == ""
  {
    if ts != [] && ts[0] == "" {
      FirstNonEmptyIs(ts[1..]);
      assert forall i :: 1 <= i < |ts| ==> ts[1..][i - 1] == ts[i];
      if FirstNonEmpty(ts) != "" {
        var k :| 0 <= k < |ts[1..]| && FirstNonEmpty(ts[1..]) == ts[1..][k]
          && forall j :: 0 <= j < k ==> ts[1..][j] == "";
        assert FirstNonEmpty(ts) == ts[k + 1];
        assert forall j :: 0 <= j < k + 1 ==> ts[j] == "";
      }
    }
  }

  lemma {:induction false} FirstTextAppend(a: seq<Node>, b: seq<Node>)
    ensures FirstText(a + b) == if FirstText(a) != "" then FirstText(a) else FirstText(b)
  {
    DivTextsAppend(a, b, NodeText);
    FirstNonEmptyAppend(DivTexts(a, NodeText), DivTexts(b, NodeText));
  }

  lemma {:induction false} DivTextsAppend(a: seq<Node>, b: seq<Node>, text: Node -> string)
    ensures DivTexts(a + b, text) == DivTexts(a, text) + DivTexts(b, text)
  {
    if a == [] {
      assert a + b == b;
    } else {
      assert (a + b)[0] == a[0];
      assert (a + b)[1..] == a[1..] + b;
      DivTextsAppend(a[1..], b, text);
    }
  }

  lemma {:induction false} FirstNonEmptyAppend(ts: seq<string>, us: seq<string>)
    ensures FirstNonEmpty(ts + us) == if FirstNonEmpty(ts) != "" then FirstNonEmpty(ts) else FirstNonEmpty(us)
  {
    if ts == [] {
      assert ts + us == us;
    } else {
      assert (ts + us)[0] == ts[0];
      assert (ts + us)[1..] == ts[1..] + us;
      FirstNonEmptyAppend(ts[1..], us);
    }
  }

  lemma {:induction false} FindAllFound(ns: seq<Node>, description: string)
    requires description != ""
    ensures FindAll(ns, description) == description
  {
    if ns != [] {
      FindAllFound(ns[1..], description);
    }
  }

  /** findDescriptionDiv yields the text of the first matching div with text: a found description is final. */
  lemma {:induction false} FindIsFirstText(n: Node, description: string)
    ensures Find(n, description) == if description != "" then description else FirstText(MatchedDivs(n))
    decreases n, 1
  {
    if description == "" {
      if IsDescriptionDiv(n) {
        FirstOfOne(n, NodeText);
      } else if !n.Text? {
        FindAllIsFirstText(n.children, description);
      }
    }
  }

  lemma {:induction false} FirstOfOne(d: Node, text: Node -> string)
    ensures FirstNonEmpty(DivTexts([d], text)) == text(d)
  {
    assert DivTexts([d], text) == [text(d)] + DivTexts([], text);
  }

  lemma {:induction false} FindAllIsFirstText(ns: seq<Node>, description: string)
    ensures FindAll(ns, description) == if description != "" then description else FirstText(MatchedAll(ns))
    decreases ns, 0
  {
    if description != "" {
      FindAllFound(ns, description);
    } else if ns != [] {
      var d := Find(ns[0], description);
      FindIsFirstText(ns[0], description);
      FindAllIsFirstText(ns[1..], d);
      FirstTextAppend(MatchedDivs(ns[0]), MatchedAll(ns[1..]));
    }
  }

  /** findDescriptionDiv: the recursive walk over the children, writing into the captured description. */
  method FindDescriptionDiv(n: Node, description: string) returns (d: string)
    ensures d == Find(n, description)
    decreases n
  {
    if description != "" {
      return description;
    }
    if IsDescriptionDiv(n) {
      d := ExtractTextFromNode(n);
      return;
    }
    d := description;
    var cs := Children(n);
    var i := 0;
    while i < |cs|
      invariant 0 <= i <= |cs|
      invariant FindAll(cs[i..], d) == FindAll(cs, description)
    {
      assert cs[i] in cs;
      assert cs[i..][1..] == cs[i + 1..];
      d := FindDescriptionDiv(cs[i], d);
      i := i + 1;
    }
    assert cs[i..] == [];
  }

  // ExtractProblemDescription and the choice in ParseHTMLFile

  /**
   * The description ExtractProblemDescription returns, given the capture of
   * the content regular expression, that of the alternate one, and the
   * parsed page (None when parsing fails).
   */
  function ProblemDescription(content: Option<string>, alternate: Option<string>, page: Option<Node>): string {
    if content.Some? then CleanDescription(content.value)
    else if alternate.Some? then CleanDescription(alternate.value)
    else if page.None? then ""
    else Find(page.value, "")
  }

  /**
   * A regular-expression capture gives a tidy single-line text; otherwise the
   * result is the text of the first description div on the page that has any.
   */
  lemma {:induction false} ProblemDescriptionIs(content: Option<string>, alternate: Option<string>, page: Option<Node>)
    ensures content.Some? ==> Tidy(ProblemDescription(content, alternate, page))
    ensures content.None? && alternate.Some? ==> Tidy(ProblemDescription(content, alternate, page))
    ensures content.None? && alternate.None? && page.Some?
      ==> ProblemDescription(content, alternate, page) == FirstText(MatchedDivs(page.value))
    ensures content.None? && alternate.None? && page.None? ==> ProblemDescription(content, alternate, page) == ""
  {
    if content.Some? {
      CleanDescriptionShape(content.value);
    } else if alternate.Some? {
      CleanDescriptionShape(alternate.value);
    } else if page.Some? {
      FindIsFirstText(page.value, "");
    }
  }

  method ExtractProblemDescription(content: Option<string>, alternate: Option<string>, page: Option<Node>)
    returns (description: string)
    ensures description == ProblemDescription(content, alternate, page)
  {
    if content.Some? {
      return CleanDescription(content.value);
    }
    if alternate.Some? {
      return CleanDescription(alternate.value);
    }
    if page.None? {
      return "";
    }
    description := FindDescriptionDiv(page.value, "");
  }

  /** The page's description: the meta description, replaced by the detailed one when that is longer in bytes. */
  function ChosenDescription(meta: Option<string>, detailed: string): string {
    var m := if meta.Some? then Unescape(meta.value) else "";
    if detailed != "" && Utf8Len(detailed) > Utf8Len(m) then detailed else m
  }

  /** The choice keeps the longer text in bytes, and the meta description on a tie. */
  lemma {:induction false} ChosenDescriptionLonger(meta: Option<string>, detailed: string)
    ensures var m := if meta.Some? then Unescape(meta.value) else "";
      var r := ChosenDescription(meta, detailed);
      && (r == m || r == detailed)
      && Utf8Len(r) >= Utf8Len(m)
      && Utf8Len(r) >= Utf8Len(detailed)
      && (Utf8Len(m) >= Utf8Len(detailed) ==> r == m)
  {
  }
}
