/**
 * Line-level helpers of the older parser package: the heuristic that tells a
 * line of Python from page chrome (isCodeLine), and the pass that puts the
 * class header first, the method headers next and everything else after
 * them (reorganizePythonCode).
 */
module PythonLines {
  import opened GoStrings

  /** Phrases of the discussion and statistics panels: a line holding one is never code. */
  const UiPhrases: seq<string> :=
    ["Discussion Rules", "Sort by", "Comment", "Online", "Companies", "Topics",
     "Please don't post", "Accepted", "Submissions"]

  /** Python keywords followed by a space: a line holding one is code. */
  const Keywords: seq<string> := ["class ", "def ", "return ", "if ", "for ", "while ", "import "]

  /** Operators, constants and brackets that also mark a line as code. */
  const CodePatterns: seq<string> :=
    ["=", "+=", "-=", "*=", "/=",
     "==", "!=", "<", ">", "<=", ">=",
     "and", "or", "not",
     "True", "False", "None",
     "in ",
     ":",
     "[", "]", "{", "}", "(", ")"]

  /** Opening tags that would mark a line as HTML rather than code. */
  const HtmlMarkers: seq<string> := ["<div", "<span", "<button", "<svg"]

  /** Some needle occurs in the line (a chain of strings.Contains, or a loop over a list). */
  predicate ContainsAny(line: string, needles: seq<string>)
    decreases |needles|
  {
    needles != [] && (Contains(line, needles[0]) || ContainsAny(line, needles[1..]))
  }

  lemma {:induction false} ContainsAnyIff(line: string, needles: seq<string>)
    ensures ContainsAny(line, needles) <==> exists i :: 0 <= i < |needles| && Contains(line, needles[i])
    decreases |needles|
  {
    if needles != [] {
      ContainsAnyIff(line, needles[1..]);
      assert forall i :: 1 <= i < |needles| ==> needles[i] == needles[1..][i - 1];
    }
  }

  /** isCodeLine: chrome phrases first, then keywords, then code patterns, then HTML tags. */
  function IsCodeLine(line: string): bool {
    if ContainsAny(line, UiPhrases) then false
    else if ContainsAny(line, Keywords) then true
    else if ContainsAny(line, CodePatterns) then true
    else if ContainsAny(line, HtmlMarkers) then false
    else true
  }

  /** Every HTML marker starts with "<", which is itself a code pattern. */
  lemma {:induction false} HtmlMarkerIsCodePattern(line: string)
    ensures ContainsAny(line, HtmlMarkers) ==> ContainsAny(line, CodePatterns)
  {
    if ContainsAny(line, HtmlMarkers) {
      ContainsAnyIff(line, HtmlMarkers);
      var i :| 0 <= i < |HtmlMarkers| && Contains(line, HtmlMarkers[i]);
      var m := HtmlMarkers[i];
      assert m == "<" + m[1..];
      ContainsPrefixOf(line, "<", m[1..]);
      assert CodePatterns[7] == "<";
      ContainsAnyIff(line, CodePatterns);
    }
  }

  /**
   * The filter rejects exactly the lines holding a chrome phrase: the HTML
   * test is never the deciding one, because "<" already counts as code.
   */
  lemma {:induction false} IsCodeLineIff(line: string)
    ensures IsCodeLine(line) <==> !ContainsAny(line, UiPhrases)
  {
    HtmlMarkerIsCodePattern(line);
  }

  /** The characters of `\w`: ASCII letters, digits and the underscore. */
  predicate IsWordChar(c: char) {
    ('a' <= c <= 'z') || ('A' <= c <= 'Z') || ('0' <= c <= '9') || c == '_'
  }

  /**
   * The pattern `^\s*class\s+Solution`. Leading `\s*` can only stop at the
   * first non-space character, since "class" does not start with one; the
   * same holds for every later run, so each stage consumes greedily.
   */
  predicate IsClassLine(line: string)
    decreases |line|
  {
    if line != "" && IsRegexSpace(line[0]) then IsClassLine(line[1..])
    else "class" <= line && |line| > 5 && IsRegexSpace(line[5]) && SolutionAfterSpaces(line[6..])
  }

  /** `\s*Solution` at the front of s. */
  predicate SolutionAfterSpaces(s: string)
    decreases |s|
  {
    if s != "" && IsRegexSpace(s[0]) then SolutionAfterSpaces(s[1..]) else "Solution" <= s
  }

  /** The pattern `^\s*def\s+\w+\s*\(self`. */
  predicate IsMethodLine(line: string)
    decreases |line|
  {
    if line != "" && IsRegexSpace(line[0]) then IsMethodLine(line[1..])
    else "def" <= line && |line| > 3 && IsRegexSpace(line[3]) && NameAfterSpaces(line[4..])
  }

  /** `\s*\w+\s*\(self` at the front of s. */
  predicate NameAfterSpaces(s: string)
    decreases |s|
  {
    if s != "" && IsRegexSpace(s[0]) then NameAfterSpaces(s[1..])
    else s != "" && IsWordChar(s[0]) && SelfAfterName(s[1..])
  }

  /** `\w*\s*\(self` at the front of s. */
  predicate SelfAfterName(s: string)
    decreases |s|
  {
    if s != "" && IsWordChar(s[0]) then SelfAfterName(s[1..]) else SelfAfterSpaces(s)
  }

  /** `\s*\(self` at the front of s. */
  predicate SelfAfterSpaces(s: string)
    decreases |s|
  {
    if s != "" && IsRegexSpace(s[0]) then SelfAfterSpaces(s[1..]) else "(self" <= s
  }

  /** The three groups reorganizePythonCode sorts lines into, each in input order. */
  datatype Groups = Groups(classes: seq<string>, methods: seq<string>, body: seq<string>)

  /** Where one line goes: class header first, then method header, else body. */
  function Place(g: Groups, line: string): Groups {
    if IsClassLine(line) then g.(classes := g.classes + [line])
    else if IsMethodLine(line) then g.(methods := g.methods + [line])
    else g.(body := g.body + [line])
  }

  function Partition(lines: seq<string>): Groups {
    if lines == [] then Groups([], [], [])
    else Place(Partition(lines[..|lines| - 1]), lines[|lines| - 1])
  }

  /** Every line written followed by a newline (a Builder fed `line + "\n"`). */
  function Terminated(lines: seq<string>): string {
    if lines == [] then "" else Terminated(lines[..|lines| - 1]) + lines[|lines| - 1] + "\n"
  }

  /** The code reorganizePythonCode returns for a list of lines. */
  function Reorganized(lines: seq<string>): string {
    var g := Partition(lines);
    if g.classes == [] || g.methods == [] then Join(lines, "\n")
    else Terminated(g.classes) + Terminated(g.methods) + Terminated(g.body)
  }

  /** The groups hold the input lines, each exactly as often as it occurs. */
  lemma {:induction false} PartitionPermutation(lines: seq<string>)
    ensures var g := Partition(lines); multiset(g.classes + g.methods + g.body) == multiset(lines)
  {
    if lines != [] {
      var init := lines[..|lines| - 1];
      PartitionPermutation(init);
      PlaceAdds(Partition(init), lines[|lines| - 1]);
      assert lines == init + [lines[|lines| - 1]];
    }
  }

  /** Placing a line adds exactly that line to the groups. */
  lemma {:induction false} PlaceAdds(g: Groups, line: string)
    ensures var h := Place(g, line);
      multiset(h.classes + h.methods + h.body) == multiset(g.classes + g.methods + g.body) + multiset{line}
  {
  }

  /** Each group holds only lines of its kind. */
  predicate Classified(g: Groups) {
    && (forall x :: x in g.classes ==> IsClassLine(x))
    && (forall x :: x in g.methods ==> !IsClassLine(x) && IsMethodLine(x))
    && (forall x :: x in g.body ==> !IsClassLine(x) && !IsMethodLine(x))
  }

  lemma {:induction false} PartitionClassified(lines: seq<string>)
    ensures Classified(Partition(lines))
  {
    if lines != [] {
      PartitionClassified(lines[..|lines| - 1]);
    }
  }

  /** The three kinds of line the partition tells apart, in the order its if-chain tests them. */
  datatype LineKind = ClassHeader | MethodHeader | BodyLine

  function KindOfLine(line: string): LineKind {
    if IsClassLine(line) then ClassHeader
    else if IsMethodLine(line) then MethodHeader
    else BodyLine
  }

  /** The lines of one kind, in input order: a filter that walks the list from its head. */
  function Select(lines: seq<string>, k: LineKind): seq<string> {
    if lines == [] then []
    else (if KindOfLine(lines[0]) == k then [lines[0]] else []) + Select(lines[1..], k)
  }

  /** Filtering a list with one more line at its end. */
  lemma {:induction false} SelectSnoc(lines: seq<string>, line: string, k: LineKind)
    ensures Select(lines + [line], k) == Select(lines, k) + (if KindOfLine(line) == k then [line] else [])
    decreases |lines|
  {
    if lines == [] {
      assert [line][1..] == [];
    } else {
      assert (lines + [line])[1..] == lines[1..] + [line];
      SelectSnoc(lines[1..], line, k);
    }
  }

  /**
   * The partition is stable: each group is exactly the input's lines of its
   * kind, in the order they appear.
   */
  lemma {:induction false} PartitionStable(lines: seq<string>)
    ensures Partition(lines).classes == Select(lines, ClassHeader)
    ensures Partition(lines).methods == Select(lines, MethodHeader)
    ensures Partition(lines).body == Select(lines, BodyLine)
  {
    if lines != [] {
      var init, last := lines[..|lines| - 1], lines[|lines| - 1];
      PartitionStable(init);
      assert lines == init + [last];
      SelectSnoc(init, last, ClassHeader);
      SelectSnoc(init, last, MethodHeader);
      SelectSnoc(init, last, BodyLine);
    }
  }

  /** The class group is empty exactly when no line is a class header. */
  lemma {:induction false} PartitionFound(lines: seq<string>)
    ensures var g := Partition(lines);
      && (g.classes != [] <==> exists i :: 0 <= i < |lines| && IsClassLine(lines[i]))
      && (g.methods != [] <==> exists i :: 0 <= i < |lines| && !IsClassLine(lines[i]) && IsMethodLine(lines[i]))
  {
    if lines != [] {
      var init := lines[..|lines| - 1];
      PartitionFound(init);
      assert forall i :: 0 <= i < |init| ==> init[i] == lines[i];
    }
  }

  lemma {:induction false} TerminatedJoin(lines: seq<string>)
    ensures Terminated(lines) == Join(lines + [""], "\n")
    decreases |lines|
  {
    if lines != [] {
      var init, last := lines[..|lines| - 1], lines[|lines| - 1];
      TerminatedJoin(init);
      assert Terminated(lines) == Terminated(init) + last + "\n";
      JoinLast(last);
      if init == [] {
        assert lines + [""] == [last, ""];
      } else {
        assert lines + [""] == init + [last, ""];
        JoinAppend(init, [last, ""], "\n");
        JoinAppend(init, [""], "\n");
      }
    }
  }

  lemma {:induction false} JoinLast(last: string)
    ensures Join([last, ""], "\n") == last + "\n"
  {
    assert [last, ""][1..] == [""];
  }

  lemma {:induction false} TerminatedAppend(a: seq<string>, b: seq<string>)
    ensures Terminated(a + b) == Terminated(a) + Terminated(b)
    decreases |b|
  {
    if b == [] {
      assert a + b == a;
    } else {
      var init := b[..|b| - 1];
      TerminatedAppend(a, init);
      assert (a + b)[..|a + b| - 1] == a + init;
    }
  }

  /**
   * Read back line by line, the result holds the class headers, then the
   * method headers, then the body, each in input order and each followed by
   * a newline; when either kind of header is missing it holds the input
   * unchanged.
   */
  lemma {:induction false} ReorganizedLines(lines: seq<string>)
    requires |lines| > 0
    requires forall i :: 0 <= i < |lines| ==> '\n' !in lines[i]
    ensures var g := Partition(lines);
      if g.classes == [] || g.methods == [] then Split(Reorganized(lines), '\n') == lines
      else Split(Reorganized(lines), '\n') == g.classes + g.methods + g.body + [""]
  {
    var g := Partition(lines);
    if g.classes == [] || g.methods == [] {
      SplitJoin(lines, '\n');
    } else {
      var all := g.classes + g.methods + g.body;
      GroupsJoined(g);
      PartitionPermutation(lines);
      PermutedNoNewline(lines, all + [""]);
      SplitJoin(all + [""], '\n');
    }
  }

  /** The three groups, each line newline-terminated, are the groups joined with a final empty line. */
  lemma {:induction false} GroupsJoined(g: Groups)
    ensures Terminated(g.classes) + Terminated(g.methods) + Terminated(g.body)
      == Join(g.classes + g.methods + g.body + [""], "\n")
  {
    TerminatedAppend(g.classes, g.methods);
    TerminatedAppend(g.classes + g.methods, g.body);
    TerminatedJoin(g.classes + g.methods + g.body);
  }

  /** A rearrangement of newline-free lines, plus one empty line, is newline-free. */
  lemma {:induction false} PermutedNoNewline(lines: seq<string>, out: seq<string>)
    requires forall i :: 0 <= i < |lines| ==> '\n' !in lines[i]
    requires out != [] && out[|out| - 1] == "" && multiset(out[..|out| - 1]) == multiset(lines)
    ensures forall i :: 0 <= i < |out| ==> '\n' !in out[i]
  {
    forall i | 0 <= i < |out|
      ensures '\n' !in out[i]
    {
      if i < |out| - 1 {
        assert out[i] in multiset(out[..|out| - 1]);
        var j :| 0 <= j < |lines| && lines[j] == out[i];
      }
    }
  }

  /** Reorganizing a list whose first line is not empty never yields "". */
  lemma {:induction false} ReorganizedNonEmpty(lines: seq<string>)
    requires |lines| > 0 && lines[0] != ""
    ensures Reorganized(lines) != ""
  {
    var g := Partition(lines);
    if g.classes == [] || g.methods == [] {
      JoinEnds(lines, "\n");
    } else {
      assert |Terminated(g.classes)| > 0;
    }
  }

  /** reorganizePythonCode: sort the lines into groups, then write the groups out in order. */
  method ReorganizePythonCode(lines: seq<string>) returns (code: string)
    ensures code == Reorganized(lines)
  {
    var classLines, methodLines, bodyLines, classFound, methodFound := SortLines(lines);
    if !classFound || !methodFound {
      return Join(lines, "\n");
    }
    code := WriteLines("", classLines);
    code := WriteLines(code, methodLines);
    code := WriteLines(code, bodyLines);
  }

  /** The sorting loop of reorganizePythonCode, with its two flags. */
  method SortLines(lines: seq<string>)
    returns (classLines: seq<string>, methodLines: seq<string>, bodyLines: seq<string>,
             classFound: bool, methodFound: bool)
    ensures Groups(classLines, methodLines, bodyLines) == Partition(lines)
    ensures classFound <==> classLines != []
    ensures methodFound <==> methodLines != []
  {
    classLines, methodLines, bodyLines := [], [], [];
    classFound, methodFound := false, false;
    for i := 0 to |lines|
      invariant Partition(lines[..i]) == Groups(classLines, methodLines, bodyLines)
      invariant classFound <==> classLines != []
      invariant methodFound <==> methodLines != []
    {
      var line := lines[i];
      assert lines[..i + 1][..i] == lines[..i];
      if IsClassLine(line) {
        classFound := true;
        classLines := classLines + [line];
      } else if IsMethodLine(line) {
        methodFound := true;
        methodLines := methodLines + [line];
      } else {
        bodyLines := bodyLines + [line];
      }
    }
    assert lines[..|lines|] == lines;
  }

  /** One of the writing loops: every line appended to the builder with a newline. */
  method WriteLines(prefix: string, lines: seq<string>) returns (code: string)
    ensures code == prefix + Terminated(lines)
  {
    code := prefix;
    for i := 0 to |lines|
      invariant code == prefix + Terminated(lines[..i])
    {
      assert lines[..i + 1][..i] == lines[..i];
      code := code + lines[i] + "\n";
    }
    assert lines[..|lines|] == lines;
  }
}
