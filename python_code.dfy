/**
 * extractPythonCode of the older parser package: five ways of finding the
 * solution code in a saved page, tried in a fixed order, and a fixed message
 * when all of them fail. The regular-expression captures are the inputs.
 */
module PythonCode {
  import opened GoStrings
  import opened Html
  import opened PythonLines
  import opened MonacoEditor

  /** What the editor patterns capture inside the Monaco view-lines section. */
  datatype MonacoSection = MonacoSection(
    rows: seq<ViewLine>,               // every `<div style=top:Npx ... class=view-line>` row
    // the mtk span texts of the leftmost `<div[^>]*>.*?return\s+\w+.*?</div>` match: it runs from the
    // first `<div` before a `return` on the same text line to the first `</div>` after it, so it may span several rows
    returnRow: Option<seq<string>>,
    mtkSpans: seq<string>)             // every mtk span text of the section, for the aggressive pass

  /** What the patterns of extractPythonCode capture from one page. */
  datatype CodeSources = CodeSources(
    classTextarea: Option<string>,     // a textarea whose text runs from `class Solution` to a `return`
    textarea: Option<string>,          // the first textarea's text
    monaco: Option<MonacoSection>,
    tokenSpans: seq<string>,           // the texts of every `<span class="token...">`
    pres: seq<string>)                 // the texts of every `<pre>`

  /** The text returned when no strategy finds anything. */
  const NotFound: string := "If you see this, let me know at https://github.com/npcnixel/leetcode-to-anki-go/issues/new"

  /** The lines trimmed, the blank ones dropped. */
  function Trimmed(lines: seq<string>): seq<string> {
    if lines == [] then []
    else
      var kept := Trimmed(lines[..|lines| - 1]);
      var t := TrimSpace(lines[|lines| - 1]);
      if t != "" then kept + [t] else kept
  }

  /** The lines trimmed, keeping only the non-blank ones isCodeLine accepts. */
  function TrimmedCode(lines: seq<string>): seq<string> {
    TrimmedWhere(lines, IsCodeLine)
  }

  /** The lines trimmed, keeping only the non-blank ones `keep` accepts. */
  function TrimmedWhere(lines: seq<string>, keep: string -> bool): seq<string> {
    if lines == [] then []
    else
      var kept := TrimmedWhere(lines[..|lines| - 1], keep);
      var t := TrimSpace(lines[|lines| - 1]);
      if t != "" && keep(t) then kept + [t] else kept
  }

  /** A line that shows the textarea holds Python. */
  predicate LooksPython(line: string) {
    Contains(line, "class Solution") || (Contains(line, "def ") && Contains(line, "(self"))
  }

  /** The first strategy: a textarea holding the class, its lines trimmed. */
  function FromClassTextarea(capture: Option<string>): Option<string> {
    if capture.None? then None
    else
      var kept := Trimmed(Split(capture.value, '\n'));
      if kept != [] then Some(Join(kept, "\n")) else None
  }

  /** The second strategy: any textarea that looks like Python, filtered to code lines. */
  function FromTextarea(capture: Option<string>): Option<string> {
    if capture.None? then None
    else
      var lines := Split(capture.value, '\n');
      if !(exists i :: 0 <= i < |lines| && LooksPython(lines[i])) then None
      else
        var kept := TrimmedCode(lines);
        if kept != [] then Some(Join(kept, "\n")) else None
  }

  /** The third strategy: the editor rows, else the aggressive pass over its spans. */
  function FromMonaco(section: Option<MonacoSection>): Option<string> {
    if section.None? then None
    else
      var m := section.value;
      var codeLines := RowLines(m.rows);
      if codeLines != [] then Some(Reorganized(WithReturn(codeLines, m.returnRow)))
      else
        var cleanLines := AggressiveLines(m.mtkSpans);
        if cleanLines != [] then Some(Reorganized(cleanLines)) else None
  }

  /** The texts of the token spans, decoded and glued. */
  function UnescapedSpans(spans: seq<string>): string {
    if spans == [] then "" else UnescapedSpans(spans[..|spans| - 1]) + Unescape(spans[|spans| - 1])
  }

  /** The fourth strategy: the token spans, when their text is not empty. */
  function FromTokenSpans(spans: seq<string>): Option<string> {
    var code := UnescapedSpans(spans);
    if code != "" then Some(code) else None
  }

  /** The fifth strategy: the first `<pre>` that mentions "def", decoded. */
  function FromPre(pres: seq<string>): Option<string> {
    if pres == [] then None
    else if Contains(pres[0], "def") then Some(Unescape(pres[0]))
    else FromPre(pres[1..])
  }

  /** extractPythonCode: the first strategy that finds something, else NotFound. */
  function PythonCode(src: CodeSources): string {
    var a := FromClassTextarea(src.classTextarea);
    if a.Some? then a.value
    else
      var b := FromTextarea(src.textarea);
      if b.Some? then b.value
      else
        var c := FromMonaco(src.monaco);
        if c.Some? then c.value
        else
          var d := FromTokenSpans(src.tokenSpans);
          if d.Some? then d.value
          else
            var e := FromPre(src.pres);
            if e.Some? then e.value else NotFound
  }

  /** A line as the strategies keep it: trimmed and not empty. */
  predicate Neat(line: string) {
    line != "" && TrimSpace(line) == line
  }

  predicate NoNewline(line: string) {
    '\n' !in line
  }

  /** Every kept line is trimmed and not empty. */
  lemma {:induction false} TrimmedShape(lines: seq<string>)
    ensures forall i :: 0 <= i < |Trimmed(lines)| ==> Neat(Trimmed(lines)[i])
    ensures (forall i :: 0 <= i < |lines| ==> NoNewline(lines[i])) ==>
      forall i :: 0 <= i < |Trimmed(lines)| ==> NoNewline(Trimmed(lines)[i])
  {
    if lines != [] {
      var init, line := lines[..|lines| - 1], lines[|lines| - 1];
      TrimmedShape(init);
      TrimOnce(line);
      var kept, t := Trimmed(init), TrimSpace(line);
      if t != "" {
        assert Trimmed(lines) == kept + [t];
        AllAppend(kept, t, Neat);
        if forall i :: 0 <= i < |lines| ==> NoNewline(lines[i]) {
          assert forall i :: 0 <= i < |init| ==> init[i] == lines[i];
          assert NoNewline(lines[|lines| - 1]);
          AllAppend(kept, t, NoNewline);
        }
      } else {
        assert Trimmed(lines) == kept;
        assert forall i :: 0 <= i < |init| ==> init[i] == lines[i];
      }
    }
  }

  /** Every kept line is trimmed, not empty and accepted by isCodeLine. */
  lemma {:induction false} TrimmedCodeShape(lines: seq<string>)
    ensures forall i :: 0 <= i < |TrimmedCode(lines)| ==> Neat(TrimmedCode(lines)[i]) && IsCodeLine(TrimmedCode(lines)[i])
    ensures (forall i :: 0 <= i < |lines| ==> NoNewline(lines[i])) ==>
      forall i :: 0 <= i < |TrimmedCode(lines)| ==> NoNewline(TrimmedCode(lines)[i])
  {
    TrimmedWhereShape(lines, IsCodeLine);
  }

  /** Every line a filter keeps is trimmed, not empty and accepted by the filter. */
  lemma {:induction false} TrimmedWhereShape(lines: seq<string>, keep: string -> bool)
    ensures forall i :: 0 <= i < |TrimmedWhere(lines, keep)| ==>
      Neat(TrimmedWhere(lines, keep)[i]) && keep(TrimmedWhere(lines, keep)[i])
    ensures (forall i :: 0 <= i < |lines| ==> NoNewline(lines[i])) ==>
      forall i :: 0 <= i < |TrimmedWhere(lines, keep)| ==> NoNewline(TrimmedWhere(lines, keep)[i])
  {
    if lines != [] {
      var init, line := lines[..|lines| - 1], lines[|lines| - 1];
      TrimmedWhereShape(init, keep);
      TrimOnce(line);
      var kept, t := TrimmedWhere(init, keep), TrimSpace(line);
      assert forall i :: 0 <= i < |init| ==> init[i] == lines[i];
      if t != "" && keep(t) {
        assert TrimmedWhere(lines, keep) == kept + [t];
        AllAppend(kept, t, x => Neat(x) && keep(x));
        if forall i :: 0 <= i < |lines| ==> NoNewline(lines[i]) {
          assert NoNewline(lines[|lines| - 1]);
          AllAppend(kept, t, NoNewline);
        }
      } else {
        assert TrimmedWhere(lines, keep) == kept;
      }
    }
  }

  /** A property of every line of xs and of x holds of every line of xs + [x]. */
  lemma {:induction false} AllAppend(xs: seq<string>, x: string, p: string -> bool)
    requires forall i :: 0 <= i < |xs| ==> p(xs[i])
    requires p(x)
    ensures forall i :: 0 <= i < |xs + [x]| ==> p((xs + [x])[i])
  {
    forall i | 0 <= i < |xs + [x]|
      ensures p((xs + [x])[i])
    {
      if i < |xs| {
        assert (xs + [x])[i] == xs[i];
      }
    }
  }

  /** A trimmed line is its own trim, and trimming brings in no newline. */
  lemma {:induction false} TrimOnce(line: string)
    ensures TrimSpace(line) != "" ==> TrimSpace(TrimSpace(line)) == TrimSpace(line)
    ensures '\n' !in line ==> '\n' !in TrimSpace(line)
  {
    var k := TrimSpaceInfix(line);
  }

  /**
   * Code taken from a textarea is, line by line, the trimmed non-blank lines
   * of that textarea that carry no chrome phrase.
   */
  lemma {:induction false} TextareaLines(capture: string)
    requires FromTextarea(Some(capture)).Some?
    ensures var lines := TrimmedCode(Split(capture, '\n'));
      && Split(FromTextarea(Some(capture)).value, '\n') == lines
      && forall i :: 0 <= i < |lines| ==>
           lines[i] != "" && TrimSpace(lines[i]) == lines[i] && !ContainsAny(lines[i], UiPhrases)
  {
    var lines := TrimmedCode(Split(capture, '\n'));
    TrimmedCodeShape(Split(capture, '\n'));
    forall i | 0 <= i < |lines|
      ensures !ContainsAny(lines[i], UiPhrases)
    {
      IsCodeLineIff(lines[i]);
    }
    SplitJoin(lines, '\n');
  }

  /** Code taken from the class textarea is, line by line, its trimmed non-blank lines. */
  lemma {:induction false} ClassTextareaLines(capture: string)
    requires FromClassTextarea(Some(capture)).Some?
    ensures var lines := Trimmed(Split(capture, '\n'));
      && Split(FromClassTextarea(Some(capture)).value, '\n') == lines
      && forall i :: 0 <= i < |lines| ==> lines[i] != "" && TrimSpace(lines[i]) == lines[i]
  {
    var lines := Trimmed(Split(capture, '\n'));
    TrimmedShape(Split(capture, '\n'));
    SplitJoin(lines, '\n');
  }

  /** A strategy that finds something finds a non-empty text. */
  lemma {:induction false} ClassTextareaNonEmpty(capture: Option<string>)
    ensures FromClassTextarea(capture).Some? ==> FromClassTextarea(capture).value != ""
  {
    if capture.Some? {
      JoinTrimmedNonEmpty(Split(capture.value, '\n'));
    }
  }

  lemma {:induction false} JoinTrimmedNonEmpty(lines: seq<string>)
    ensures Trimmed(lines) != [] ==> Join(Trimmed(lines), "\n") != ""
  {
    if Trimmed(lines) != [] {
      TrimmedShape(lines);
      JoinEnds(Trimmed(lines), "\n");
    }
  }

  lemma {:induction false} TextareaNonEmpty(capture: Option<string>)
    ensures FromTextarea(capture).Some? ==> FromTextarea(capture).value != ""
  {
    if capture.Some? {
      var kept := TrimmedCode(Split(capture.value, '\n'));
      if kept != [] {
        TrimmedCodeShape(Split(capture.value, '\n'));
        JoinEnds(kept, "\n");
      }
    }
  }

  lemma {:induction false} MonacoNonEmpty(m: MonacoSection)
    ensures FromMonaco(Some(m)).Some? ==> FromMonaco(Some(m)).value != ""
  {
    var codeLines := RowLines(m.rows);
    if codeLines != [] {
      RowLinesShape(m.rows);
      var lines := WithReturn(codeLines, m.returnRow);
      assert lines[0] == codeLines[0];
      assert codeLines[0] != "" by {
        if codeLines[0] == "" {
          assert IsBlank(codeLines[0]);
        }
      }
      ReorganizedNonEmpty(lines);
    } else {
      var cleanLines := AggressiveLines(m.mtkSpans);
      if cleanLines != [] {
        AggressiveLinesShape(m.mtkSpans);
        ReorganizedNonEmpty(cleanLines);
      }
    }
  }

  lemma {:induction false} FromPreNonEmpty(pres: seq<string>)
    ensures FromPre(pres).Some? ==> FromPre(pres).value != ""
  {
    if pres != [] && !Contains(pres[0], "def") {
      FromPreNonEmpty(pres[1..]);
    }
  }

  /** The result is never empty: either some strategy's text or NotFound. */
  lemma {:induction false} PythonCodeNonEmpty(src: CodeSources)
    ensures PythonCode(src) != ""
  {
    ClassTextareaNonEmpty(src.classTextarea);
    TextareaNonEmpty(src.textarea);
    if src.monaco.Some? {
      MonacoNonEmpty(src.monaco.value);
    }
    FromPreNonEmpty(src.pres);
  }

  /** extractPythonCode, strategy by strategy. */
  method ExtractPythonCode(src: CodeSources) returns (code: string)
    ensures code == PythonCode(src)
    ensures code != ""
  {
    PythonCodeNonEmpty(src);
    if src.classTextarea.Some? {
      var cleanedLines := KeepTrimmed(Split(src.classTextarea.value, '\n'));
      if |cleanedLines| > 0 {
        return Join(cleanedLines, "\n");
      }
    }
    if src.textarea.Some? {
      var lines := Split(src.textarea.value, '\n');
      var hasPythonCode := HasPythonCode(lines);
      if hasPythonCode {
        var cleanedLines := KeepCode(lines);
        if |cleanedLines| > 0 {
          return Join(cleanedLines, "\n");
        }
      }
    }
    if src.monaco.Some? {
      var m := src.monaco.value;
      var codeLines := AssembleRows(m.rows);
      if |codeLines| > 0 {
        codeLines := WithReturn(codeLines, m.returnRow);
        code := ReorganizePythonCode(codeLines);
        return;
      }
      var cleanLines := Aggressive(m.mtkSpans);
      if |cleanLines| > 0 {
        code := ReorganizePythonCode(cleanLines);
        return;
      }
    }
    var spanCode := UnescapeSpans(src.tokenSpans);
    if |spanCode| > 0 {
      return spanCode;
    }
    var pre := FirstDefPre(src.pres);
    if pre.Some? {
      return pre.value;
    }
    return NotFound;
  }

  /** The trimming loop of the first strategy. */
  method KeepTrimmed(lines: seq<string>) returns (cleanedLines: seq<string>)
    ensures cleanedLines == Trimmed(lines)
  {
    cleanedLines := [];
    for i := 0 to |lines|
      invariant cleanedLines == Trimmed(lines[..i])
    {
      assert lines[..i + 1][..i] == lines[..i];
      var trimmed := TrimSpace(lines[i]);
      if trimmed != "" {
        cleanedLines := cleanedLines + [trimmed];
      }
    }
    assert lines[..|lines|] == lines;
  }

  /** The first pass of the second strategy: does any line look like Python? */
  method HasPythonCode(lines: seq<string>) returns (found: bool)
    ensures found <==> exists i :: 0 <= i < |lines| && LooksPython(lines[i])
  {
    found := false;
    for i := 0 to |lines|
      invariant !found
      invariant forall j :: 0 <= j < i ==> !LooksPython(lines[j])
    {
      if Contains(lines[i], "class Solution") || (Contains(lines[i], "def ") && Contains(lines[i], "(self")) {
        return true;
      }
    }
  }

  /** The second pass of the second strategy. */
  method KeepCode(lines: seq<string>) returns (cleanedLines: seq<string>)
    ensures cleanedLines == TrimmedCode(lines)
  {
    cleanedLines := [];
    for i := 0 to |lines|
      invariant cleanedLines == TrimmedCode(lines[..i])
    {
      assert lines[..i + 1][..i] == lines[..i];
      var trimmed := TrimSpace(lines[i]);
      if trimmed != "" && IsCodeLine(trimmed) {
        cleanedLines := cleanedLines + [trimmed];
      }
    }
    assert lines[..|lines|] == lines;
  }

  /** The builder loop of the token-span strategy. */
  method UnescapeSpans(spans: seq<string>) returns (code: string)
    ensures code == UnescapedSpans(spans)
  {
    code := "";
    for i := 0 to |spans|
      invariant code == UnescapedSpans(spans[..i])
    {
      assert spans[..i + 1][..i] == spans[..i];
      code := code + Unescape(spans[i]);
    }
    assert spans[..|spans|] == spans;
  }

  /** The loop of the `<pre>` strategy. */
  method FirstDefPre(pres: seq<string>) returns (r: Option<string>)
    ensures r == FromPre(pres)
  {
    for i := 0 to |pres|
      invariant FromPre(pres[i..]) == FromPre(pres)
    {
      assert pres[i..][1..] == pres[i + 1..];
      if Contains(pres[i], "def") {
        return Some(Unescape(pres[i]));
      }
    }
    return None;
  }
}
