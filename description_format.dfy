/**
 * FormatDescription of the newer package
 * (pkg/leetcode_to_anki/leetcode_parser.go): the problem statement, one line
 * at a time, becomes the card's HTML. Plain lines are gathered into
 * paragraphs, "Example" headings open a block that collects the
 * Input/Output/Explanation lines, "Constraints:" silences plain text,
 * follow-up remarks are held back and emitted once at the end, and CSS rules
 * met in the text are skipped.
 */
module DescriptionFormat {
  import opened GoStrings
  import opened Html
  import opened DescriptionLine

  /** The style sheet and the opening div that every formatted description starts with. */
  const Header: string := "<style>\n" + HeaderRest

  /** The style sheet after its opening tag, and the opening div. */
  const HeaderRest: string := StyleRules + "</style>\n<div class=\"description\">"

  /** The CSS rules of the style sheet. */
  const StyleRules: string := DescLineRule + ExampleRule + ExampleTitleRule + ExampleLineRule + ExampleContentRule + FollowUpRule + PreRule

  const DescLineRule: string := @".description-line {
    margin: 10px 0;
    line-height: 1.5;
    font-size: 16px;
}
"

  const ExampleRule: string := @".example {
    margin: 20px 0;
    padding: 15px;
    background-color: #333;
    border-radius: 8px;
}
"

  const ExampleTitleRule: string := @".example-title {
    color: #ff9800;
    font-weight: bold;
    font-size: 18px;
    margin-bottom: 10px;
}
"

  const ExampleLineRule: string := @".example-line {
    margin: 5px 0;
    font-family: 'Courier New', monospace;
    white-space: pre-wrap;
}
"

  const ExampleContentRule: string := @".example-content {
    margin: 10px 0;
    padding: 10px;
    background-color: #2d2d2d;
    border-radius: 4px;
}
"

  const FollowUpRule: string := @".follow-up {
    margin: 20px 0;
    padding: 15px;
    background-color: #333;
    border-radius: 8px;
}
"

  const PreRule: string := @"pre {
    margin: 5px 0;
    padding: 5px;
    background-color: #2d2d2d;
    border-radius: 4px;
}
"

  const DescOpen: string := "<div class=\"description-line\">"
  const ExampleOpen: string := "<div class=\"example\">"
  const ExampleClose: string := "</div></div>"
  const FollowUpOpen: string := "<div class=\"follow-up\">"
  const Footer: string := "</div>"

  function DescLine(text: string): string {
    DescOpen + text + "</div>"
  }

  function ExampleLine(text: string): string {
    "<pre class=\"example-line\">" + text + "</pre>"
  }

  function ExampleTitle(text: string): string {
    ExampleOpen + "<div class=\"example-title\">" + text + "</div><div class=\"example-content\">"
  }

  function FollowUpDiv(text: string): string {
    FollowUpOpen + "<strong>Follow-up:</strong> " + text + "</div>"
  }

  /** What a cleaned, non-empty line is taken for, tested in this order. */
  datatype Kind = ExampleHead | IoLine | ConstraintsHead | FollowUp | Plain

  predicate IsFollowUp(line: string) {
    || HasPrefix(line, "Follow")
    || Contains(ToLower(line), "o(n)")
    || Contains(ToLower(line), "solution")
    || Contains(ToLower(line), "complexity")
  }

  function KindOf(line: string): Kind {
    if HasPrefix(line, "Example") then ExampleHead
    else if HasPrefix(line, "Input:") || HasPrefix(line, "Output:") || HasPrefix(line, "Explanation:") then IoLine
    else if HasPrefix(line, "Constraints:") then ConstraintsHead
    else if IsFollowUp(line) then FollowUp
    else Plain
  }

  /** The local variables of the formatting loop. */
  datatype State = State(
    result: seq<string>,
    currentExample: seq<string>,
    inExample: bool,
    inConstraints: bool,
    followUpParts: seq<string>,
    inCSS: bool,
    currentText: string)

  const Start: State := State([Header], [], false, false, [], false, "")

  /** The paragraph gathered so far, emitted as a description line. */
  function Flush(st: State): State {
    if st.currentText != "" then st.(result := st.result + [DescLine(st.currentText)], currentText := "")
    else st
  }

  /** The open example, closed and emitted as one block. */
  function CloseExample(st: State): State {
    st.(result := st.result + [Join(st.currentExample + [ExampleClose], "\n")], currentExample := [])
  }

  /** A cleaned, non-empty line taken in. */
  function Classify(st: State, line: string): State {
    match KindOf(line)
    case ExampleHead =>
      var s := Flush(st);
      var s2 := if s.inExample then CloseExample(s) else s;
      s2.(currentExample := [ExampleTitle(line)], inExample := true)
    case IoLine =>
      var s := Flush(st);
      if s.inExample then s.(currentExample := s.currentExample + [ExampleLine(line)])
      else s.(result := s.result + [DescLine(line)])
    case ConstraintsHead =>
      var s := Flush(st);
      var s2 := if s.inExample then CloseExample(s).(inExample := false) else s;
      s2.(inConstraints := true)
    case FollowUp =>
      var s := Flush(st);
      var s2 := if s.inExample then CloseExample(s).(inExample := false) else s;
      s2.(inConstraints := false, followUpParts := s2.followUpParts + [Unescape(line)])
    case Plain =>
      if st.inExample then st.(currentExample := st.currentExample + [ExampleLine(line)])
      else if !st.inConstraints && !HasPrefix(line, ".") then
        st.(currentText := if st.currentText == "" then line else st.currentText + " " + line)
      else st
  }

  /**
   * The line as the classification sees it: img sources rewritten (only on
   * lines with "<img"), then cleaned. The loop below is stated for any such
   * cleanup `clean`, and FormatDescription passes this one.
   */
  function Cleaned(line: string, names: seq<string>, pick: nat): string {
    CleanLine(if Contains(line, "<img") then RewriteImgs(line, names, pick) else line)
  }

  function Cleaner(names: seq<string>, pick: nat): string -> string {
    line => Cleaned(line, names, pick)
  }

  /** One round of the loop over the description's lines. */
  function Step(st: State, line: string, clean: string -> string): State {
    if TrimSpace(line) == "" then Flush(st)
    else if Contains(line, "{") then st.(inCSS := true)
    else if st.inCSS then (if Contains(line, "}") then st.(inCSS := false) else st)
    else
      var st1 := if Contains(line, "<img") then Flush(st) else st;
      var text := clean(line);
      if text == "" then st1 else Classify(st1, text)
  }

  /** The loop run over a sequence of lines. */
  function Scan(st: State, lines: seq<string>, clean: string -> string): State {
    if lines == [] then st
    else Step(Scan(st, lines[..|lines| - 1], clean), lines[|lines| - 1], clean)
  }

  /** What follows the loop: the pending paragraph, the pending example, the follow-up, the closing div. */
  function Finished(st: State): seq<string> {
    var s := Flush(st);
    s.result + PendingExample(s) + FollowUpBlock(s) + [Footer]
  }

  /** The example still being gathered when the lines run out, closed if it is open. */
  function PendingExample(s: State): seq<string> {
    if |s.currentExample| > 0 then
      [Join(if s.inExample then s.currentExample + [ExampleClose] else s.currentExample, "\n")]
    else []
  }

  /** The follow-up remarks, joined, decoded and trimmed into one block. */
  function FollowUpBlock(s: State): seq<string> {
    if |s.followUpParts| > 0 then [FollowUpDiv(TrimSpace(Unescape(Join(s.followUpParts, " "))))]
    else []
  }

  /** The blocks FormatDescription joins with newlines. */
  function Blocks(description: string, clean: string -> string): seq<string> {
    Finished(Scan(Start, Split(description, '\n'), clean))
  }

  /** FormatDescription's result, for saved image names `names`. */
  function Formatted(description: string, clean: string -> string): string {
    Join(Blocks(description, clean), "\n")
  }

  /** The number of blocks that start with p. */
  function CountPrefix(blocks: seq<string>, p: string): (n: nat)
    ensures n <= |blocks|
  {
    if blocks == [] then 0
    else CountPrefix(blocks[..|blocks| - 1], p) + (if p <= blocks[|blocks| - 1] then 1 else 0)
  }

  lemma {:induction false} CountPrefixNone(blocks: seq<string>, p: string)
    requires forall e :: e in blocks ==> !(p <= e)
    ensures CountPrefix(blocks, p) == 0
  {
    if blocks != [] {
      var init := blocks[..|blocks| - 1];
      assert forall e :: e in init ==> e in blocks;
      assert blocks[|blocks| - 1] in blocks;
      CountPrefixNone(init, p);
    }
  }

  /**
   * What the loop keeps true: something has been emitted, an example is open
   * exactly when its lines are pending, every example block already emitted is
   * closed, and no follow-up block has been emitted yet.
   */
  predicate Good(st: State) {
    && |st.result| > 0
    && (st.inExample <==> st.currentExample != [])
    && (st.currentExample != [] ==> ExampleOpen <= st.currentExample[0])
    && (forall e :: e in st.result && ExampleOpen <= e ==> HasSuffix(e, ExampleClose))
    && (forall e :: e in st.result ==> !(FollowUpOpen <= e))
  }

  lemma {:induction false} PrefixTrans(a: string, b: string, c: string)
    requires a <= b && b <= c
    ensures a <= c
  {
  }

  /** Blocks are told apart by the class name right after `<div class="`. */
  lemma {:induction false} DescLineKind(t: string)
    ensures !(ExampleOpen <= DescLine(t)) && !(FollowUpOpen <= DescLine(t))
  {
    assert DescLine(t)[12] == 'd';
  }

  lemma {:induction false} HeaderKind()
    ensures !(ExampleOpen <= Header) && !(FollowUpOpen <= Header)
  {
    StyleFirst(Header, HeaderRest);
  }

  lemma {:induction false} StyleFirst(h: string, rest: string)
    requires h == "<style>\n" + rest
    ensures !(ExampleOpen <= h) && !(FollowUpOpen <= h)
  {
    assert h[1] == 's';
  }

  lemma {:induction false} StartGood()
    ensures Good(Start)
  {
    HeaderKind();
  }

  lemma {:induction false} OtherKinds(t: string)
    ensures !(ExampleOpen <= Footer) && !(FollowUpOpen <= Footer)
    ensures FollowUpOpen <= FollowUpDiv(t) && !(ExampleOpen <= FollowUpDiv(t))
    ensures ExampleOpen <= ExampleTitle(t)
  {
    assert FollowUpDiv(t)[12] == 'f';
    assert FollowUpDiv(t)[..|FollowUpOpen|] == FollowUpOpen;
    assert ExampleTitle(t)[..|ExampleOpen|] == ExampleOpen;
  }

  /** An example closed and joined starts like an example and ends with the closing divs. */
  lemma {:induction false} ExampleBlockKind(pending: seq<string>)
    requires pending != [] && ExampleOpen <= pending[0]
    ensures ExampleOpen <= Join(pending + [ExampleClose], "\n")
    ensures HasSuffix(Join(pending + [ExampleClose], "\n"), ExampleClose)
    ensures !(FollowUpOpen <= Join(pending + [ExampleClose], "\n"))
  {
    var parts := pending + [ExampleClose];
    var j := Join(parts, "\n");
    JoinEnds(parts, "\n");
    assert parts[0] == pending[0];
    PrefixTrans(ExampleOpen, pending[0], j);
    ExampleNotFollowUp(j);
  }

  lemma {:induction false} ExampleNotFollowUp(j: string)
    requires ExampleOpen <= j
    ensures !(FollowUpOpen <= j)
  {
    assert j[12] == 'e';
  }

  lemma {:induction false} FlushGood(st: State)
    requires Good(st)
    ensures Good(Flush(st))
    ensures Flush(st).currentText == ""
    ensures st.result <= Flush(st).result
  {
    if st.currentText != "" {
      DescLineKind(st.currentText);
    }
  }

  lemma {:induction false} CloseGood(st: State)
    requires Good(st) && st.inExample
    ensures Good(CloseExample(st).(inExample := false))
  {
    ExampleBlockKind(st.currentExample);
  }

  lemma {:induction false} ClassifyGood(st: State, line: string)
    requires Good(st)
    ensures Good(Classify(st, line))
    ensures st.result <= Classify(st, line).result
  {
    FlushGood(st);
    var s := Flush(st);
    OtherKinds(line);
    match KindOf(line)
    case ExampleHead =>
      if s.inExample {
        CloseGood(s);
      }
    case IoLine =>
      DescLineKind(line);
    case ConstraintsHead =>
      if s.inExample {
        CloseGood(s);
      }
    case FollowUp =>
      if s.inExample {
        CloseGood(s);
      }
    case Plain =>
  }

  lemma {:induction false} StepGood(st: State, line: string, clean: string -> string)
    requires Good(st)
    ensures Good(Step(st, line, clean))
    ensures st.result <= Step(st, line, clean).result
  {
    FlushGood(st);
    if TrimSpace(line) == "" || Contains(line, "{") || st.inCSS {
    } else {
      var st1 := if Contains(line, "<img") then Flush(st) else st;
      var text := clean(line);
      StepTakes(st, line, clean);
      ClassifyGood(st1, text);
    }
  }

  /** A non-blank line outside CSS without a brace goes through the classification. */
  lemma {:induction false} StepTakes(st: State, line: string, clean: string -> string)
    requires TrimSpace(line) != "" && !Contains(line, "{") && !st.inCSS
    ensures Step(st, line, clean) ==
      var st1 := if Contains(line, "<img") then Flush(st) else st;
      var text := clean(line);
      if text == "" then st1 else Classify(st1, text)
  {
  }

  /** The loop keeps Good, and never takes back a block it has emitted. */
  lemma {:induction false} ScanGood(st: State, lines: seq<string>, clean: string -> string)
    requires Good(st)
    ensures Good(Scan(st, lines, clean))
    ensures st.result <= Scan(st, lines, clean).result
  {
    if lines != [] {
      ScanGood(st, lines[..|lines| - 1], clean);
      StepGood(Scan(st, lines[..|lines| - 1], clean), lines[|lines| - 1], clean);
    }
  }

  lemma {:induction false} CountPrefixAppend(a: seq<string>, b: seq<string>, p: string)
    ensures CountPrefix(a + b, p) == CountPrefix(a, p) + CountPrefix(b, p)
    decreases |b|
  {
    if b != [] {
      var b0 := b[..|b| - 1];
      assert (a + b)[..|a + b| - 1] == a + b0;
      assert (a + b)[|a + b| - 1] == b[|b| - 1];
      CountPrefixAppend(a, b0, p);
    } else {
      assert a + b == a;
    }
  }

  lemma {:induction false} PendingExampleShape(s: State)
    requires Good(s)
    ensures forall e :: e in PendingExample(s) ==> ExampleOpen <= e && HasSuffix(e, ExampleClose)
    ensures forall e :: e in PendingExample(s) ==> !(FollowUpOpen <= e)
  {
    if |s.currentExample| > 0 {
      ExampleBlockKind(s.currentExample);
    }
  }

  lemma {:induction false} FollowUpBlockShape(s: State)
    ensures forall e :: e in FollowUpBlock(s) ==> !(ExampleOpen <= e)
    ensures CountPrefix(FollowUpBlock(s), FollowUpOpen) == if s.followUpParts == [] then 0 else 1
  {
    OtherKinds(TrimSpace(Unescape(Join(s.followUpParts, " "))));
    if s.followUpParts != [] {
      assert FollowUpBlock(s)[..0] == [];
    }
  }

  /**
   * After the loop: the style sheet first and the closing div last, every
   * example block closed, and exactly one follow-up block when follow-up
   * lines were collected (none otherwise).
   */
  lemma {:induction false} FinishedShape(st: State)
    requires Good(st)
    ensures |Finished(st)| >= 2 && Finished(st)[0] == st.result[0] && Finished(st)[|Finished(st)| - 1] == Footer
    ensures forall e :: e in Finished(st) && ExampleOpen <= e ==> HasSuffix(e, ExampleClose)
    ensures CountPrefix(Finished(st), FollowUpOpen) == if st.followUpParts == [] then 0 else 1
  {
    FlushGood(st);
    var s := Flush(st);
    var body := s.result + PendingExample(s);
    FinishedSplit(st);
    FinishedExamples(s, body);
    FinishedFollowUp(s, body);
  }

  lemma {:induction false} FinishedSplit(st: State)
    requires |st.result| > 0
    ensures var s := Flush(st); Finished(st) == s.result + PendingExample(s) + FollowUpBlock(s) + [Footer]
    ensures Finished(st)[0] == st.result[0]
  {
  }

  lemma {:induction false} FinishedExamples(s: State, body: seq<string>)
    requires Good(s) && body == s.result + PendingExample(s)
    ensures forall e :: e in body + FollowUpBlock(s) + [Footer] && ExampleOpen <= e ==> HasSuffix(e, ExampleClose)
  {
    PendingExampleShape(s);
    FollowUpBlockShape(s);
    OtherKinds("");
  }

  lemma {:induction false} FinishedFollowUp(s: State, body: seq<string>)
    requires Good(s) && body == s.result + PendingExample(s)
    ensures CountPrefix(body + FollowUpBlock(s) + [Footer], FollowUpOpen) == if s.followUpParts == [] then 0 else 1
  {
    PendingExampleShape(s);
    FollowUpBlockShape(s);
    OtherKinds("");
    CountPrefixNone(body, FollowUpOpen);
    CountPrefixNone([Footer], FollowUpOpen);
    CountPrefixAppend(body, FollowUpBlock(s), FollowUpOpen);
    CountPrefixAppend(body + FollowUpBlock(s), [Footer], FollowUpOpen);
  }

  /** Every formatted description starts with the style sheet and ends with the closing div. */
  lemma {:induction false} FormattedFrame(description: string, clean: string -> string)
    ensures Header <= Formatted(description, clean)
    ensures HasSuffix(Formatted(description, clean), Footer)
  {
    var st := Scan(Start, Split(description, '\n'), clean);
    StartGood();
    ScanGood(Start, Split(description, '\n'), clean);
    FinishedShape(st);
    JoinEnds(Finished(st), "\n");
  }

  /** Every example block of the output is closed by `</div></div>`. */
  lemma {:induction false} ExamplesClosed(description: string, clean: string -> string)
    ensures forall e :: e in Blocks(description, clean) && ExampleOpen <= e ==> HasSuffix(e, ExampleClose)
  {
    StartGood();
    ScanGood(Start, Split(description, '\n'), clean);
    FinishedShape(Scan(Start, Split(description, '\n'), clean));
  }

  /** The follow-up block appears once when a follow-up line was collected and not at all otherwise. */
  lemma {:induction false} FollowUpOnce(description: string, clean: string -> string)
    ensures CountPrefix(Blocks(description, clean), FollowUpOpen)
      == if Scan(Start, Split(description, '\n'), clean).followUpParts == [] then 0 else 1
  {
    StartGood();
    ScanGood(Start, Split(description, '\n'), clean);
    FinishedShape(Scan(Start, Split(description, '\n'), clean));
  }

  /** Running the loop over two stretches of lines is running it over both. */
  lemma {:induction false} ScanConcat(st: State, a: seq<string>, b: seq<string>, clean: string -> string)
    ensures Scan(st, a + b, clean) == Scan(Scan(st, a, clean), b, clean)
    decreases |b|
  {
    if b == [] {
      assert a + b == a;
    } else {
      var b0 := b[..|b| - 1];
      assert (a + b)[..|a + b| - 1] == a + b0;
      assert (a + b)[|a + b| - 1] == b[|b| - 1];
      ScanConcat(st, a, b0, clean);
    }
  }

  /** A line with a brace in it is never blank. */
  lemma {:induction false} BraceNotBlank(line: string, brace: char)
    requires Contains(line, [brace]) && !IsSpace(brace)
    ensures TrimSpace(line) != ""
  {
    ContainsChar(line, brace);
  }

  /** The lines as the classification sees them. */
  function CleanedAll(lines: seq<string>, clean: string -> string): (r: seq<string>)
    ensures |r| == |lines|
  {
    if lines == [] then []
    else CleanedAll(lines[..|lines| - 1], clean) + [clean(lines[|lines| - 1])]
  }

  /** A line of running text: not blank, no brace, no image, cleaned to a plain line not starting with '.'. */
  predicate Prose(line: string, clean: string -> string) {
    && TrimSpace(line) != "" && !Contains(line, "{") && !Contains(line, "<img")
    && clean(line) != ""
    && KindOf(clean(line)) == Plain
    && !HasPrefix(clean(line), ".")
  }

  /** The paragraph text: the pending text, if any, and then the new lines. */
  function Paragraph(pending: string, texts: seq<string>): string {
    Join((if pending == "" then [] else [pending]) + texts, " ")
  }

  lemma {:induction false} JoinNonEmpty(parts: seq<string>, sep: string)
    requires |parts| > 0 && parts[0] != ""
    ensures Join(parts, sep) != ""
  {
    JoinEnds(parts, sep);
  }

  lemma {:induction false} ParagraphStep(pending: string, texts: seq<string>, t: string)
    requires t != "" && forall i :: 0 <= i < |texts| ==> texts[i] != ""
    ensures Paragraph(pending, texts + [t]) ==
      var p := Paragraph(pending, texts);
      if p == "" then t else p + " " + t
  {
    var parts := (if pending == "" then [] else [pending]) + texts;
    assert parts + [t] == (if pending == "" then [] else [pending]) + (texts + [t]);
    if parts == [] {
      assert parts + [t] == [t];
    } else {
      assert parts[0] != "";
      JoinNonEmpty(parts, " ");
      JoinAppend(parts, [t], " ");
    }
  }

  /**
   * Outside examples and constraints, consecutive lines of running text are
   * gathered into one paragraph, joined with single spaces; nothing is emitted
   * and nothing else changes.
   */
  lemma {:induction false} ParagraphGathers(st: State, lines: seq<string>, clean: string -> string)
    requires !st.inExample && !st.inConstraints && !st.inCSS
    requires forall i :: 0 <= i < |lines| ==> Prose(lines[i], clean)
    ensures Scan(st, lines, clean) == st.(currentText := Paragraph(st.currentText, CleanedAll(lines, clean)))
  {
    if lines == [] {
      assert (if st.currentText == "" then [] else [st.currentText]) + [] == (if st.currentText == "" then [] else [st.currentText]);
    } else {
      var init := lines[..|lines| - 1];
      ParagraphGathers(st, init, clean);
      var texts := CleanedAll(init, clean);
      assert forall i :: 0 <= i < |texts| ==> texts[i] != "" by {
        CleanedAllAt(init, clean);
        forall i | 0 <= i < |texts|
          ensures texts[i] != ""
        {
          assert init[i] == lines[i] && Prose(lines[i], clean);
        }
      }
      ParagraphMore(st, lines, clean);
    }
  }

  /** One more line of running text extends the paragraph gathered from the lines before it. */
  lemma {:induction false} ParagraphMore(st: State, lines: seq<string>, clean: string -> string)
    requires !st.inExample && !st.inConstraints && !st.inCSS && lines != []
    requires var init := lines[..|lines| - 1];
      && Scan(st, init, clean) == st.(currentText := Paragraph(st.currentText, CleanedAll(init, clean)))
      && forall i :: 0 <= i < |CleanedAll(init, clean)| ==> CleanedAll(init, clean)[i] != ""
    requires Prose(lines[|lines| - 1], clean)
    ensures Scan(st, lines, clean) == st.(currentText := Paragraph(st.currentText, CleanedAll(lines, clean)))
  {
    var init, last := lines[..|lines| - 1], lines[|lines| - 1];
    var texts := CleanedAll(init, clean);
    var mid := Scan(st, init, clean);
    var t := clean(last);
    ScanLast(st, lines, clean);
    ProseStep(mid, last, clean);
    assert Scan(st, lines, clean) == mid.(currentText := if mid.currentText == "" then t else mid.currentText + " " + t);
    ParagraphStep(st.currentText, texts, t);
    assert CleanedAll(lines, clean) == texts + [t];
  }

  lemma {:induction false} ProseStep(st: State, line: string, clean: string -> string)
    requires !st.inExample && !st.inConstraints && !st.inCSS
    requires Prose(line, clean)
    ensures Step(st, line, clean) ==
      st.(currentText := if st.currentText == "" then clean(line) else st.currentText + " " + clean(line))
  {
    StepTakes(st, line, clean);
  }

  lemma {:induction false} CleanedAllAt(lines: seq<string>, clean: string -> string)
    ensures forall i :: 0 <= i < |lines| ==> CleanedAll(lines, clean)[i] == clean(lines[i])
  {
    if lines != [] {
      CleanedAllAt(lines[..|lines| - 1], clean);
    }
  }

  /** A blank line closes the paragraph: it is emitted as one description line. */
  lemma {:induction false} BlankEndsParagraph(st: State, line: string, clean: string -> string)
    requires TrimSpace(line) == "" && st.currentText != ""
    ensures Step(st, line, clean) == st.(result := st.result + [DescLine(st.currentText)], currentText := "")
  {
  }

  /** Outside examples and CSS, running text starting with '.' is dropped. */
  lemma {:induction false} DotLinesDropped(st: State, line: string, clean: string -> string)
    requires !st.inExample && !st.inCSS
    requires TrimSpace(line) != "" && !Contains(line, "{") && !Contains(line, "<img")
    requires clean(line) != "" && KindOf(clean(line)) == Plain
    requires HasPrefix(clean(line), ".")
    ensures Step(st, line, clean) == st
  {
    StepTakes(st, line, clean);
  }

  /** A line that changes nothing while constraints are in force: blank, or running text. */
  predicate Inert(line: string, clean: string -> string) {
    || TrimSpace(line) == ""
    || (!Contains(line, "{") && (clean(line) == "" || KindOf(clean(line)) == Plain))
  }

  /**
   * Once "Constraints:" is in force (and no example or paragraph is open),
   * blank lines and running text leave everything as it is: the constraint
   * list never reaches the card.
   */
  lemma {:induction false} ConstraintsSilence(st: State, lines: seq<string>, clean: string -> string)
    requires st.inConstraints && !st.inExample && !st.inCSS && st.currentText == ""
    requires forall i :: 0 <= i < |lines| ==> Inert(lines[i], clean)
    ensures Scan(st, lines, clean) == st
  {
    if lines != [] {
      ConstraintsSilence(st, lines[..|lines| - 1], clean);
      ScanLast(st, lines, clean);
      InertStep(st, lines[|lines| - 1], clean);
    }
  }

  lemma {:induction false} InertStep(st: State, line: string, clean: string -> string)
    requires st.inConstraints && !st.inExample && !st.inCSS && st.currentText == ""
    requires Inert(line, clean)
    ensures Step(st, line, clean) == st
  {
    if TrimSpace(line) != "" {
      StepTakes(st, line, clean);
      assert Flush(st) == st;
    }
  }

  /**
   * A "Constraints:" heading emits the pending paragraph, closes an open
   * example, emits nothing of its own and silences what follows.
   */
  lemma {:induction false} ConstraintsHeading(st: State, line: string, clean: string -> string)
    requires !st.inCSS && TrimSpace(line) != "" && !Contains(line, "{")
    requires clean(line) != "" && KindOf(clean(line)) == ConstraintsHead
    ensures var next := Step(st, line, clean);
      && next.inConstraints && !next.inExample && !next.inCSS && next.currentText == ""
      && next.followUpParts == st.followUpParts
      && next.result == Flush(st).result + (if st.inExample then [Join(st.currentExample + [ExampleClose], "\n")] else [])
  {
    StepTakes(st, line, clean);
    var st1 := if Contains(line, "<img") then Flush(st) else st;
    assert Step(st, line, clean) == Classify(st1, clean(line));
    FlushedFirst(st, st1);
    ClassifyConstraints(st1, clean(line));
  }

  lemma {:induction false} ClassifyConstraints(st: State, text: string)
    requires !st.inCSS && KindOf(text) == ConstraintsHead
    ensures var next := Classify(st, text);
      && next.inConstraints && !next.inExample && !next.inCSS && next.currentText == ""
      && next.followUpParts == st.followUpParts
      && next.result == Flush(st).result + (if st.inExample then [Join(st.currentExample + [ExampleClose], "\n")] else [])
  {
    var s := Flush(st);
    assert !s.inCSS && s.currentText == "";
    assert s.inExample == st.inExample && s.currentExample == st.currentExample;
  }

  /**
   * Outside an example, an Input/Output/Explanation line emits the pending
   * paragraph and then its own description line.
   */
  lemma {:induction false} IoLineOutsideExample(st: State, line: string, clean: string -> string)
    requires !st.inCSS && !st.inExample && TrimSpace(line) != "" && !Contains(line, "{")
    requires clean(line) != "" && KindOf(clean(line)) == IoLine
    ensures var next := Step(st, line, clean);
      && next.result == Flush(st).result + [DescLine(clean(line))]
      && next.currentText == "" && !next.inExample && !next.inCSS
      && next.inConstraints == st.inConstraints && next.followUpParts == st.followUpParts
  {
    StepTakes(st, line, clean);
    var st1 := if Contains(line, "<img") then Flush(st) else st;
    assert Step(st, line, clean) == Classify(st1, clean(line));
    FlushedFirst(st, st1);
  }

  /**
   * A line holding "<img" emits the pending paragraph before anything else;
   * as running text outside examples and constraints it then starts a new
   * paragraph of its own.
   */
  lemma {:induction false} ImgLineFlushes(st: State, line: string, clean: string -> string)
    requires !st.inCSS && TrimSpace(line) != "" && !Contains(line, "{") && Contains(line, "<img")
    requires !st.inExample && !st.inConstraints
    requires clean(line) != "" && KindOf(clean(line)) == Plain && !HasPrefix(clean(line), ".")
    ensures var next := Step(st, line, clean);
      && next.result == Flush(st).result
      && next.currentText == clean(line)
      && !next.inExample && !next.inConstraints && !next.inCSS && next.followUpParts == st.followUpParts
  {
    StepTakes(st, line, clean);
    assert Step(st, line, clean) == Classify(Flush(st), clean(line));
  }

  /**
   * A follow-up line emits the pending paragraph, closes an open example,
   * lifts the constraints silence and is kept, decoded, for the follow-up block.
   */
  lemma {:induction false} FollowUpLine(st: State, line: string, clean: string -> string)
    requires !st.inCSS && TrimSpace(line) != "" && !Contains(line, "{")
    requires clean(line) != "" && KindOf(clean(line)) == FollowUp
    ensures var next := Step(st, line, clean);
      && !next.inConstraints && !next.inExample && !next.inCSS && next.currentText == ""
      && next.followUpParts == st.followUpParts + [Unescape(clean(line))]
      && next.result == Flush(st).result + (if st.inExample then [Join(st.currentExample + [ExampleClose], "\n")] else [])
  {
    StepTakes(st, line, clean);
    var st1 := if Contains(line, "<img") then Flush(st) else st;
    assert Step(st, line, clean) == Classify(st1, clean(line));
    FlushedFirst(st, st1);
    ClassifyFollowUp(st1, clean(line));
  }

  /** Flushing before the classification flushes nothing more, and leaves the example alone. */
  lemma {:induction false} FlushedFirst(st: State, st1: State)
    requires st1 == st || st1 == Flush(st)
    ensures Flush(st1) == Flush(st)
    ensures st1.inExample == st.inExample && st1.currentExample == st.currentExample
    ensures st1.inConstraints == st.inConstraints && st1.followUpParts == st.followUpParts && st1.inCSS == st.inCSS
  {
  }

  lemma {:induction false} ClassifyFollowUp(st: State, text: string)
    requires !st.inCSS && KindOf(text) == FollowUp
    ensures var next := Classify(st, text);
      && !next.inConstraints && !next.inExample && !next.inCSS && next.currentText == ""
      && next.followUpParts == st.followUpParts + [Unescape(text)]
      && next.result == Flush(st).result + (if st.inExample then [Join(st.currentExample + [ExampleClose], "\n")] else [])
  {
    var s := Flush(st);
    assert s.inExample == st.inExample && s.currentExample == st.currentExample;
  }

  /**
   * An Example heading emits the pending paragraph, closes the example before
   * it with the closing divs, and opens a new example titled with the line.
   */
  lemma {:induction false} ExampleHeading(st: State, line: string, clean: string -> string)
    requires !st.inCSS && TrimSpace(line) != "" && !Contains(line, "{")
    requires clean(line) != "" && KindOf(clean(line)) == ExampleHead
    ensures var next := Step(st, line, clean);
      && next.inExample && !next.inCSS && next.currentText == ""
      && next.currentExample == [ExampleTitle(clean(line))]
      && next.inConstraints == st.inConstraints && next.followUpParts == st.followUpParts
      && next.result == Flush(st).result + (if st.inExample then [Join(st.currentExample + [ExampleClose], "\n")] else [])
  {
    StepTakes(st, line, clean);
    var st1 := if Contains(line, "<img") then Flush(st) else st;
    assert Step(st, line, clean) == Classify(st1, clean(line));
    FlushedFirst(st, st1);
    ClassifyExampleHead(st1, clean(line));
  }

  lemma {:induction false} ClassifyExampleHead(st: State, text: string)
    requires !st.inCSS && KindOf(text) == ExampleHead
    ensures var next := Classify(st, text);
      && next.inExample && !next.inCSS && next.currentText == ""
      && next.currentExample == [ExampleTitle(text)]
      && next.inConstraints == st.inConstraints && next.followUpParts == st.followUpParts
      && next.result == Flush(st).result + (if st.inExample then [Join(st.currentExample + [ExampleClose], "\n")] else [])
  {
    var s := Flush(st);
    assert s.inExample == st.inExample && s.currentExample == st.currentExample;
  }

  /** The pre lines an example gathers. */
  function ExampleLines(texts: seq<string>): (r: seq<string>)
    ensures |r| == |texts|
  {
    if texts == [] then [] else ExampleLines(texts[..|texts| - 1]) + [ExampleLine(texts[|texts| - 1])]
  }

  /** A line inside an example: an Input/Output/Explanation line or running text. */
  predicate ExampleBody(line: string, clean: string -> string) {
    && TrimSpace(line) != "" && !Contains(line, "{") && !Contains(line, "<img")
    && clean(line) != ""
    && (KindOf(clean(line)) == IoLine || KindOf(clean(line)) == Plain)
  }

  lemma {:induction false} ExampleStep(st: State, line: string, clean: string -> string)
    requires st.inExample && !st.inCSS && st.currentText == ""
    requires ExampleBody(line, clean)
    ensures Step(st, line, clean) == st.(currentExample := st.currentExample + [ExampleLine(clean(line))])
  {
    StepTakes(st, line, clean);
    var text := clean(line);
    assert Step(st, line, clean) == Classify(st, text);
    ClassifyInExample(st, text);
  }

  /** Inside an example an Input/Output/Explanation line or running text becomes a pre line. */
  lemma {:induction false} ClassifyInExample(st: State, text: string)
    requires st.inExample && st.currentText == ""
    requires KindOf(text) == IoLine || KindOf(text) == Plain
    ensures Classify(st, text) == st.(currentExample := st.currentExample + [ExampleLine(text)])
  {
    assert Flush(st) == st;
  }

  /** Inside an example, Input/Output/Explanation lines and running text all become pre lines of the example, in order. */
  lemma {:induction false} ExampleGathers(st: State, lines: seq<string>, clean: string -> string)
    requires st.inExample && !st.inCSS && st.currentText == ""
    requires forall i :: 0 <= i < |lines| ==> ExampleBody(lines[i], clean)
    ensures Scan(st, lines, clean) == st.(currentExample := st.currentExample + ExampleLines(CleanedAll(lines, clean)))
  {
    if lines == [] {
      assert st.currentExample + [] == st.currentExample;
    } else {
      ExampleGathers(st, lines[..|lines| - 1], clean);
      ExampleMore(st, lines, clean);
    }
  }

  /** One more example line is added after the pre lines gathered from the lines before it. */
  lemma {:induction false} ExampleMore(st: State, lines: seq<string>, clean: string -> string)
    requires st.inExample && !st.inCSS && st.currentText == "" && lines != []
    requires var init := lines[..|lines| - 1];
      Scan(st, init, clean) == st.(currentExample := st.currentExample + ExampleLines(CleanedAll(init, clean)))
    requires ExampleBody(lines[|lines| - 1], clean)
    ensures Scan(st, lines, clean) == st.(currentExample := st.currentExample + ExampleLines(CleanedAll(lines, clean)))
  {
    var init, last := lines[..|lines| - 1], lines[|lines| - 1];
    var mid := Scan(st, init, clean);
    var texts := CleanedAll(init, clean);
    var t := clean(last);
    ScanLast(st, lines, clean);
    ExampleStep(mid, last, clean);
    assert CleanedAll(lines, clean) == texts + [t];
    ExampleLinesSnoc(st.currentExample, texts, t);
  }

  lemma {:induction false} ExampleLinesSnoc(pre: seq<string>, texts: seq<string>, t: string)
    ensures pre + ExampleLines(texts + [t]) == (pre + ExampleLines(texts)) + [ExampleLine(t)]
  {
    assert (texts + [t])[..|texts|] == texts;
  }

  lemma {:induction false} ScanLast(st: State, lines: seq<string>, clean: string -> string)
    requires lines != []
    ensures Scan(st, lines, clean) == Step(Scan(st, lines[..|lines| - 1], clean), lines[|lines| - 1], clean)
  {
  }

  lemma {:induction false} RuleStep(st: State, rule: string, clean: string -> string)
    requires Contains(rule, "{")
    ensures Step(st, rule, clean) == st.(inCSS := true)
  {
    BraceNotBlank(rule, '{');
  }

  lemma {:induction false} SwallowStep(st: State, line: string, clean: string -> string)
    requires st.inCSS && TrimSpace(line) != "" && !Contains(line, "}")
    ensures Step(st, line, clean) == st
  {
  }

  /** Inside CSS, every non-blank line without "}" is dropped. */
  lemma {:induction false} CssSwallows(st: State, lines: seq<string>, clean: string -> string)
    requires st.inCSS
    requires forall i :: 0 <= i < |lines| ==> TrimSpace(lines[i]) != "" && !Contains(lines[i], "}")
    ensures Scan(st, lines, clean) == st
  {
    if lines != [] {
      CssSwallows(st, lines[..|lines| - 1], clean);
      SwallowStep(st, lines[|lines| - 1], clean);
    }
  }

  /**
   * As written: a line holding a whole CSS rule ("{" and "}" on one line)
   * leaves the loop inside CSS, so every following non-blank line without a
   * "}" is dropped.
   */
  lemma {:induction false} OneLineRuleSwallows(st: State, rule: string, lines: seq<string>, clean: string -> string)
    requires !st.inCSS && Contains(rule, "{") && Contains(rule, "}")
    requires forall i :: 0 <= i < |lines| ==> TrimSpace(lines[i]) != "" && !Contains(lines[i], "}")
    ensures Scan(st, [rule] + lines, clean) == st.(inCSS := true)
  {
    ScanConcat(st, [rule], lines, clean);
    assert [rule][..0] == [];
    RuleStep(st, rule, clean);
    CssSwallows(st.(inCSS := true), lines, clean);
  }

  /** The evident intent: a line with "{" opens a CSS block only when it does not also close it. */
  function StepFixed(st: State, line: string, clean: string -> string): State {
    if TrimSpace(line) != "" && Contains(line, "{") then st.(inCSS := !Contains(line, "}"))
    else Step(st, line, clean)
  }

  function ScanFixed(st: State, lines: seq<string>, clean: string -> string): State {
    if lines == [] then st
    else StepFixed(ScanFixed(st, lines[..|lines| - 1], clean), lines[|lines| - 1], clean)
  }

  function FormattedFixed(description: string, clean: string -> string): string {
    Join(Finished(ScanFixed(Start, Split(description, '\n'), clean)), "\n")
  }

  lemma {:induction false} RuleStepFixed(st: State, rule: string, clean: string -> string)
    requires !st.inCSS && Contains(rule, "{") && Contains(rule, "}")
    ensures StepFixed(st, rule, clean) == st
  {
    BraceNotBlank(rule, '{');
  }

  /** With the fix, a one-line CSS rule is skipped and the lines after it are read as if it were not there. */
  lemma {:induction false} OneLineRuleSkipped(st: State, rule: string, lines: seq<string>, clean: string -> string)
    requires !st.inCSS && Contains(rule, "{") && Contains(rule, "}")
    ensures ScanFixed(st, [rule] + lines, clean) == ScanFixed(st, lines, clean)
    decreases |lines|
  {
    if lines == [] {
      assert [rule] + lines == [rule];
      assert [rule][..0] == [];
      RuleStepFixed(st, rule, clean);
    } else {
      var init := lines[..|lines| - 1];
      assert ([rule] + lines)[..|lines|] == [rule] + init;
      assert ([rule] + lines)[|lines|] == lines[|lines| - 1];
      OneLineRuleSkipped(st, rule, init, clean);
    }
  }

  /** The fix changes nothing on lines without "{". */
  lemma {:induction false} FixAgreesWithoutBraces(st: State, lines: seq<string>, clean: string -> string)
    requires forall i :: 0 <= i < |lines| ==> !Contains(lines[i], "{")
    ensures ScanFixed(st, lines, clean) == Scan(st, lines, clean)
  {
    if lines != [] {
      FixAgreesWithoutBraces(st, lines[..|lines| - 1], clean);
    }
  }

  /** FormatDescription: the loop over the description's lines, then the closing steps. */
  method FormatDescription(description: string, names: seq<string>, pick: nat) returns (out: string)
    ensures out == Formatted(description, Cleaner(names, pick))
    ensures Header <= out && HasSuffix(out, Footer)
  {
    var lines := Split(description, '\n');
    var result, currentExample, inExample, inConstraints, followUpParts, inCSS, currentText := ScanLines(Start, lines, names, pick);
    out := Finish(result, currentExample, inExample, inConstraints, followUpParts, inCSS, currentText);
    FormattedFrame(description, Cleaner(names, pick));
  }

  /** The loop over the description's lines, from the state st0 it starts in. */
  method ScanLines(st0: State, lines: seq<string>, names: seq<string>, pick: nat)
    returns (
      result: seq<string>, currentExample: seq<string>, inExample: bool, inConstraints: bool,
      followUpParts: seq<string>, inCSS: bool, currentText: string)
    ensures State(result, currentExample, inExample, inConstraints, followUpParts, inCSS, currentText)
      == Scan(st0, lines, Cleaner(names, pick))
  {
    result, currentExample, inExample, inConstraints, followUpParts, inCSS, currentText :=
      st0.result, st0.currentExample, st0.inExample, st0.inConstraints, st0.followUpParts, st0.inCSS, st0.currentText;
    for i := 0 to |lines|
      invariant State(result, currentExample, inExample, inConstraints, followUpParts, inCSS, currentText)
        == Scan(st0, lines[..i], Cleaner(names, pick))
    {
      assert lines[..i + 1][..i] == lines[..i];
      result, currentExample, inExample, inConstraints, followUpParts, inCSS, currentText :=
        ScanLine(result, currentExample, inExample, inConstraints, followUpParts, inCSS, currentText, lines[i], names, pick);
    }
    assert lines[..|lines|] == lines;
  }

  /** What follows the loop. */
  method Finish(
    result0: seq<string>, currentExample0: seq<string>, inExample: bool, inConstraints: bool,
    followUpParts: seq<string>, inCSS: bool, currentText0: string)
    returns (out: string)
    ensures out == Join(Finished(State(result0, currentExample0, inExample, inConstraints, followUpParts, inCSS, currentText0)), "\n")
  {
    ghost var s := Flush(State(result0, currentExample0, inExample, inConstraints, followUpParts, inCSS, currentText0));
    var result, currentExample, currentText := result0, currentExample0, currentText0;
    if currentText != "" {
      result := result + [DescLine(currentText)];
      currentText := "";
    }
    assert result == s.result;
    if |currentExample| > 0 {
      if inExample {
        currentExample := currentExample + [ExampleClose];
      }
      result := result + [Join(currentExample, "\n")];
    }
    assert result == s.result + PendingExample(s);
    if |followUpParts| > 0 {
      var followUp := Join(followUpParts, " ");
      followUp := Unescape(followUp);
      followUp := TrimSpace(followUp);
      result := result + [FollowUpDiv(followUp)];
    }
    assert result == s.result + PendingExample(s) + FollowUpBlock(s);
    result := result + [Footer];
    out := Join(result, "\n");
  }

  /** One round of the loop. */
  method ScanLine(
    result0: seq<string>, currentExample0: seq<string>, inExample0: bool, inConstraints0: bool,
    followUpParts0: seq<string>, inCSS0: bool, currentText0: string,
    line0: string, names: seq<string>, pick: nat)
    returns (
      result: seq<string>, currentExample: seq<string>, inExample: bool, inConstraints: bool,
      followUpParts: seq<string>, inCSS: bool, currentText: string)
    ensures State(result, currentExample, inExample, inConstraints, followUpParts, inCSS, currentText)
      == Step(State(result0, currentExample0, inExample0, inConstraints0, followUpParts0, inCSS0, currentText0), line0, Cleaner(names, pick))
  {
    result, currentExample, inExample, inConstraints, followUpParts, inCSS, currentText :=
      result0, currentExample0, inExample0, inConstraints0, followUpParts0, inCSS0, currentText0;
    var line := line0;
    if TrimSpace(line) == "" {
      if currentText != "" {
        result := result + [DescLine(currentText)];
        currentText := "";
      }
      return;
    }
    if Contains(line, "{") {
      inCSS := true;
      return;
    }
    if inCSS {
      if Contains(line, "}") {
        inCSS := false;
      }
      return;
    }
    if Contains(line, "<img") {
      if currentText != "" {
        result := result + [DescLine(currentText)];
        currentText := "";
      }
      line := RewriteImgs(line, names, pick);
    }
    line := CleanDescriptionLine(line);
    if line != "" {
      result, currentExample, inExample, inConstraints, followUpParts, currentText :=
        ClassifyLine(result, currentExample, inExample, inConstraints, followUpParts, inCSS, currentText, line);
    }
  }

  /** The if-chain on a cleaned, non-empty line. */
  method ClassifyLine(
    result0: seq<string>, currentExample0: seq<string>, inExample0: bool, inConstraints0: bool,
    followUpParts0: seq<string>, inCSS: bool, currentText0: string, line: string)
    returns (
      result: seq<string>, currentExample: seq<string>, inExample: bool, inConstraints: bool,
      followUpParts: seq<string>, currentText: string)
    ensures State(result, currentExample, inExample, inConstraints, followUpParts, inCSS, currentText)
      == Classify(State(result0, currentExample0, inExample0, inConstraints0, followUpParts0, inCSS, currentText0), line)
  {
    result, currentExample, inExample, inConstraints, followUpParts, currentText :=
      result0, currentExample0, inExample0, inConstraints0, followUpParts0, currentText0;
    if HasPrefix(line, "Example") {
      if currentText != "" {
        result := result + [DescLine(currentText)];
        currentText := "";
      }
      if inExample {
        currentExample := currentExample + [ExampleClose];
        result := result + [Join(currentExample, "\n")];
        currentExample := [];
      }
      currentExample := [ExampleTitle(line)];
      inExample := true;
    } else if HasPrefix(line, "Input:") || HasPrefix(line, "Output:") || HasPrefix(line, "Explanation:") {
      if currentText != "" {
        result := result + [DescLine(currentText)];
        currentText := "";
      }
      if inExample {
        currentExample := currentExample + [ExampleLine(line)];
      } else {
        result := result + [DescLine(line)];
      }
    } else if HasPrefix(line, "Constraints:") {
      if currentText != "" {
        result := result + [DescLine(currentText)];
        currentText := "";
      }
      if inExample {
        currentExample := currentExample + [ExampleClose];
        result := result + [Join(currentExample, "\n")];
        currentExample := [];
        inExample := false;
      }
      inConstraints := true;
    } else if IsFollowUp(line) {
      if currentText != "" {
        result := result + [DescLine(currentText)];
        currentText := "";
      }
      if inExample {
        currentExample := currentExample + [ExampleClose];
        result := result + [Join(currentExample, "\n")];
        currentExample := [];
        inExample := false;
      }
      inConstraints := false;
      followUpParts := followUpParts + [Unescape(line)];
    } else {
      if inExample {
        currentExample := currentExample + [ExampleLine(line)];
      } else if !inConstraints && !HasPrefix(line, ".") {
        if currentText == "" {
          currentText := line;
        } else {
          currentText := currentText + " " + line;
        }
      }
    }
  }
}
