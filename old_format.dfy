/**
 * FormatDescription of the older parser package: every non-blank line of the
 * description becomes one HTML element, example sections are wrapped in
 * divs, and a style sheet is put in front.
 */
module OldFormat {
  import opened GoStrings

  /** The page title's lead-in, dropped from every line. */
  const Preamble: string := "Can you solve this real interview question? "

  const ExampleOpen: string := "<div class='example'>"
  const ExampleNext: string := "</div><div class='example'>"
  const ExampleClose: string := "</div>"
  const ConstraintsOpen: string := "<h3 " + ConstraintsStyle

  const ConstraintsStyle: string := "style='font-size: 16px; color: #ff9800;'>"

  /** The style sheet put in front of the elements. */
  const Css: string := BodyRule + ExampleRule + ExampleHeadingRule + ExamplePreRule + ListItemRule + ParagraphRule + StyleEnd

  const BodyRule: string := @"
<style>
body {
    font-size: 14px;
    line-height: 1.5;
}
"

  const ExampleRule: string := @".example {
    background-color: #3d3d3d;
    border-left: 3px solid #ff9800;
    padding: 10px;
    margin: 10px 0;
}
"

  const ExampleHeadingRule: string := @".example h3 {
    margin: 0 0 10px 0;
    color: #ff9800;
    font-size: 16px;
}
"

  const ExamplePreRule: string := @".example pre {
    margin: 5px 0;
    font-family: monospace;
    background-color: #333;
    padding: 5px;
    color: #e0e0e0;
    font-size: 14px;
}
"

  const ListItemRule: string := @"li {
    margin: 5px 0;
    list-style-type: none;
    color: #e0e0e0;
    font-size: 14px;
}
"

  const ParagraphRule: string := @"p {
    font-size: 14px;
    margin: 8px 0;
}
"

  const StyleEnd: string := @"</style>
"

  /** A non-blank line as the loop handles it: trimmed, without the preamble, and only the part after the first " - " when there is one. */
  function Normalized(raw: string): string {
    AfterDash(ReplaceAll(TrimSpace(raw), Preamble, ""))
  }

  /** The part after the first " - ", trimmed, or the whole line when there is none. */
  function AfterDash(line: string): string {
    var parts := SplitOn(line, " - ");
    if |parts| > 1 then TrimSpace(parts[1]) else line
  }

  /** The branches of the loop, in the order it tries them. */
  datatype Kind = ExampleHead | IoLine | Explanation | ConstraintsHead | Bullet | Bound | Paragraph

  function KindOf(line: string): Kind {
    if "Example" <= line then ExampleHead
    else if "Input:" <= line || "Output:" <= line then IoLine
    else if "Explanation:" <= line then Explanation
    else if "Constraints:" <= line then ConstraintsHead
    else if " * " <= line then Bullet
    else if Contains(line, "<=") then Bound
    else Paragraph
  }

  /** The element a line becomes: an h3, pre, p or li element. */
  function Element(line: string): (e: string)
    ensures |e| >= 2 && e[0] == '<' && e[1] in {'h', 'p', 'l'}
  {
    match KindOf(line)
    case ExampleHead => Tagged("<h3>", line, "</h3>")
    case IoLine => Tagged("<pre>", line, "</pre>")
    case Explanation => Tagged("<p><strong>", line, "</strong></p>")
    case ConstraintsHead => Tagged(ConstraintsOpen, line, "</h3>")
    case Bullet => Tagged("<li>", line[3..], "</li>")
    case Bound => Tagged("<li>", line, "</li>")
    case Paragraph => Tagged("<p>", line, "</p>")
  }

  /** A text between an opening and a closing tag; the element starts as its opening tag does. */
  function Tagged(open: string, text: string, close: string): (e: string)
    requires |open| >= 2
    ensures |e| >= 2 && e[..2] == open[..2]
  {
    open + text + close
  }

  /** The loop's state: the elements so far and whether an example div is open. */
  datatype Fmt = Fmt(formatted: seq<string>, inExample: bool)

  /** One normalized line: an example heading opens (or moves on to) an example div, a constraints heading closes it. */
  function Emit(st: Fmt, line: string): Fmt {
    match KindOf(line)
    case ExampleHead =>
      Fmt(st.formatted + [if st.inExample then ExampleNext else ExampleOpen] + [Element(line)], true)
    case ConstraintsHead =>
      Fmt(st.formatted + (if st.inExample then [ExampleClose] else []) + [Element(line)], false)
    case _ => Fmt(st.formatted + [Element(line)], st.inExample)
  }

  function Step(st: Fmt, raw: string): Fmt {
    if IsBlank(raw) then st else Emit(st, Normalized(raw))
  }

  function Scan(st: Fmt, lines: seq<string>): Fmt {
    if lines == [] then st else Step(Scan(st, lines[..|lines| - 1]), lines[|lines| - 1])
  }

  /** The elements after the loop, with an open example div closed. */
  function Closed(st: Fmt): seq<string> {
    st.formatted + (if st.inExample then [ExampleClose] else [])
  }

  const Start: Fmt := Fmt([], false)

  /** The formatted description. */
  function Formatted(description: string): string {
    Css + Join(Closed(Scan(Start, Split(description, '\n'))), "\n")
  }

  // Example divs are balanced.

  /** A div marker: opening, moving on to the next example, or closing. */
  predicate IsMarker(x: string) {
    x == ExampleOpen || x == ExampleNext || x == ExampleClose
  }

  /** Whether an example div is open after x, or None when x does not fit. */
  function Move(open: bool, x: string): Option<bool> {
    if x == ExampleOpen then (if open then None else Some(true))
    else if x == ExampleNext then (if open then Some(true) else None)
    else if x == ExampleClose then (if open then Some(false) else None)
    else Some(open)
  }

  /** Reading the elements from the start: whether an example div is open at the end, or None when a marker does not fit. */
  function Walk(xs: seq<string>): Option<bool> {
    if xs == [] then Some(false)
    else
      match Walk(xs[..|xs| - 1])
      case None => None
      case Some(open) => Move(open, xs[|xs| - 1])
  }

  lemma {:induction false} WalkAppend(xs: seq<string>, x: string)
    ensures Walk(xs + [x]) == if Walk(xs).None? then None else Move(Walk(xs).value, x)
  {
    assert (xs + [x])[..|xs|] == xs;
  }

  /** No element is a div marker: elements start with "<h", "<p" or "<l". */
  lemma {:induction false} ElementNotMarker(line: string)
    ensures !IsMarker(Element(line))
  {
    MarkerSecond(Element(line));
  }

  /** Every div marker has 'd' or '/' as its second character. */
  lemma {:induction false} MarkerSecond(x: string)
    ensures IsMarker(x) ==> |x| >= 2 && x[1] in {'d', '/'}
  {
  }

  /** Each line keeps the record of the open div right and fits the markers. */
  lemma {:induction false} StepWalk(st: Fmt, raw: string)
    requires Walk(st.formatted) == Some(st.inExample)
    ensures Walk(Step(st, raw).formatted) == Some(Step(st, raw).inExample)
  {
    if !IsBlank(raw) {
      EmitWalk(st, Normalized(raw));
    }
  }

  lemma {:induction false} EmitWalk(st: Fmt, line: string)
    requires Walk(st.formatted) == Some(st.inExample)
    ensures Walk(Emit(st, line).formatted) == Some(Emit(st, line).inExample)
  {
    var e := Element(line);
    ElementNotMarker(line);
    match KindOf(line)
    case ExampleHead =>
      var m := if st.inExample then ExampleNext else ExampleOpen;
      WalkAppend(st.formatted, m);
      WalkAppend(st.formatted + [m], e);
    case ConstraintsHead =>
      if st.inExample {
        WalkAppend(st.formatted, ExampleClose);
        WalkAppend(st.formatted + [ExampleClose], e);
      } else {
        assert st.formatted + [] == st.formatted;
        WalkAppend(st.formatted, e);
      }
    case _ =>
      WalkAppend(st.formatted, e);
  }

  lemma {:induction false} ScanWalk(st: Fmt, lines: seq<string>)
    requires Walk(st.formatted) == Some(st.inExample)
    ensures Walk(Scan(st, lines).formatted) == Some(Scan(st, lines).inExample)
  {
    if lines != [] {
      ScanWalk(st, lines[..|lines| - 1]);
      StepWalk(Scan(st, lines[..|lines| - 1]), lines[|lines| - 1]);
    }
  }

  /**
   * The example divs nest properly: every marker fits (no second opening
   * while one is open, no moving on or closing while none is), and none is
   * left open.
   */
  lemma {:induction false} ExampleDivsBalanced(lines: seq<string>)
    ensures Walk(Closed(Scan(Start, lines))) == Some(false)
  {
    var st := Scan(Start, lines);
    ScanWalk(Start, lines);
    if st.inExample {
      WalkAppend(st.formatted, ExampleClose);
    } else {
      assert Closed(st) == st.formatted;
    }
  }

  // One element per non-blank line.

  /** The elements of xs that are not div markers. */
  function Contents(xs: seq<string>): seq<string> {
    if xs == [] then []
    else Contents(xs[..|xs| - 1]) + (if IsMarker(xs[|xs| - 1]) then [] else [xs[|xs| - 1]])
  }

  /** The element of each non-blank line, in order. */
  function Elements(lines: seq<string>): seq<string> {
    if lines == [] then []
    else
      Elements(lines[..|lines| - 1])
      + (if IsBlank(lines[|lines| - 1]) then [] else [Element(Normalized(lines[|lines| - 1]))])
  }

  lemma {:induction false} ContentsAppend(xs: seq<string>, ys: seq<string>)
    ensures Contents(xs + ys) == Contents(xs) + Contents(ys)
    decreases |ys|
  {
    if ys == [] {
      assert xs + ys == xs;
    } else {
      var y := ys[|ys| - 1];
      ContentsAppend(xs, ys[..|ys| - 1]);
      assert (xs + ys)[..|xs + ys| - 1] == xs + ys[..|ys| - 1];
    }
  }

  lemma {:induction false} MarkerContents(m: string)
    requires IsMarker(m)
    ensures Contents([m]) == []
  {
    assert [m][..0] == [];
  }

  lemma {:induction false} ElementContents(line: string)
    ensures Contents([Element(line)]) == [Element(line)]
  {
    ElementNotMarker(line);
    assert [Element(line)][..0] == [];
  }

  lemma {:induction false} StepContents(st: Fmt, raw: string)
    ensures Contents(Step(st, raw).formatted)
      == Contents(st.formatted) + (if IsBlank(raw) then [] else [Element(Normalized(raw))])
  {
    if !IsBlank(raw) {
      EmitContents(st, Normalized(raw));
    } else {
      assert Contents(st.formatted) + [] == Contents(st.formatted);
    }
  }

  lemma {:induction false} EmitContents(st: Fmt, line: string)
    ensures Contents(Emit(st, line).formatted) == Contents(st.formatted) + [Element(line)]
  {
    var e := Element(line);
    ElementContents(line);
    match KindOf(line)
    case ExampleHead =>
      var m := if st.inExample then ExampleNext else ExampleOpen;
      MarkerContents(m);
      ContentsAppend(st.formatted, [m]);
      ContentsAppend(st.formatted + [m], [e]);
    case ConstraintsHead =>
      var ms := if st.inExample then [ExampleClose] else [];
      if st.inExample {
        MarkerContents(ExampleClose);
      }
      ContentsAppend(st.formatted, ms);
      ContentsAppend(st.formatted + ms, [e]);
    case _ =>
      ContentsAppend(st.formatted, [e]);
  }

  lemma {:induction false} ScanContents(st: Fmt, lines: seq<string>)
    ensures Contents(Scan(st, lines).formatted) == Contents(st.formatted) + Elements(lines)
  {
    if lines != [] {
      ScanContents(st, lines[..|lines| - 1]);
      StepContents(Scan(st, lines[..|lines| - 1]), lines[|lines| - 1]);
    }
  }

  /** Apart from the div markers, the output holds exactly one element per non-blank line, in the lines' order. */
  lemma {:induction false} OneElementPerLine(lines: seq<string>)
    ensures Contents(Closed(Scan(Start, lines))) == Elements(lines)
  {
    ScanContents(Start, lines);
    ClosedContents(Scan(Start, lines));
  }

  /** Closing an open example div adds no element. */
  lemma {:induction false} ClosedContents(st: Fmt)
    ensures Contents(Closed(st)) == Contents(st.formatted)
  {
    if st.inExample {
      MarkerContents(ExampleClose);
      ContentsAppend(st.formatted, [ExampleClose]);
    } else {
      assert Closed(st) == st.formatted;
    }
  }

  /**
   * The bullet branch needs a line that starts with " * ", which a trimmed
   * line never does: it fires only when dropping the preamble uncovered the
   * space.
   */
  lemma {:induction false} BulletOnlyAfterPreamble(raw: string)
    requires KindOf(Normalized(raw)) == Bullet
    ensures Contains(TrimSpace(raw), Preamble)
  {
    BulletLeads(Normalized(raw));
    NormalizedStart(raw);
  }

  lemma {:induction false} BulletLeads(line: string)
    requires KindOf(line) == Bullet
    ensures LeadingSpace(line)
  {
    assert line[0] == ' ';
  }

  predicate LeadingSpace(s: string) {
    s != "" && IsSpace(s[0])
  }

  /** Without the preamble, a normalized line does not start with white space. */
  lemma {:induction false} NormalizedStart(raw: string)
    ensures !Contains(TrimSpace(raw), Preamble) ==> !LeadingSpace(Normalized(raw))
  {
    var t := TrimSpace(raw);
    if !Contains(t, Preamble) {
      assert ReplaceAll(t, Preamble, "") == t;
      AfterDashStart(t);
    }
  }

  lemma {:induction false} AfterDashStart(line: string)
    requires !LeadingSpace(line)
    ensures !LeadingSpace(AfterDash(line))
  {
  }

  /** FormatDescription: the loop over the lines, then the closing div and the style sheet. */
  method FormatDescription(description: string) returns (out: string)
    ensures out == Formatted(description)
  {
    var lines := Split(description, '\n');
    var formatted: seq<string> := [];
    var inExample := false;
    for i := 0 to |lines|
      invariant Fmt(formatted, inExample) == Scan(Start, lines[..i])
    {
      assert lines[..i + 1][..i] == lines[..i];
      formatted, inExample := FormatLine(formatted, inExample, lines[i]);
    }
    assert lines[..|lines|] == lines;
    out := Finish(formatted, inExample);
  }

  /** After the loop: close an open example div and put the style sheet in front. */
  method Finish(formatted0: seq<string>, inExample: bool) returns (out: string)
    ensures out == Css + Join(Closed(Fmt(formatted0, inExample)), "\n")
  {
    var formatted := formatted0;
    if inExample {
      formatted := formatted + [ExampleClose];
    } else {
      assert formatted0 + [] == formatted0;
    }
    out := Css + Join(formatted, "\n");
  }

  /** The loop body for one line. */
  method FormatLine(formatted0: seq<string>, inExample0: bool, raw: string)
    returns (formatted: seq<string>, inExample: bool)
    ensures Fmt(formatted, inExample) == Step(Fmt(formatted0, inExample0), raw)
  {
    formatted, inExample := formatted0, inExample0;
    var line := TrimSpace(raw);
    if line == "" {
      return;
    }
    line := ReplaceAll(line, Preamble, "");
    var parts := SplitOn(line, " - ");
    if |parts| > 1 {
      line := TrimSpace(parts[1]);
    }
    assert IsBlank(raw) <==> TrimSpace(raw) == "";
    formatted, inExample := EmitLine(formatted, inExample, line);
  }

  /** The branches of the loop body for a normalized line. */
  method EmitLine(formatted0: seq<string>, inExample0: bool, line: string)
    returns (formatted: seq<string>, inExample: bool)
    ensures Fmt(formatted, inExample) == Emit(Fmt(formatted0, inExample0), line)
  {
    formatted, inExample := formatted0, inExample0;
    if "Example" <= line {
      if !inExample {
        formatted := formatted + [ExampleOpen];
        inExample := true;
      } else {
        formatted := formatted + [ExampleNext];
      }
      formatted := formatted + ["<h3>" + line + "</h3>"];
    } else if "Input:" <= line || "Output:" <= line {
      formatted := formatted + ["<pre>" + line + "</pre>"];
    } else if "Explanation:" <= line {
      formatted := formatted + ["<p><strong>" + line + "</strong></p>"];
    } else if "Constraints:" <= line {
      if inExample {
        formatted := formatted + [ExampleClose];
        inExample := false;
      }
      formatted := formatted + [ConstraintsOpen + line + "</h3>"];
    } else if " * " <= line {
      formatted := formatted + ["<li>" + line[3..] + "</li>"];
    } else if Contains(line, "<=") {
      formatted := formatted + ["<li>" + line + "</li>"];
    } else {
      formatted := formatted + ["<p>" + line + "</p>"];
    }
  }
}
