/**
 * cleanCode of the newer package (pkg/leetcode_to_anki/leetcode_parser.go):
 * arrows and non-breaking spaces are normalised, runs of blank lines collapse
 * to one empty line, comment lines go, trailing empty lines are dropped and the
 * text ends in a single newline.
 */
module CleanCode {
  import opened GoStrings

  /** The replacements ahead of the line pass: "→" becomes "->", U+00A0 becomes a space. */
  function Normalised(code: string): string {
    ReplaceChar(ReplaceAll(code, "\U{2192}", "->"), '\U{00A0}', ' ')
  }

  /** A line whose trimmed text starts with '#'. */
  predicate IsComment(line: string) {
    var t := TrimSpace(line);
    t != "" && t[0] == '#'
  }

  /** One turn of the line loop on the kept lines and the last-line-was-empty flag. */
  function Step(st: (seq<string>, bool), line: string): (seq<string>, bool) {
    var (kept, lastEmpty) := st;
    if TrimSpace(line) == "" then
      if !lastEmpty then (kept + [""], true) else st
    else if !IsComment(line) then (kept + [line], false)
    else st
  }

  /** The line loop over a whole list. */
  function Collapse(lines: seq<string>): (seq<string>, bool) {
    if lines == [] then ([], false) else Step(Collapse(lines[..|lines| - 1]), lines[|lines| - 1])
  }

  /** The lines the loop keeps: non-blank, non-comment lines, and "" for a blank line. */
  predicate WellFormed(kept: seq<string>) {
    && (forall i :: 0 <= i < |kept| ==> kept[i] == "" || (!IsBlank(kept[i]) && !IsComment(kept[i])))
    && (forall i :: 0 <= i < |kept| - 1 ==> kept[i] != "" || kept[i + 1] != "")
  }

  /** The code lines of a list: the non-blank lines that are not comments, in order. */
  function CodeOnly(lines: seq<string>): (r: seq<string>) {
    if lines == [] then []
    else
      var line := lines[|lines| - 1];
      CodeOnly(lines[..|lines| - 1]) + if !IsBlank(line) && !IsComment(line) then [line] else []
  }

  /** The empty lines of a list taken out. */
  function NonEmpty(lines: seq<string>): seq<string> {
    if lines == [] then []
    else NonEmpty(lines[..|lines| - 1]) + if lines[|lines| - 1] == "" then [] else [lines[|lines| - 1]]
  }

  /** What the loop keeps between turns. */
  predicate LoopInvariant(lines: seq<string>, st: (seq<string>, bool)) {
    && WellFormed(st.0)
    && (st.1 <==> st.0 != [] && st.0[|st.0| - 1] == "")
    && NonEmpty(st.0) == CodeOnly(lines)
  }

  lemma {:induction false} StepKeeps(lines: seq<string>, st: (seq<string>, bool), line: string)
    requires LoopInvariant(lines, st)
    ensures LoopInvariant(lines + [line], Step(st, line))
  {
    var kept := st.0;
    CodeOnlyAppend(lines, line);
    if TrimSpace(line) == "" {
      if !st.1 {
        WellFormedAppend(kept, "");
        NonEmptyAppend(kept, "");
      }
    } else if !IsComment(line) {
      WellFormedAppend(kept, line);
      NonEmptyAppend(kept, line);
    }
  }

  lemma {:induction false} CodeOnlyAppend(lines: seq<string>, line: string)
    ensures CodeOnly(lines + [line]) == CodeOnly(lines) + if !IsBlank(line) && !IsComment(line) then [line] else []
  {
    assert (lines + [line])[..|lines|] == lines;
  }

  lemma {:induction false} NonEmptyAppend(lines: seq<string>, line: string)
    ensures NonEmpty(lines + [line]) == NonEmpty(lines) + if line == "" then [] else [line]
  {
    assert (lines + [line])[..|lines|] == lines;
  }

  lemma {:induction false} WellFormedAppend(kept: seq<string>, line: string)
    requires WellFormed(kept)
    requires line == "" || (!IsBlank(line) && !IsComment(line))
    requires line != "" || kept == [] || kept[|kept| - 1] != ""
    ensures WellFormed(kept + [line])
  {
    var r := kept + [line];
    forall i | 0 <= i < |r| - 1
      ensures r[i] != "" || r[i + 1] != ""
    {
      if i < |kept| - 1 {
        assert r[i] == kept[i] && r[i + 1] == kept[i + 1];
      }
    }
  }

  /**
   * The loop keeps well-formed lines, remembers exactly whether the last kept
   * line is the empty one, and keeps every code line and nothing else besides
   * the empty lines.
   */
  lemma {:induction false} CollapseInvariant(lines: seq<string>)
    ensures LoopInvariant(lines, Collapse(lines))
  {
    if lines != [] {
      var prefix, last := lines[..|lines| - 1], lines[|lines| - 1];
      assert prefix + [last] == lines;
      assert Collapse(lines) == Step(Collapse(prefix), last);
      CollapseInvariant(prefix);
      StepKeeps(prefix, Collapse(prefix), last);
    }
  }

  /**
   * Whether a blank line has come since the last code line (or since the
   * start, when there is none yet); comment lines leave this as it is.
   */
  function PendingBlank(lines: seq<string>): bool {
    if lines == [] then false
    else
      var line := lines[|lines| - 1];
      if TrimSpace(line) == "" then true
      else if IsComment(line) then PendingBlank(lines[..|lines| - 1])
      else false
  }

  /**
   * The reference grouping of a list: its code lines in order, each preceded
   * by one "" exactly when a blank line came since the previous code line
   * (or since the start).
   */
  function Grouped(lines: seq<string>): seq<string> {
    if lines == [] then []
    else
      var prefix, line := lines[..|lines| - 1], lines[|lines| - 1];
      if TrimSpace(line) == "" || IsComment(line) then Grouped(prefix)
      else Grouped(prefix) + (if PendingBlank(prefix) then ["", line] else [line])
  }

  /** The line loop's state is the grouping so far, plus one "" while a blank line is pending. */
  lemma {:induction false} CollapseGrouped(lines: seq<string>)
    ensures Collapse(lines) == (Grouped(lines) + (if PendingBlank(lines) then [""] else []), PendingBlank(lines))
  {
    if lines != [] {
      var prefix, last := lines[..|lines| - 1], lines[|lines| - 1];
      CollapseGrouped(prefix);
      assert Collapse(lines) == Step(Collapse(prefix), last);
      StepGrouped(Grouped(prefix), PendingBlank(prefix), last);
      if TrimSpace(last) == "" {
        assert Grouped(lines) == Grouped(prefix) && PendingBlank(lines);
      } else if IsComment(last) {
        assert Grouped(lines) == Grouped(prefix) && PendingBlank(lines) == PendingBlank(prefix);
      } else {
        var g := Grouped(prefix) + (if PendingBlank(prefix) then ["", last] else [last]);
        assert Grouped(lines) == g && !PendingBlank(lines);
        assert g + [] == g;
      }
    } else {
      assert Grouped(lines) == [] && !PendingBlank(lines);
      assert Grouped(lines) + [] == [];
    }
  }

  /** One turn of the line loop on a grouping with a possibly pending "". */
  lemma {:induction false} StepGrouped(g: seq<string>, pending: bool, line: string)
    ensures Step((g + (if pending then [""] else []), pending), line)
      == if TrimSpace(line) == "" then (g + [""], true)
         else if IsComment(line) then (g + (if pending then [""] else []), pending)
         else (g + (if pending then ["", line] else [line]), false)
  {
    if pending {
      assert g + [""] + [line] == g + ["", line];
    } else {
      assert g + [] == g;
    }
  }

  /** The grouping is empty or ends in a code line. */
  lemma {:induction false} GroupedEnds(lines: seq<string>)
    ensures Grouped(lines) == [] || Grouped(lines)[|Grouped(lines)| - 1] != ""
  {
    if lines != [] {
      var prefix, last := lines[..|lines| - 1], lines[|lines| - 1];
      if TrimSpace(last) == "" || IsComment(last) {
        GroupedEnds(prefix);
        assert Grouped(lines) == Grouped(prefix);
      } else {
        assert |TrimSpace(last)| <= |last|;
        EndsWith(Grouped(prefix), PendingBlank(prefix), last);
      }
    }
  }

  lemma {:induction false} EndsWith(g: seq<string>, pending: bool, line: string)
    ensures var r := g + (if pending then ["", line] else [line]); r != [] && r[|r| - 1] == line
  {
  }

  /**
   * The lines cleanCode writes are exactly the reference grouping: a run of
   * blank lines between (or before) code lines leaves one "", comments
   * vanish, and nothing follows the last code line.
   */
  lemma {:induction false} FinalLinesGrouped(lines: seq<string>)
    ensures FinalLines(lines) == Grouped(lines)
  {
    CollapseGrouped(lines);
    GroupedEnds(lines);
    var g := Grouped(lines);
    if PendingBlank(lines) {
      assert (g + [""])[..|g|] == g;
      assert DropTrailingEmpty(g + [""]) == DropTrailingEmpty(g);
    }
  }

  /** cleanCode's output is the reference grouping of its lines, joined, with one final newline. */
  lemma {:induction false} CleanedGrouped(code: string)
    ensures Cleaned(code) == Finish(Grouped(Split(Normalised(code), '\n')))
  {
    FinalLinesGrouped(Split(Normalised(code), '\n'));
  }

  /** The pop loop: trailing empty lines removed. */
  function DropTrailingEmpty(lines: seq<string>): (r: seq<string>)
    ensures r <= lines
    ensures r == [] || r[|r| - 1] != ""
    ensures forall i :: |r| <= i < |lines| ==> lines[i] == ""
  {
    if lines != [] && lines[|lines| - 1] == "" then DropTrailingEmpty(lines[..|lines| - 1]) else lines
  }

  /** The kept lines once trailing empty lines are popped. */
  function FinalLines(lines: seq<string>): seq<string> {
    DropTrailingEmpty(Collapse(lines).0)
  }

  /** The kept lines joined, with a newline added when the join lacks one. */
  function Finish(out: seq<string>): string {
    var joined := Join(out, "\n");
    if HasSuffix(joined, "\n") then joined else joined + "\n"
  }

  /** What cleanCode returns. */
  function Cleaned(code: string): string {
    Finish(FinalLines(Split(Normalised(code), '\n')))
  }

  /** A prefix of a well-formed list is well-formed, and dropping empty lines off the end keeps the code lines. */
  lemma {:induction false} DropTrailingKeeps(lines: seq<string>)
    requires WellFormed(lines)
    ensures WellFormed(DropTrailingEmpty(lines))
    ensures NonEmpty(DropTrailingEmpty(lines)) == NonEmpty(lines)
  {
    if lines != [] && lines[|lines| - 1] == "" {
      var prefix := lines[..|lines| - 1];
      assert WellFormed(prefix);
      DropTrailingKeeps(prefix);
    }
  }

  /**
   * cleanCode's output: "\n" when no code line survives; otherwise its lines
   * are the kept lines followed by one final newline, the last kept line is
   * not empty, no two empty lines are adjacent, every other line is a
   * non-blank, non-comment line, and those are exactly the code lines of the
   * input in order. CleanedGrouped states the lines exactly.
   */
  lemma {:induction false} CleanedShape(code: string)
    ensures var out := FinalLines(Split(Normalised(code), '\n'));
      && (out == [] ==> Cleaned(code) == "\n")
      && (out != [] ==> Cleaned(code) == Join(out, "\n") + "\n" && out[|out| - 1] != "")
      && WellFormed(out)
      && NonEmpty(out) == CodeOnly(Split(Normalised(code), '\n'))
      && Split(Cleaned(code), '\n') == if out == [] then ["", ""] else out + [""]
  {
    var lines := Split(Normalised(code), '\n');
    FinalLinesShape(lines);
    assert Cleaned(code) == Finish(FinalLines(lines));
  }

  lemma {:induction false} FinalLinesShape(lines: seq<string>)
    requires forall i :: 0 <= i < |lines| ==> '\n' !in lines[i]
    ensures var out := FinalLines(lines);
      && (out == [] ==> Finish(out) == "\n")
      && (out != [] ==> Finish(out) == Join(out, "\n") + "\n" && out[|out| - 1] != "")
      && WellFormed(out)
      && NonEmpty(out) == CodeOnly(lines)
      && out == Grouped(lines)
      && Split(Finish(out), '\n') == if out == [] then ["", ""] else out + [""]
  {
    FinalLinesFacts(lines);
    FinalLinesGrouped(lines);
  }

  /** FinalLinesShape without the exact grouping. */
  lemma {:induction false} FinalLinesFacts(lines: seq<string>)
    requires forall i :: 0 <= i < |lines| ==> '\n' !in lines[i]
    ensures var out := FinalLines(lines);
      && (out == [] ==> Finish(out) == "\n")
      && (out != [] ==> Finish(out) == Join(out, "\n") + "\n" && out[|out| - 1] != "")
      && WellFormed(out)
      && NonEmpty(out) == CodeOnly(lines)
      && Split(Finish(out), '\n') == if out == [] then ["", ""] else out + [""]
  {
    CollapseInvariant(lines);
    var kept := Collapse(lines).0;
    DropTrailingKeeps(kept);
    var out := FinalLines(lines);
    CleanedLinesJoin(lines, kept, out);
    if out == [] {
      assert Finish(out) == "\n";
    } else {
      assert Finish(out) == Join(out, "\n") + "\n";
    }
  }

  lemma {:induction false} CleanedLinesJoin(lines: seq<string>, kept: seq<string>, out: seq<string>)
    requires forall i :: 0 <= i < |lines| ==> '\n' !in lines[i]
    requires WellFormed(kept) && NonEmpty(kept) == CodeOnly(lines)
    requires out <= kept && (out == [] || out[|out| - 1] != "")
    ensures out != [] ==> !HasSuffix(Join(out, "\n"), "\n")
    ensures Split(if out == [] then "\n" else Join(out, "\n") + "\n", '\n') == if out == [] then ["", ""] else out + [""]
  {
    assert Split("\n", '\n') == ["", ""] by {
      assert Split("", '\n') == [""];
      assert "\n"[1..] == "";
    }
    if out != [] {
      forall i | 0 <= i < |out|
        ensures '\n' !in out[i]
      {
        CollapsedFromLines(lines, kept, i);
      }
      JoinEnds(out, "\n");
      var last := out[|out| - 1];
      assert last != "" && '\n' !in last;
      SplitTrailing(Join(out, "\n"), '\n');
      SplitJoin(out, '\n');
    }
  }

  /** Every line the loop keeps is empty or one of the input lines. */
  lemma {:induction false} CollapsedFromLines(lines: seq<string>, kept: seq<string>, i: nat)
    requires forall j :: 0 <= j < |lines| ==> '\n' !in lines[j]
    requires NonEmpty(kept) == CodeOnly(lines)
    requires i < |kept|
    ensures '\n' !in kept[i]
  {
    if kept[i] != "" {
      NonEmptyHas(kept, i);
      CodeOnlyFrom(lines);
    }
  }

  lemma {:induction false} NonEmptyHas(lines: seq<string>, i: nat)
    requires i < |lines| && lines[i] != ""
    ensures lines[i] in NonEmpty(lines)
  {
    if i < |lines| - 1 {
      NonEmptyHas(lines[..|lines| - 1], i);
    }
  }

  lemma {:induction false} CodeOnlyFrom(lines: seq<string>)
    ensures forall x :: x in CodeOnly(lines) ==> x in lines
  {
    if lines != [] {
      CodeOnlyFrom(lines[..|lines| - 1]);
    }
  }

  lemma {:induction false} CollapseStep(lines: seq<string>, i: nat)
    requires i < |lines|
    ensures Collapse(lines[..i + 1]) == Step(Collapse(lines[..i]), lines[i])
  {
    assert lines[..i + 1][..i] == lines[..i];
  }

  /** The body of the line loop: a blank line adds one "" after a non-empty line, a code line is kept, a comment is skipped. */
  method TakeLine(kept: seq<string>, lastEmpty: bool, line: string) returns (kept': seq<string>, lastEmpty': bool)
    ensures (kept', lastEmpty') == Step((kept, lastEmpty), line)
  {
    kept', lastEmpty' := kept, lastEmpty;
    var trimmed := TrimSpace(line);
    if trimmed == "" {
      if !lastEmpty {
        kept' := kept + [""];
        lastEmpty' := true;
      }
    } else if !HasPrefix(trimmed, "#") {
      kept' := kept + [line];
      lastEmpty' := false;
    }
  }

  /** The line loop of cleanCode. */
  method CollapseLines(lines: seq<string>) returns (cleanedLines: seq<string>)
    ensures cleanedLines == Collapse(lines).0
  {
    cleanedLines := [];
    var lastLineWasEmpty := false;
    var i := 0;
    assert lines[..0] == [];
    while i < |lines|
      invariant i <= |lines|
      invariant (cleanedLines, lastLineWasEmpty) == Collapse(lines[..i])
    {
      cleanedLines, lastLineWasEmpty := TakeLine(cleanedLines, lastLineWasEmpty, lines[i]);
      CollapseStep(lines, i);
      i := i + 1;
    }
    assert lines[..|lines|] == lines;
  }

  /** The pop loop of cleanCode. */
  method PopTrailingEmpty(lines: seq<string>) returns (cleanedLines: seq<string>)
    ensures cleanedLines == DropTrailingEmpty(lines)
  {
    cleanedLines := lines;
    while |cleanedLines| > 0 && cleanedLines[|cleanedLines| - 1] == ""
      invariant DropTrailingEmpty(cleanedLines) == DropTrailingEmpty(lines)
      decreases |cleanedLines|
    {
      cleanedLines := cleanedLines[..|cleanedLines| - 1];
    }
  }

  /** cleanCode. */
  method CleanCode(code: string) returns (r: string)
    ensures r == Cleaned(code)
    ensures HasSuffix(r, "\n")
  {
    var text := ReplaceAll(code, "\U{2192}", "->");
    text := ReplaceChar(text, '\U{00A0}', ' ');
    var lines := Split(text, '\n');
    var cleanedLines := CollapseLines(lines);
    cleanedLines := PopTrailingEmpty(cleanedLines);
    r := Join(cleanedLines, "\n");
    if !HasSuffix(r, "\n") {
      r := r + "\n";
    }
  }
}
