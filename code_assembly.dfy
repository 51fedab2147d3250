/**
 * Code recovery of the newer package (ExtractCodeFromHTML in
 * pkg/leetcode_to_anki/leetcode_parser.go): Monaco view-line rows are
 * filtered, sorted by their vertical position, laid out with a blank line
 * where the editor shows a gap, decoded once more and normalised line by line.
 * The HTML parser and the `top:Npx` regular expression are not modelled: a
 * row arrives as its parsed top value and its inner HTML with the span tags
 * already removed.
 */
module CodeAssembly {
  import opened GoStrings
  import opened Html

  /** One `div.view-line` row: the number in its `top:Npx` style, if any, and its span-free inner HTML. */
  datatype ViewLine = ViewLine(topPx: Option<nat>, html: string)

  /** A recovered line and the vertical position it was drawn at. */
  datatype CodeLine = CodeLine(text: string, top: nat)

  /** A row without a usable `top:Npx` sits at 0. */
  function TopOf(row: ViewLine): nat {
    match row.topPx
    case Some(n) => n
    case None => 0
  }

  /** The row text after right-trimming, non-breaking spaces to spaces and entity decoding. */
  function Decoded(html: string): string {
    Unescape(ReplaceChar(TrimRightSet(html, {' ', '\t', '\r', '\n'}), '\U{00A0}', ' '))
  }

  /** A row is kept when its trimmed text is non-empty and is not a comment. */
  predicate Keeps(text: string) {
    TrimSpace(text) != "" && TrimSpace(text)[0] != '#'
  }

  /** The line one row contributes, if any. */
  function RowLine(row: ViewLine): Option<CodeLine> {
    var text := Decoded(row.html);
    if Keeps(text) then Some(CodeLine(Reindent(text), TopOf(row))) else None
  }

  /**
   * A row is kept exactly when its decoded text is non-blank and does not
   * start with '#'; the kept line has the row's indentation and trimmed text,
   * and sits at 0 when the row has no `top:Npx`.
   */
  lemma {:induction false} RowLineShape(row: ViewLine)
    ensures RowLine(row).Some? <==> TrimSpace(Decoded(row.html)) != "" && TrimSpace(Decoded(row.html))[0] != '#'
    ensures RowLine(row).Some? ==> !IsBlank(RowLine(row).value.text)
    ensures RowLine(row).Some? ==> LeadingSpaces(RowLine(row).value.text) == LeadingSpaces(Decoded(row.html))
    ensures RowLine(row).Some? ==> TrimSpace(RowLine(row).value.text) == TrimSpace(Decoded(row.html))
    ensures RowLine(row).Some? && row.topPx.None? ==> RowLine(row).value.top == 0
  {
    ReindentShape(Decoded(row.html));
  }

  /** What one row adds to the kept list. */
  function Kept(row: ViewLine): seq<CodeLine> {
    match RowLine(row)
    case Some(l) => [l]
    case None => []
  }

  /** The rows that survive, in page order. */
  function KeptRows(rows: seq<ViewLine>): (r: seq<CodeLine>)
    ensures |r| <= |rows|
  {
    if rows == [] then [] else KeptRows(rows[..|rows| - 1]) + Kept(rows[|rows| - 1])
  }

  /** Every kept line is non-blank, and each comes from one row: there are never more lines than rows. */
  lemma {:induction false} KeptRowsNonBlank(rows: seq<ViewLine>)
    ensures |KeptRows(rows)| <= |rows|
    ensures forall k :: 0 <= k < |KeptRows(rows)| ==> !IsBlank(KeptRows(rows)[k].text)
  {
    if rows != [] {
      var init := rows[..|rows| - 1];
      KeptRowsNonBlank(init);
      KeptNonBlank(rows[|rows| - 1]);
      var a: seq<CodeLine>, b: seq<CodeLine> := KeptRows(init), Kept(rows[|rows| - 1]);
      assert KeptRows(rows) == a + b;
      forall k | 0 <= k < |a + b|
        ensures !IsBlank((a + b)[k].text)
      {
        if k < |a| {
          assert (a + b)[k] == a[k];
        } else {
          assert (a + b)[k] == b[k - |a|];
        }
      }
    }
  }

  lemma {:induction false} KeptNonBlank(row: ViewLine)
    ensures |Kept(row)| <= 1
    ensures forall k :: 0 <= k < |Kept(row)| ==> !IsBlank(Kept(row)[k].text)
  {
    RowLineShape(row);
  }

  /** The fallback: every non-blank presentation div, decoded, placed 20 pixels per div. */
  function FallbackLines(texts: seq<string>): (r: seq<CodeLine>)
    ensures |r| <= |texts|
    ensures forall k :: 0 <= k < |r| ==> !IsBlank(r[k].text)
    ensures forall k :: 0 <= k < |r| ==> r[k].top < 20 * |texts|
    ensures forall j, k :: 0 <= j < k < |r| ==> r[j].top < r[k].top
  {
    if texts == [] then []
    else
      var n := |texts| - 1;
      var text := Unescape(texts[n]);
      var before := FallbackLines(texts[..n]);
      if TrimSpace(text) == "" then before
      else
        FallbackAppend(before, CodeLine(text, n * 20), n);
        before + [CodeLine(text, n * 20)]
  }

  /** A non-blank line placed below n earlier divs keeps the fallback's guarantees for n + 1 divs. */
  lemma {:induction false} FallbackAppend(before: seq<CodeLine>, line: CodeLine, n: nat)
    requires |before| <= n && !IsBlank(line.text) && line.top == n * 20
    requires forall k :: 0 <= k < |before| ==> !IsBlank(before[k].text)
    requires forall k :: 0 <= k < |before| ==> before[k].top < 20 * n
    requires forall j, k :: 0 <= j < k < |before| ==> before[j].top < before[k].top
    ensures var r := before + [line];
      && |r| <= n + 1
      && (forall k :: 0 <= k < |r| ==> !IsBlank(r[k].text))
      && (forall k :: 0 <= k < |r| ==> r[k].top < 20 * (n + 1))
      && (forall j, k :: 0 <= j < k < |r| ==> r[j].top < r[k].top)
  {
    var r := before + [line];
    forall j, k | 0 <= j < k < |r|
      ensures r[j].top < r[k].top
    {
      assert r[j] == before[j];
      if k < |before| {
        assert r[k] == before[k];
      }
    }
  }

  /** The line the i-th presentation div contributes when its decoded text is non-blank. */
  predicate DivLine(texts: seq<string>, i: int, l: CodeLine) {
    0 <= i < |texts| && TrimSpace(Unescape(texts[i])) != "" && l == CodeLine(Unescape(texts[i]), 20 * i)
  }

  /**
   * The fallback's lines are exactly the lines of the non-blank presentation
   * divs: each line is the decoded text of one such div, 20 pixels per div
   * above it, and every such div contributes its line.
   */
  lemma {:induction false} FallbackLinesExact(texts: seq<string>)
    ensures forall k :: 0 <= k < |FallbackLines(texts)| ==> DivLine(texts, FallbackLines(texts)[k].top / 20, FallbackLines(texts)[k])
    ensures forall i :: 0 <= i < |texts| && TrimSpace(Unescape(texts[i])) != "" ==>
      CodeLine(Unescape(texts[i]), 20 * i) in FallbackLines(texts)
  {
    if texts != [] {
      var n := |texts| - 1;
      var init, last := texts[..n], texts[n];
      FallbackLinesExact(init);
      assert texts == init + [last];
      FallbackFromStep(init, last, FallbackLines(init), FallbackLines(texts));
      FallbackCoversStep(init, last, FallbackLines(init), FallbackLines(texts));
    }
  }

  lemma DivTwenty(n: nat)
    ensures (n * 20) / 20 == n
  {
  }

  /** One more div keeps every fallback line tied to its div. */
  lemma {:induction false} FallbackFromStep(init: seq<string>, last: string, before: seq<CodeLine>, r: seq<CodeLine>)
    requires forall k :: 0 <= k < |before| ==> DivLine(init, before[k].top / 20, before[k])
    requires r == if TrimSpace(Unescape(last)) == "" then before else before + [CodeLine(Unescape(last), |init| * 20)]
    ensures forall k :: 0 <= k < |r| ==> DivLine(init + [last], r[k].top / 20, r[k])
  {
    var texts := init + [last];
    var n := |init|;
    forall k | 0 <= k < |r|
      ensures DivLine(texts, r[k].top / 20, r[k])
    {
      if k < |before| {
        var i := before[k].top / 20;
        assert r[k] == before[k] && texts[i] == init[i];
      } else {
        assert r[k] == CodeLine(Unescape(last), n * 20) && texts[n] == last;
        DivTwenty(n);
      }
    }
  }

  /** One more div keeps every non-blank div represented. */
  lemma {:induction false} FallbackCoversStep(init: seq<string>, last: string, before: seq<CodeLine>, r: seq<CodeLine>)
    requires forall i :: 0 <= i < |init| && TrimSpace(Unescape(init[i])) != "" ==>
      CodeLine(Unescape(init[i]), 20 * i) in before
    requires r == if TrimSpace(Unescape(last)) == "" then before else before + [CodeLine(Unescape(last), |init| * 20)]
    ensures forall i :: 0 <= i < |init| + 1 && TrimSpace(Unescape((init + [last])[i])) != "" ==>
      CodeLine(Unescape((init + [last])[i]), 20 * i) in r
  {
    var texts := init + [last];
    var n := |init|;
    forall i | 0 <= i < n + 1 && TrimSpace(Unescape(texts[i])) != ""
      ensures CodeLine(Unescape(texts[i]), 20 * i) in r
    {
      if i < n {
        assert texts[i] == init[i];
        InGrown(CodeLine(Unescape(init[i]), 20 * i), before, r);
      } else {
        assert texts[i] == last && 20 * i == n * 20;
        assert r == before + [CodeLine(Unescape(last), n * 20)];
        assert r[|before|] == CodeLine(Unescape(texts[i]), 20 * i);
      }
    }
  }

  /** A line of a list is still there once the list has grown at its end. */
  lemma InGrown(x: CodeLine, before: seq<CodeLine>, r: seq<CodeLine>)
    requires x in before && before <= r
    ensures x in r
  {
    var j :| 0 <= j < |before| && before[j] == x;
    assert r[j] == x;
  }

  predicate SortedByTop(lines: seq<CodeLine>) {
    forall j, k :: 0 <= j < k < |lines| ==> lines[j].top <= lines[k].top
  }

  function InsertByTop(line: CodeLine, sorted: seq<CodeLine>): (r: seq<CodeLine>)
    requires SortedByTop(sorted)
    ensures SortedByTop(r)
    ensures multiset(r) == multiset(sorted) + multiset{line}
  {
    if sorted == [] || line.top <= sorted[0].top then [line] + sorted
    else
      var rest := InsertByTop(line, sorted[1..]);
      InsertBelowHead(line, sorted, rest);
      [sorted[0]] + rest
  }

  /** The head of a sorted list goes back in front of the insertion into its tail. */
  lemma {:induction false} InsertBelowHead(line: CodeLine, sorted: seq<CodeLine>, rest: seq<CodeLine>)
    requires SortedByTop(sorted) && sorted != [] && sorted[0].top <= line.top
    requires SortedByTop(rest) && multiset(rest) == multiset(sorted[1..]) + multiset{line}
    ensures SortedByTop([sorted[0]] + rest)
    ensures multiset([sorted[0]] + rest) == multiset(sorted) + multiset{line}
  {
    LowerBound(sorted[0], line, sorted[1..], rest);
    assert sorted == [sorted[0]] + sorted[1..];
    var r := [sorted[0]] + rest;
    forall j, k | 0 <= j < k < |r|
      ensures r[j].top <= r[k].top
    {
      assert r[k] == rest[k - 1];
      if j > 0 {
        assert r[j] == rest[j - 1];
      }
    }
  }

  /** Whatever the insertion returns is drawn from the tail and the new line, so it stays below the head. */
  lemma {:induction false} LowerBound(first: CodeLine, line: CodeLine, tail: seq<CodeLine>, rest: seq<CodeLine>)
    requires first.top <= line.top
    requires forall k :: 0 <= k < |tail| ==> first.top <= tail[k].top
    requires multiset(rest) == multiset(tail) + multiset{line}
    ensures forall k :: 0 <= k < |rest| ==> first.top <= rest[k].top
  {
    forall k | 0 <= k < |rest|
      ensures first.top <= rest[k].top
    {
      assert rest[k] in multiset(rest);
      if rest[k] != line {
        assert rest[k] in multiset(tail);
        var j :| 0 <= j < |tail| && tail[j] == rest[k];
      }
    }
  }

  /**
   * sort.Slice by top. The library sort is not stable; this model settles
   * equal tops one particular way, and nothing below depends on which.
   */
  function SortByTop(lines: seq<CodeLine>): (r: seq<CodeLine>)
    ensures SortedByTop(r)
    ensures multiset(r) == multiset(lines)
  {
    if lines == [] then []
    else
      assert lines == lines[..|lines| - 1] + [lines[|lines| - 1]];
      InsertByTop(lines[|lines| - 1], SortByTop(lines[..|lines| - 1]))
  }

  /** A blank line goes before line k exactly when a line precedes it and sits more than 20 pixels higher. */
  predicate Gap(lines: seq<CodeLine>, k: nat)
    requires k < |lines|
  {
    k > 0 && lines[k].top - lines[k - 1].top > 20
  }

  /** What the builder writes for line k. */
  function Block(lines: seq<CodeLine>, k: nat): string
    requires k < |lines|
  {
    (if Gap(lines, k) then "\n" else "") + lines[k].text + "\n"
  }

  /** The builder's text after the first n lines. */
  function Layout(lines: seq<CodeLine>, n: nat): string
    requires n <= |lines|
  {
    if n == 0 then "" else Layout(lines, n - 1) + Block(lines, n - 1)
  }

  /** The lines the builder's text consists of: each line, after an empty one where there is a gap. */
  function LayoutRows(lines: seq<CodeLine>, n: nat): (r: seq<string>)
    requires n <= |lines|
    ensures (forall k :: 0 <= k < |lines| ==> '\n' !in lines[k].text) ==> forall i :: 0 <= i < |r| ==> '\n' !in r[i]
  {
    if n == 0 then []
    else LayoutRows(lines, n - 1) + (if Gap(lines, n - 1) then ["", lines[n - 1].text] else [lines[n - 1].text])
  }

  /** The number of gaps before the first n lines. */
  function Gaps(lines: seq<CodeLine>, n: nat): (g: nat)
    requires n <= |lines|
    ensures g <= n
  {
    if n == 0 then 0 else Gaps(lines, n - 1) + (if Gap(lines, n - 1) then 1 else 0)
  }

  /** Where line k lands among the laid-out rows: after k lines and the gaps up to it. */
  function Pos(lines: seq<CodeLine>, k: nat): nat
    requires k < |lines|
  {
    k + Gaps(lines, k + 1)
  }

  /**
   * Line k sits at Pos among the rows, with an empty row right before it
   * exactly when it is a gap.
   */
  predicate Placed(lines: seq<CodeLine>, rows: seq<string>, k: nat)
    requires k < |lines|
  {
    var p := Pos(lines, k);
    p < |rows| && rows[p] == lines[k].text && (Gap(lines, k) <==> p > 0 && rows[p - 1] == "")
  }

  /**
   * Laid out, each line appears once, in order, at Pos; an empty row stands
   * right before it exactly when it is a gap, so never before the first line,
   * and the rows are the lines plus one empty row per gap.
   */
  lemma {:induction false} LayoutRowsAt(lines: seq<CodeLine>, n: nat)
    requires n <= |lines|
    requires forall k :: 0 <= k < |lines| ==> lines[k].text != ""
    ensures |LayoutRows(lines, n)| == n + Gaps(lines, n)
    ensures forall k :: 0 <= k < n ==> Placed(lines, LayoutRows(lines, n), k)
  {
    LayoutRowsLength(lines, n);
    if n > 0 {
      LayoutRowsAt(lines, n - 1);
      LayoutRowsLength(lines, n - 1);
      var prev := LayoutRows(lines, n - 1);
      var last: seq<string> := if Gap(lines, n - 1) then ["", lines[n - 1].text] else [lines[n - 1].text];
      assert LayoutRows(lines, n) == prev + last;
      forall k | 0 <= k < n
        ensures Placed(lines, prev + last, k)
      {
        PlacedAppend(lines, prev, last, n, k);
      }
    }
  }

  /** The rows are the lines and one empty row per gap. */
  lemma {:induction false} LayoutRowsLength(lines: seq<CodeLine>, n: nat)
    requires n <= |lines|
    ensures |LayoutRows(lines, n)| == n + Gaps(lines, n)
  {
    if n > 0 {
      LayoutRowsLength(lines, n - 1);
      var last: seq<string> := if Gap(lines, n - 1) then ["", lines[n - 1].text] else [lines[n - 1].text];
      assert LayoutRows(lines, n) == LayoutRows(lines, n - 1) + last;
    }
  }

  /** Placing line n - 1 after the rows of the lines before it keeps every earlier line in place. */
  lemma {:induction false} PlacedAppend(lines: seq<CodeLine>, prev: seq<string>, last: seq<string>, n: nat, k: nat)
    requires 0 <= k < n <= |lines|
    requires forall k :: 0 <= k < |lines| ==> lines[k].text != ""
    requires |prev| == n - 1 + Gaps(lines, n - 1)
    requires last == if Gap(lines, n - 1) then ["", lines[n - 1].text] else [lines[n - 1].text]
    requires forall k :: 0 <= k < n - 1 ==> Placed(lines, prev, k)
    ensures Placed(lines, prev + last, k)
  {
    var rows := prev + last;
    var p := Pos(lines, k);
    if k < n - 1 {
      assert Placed(lines, prev, k);
      assert rows[p] == prev[p];
      if p > 0 {
        assert rows[p - 1] == prev[p - 1];
      }
    } else {
      assert p == |prev| + |last| - 1;
      if k > 0 && !Gap(lines, k) {
        assert Placed(lines, prev, k - 1);
        assert Pos(lines, k - 1) == p - 1;
        assert rows[p - 1] == prev[p - 1];
      }
    }
  }

  /** The built text read back line by line: one line per row, an empty line exactly at each gap. */
  lemma {:induction false} LayoutLines(lines: seq<CodeLine>)
    requires forall k :: 0 <= k < |lines| ==> '\n' !in lines[k].text
    ensures Split(Layout(lines, |lines|), '\n') == LayoutRows(lines, |lines|) + [""]
  {
    LayoutJoin(lines, |lines|);
    SplitJoin(LayoutRows(lines, |lines|) + [""], '\n');
  }

  lemma {:induction false} LayoutJoin(lines: seq<CodeLine>, n: nat)
    requires n <= |lines|
    ensures Layout(lines, n) == Join(LayoutRows(lines, n) + [""], "\n")
  {
    if n > 0 {
      LayoutJoin(lines, n - 1);
      var rows := LayoutRows(lines, n - 1);
      var t := lines[n - 1].text;
      var more: seq<string> := if Gap(lines, n - 1) then ["", t] else [t];
      assert Join(more, "\n") + "\n" == Block(lines, n - 1) by {
        if Gap(lines, n - 1) {
          assert more[1..] == [t];
        }
      }
      assert LayoutRows(lines, n) == rows + more;
      JoinGrow(rows, more, "\n");
    }
  }

  /** Joining a list that ends in an empty part, with more parts put before that empty part. */
  lemma {:induction false} JoinGrow(rows: seq<string>, more: seq<string>, sep: string)
    requires more != []
    ensures Join(rows + more + [""], sep) == Join(rows + [""], sep) + Join(more, sep) + sep
  {
    JoinAppend(more, [""], sep);
    assert Join([""], sep) == "";
    if rows == [] {
      assert rows + more + [""] == more + [""];
      assert rows + [""] == [""];
    } else {
      assert rows + more + [""] == rows + (more + [""]);
      JoinAppend(rows, more + [""], sep);
      JoinAppend(rows, [""], sep);
    }
  }

  /** Each line rebuilt as its leading spaces plus its trimmed remainder. */
  function ReindentAll(lines: seq<string>): (r: seq<string>)
    ensures |r| == |lines|
  {
    if lines == [] then [] else ReindentAll(lines[..|lines| - 1]) + [Reindent(lines[|lines| - 1])]
  }

  /** Line i of the rebuilt list is line i rebuilt. */
  lemma {:induction false} ReindentAllAt(lines: seq<string>, i: nat)
    requires i < |lines|
    ensures ReindentAll(lines)[i] == Reindent(lines[i])
  {
    if i < |lines| - 1 {
      ReindentAllAt(lines[..|lines| - 1], i);
    }
  }

  /** The final pass over the decoded text. */
  function NormaliseLines(code: string): string {
    Join(ReindentAll(Split(code, '\n')), "\n") + "\n"
  }

  /** The final pass keeps one line per input line, each in rebuilt form, and ends the text with a newline. */
  lemma {:induction false} NormaliseLinesSplit(code: string)
    ensures Split(NormaliseLines(code), '\n') == ReindentAll(Split(code, '\n')) + [""]
  {
    var parts := Split(code, '\n');
    var cleaned := ReindentAll(parts);
    forall i | 0 <= i < |cleaned|
      ensures '\n' !in cleaned[i]
    {
      ReindentAllAt(parts, i);
      TrimSpaceKeepsOut(parts[i], '\n');
    }
    SplitTrailing(Join(cleaned, "\n"), '\n');
    SplitJoin(cleaned, '\n');
  }

  /** The rows, or the fallback divs when no row survives, sorted and laid out, trimmed and decoded again. */
  function DecodedCode(rows: seq<ViewLine>, presentation: seq<string>): string {
    var kept := KeptRows(rows);
    var lines := if kept == [] then FallbackLines(presentation) else kept;
    var sorted := SortByTop(lines);
    Unescape(TrimSpace(Layout(sorted, |sorted|)) + "\n")
  }

  /** What ExtractCodeFromHTML returns, as written. */
  function AssembleCode(rows: seq<ViewLine>, presentation: seq<string>): string {
    NormaliseLines(DecodedCode(rows, presentation))
  }

  /**
   * The result as written always ends in an empty line: the text is trimmed
   * and given a newline, the split keeps an empty last piece for it, and the
   * join appends one more.
   */
  lemma {:induction false} AssembleCodeEndsWithBlankLine(rows: seq<ViewLine>, presentation: seq<string>)
    ensures HasSuffix(AssembleCode(rows, presentation), "\n\n")
  {
    var kept := KeptRows(rows);
    var lines := if kept == [] then FallbackLines(presentation) else kept;
    var sorted := SortByTop(lines);
    var body := TrimSpace(Layout(sorted, |sorted|));
    UnescapeTrailingNewline(body);
    assert DecodedCode(rows, presentation) == Unescape(body) + "\n";
    NormaliseEndsWithBlankLine(Unescape(body));
  }

  /** A text that already ends in a newline comes out of the final pass ending in two. */
  lemma {:induction false} NormaliseEndsWithBlankLine(text: string)
    ensures HasSuffix(NormaliseLines(text + "\n"), "\n\n")
  {
    SplitTrailing(text, '\n');
    JoinEndsWithBlankLine(Split(text, '\n'));
  }

  lemma {:induction false} JoinEndsWithBlankLine(parts: seq<string>)
    requires parts != []
    ensures HasSuffix(Join(ReindentAll(parts + [""]), "\n") + "\n", "\n\n")
  {
    assert (parts + [""])[..|parts|] == parts;
    var r := ReindentAll(parts);
    assert ReindentAll(parts + [""]) == r + [""];
    JoinAppend(r, [""], "\n");
    assert Join([""], "\n") == "";
    DoubleNewline(Join(r, "\n"), "\n");
  }

  lemma {:induction false} DoubleNewline(j: string, nl: string)
    requires nl == "\n"
    ensures HasSuffix(j + nl + "" + nl, nl + nl)
  {
    assert (j + nl + "" + nl)[|j|..] == nl + nl;
  }

  /**
   * The evidently intended result: the same lines, ending in exactly one
   * newline.
   */
  function AssembleCodeFixed(rows: seq<ViewLine>, presentation: seq<string>): (code: string)
    ensures HasSuffix(code, "\n") && (|code| == 1 || code[|code| - 2] != '\n')
    ensures code == TrimRightSet(AssembleCode(rows, presentation), {'\n'}) + "\n"
  {
    var joined := Join(ReindentAll(Split(DecodedCode(rows, presentation), '\n')), "\n");
    SingleNewline(joined);
    TrimRightSet(joined, {'\n'}) + "\n"
  }

  /** Cutting every trailing newline and adding one back leaves exactly one, whether or not one more was there. */
  lemma {:induction false} SingleNewline(joined: string)
    ensures var code := TrimRightSet(joined, {'\n'}) + "\n";
      && HasSuffix(code, "\n") && (|code| == 1 || code[|code| - 2] != '\n')
      && code == TrimRightSet(joined + "\n", {'\n'}) + "\n"
  {
    assert (joined + "\n")[..|joined + "\n"| - 1] == joined;
  }

  /** The indentation loop: count the spaces a line starts with. */
  method CountLeadingSpaces(s: string) returns (n: nat)
    ensures n == LeadingSpaces(s)
  {
    n := 0;
    while n < |s| && s[n] == ' '
      invariant n <= |s|
      invariant forall k :: 0 <= k < n ==> s[k] == ' '
    {
      n := n + 1;
    }
    LeadingSpacesExact(s, n);
  }

  /** The per-row callback: the row's line, with its indentation counted, or nothing. */
  method ReadRow(row: ViewLine) returns (piece: seq<CodeLine>)
    ensures piece == Kept(row)
  {
    var topValue := 0;
    if row.topPx.Some? {
      topValue := row.topPx.value;
    }
    var text := Decoded(row.html);
    var trimmed := TrimSpace(text);
    piece := [];
    if trimmed != "" && trimmed[0] != '#' {
      var leading := CountLeadingSpaces(text);
      piece := [CodeLine(Spaces(leading) + TrimSpace(text), topValue)];
    }
  }

  /** The view-line pass: keep each surviving row with its indentation and top. */
  method CollectRows(rows: seq<ViewLine>) returns (lines: seq<CodeLine>)
    ensures lines == KeptRows(rows)
  {
    lines := [];
    var i := 0;
    while i < |rows|
      invariant i <= |rows|
      invariant lines == KeptRows(rows[..i])
    {
      var piece := ReadRow(rows[i]);
      assert rows[..i + 1][..i] == rows[..i];
      lines := lines + piece;
      i := i + 1;
    }
    assert rows[..|rows|] == rows;
  }

  /** The fallback pass over the presentation divs, numbered from 0. */
  method CollectFallback(texts: seq<string>) returns (lines: seq<CodeLine>)
    ensures lines == FallbackLines(texts)
  {
    lines := [];
    var i := 0;
    while i < |texts|
      invariant i <= |texts|
      invariant lines == FallbackLines(texts[..i])
    {
      var text := Unescape(texts[i]);
      FallbackStep(texts, i);
      if TrimSpace(text) != "" {
        lines := lines + [CodeLine(text, i * 20)];
      }
      i := i + 1;
    }
    assert texts[..|texts|] == texts;
  }

  lemma {:induction false} FallbackStep(texts: seq<string>, i: nat)
    requires i < |texts|
    ensures var text := Unescape(texts[i]);
      FallbackLines(texts[..i + 1]) == FallbackLines(texts[..i]) + if TrimSpace(text) != "" then [CodeLine(text, i * 20)] else []
  {
    assert texts[..i + 1][..i] == texts[..i];
  }

  /** The builder loop: `lastTop` starts at -1 and then remembers the previous line's top. */
  method BuildCode(lines: seq<CodeLine>) returns (built: string)
    ensures built == Layout(lines, |lines|)
  {
    built := "";
    var lastTop: int := -1;
    var i := 0;
    while i < |lines|
      invariant i <= |lines|
      invariant lastTop == if i == 0 then -1 else lines[i - 1].top
      invariant built == Layout(lines, i)
    {
      var line := lines[i];
      if lastTop != -1 && line.top - lastTop > 20 {
        built := built + "\n";
      }
      built := built + line.text;
      built := built + "\n";
      lastTop := line.top;
      i := i + 1;
    }
  }

  /** One line rebuilt from its counted indentation and its trimmed text. */
  method ReindentLine(line: string) returns (r: string)
    ensures r == Reindent(line)
  {
    var leading := CountLeadingSpaces(line);
    r := Spaces(leading) + TrimSpace(line);
  }

  /** The loop over the split lines. */
  method ReindentLines(codeLines: seq<string>) returns (cleaned: seq<string>)
    ensures cleaned == ReindentAll(codeLines)
  {
    cleaned := [];
    var i := 0;
    while i < |codeLines|
      invariant i <= |codeLines|
      invariant cleaned == ReindentAll(codeLines[..i])
    {
      var cleanedLine := ReindentLine(codeLines[i]);
      assert codeLines[..i + 1][..i] == codeLines[..i];
      cleaned := cleaned + [cleanedLine];
      i := i + 1;
    }
    assert codeLines[..|codeLines|] == codeLines;
  }

  /** The final per-line pass. */
  method NormaliseCode(code: string) returns (out: string)
    ensures out == NormaliseLines(code)
  {
    var codeLines := Split(code, '\n');
    var cleaned := ReindentLines(codeLines);
    out := Join(cleaned, "\n") + "\n";
  }

  /** ExtractCodeFromHTML after parsing: rows first, the presentation divs when no row survives. */
  method ExtractCode(rows: seq<ViewLine>, presentation: seq<string>) returns (code: string)
    ensures code == AssembleCode(rows, presentation)
    ensures HasSuffix(code, "\n\n")
  {
    var lines := CollectRows(rows);
    if |lines| == 0 {
      lines := CollectFallback(presentation);
    }
    lines := SortByTop(lines);
    var built := BuildCode(lines);
    code := TrimSpace(built) + "\n";
    code := Unescape(code);
    code := NormaliseCode(code);
    AssembleCodeEndsWithBlankLine(rows, presentation);
  }
}
