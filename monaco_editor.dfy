/**
 * Reading code out of a rendered Monaco editor, as the older parser package
 * does it: each view line is a `<div style=top:Npx ...>` whose `mtk` spans
 * hold the text. The regular-expression captures are the inputs here: for
 * every row, its top offset and the texts captured from its spans.
 */
module MonacoEditor {
  import opened GoStrings
  import opened Html

  /**
   * One matched view line: its `top` offset (None when strconv.Atoi rejects
   * the digits, which only happens when they overflow an int) and the texts
   * of its mtk spans, in order.
   */
  datatype ViewLine = ViewLine(top: Option<nat>, spans: seq<string>)

  /** A span's text: character references decoded, no-break spaces made plain spaces. */
  function SpanText(capture: string): (r: string)
    ensures '\U{00A0}' !in r
  {
    ReplaceChar(Unescape(capture), '\U{00A0}', ' ')
  }

  /** The texts of a list of spans, glued in order. */
  function SpanTexts(captures: seq<string>): string {
    if captures == [] then ""
    else SpanTexts(captures[..|captures| - 1]) + SpanText(captures[|captures| - 1])
  }

  /** No no-break space survives: every one is turned into a plain space. */
  lemma {:induction false} SpanTextsNoNbsp(captures: seq<string>)
    ensures '\U{00A0}' !in SpanTexts(captures)
  {
    if captures != [] {
      SpanTextsNoNbsp(captures[..|captures| - 1]);
    }
  }

  /** cleanCodeLine (also the builder loop of the aggressive pass). */
  method CleanCodeLine(captures: seq<string>) returns (line: string)
    ensures line == SpanTexts(captures)
  {
    line := "";
    for i := 0 to |captures|
      invariant line == SpanTexts(captures[..i])
    {
      assert captures[..i + 1][..i] == captures[..i];
      line := line + SpanText(captures[i]);
    }
    assert captures[..|captures|] == captures;
  }

  /** Whether a row is stored: its offset parsed and its text is not blank. */
  predicate Kept(row: ViewLine) {
    row.top.Some? && !IsBlank(SpanTexts(row.spans))
  }

  /** The map from offset to text: a later row at the same offset replaces an earlier one. */
  function LinesByPosition(rows: seq<ViewLine>): map<nat, string> {
    if rows == [] then map[]
    else
      var m := LinesByPosition(rows[..|rows| - 1]);
      var row := rows[|rows| - 1];
      if Kept(row) then m[row.top.value := SpanTexts(row.spans)] else m
  }

  /** Offsets in the map are exactly the offsets of stored rows. */
  lemma {:induction false} LinesByPositionKeys(rows: seq<ViewLine>, p: nat)
    ensures p in LinesByPosition(rows) <==> exists i :: 0 <= i < |rows| && Kept(rows[i]) && rows[i].top == Some(p)
  {
    if rows != [] {
      var init := rows[..|rows| - 1];
      LinesByPositionKeys(init, p);
      assert forall i :: 0 <= i < |init| ==> init[i] == rows[i];
    }
  }

  /** The text at an offset is the one of the last stored row there. */
  lemma {:induction false} LastRowWins(rows: seq<ViewLine>, i: nat)
    requires i < |rows| && Kept(rows[i])
    requires forall j :: i < j < |rows| && Kept(rows[j]) ==> rows[j].top != rows[i].top
    ensures rows[i].top.value in LinesByPosition(rows)
    ensures LinesByPosition(rows)[rows[i].top.value] == SpanTexts(rows[i].spans)
  {
    var init := rows[..|rows| - 1];
    if i < |rows| - 1 {
      LastRowWins(init, i);
    }
  }

  /** Every stored text is not blank. */
  lemma {:induction false} LinesByPositionNotBlank(rows: seq<ViewLine>)
    ensures forall p :: p in LinesByPosition(rows) ==> !IsBlank(LinesByPosition(rows)[p])
  {
    if rows != [] {
      LinesByPositionNotBlank(rows[..|rows| - 1]);
    }
  }

  lemma {:induction false} LeastExists(s: set<nat>)
    requires s != {}
    ensures exists m :: m in s && forall x :: x in s ==> m <= x
  {
    var y :| y in s;
    LeastFrom(s, y);
  }

  /** Below any member there is a least one: descend while a smaller member exists. */
  lemma {:induction false} LeastFrom(s: set<nat>, y: nat)
    requires y in s
    ensures exists m :: m in s && forall x :: x in s ==> m <= x
    decreases y
  {
    if z :| z in s && z < y {
      LeastFrom(s, z);
    } else {
      assert forall x :: x in s ==> y <= x;
    }
  }

  /** The smallest element of a non-empty set of offsets. */
  function Least(s: set<nat>): (m: nat)
    requires s != {}
    ensures m in s && forall x :: x in s ==> m <= x
  {
    LeastExists(s);
    var m :| m in s && forall x :: x in s ==> m <= x;
    m
  }

  /** The offsets in ascending order (ranging over the map, then sort.Ints). */
  function Ascending(s: set<nat>): (r: seq<nat>)
    ensures |r| == |s|
    ensures forall x :: x in s <==> x in r
    ensures forall i, j :: 0 <= i < j < |r| ==> r[i] < r[j]
    decreases |s|
  {
    if s == {} then []
    else
      var m := Least(s);
      var rest := Ascending(s - {m});
      AscendingCons(s, m, rest);
      [m] + rest
  }

  /** The least element in front of the rest in ascending order is the whole set in ascending order. */
  lemma {:induction false} AscendingCons(s: set<nat>, m: nat, rest: seq<nat>)
    requires m in s && forall x :: x in s ==> m <= x
    requires |rest| == |s - {m}|
    requires forall x :: x in s - {m} <==> x in rest
    requires forall i, j :: 0 <= i < j < |rest| ==> rest[i] < rest[j]
    ensures var r := [m] + rest;
      && |r| == |s|
      && (forall x :: x in s <==> x in r)
      && (forall i, j :: 0 <= i < j < |r| ==> r[i] < r[j])
  {
    var r := [m] + rest;
    forall i, j | 0 <= i < j < |r|
      ensures r[i] < r[j]
    {
      assert r[j] == rest[j - 1] && r[j] in s - {m};
      if i > 0 {
        assert r[i] == rest[i - 1];
      }
    }
  }

  /** The texts of the given offsets, in the given order. */
  function Lookup(m: map<nat, string>, positions: seq<nat>): (r: seq<string>)
    requires forall i :: 0 <= i < |positions| ==> positions[i] in m
    ensures |r| == |positions| && forall i :: 0 <= i < |r| ==> r[i] == m[positions[i]]
  {
    if positions == [] then []
    else Lookup(m, positions[..|positions| - 1]) + [m[positions[|positions| - 1]]]
  }

  /** The code lines of the rows: one per offset, top to bottom. */
  function RowLines(rows: seq<ViewLine>): seq<string> {
    var m := LinesByPosition(rows);
    Lookup(m, Ascending(m.Keys))
  }

  /**
   * The assembled lines are the stored texts of the distinct offsets, from
   * the top of the editor down, none of them blank.
   */
  lemma {:induction false} RowLinesShape(rows: seq<ViewLine>)
    ensures var m := LinesByPosition(rows); var ps := Ascending(m.Keys);
      && |RowLines(rows)| == |m.Keys|
      && (forall i :: 0 <= i < |ps| ==> RowLines(rows)[i] == m[ps[i]])
      && (forall i, j :: 0 <= i < j < |ps| ==> ps[i] < ps[j])
      && (forall i :: 0 <= i < |RowLines(rows)| ==> !IsBlank(RowLines(rows)[i]))
  {
    LinesByPositionNotBlank(rows);
  }

  /** The assembly: fill the map row by row, then read it out in offset order. */
  method AssembleRows(rows: seq<ViewLine>) returns (codeLines: seq<string>)
    ensures codeLines == RowLines(rows)
  {
    var linesByPosition := FillPositions(rows);
    var positions := Ascending(linesByPosition.Keys);
    codeLines := ReadOut(linesByPosition, positions);
  }

  /** The loop over the matched rows. */
  method FillPositions(rows: seq<ViewLine>) returns (linesByPosition: map<nat, string>)
    ensures linesByPosition == LinesByPosition(rows)
  {
    linesByPosition := map[];
    for i := 0 to |rows|
      invariant linesByPosition == LinesByPosition(rows[..i])
    {
      assert rows[..i + 1][..i] == rows[..i];
      var cleanedLine := CleanCodeLine(rows[i].spans);
      if rows[i].top.Some? && TrimSpace(cleanedLine) != "" {
        linesByPosition := linesByPosition[rows[i].top.value := cleanedLine];
      }
    }
    assert rows[..|rows|] == rows;
  }

  /** The loop over the sorted offsets. */
  method ReadOut(m: map<nat, string>, positions: seq<nat>) returns (codeLines: seq<string>)
    requires forall i :: 0 <= i < |positions| ==> positions[i] in m
    ensures codeLines == Lookup(m, positions)
  {
    codeLines := [];
    for i := 0 to |positions|
      invariant codeLines == Lookup(m, positions[..i])
    {
      assert positions[..i + 1][..i] == positions[..i];
      codeLines := codeLines + [m[positions[i]]];
    }
    assert positions[..|positions|] == positions;
  }

  /**
   * The missing-return repair: when the assembled code defines a function
   * but holds no "return ", the first row that has one (its span captures,
   * None when no row matched) is added at the end, unless its text is empty.
   */
  function WithReturn(codeLines: seq<string>, returnRow: Option<seq<string>>): (r: seq<string>)
    ensures r == codeLines || (returnRow.Some? && r == codeLines + [SpanTexts(returnRow.value)])
  {
    var code := Join(codeLines, "\n");
    if Contains(code, "def ") && !Contains(code, "return ") && returnRow.Some?
       && SpanTexts(returnRow.value) != ""
    then codeLines + [SpanTexts(returnRow.value)]
    else codeLines
  }

  /** The repair adds one non-empty line, and only to code that has a def and no return. */
  lemma {:induction false} WithReturnAdds(codeLines: seq<string>, returnRow: Option<seq<string>>)
    ensures var r := WithReturn(codeLines, returnRow);
      r != codeLines <==>
        && Contains(Join(codeLines, "\n"), "def ") && !Contains(Join(codeLines, "\n"), "return ")
        && returnRow.Some? && SpanTexts(returnRow.value) != ""
  {
    var r := WithReturn(codeLines, returnRow);
    if returnRow.Some? && SpanTexts(returnRow.value) != "" {
      assert |codeLines + [SpanTexts(returnRow.value)]| != |codeLines|;
    }
  }

  // The aggressive pass: the mtk texts of the whole section glued, split at
  // newlines, and re-cut so that each keyword-bearing token starts a line.

  /** A token that starts a new line: it holds one of six Python keywords. */
  predicate StartsLine(token: string) {
    || Contains(token, "def ") || Contains(token, "class ") || Contains(token, "return ")
    || Contains(token, "if ") || Contains(token, "for ") || Contains(token, "while ")
  }

  /** The finished lines and the line being built. */
  datatype Recut = Recut(lines: seq<string>, current: string)

  function RecutStep(st: Recut, token: string): Recut {
    if StartsLine(token) then
      Recut(if st.current != "" then st.lines + [st.current] else st.lines, token)
    else st.(current := st.current + token)
  }

  function RecutScan(tokens: seq<string>): Recut {
    if tokens == [] then Recut([], "")
    else RecutStep(RecutScan(tokens[..|tokens| - 1]), tokens[|tokens| - 1])
  }

  function Recutted(tokens: seq<string>): seq<string> {
    var st := RecutScan(tokens);
    if st.current != "" then st.lines + [st.current] else st.lines
  }

  /** Some keyword-bearing token of the list is a prefix of s. */
  predicate LedByKeyword(s: string, tokens: seq<string>) {
    exists k :: 0 <= k < |tokens| && StartsLine(tokens[k]) && tokens[k] <= s
  }

  predicate RecutInvariant(st: Recut, tokens: seq<string>) {
    && (forall i :: 0 <= i < |st.lines| ==> st.lines[i] != "")
    && (forall i :: 0 < i < |st.lines| ==> LedByKeyword(st.lines[i], tokens))
    && (st.lines != [] ==> LedByKeyword(st.current, tokens))
    && Concat(st.lines) + st.current == Concat(tokens)
  }

  lemma {:induction false} LedByKeywordMore(s: string, tokens: seq<string>, more: seq<string>, extra: string)
    requires LedByKeyword(s, tokens)
    ensures LedByKeyword(s + extra, tokens + more)
  {
    var k :| 0 <= k < |tokens| && StartsLine(tokens[k]) && tokens[k] <= s;
    assert (tokens + more)[k] == tokens[k];
  }

  lemma {:induction false} RecutStepKeeps(st: Recut, tokens: seq<string>, token: string)
    requires RecutInvariant(st, tokens)
    ensures RecutInvariant(RecutStep(st, token), tokens + [token])
  {
    RecutStepLines(st, tokens, token);
    RecutStepLed(st, tokens, token);
    RecutStepConcat(st, tokens, token);
  }

  lemma {:induction false} RecutStepLines(st: Recut, tokens: seq<string>, token: string)
    requires forall i :: 0 <= i < |st.lines| ==> st.lines[i] != ""
    ensures var st' := RecutStep(st, token); forall i :: 0 <= i < |st'.lines| ==> st'.lines[i] != ""
  {
  }

  lemma {:induction false} RecutStepLed(st: Recut, tokens: seq<string>, token: string)
    requires forall i :: 0 < i < |st.lines| ==> LedByKeyword(st.lines[i], tokens)
    requires st.lines != [] ==> LedByKeyword(st.current, tokens)
    ensures var st' := RecutStep(st, token);
      && (forall i :: 0 < i < |st'.lines| ==> LedByKeyword(st'.lines[i], tokens + [token]))
      && (st'.lines != [] ==> LedByKeyword(st'.current, tokens + [token]))
  {
    var all := tokens + [token];
    var st' := RecutStep(st, token);
    forall i | 0 < i < |st.lines|
      ensures LedByKeyword(st.lines[i], all)
    {
      LedByKeywordMore(st.lines[i], tokens, [token], "");
      assert st.lines[i] + "" == st.lines[i];
    }
    if st.lines != [] {
      LedByKeywordMore(st.current, tokens, [token], "");
      assert st.current + "" == st.current;
    }
    if StartsLine(token) {
      assert all[|tokens|] == token;
      assert LedByKeyword(token, all);
      assert forall i :: 0 <= i < |st.lines| ==> st'.lines[i] == st.lines[i];
    } else if st.lines != [] {
      LedByKeywordMore(st.current, tokens, [token], token);
    }
  }

  lemma {:induction false} RecutStepConcat(st: Recut, tokens: seq<string>, token: string)
    requires Concat(st.lines) + st.current == Concat(tokens)
    ensures var st' := RecutStep(st, token); Concat(st'.lines) + st'.current == Concat(tokens + [token])
  {
    var all := tokens + [token];
    assert all[..|all| - 1] == tokens;
    assert Concat(all) == Concat(tokens) + token;
    if StartsLine(token) && st.current != "" {
      ConcatAppend(st.lines, [st.current]);
      assert Concat([st.current]) == Concat([]) + st.current;
    } else if StartsLine(token) {
      assert Concat(st.lines) + st.current == Concat(st.lines);
    } else {
      assert Concat(st.lines) + (st.current + token) == (Concat(st.lines) + st.current) + token;
    }
  }

  lemma {:induction false} RecutScanInvariant(tokens: seq<string>)
    ensures RecutInvariant(RecutScan(tokens), tokens)
  {
    if tokens != [] {
      var init := tokens[..|tokens| - 1];
      RecutScanInvariant(init);
      RecutStepKeeps(RecutScan(init), init, tokens[|tokens| - 1]);
      assert init + [tokens[|tokens| - 1]] == tokens;
    }
  }

  /**
   * The re-cut lines are never empty, every line after the first starts with
   * a keyword-bearing token, and together they hold the tokens' characters in
   * order.
   */
  lemma {:induction false} RecuttedShape(tokens: seq<string>)
    ensures var r := Recutted(tokens);
      && (forall i :: 0 <= i < |r| ==> r[i] != "")
      && (forall i :: 0 < i < |r| ==> LedByKeyword(r[i], tokens))
      && Concat(r) == Concat(tokens)
  {
    var st := RecutScan(tokens);
    RecutScanInvariant(tokens);
    if st.current != "" {
      ConcatAppend(st.lines, [st.current]);
      assert Concat([st.current]) == Concat([]) + st.current;
      var r := st.lines + [st.current];
      assert forall i :: 0 <= i < |st.lines| ==> r[i] == st.lines[i];
    } else {
      assert Concat(st.lines) + "" == Concat(st.lines);
    }
  }

  /** Splitting at c and gluing the parts back drops exactly the c characters. */
  lemma {:induction false} ConcatSplit(s: string, c: char)
    ensures Concat(Split(s, c)) == Without(s, c)
    decreases |s|
  {
    if s != "" {
      var rest := Split(s[1..], c);
      ConcatSplit(s[1..], c);
      if s[0] == c {
        ConcatCons("", rest);
      } else {
        ConcatCons([s[0]] + rest[0], rest[1..]);
        ConcatCons(rest[0], rest[1..]);
        assert [rest[0]] + rest[1..] == rest;
      }
    }
  }

  /** The re-cut loop of the aggressive pass. */
  method RecutLines(tokens: seq<string>) returns (cleanLines: seq<string>)
    ensures cleanLines == Recutted(tokens)
  {
    cleanLines := [];
    var currentLine := "";
    for i := 0 to |tokens|
      invariant RecutScan(tokens[..i]) == Recut(cleanLines, currentLine)
    {
      assert tokens[..i + 1][..i] == tokens[..i];
      var token := tokens[i];
      if StartsLine(token) {
        if currentLine != "" {
          cleanLines := cleanLines + [currentLine];
        }
        currentLine := token;
      } else {
        currentLine := currentLine + token;
      }
    }
    assert tokens[..|tokens|] == tokens;
    if currentLine != "" {
      cleanLines := cleanLines + [currentLine];
    }
  }

  /** The lines of the aggressive pass for the mtk spans of the whole section. */
  function AggressiveLines(captures: seq<string>): seq<string> {
    Recutted(Split(SpanTexts(captures), '\n'))
  }

  /** The aggressive lines hold the section's text minus its newlines, none of them empty. */
  lemma {:induction false} AggressiveLinesShape(captures: seq<string>)
    ensures forall i :: 0 <= i < |AggressiveLines(captures)| ==> AggressiveLines(captures)[i] != ""
    ensures Concat(AggressiveLines(captures)) == Without(SpanTexts(captures), '\n')
  {
    var tokens := Split(SpanTexts(captures), '\n');
    RecuttedShape(tokens);
    ConcatSplit(SpanTexts(captures), '\n');
  }

  method Aggressive(captures: seq<string>) returns (cleanLines: seq<string>)
    ensures cleanLines == AggressiveLines(captures)
  {
    var rawCode := CleanCodeLine(captures);
    cleanLines := RecutLines(Split(rawCode, '\n'));
  }
}
