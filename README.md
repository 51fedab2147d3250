# leetcode-to-anki-go, modelled in Dafny

The repository turns saved LeetCode problem pages into Anki cards. A page is
reduced to a title, a description and Python code by one of two parallel
parsers:

- the newer package `pkg/leetcode_to_anki`:
  - `ExtractCodeFromHTML` rebuilds the code from the Monaco editor's
    `view-line` rows;
  - `FormatDescription` turns the description into card HTML with a
    one-pass line scanner;
  - `cleanCode` tidies code text;
- the older package `pkg/leetcode_parser`:
  - `extractPythonCode` is a chain of fallbacks: textarea, Monaco rows,
    the mtk re-split, token spans, `<pre>` and a sentinel. It uses the
    helpers `cleanCodeLine`, `isCodeLine` and `reorganizePythonCode`;
  - `ExtractProblemDescription` uses two regex branches and a DOM walk
    (`findDescriptionDiv`, `extractTextFromNode`);
  - the choice between the meta description and the detailed one;
  - the older `FormatDescription`.

HTML parsing and regular-expression matching come from libraries. The
model starts after them:

- a regex capture is an `Option<string>`;
- a goquery selection is a sequence of records: `CodeAssembly.ViewLine`
  and the `div[role='presentation']` texts;
- the older package's `viewLinePattern` matches
  (pkg/leetcode_parser/leetcode_parser.go:314) are a sequence of
  `MonacoEditor.ViewLine` records: the parsed top capture and the span texts;
- an x/net/html document is a small node tree, `DescriptionTree.Node`.

Most regexes the code applies to a string it already holds are written out
as the leftmost-first scan they perform. Examples are `<img[^>]*>`,
`src="([^"]*)"`, `<[^>]*>`, `\s+` and `\n\s*\n`. The rest are inputs, like
the page-wide captures (see "Left out"):

- `top:(\d+)px` (pkg/leetcode_to_anki/leetcode_parser.go:297);
- the two span patterns (pkg/leetcode_to_anki/leetcode_parser.go:309-310);
- the return-row pattern (pkg/leetcode_parser/leetcode_parser.go:356);
- the mtk span pattern of `cleanCodeLine` (pkg/leetcode_parser/leetcode_parser.go:471).

Every loop that builds or updates state is a method. Its `while`/`for` loop
is proved against a specification function, and the properties are proved
about that function as lemmas. Loops that only search are recursive
functions, because the code around them computes a value:

- the phrase and pattern tables of `isCodeLine`
  (pkg/leetcode_parser/leetcode_parser.go:696-745);
- the attribute search of `getAttr`
  (pkg/leetcode_parser/leetcode_parser.go:491-495).

Modules, one per file:

| module | file | models |
|---|---|---|
| `GoStrings` | go_strings.dfy | the `strings` functions used: TrimSpace, Split, Join, Index, ReplaceAll, … |
| `Html` | html_entities.dfy | `html.UnescapeString`, as a fixed entity decoder |
| `CodeAssembly` | code_assembly.dfy | newer `ExtractCodeFromHTML` |
| `CleanCode` | clean_code.dfy | newer `cleanCode` |
| `DescriptionLine` | description_line.dfy | the per-line img/src/tag cleanup inside the newer `FormatDescription` |
| `DescriptionFormat` | description_format.dfy | the newer `FormatDescription` scanner |
| `PythonLines` | python_lines.dfy | `isCodeLine`, `reorganizePythonCode` |
| `MonacoEditor` | monaco_editor.dfy | `cleanCodeLine`, Monaco row assembly, the aggressive mtk re-split |
| `PythonCode` | python_code.dfy | the `extractPythonCode` chain |
| `OldDescription` | old_description.dfy | the regex description branches of `ExtractProblemDescription` |
| `DescriptionTree` | description_tree.dfy | `findDescriptionDiv`, `extractTextFromNode`, the description choice |
| `OldFormat` | old_format.dfy | the older `FormatDescription` |

## Model

| member | source | states |
|---|---|---|
| CodeAssembly.RowLineShape | pkg/leetcode_to_anki/leetcode_parser.go:292-331 | A view-line row is kept iff its decoded text is non-blank and its trimmed text does not start with `#`. A kept row keeps the row's count of leading spaces and its trimmed text, and nothing else. A row without a `top:Npx` style gets top 0. |
| CodeAssembly.KeptRowsNonBlank | pkg/leetcode_to_anki/leetcode_parser.go:292-337 | Each row yields at most one line, and every collected line is non-blank. |
| CodeAssembly.FallbackLines | pkg/leetcode_to_anki/leetcode_parser.go:340-352 | The fallback keeps only non-blank presentation texts. Their tops are i×20, strictly increasing and below 20 × the number of texts. |
| CodeAssembly.FallbackLinesExact | pkg/leetcode_to_anki/leetcode_parser.go:340-352 | Each fallback line is the decoded text of div i, at top 20 × i, and that text is non-blank. Every div whose decoded text is non-blank contributes that line. |
| CodeAssembly.InsertByTop | pkg/leetcode_to_anki/leetcode_parser.go:354-357 | Inserting into a list sorted by top keeps it sorted and adds exactly the one line. |
| CodeAssembly.SortByTop | pkg/leetcode_to_anki/leetcode_parser.go:354-357 | The sort returns a permutation of the lines in non-decreasing top order. |
| CodeAssembly.LayoutRowsAt | pkg/leetcode_to_anki/leetcode_parser.go:359-372 | After the sort, each line is one output row, in order. An empty row comes right before line k exactly when a line precedes it and its top exceeds the previous top by more than 20. The first line never gets one. There are no other rows. |
| CodeAssembly.LayoutLines | pkg/leetcode_to_anki/leetcode_parser.go:359-372 | The builder's text, split at newlines, gives back exactly those rows plus the empty piece after the last newline. |
| CodeAssembly.LayoutJoin | pkg/leetcode_to_anki/leetcode_parser.go:359-372 | The builder's text is the rows joined by newlines, with each row newline-terminated. |
| CodeAssembly.ReindentAllAt | pkg/leetcode_to_anki/leetcode_parser.go:380-394 | The final pass rewrites line i and only line i as its leading spaces plus its trimmed remainder. |
| CodeAssembly.NormaliseLinesSplit | pkg/leetcode_to_anki/leetcode_parser.go:380-395 | The final text, split at newlines, is the re-indented input lines followed by one empty piece. |
| CodeAssembly.AssembleCodeEndsWithBlankLine | pkg/leetcode_to_anki/leetcode_parser.go:374-396 | As written, the returned code always ends in two newlines (see Findings). |
| CodeAssembly.AssembleCodeFixed | pkg/leetcode_to_anki/leetcode_parser.go:374-396 | The corrected result ends in exactly one newline, after the same text with its trailing newlines removed. |
| CodeAssembly.CountLeadingSpaces | pkg/leetcode_to_anki/leetcode_parser.go:321-329 | The counting loop returns the length of the line's run of leading ASCII spaces. |
| CodeAssembly.ReadRow | pkg/leetcode_to_anki/leetcode_parser.go:292-336 | Reading one row gives the row's kept line, or nothing. |
| CodeAssembly.CollectRows | pkg/leetcode_to_anki/leetcode_parser.go:291-337 | The row loop collects exactly the kept lines, in row order. |
| CodeAssembly.CollectFallback | pkg/leetcode_to_anki/leetcode_parser.go:340-352 | The fallback loop collects exactly the fallback lines. |
| CodeAssembly.BuildCode | pkg/leetcode_to_anki/leetcode_parser.go:359-372 | The builder loop with `lastTop` writes exactly the specified layout. |
| CodeAssembly.ReindentLines | pkg/leetcode_to_anki/leetcode_parser.go:380-394 | The final line loop re-indents every line and keeps their order. |
| CodeAssembly.NormaliseCode | pkg/leetcode_to_anki/leetcode_parser.go:379-396 | The split, re-indent and join equal the specified normalisation. |
| CodeAssembly.ExtractCode | pkg/leetcode_to_anki/leetcode_parser.go:267-399 | The whole assembly as written, on parsed rows. Its result ends in "\n\n". |
| CleanCode.StepKeeps | pkg/leetcode_to_anki/leetcode_parser.go:413-424 | One loop turn keeps its invariant. Kept lines are "" or non-blank, non-comment lines. No two "" are adjacent. The flag says whether the last kept line is "". The non-empty kept lines are exactly the code lines seen so far, in order. |
| CleanCode.CollapseInvariant | pkg/leetcode_to_anki/leetcode_parser.go:413-424 | The whole line loop establishes that invariant. |
| CleanCode.DropTrailingKeeps | pkg/leetcode_to_anki/leetcode_parser.go:426-429 | Popping trailing empty lines keeps the invariant and loses no code line. |
| CleanCode.CleanedShape | pkg/leetcode_to_anki/leetcode_parser.go:401-437 | The result is "\n" when no code line survives. Otherwise it is the kept lines joined and ended by a single newline after a non-empty last line. Apart from single "" lines, those lines are exactly the code lines of the input, in order. No two "" are adjacent, and no line is a comment. |
| CleanCode.FinalLinesShape | pkg/leetcode_to_anki/leetcode_parser.go:413-437 | The same statement for the line pass on newline-free lines. In addition, the lines equal the reference grouping `Grouped`. |
| CleanCode.CollapseGrouped | pkg/leetcode_to_anki/leetcode_parser.go:413-424 | After any lines, the loop holds the reference grouping, plus one trailing "" exactly while a blank line is pending since the last code line. |
| CleanCode.GroupedEnds | pkg/leetcode_to_anki/leetcode_parser.go:413-429 | The reference grouping is empty or ends in a code line. |
| CleanCode.FinalLinesGrouped | pkg/leetcode_to_anki/leetcode_parser.go:413-429 | The written lines are exactly the code lines, in order. Each is preceded by one "" exactly when a blank line came since the previous code line, or since the start. Comment lines leave this unchanged. |
| CleanCode.CleanedGrouped | pkg/leetcode_to_anki/leetcode_parser.go:401-437 | cleanCode's output is that grouping of the normalised input's lines, joined with newlines and ended with one newline. |
| CleanCode.CleanedLinesJoin | pkg/leetcode_to_anki/leetcode_parser.go:431-435 | Joined lines with a non-empty last line never end in a newline, so exactly one is appended. Splitting the result gives the lines back. |
| CleanCode.TakeLine | pkg/leetcode_to_anki/leetcode_parser.go:414-423 | One loop turn equals the specified step. |
| CleanCode.CollapseLines | pkg/leetcode_to_anki/leetcode_parser.go:409-424 | The line loop computes the specified fold. |
| CleanCode.PopTrailingEmpty | pkg/leetcode_to_anki/leetcode_parser.go:426-429 | The pop loop removes exactly the trailing empty lines. |
| CleanCode.CleanCode | pkg/leetcode_to_anki/leetcode_parser.go:401-438 | cleanCode equals its specification, and its result always ends in a newline. |
| DescriptionLine.FindImg | pkg/leetcode_to_anki/leetcode_parser.go:126-151 | The leftmost `<img[^>]*>` match starts with "<img" and ends at the first '>' after it. |
| DescriptionLine.GlueImgPieces | pkg/leetcode_to_anki/leetcode_parser.go:126-151 | Cutting a line at its img matches loses nothing: the pieces glue back to the line. |
| DescriptionLine.ImgPiecesAreTags | pkg/leetcode_to_anki/leetcode_parser.go:126-151 | Every img piece is a whole tag that starts with "<img" and whose only '>' is its last character. |
| DescriptionLine.FindSrc | pkg/leetcode_to_anki/leetcode_parser.go:133-141 | The `src="..."` match is the first occurrence of `src="` and runs to the next quote. |
| DescriptionLine.RewriteTagReplacesSrc | pkg/leetcode_to_anki/leetcode_parser.go:141-148 | A src starting with `data:image/` or `http` is replaced by `src="f"` for some image file name f. The rest of the tag is unchanged. |
| DescriptionLine.RewriteTagKeeps | pkg/leetcode_to_anki/leetcode_parser.go:131-150 | The tag is unchanged when there are no images, when it has no complete `src="..."`, or when its src is neither a data URI nor a URL. |
| DescriptionLine.StripTagsRemovesTags | pkg/leetcode_to_anki/leetcode_parser.go:162 | After stripping, no '<' has a '>' anywhere after it, so no tag is left. |
| DescriptionLine.StripConcat | pkg/leetcode_to_anki/leetcode_parser.go:162 | Text whose tags all close strips independently of what follows it. |
| DescriptionLine.ImgTagSurvives | pkg/leetcode_to_anki/leetcode_parser.go:153-172 | Take a line with one img tag, where every tag before it closes. The tag comes back unchanged through its `__IMG_TAG_0__` placeholder. The text on each side of it loses its other tags. The result is then entity-decoded and trimmed. |
| DescriptionLine.RestoreTags | pkg/leetcode_to_anki/leetcode_parser.go:164-167 | The restore loop replaces placeholder i by tag i, for i = 0, 1, …, in that order. |
| DescriptionLine.CleanDescriptionLine | pkg/leetcode_to_anki/leetcode_parser.go:153-175 | Placeholders, stripping, restoring, the three entity replacements and the trim equal the specified cleanup. |
| DescriptionFormat.FormattedFrame | pkg/leetcode_to_anki/leetcode_parser.go:58-264 | The output always begins with the style block and `<div class="description">` and ends with `</div>`. |
| DescriptionFormat.ExamplesClosed | pkg/leetcode_to_anki/leetcode_parser.go:177-251 | Every example block emitted is closed with `</div></div>`. The closing comes from the next Example line, a Constraints line, a follow-up line or the end of input. |
| DescriptionFormat.FollowUpOnce | pkg/leetcode_to_anki/leetcode_parser.go:212-259 | The follow-up div appears once when any follow-up line was seen, and never otherwise. |
| DescriptionFormat.ScanGood | pkg/leetcode_to_anki/leetcode_parser.go:103-238 | The scanner's invariant holds after any lines. An example is pending exactly while the scanner is in one, and it starts with its heading. Every emitted example block is closed. No follow-up div is emitted before the end. Emitted blocks are never taken back. |
| DescriptionFormat.ParagraphGathers | pkg/leetcode_to_anki/leetcode_parser.go:226-236 | Outside examples and constraints, consecutive plain lines are joined with single spaces into the pending paragraph. |
| DescriptionFormat.BlankEndsParagraph | pkg/leetcode_to_anki/leetcode_parser.go:105-111 | A blank line flushes the pending paragraph as one `description-line` div. |
| DescriptionFormat.DotLinesDropped | pkg/leetcode_to_anki/leetcode_parser.go:226-229 | A plain line starting with '.' changes nothing. |
| DescriptionFormat.ConstraintsSilence | pkg/leetcode_to_anki/leetcode_parser.go:200-228 | After a Constraints line, blank lines and plain lines without '{' are discarded, leaving the state unchanged. |
| DescriptionFormat.ConstraintsHeading | pkg/leetcode_to_anki/leetcode_parser.go:200-211 | A Constraints line emits the pending paragraph and closes any open example, emitting it with its closing divs. It emits nothing of its own, keeps the follow-up parts and enters the constraints state. |
| DescriptionFormat.IoLineOutsideExample | pkg/leetcode_to_anki/leetcode_parser.go:190-199 | Outside an example, an Input/Output/Explanation line emits the pending paragraph and then its own `description-line` div, leaving no paragraph pending. |
| DescriptionFormat.ImgLineFlushes | pkg/leetcode_to_anki/leetcode_parser.go:125-130 | A line holding `<img` emits the pending paragraph first. As running text outside examples and constraints, its cleaned text then starts a new paragraph. |
| DescriptionFormat.FollowUpLine | pkg/leetcode_to_anki/leetcode_parser.go:212-225 | A follow-up line flushes the paragraph and closes any open example. It clears the constraints state and queues the unescaped line for the single follow-up div. |
| DescriptionFormat.ExampleHeading | pkg/leetcode_to_anki/leetcode_parser.go:177-189 | An Example line flushes the paragraph and closes any open example. It then opens a new example holding just its title. |
| DescriptionFormat.ExampleGathers | pkg/leetcode_to_anki/leetcode_parser.go:190-236 | Inside an example, IO and plain lines are appended to the example, in order. |
| DescriptionFormat.CssSwallows | pkg/leetcode_to_anki/leetcode_parser.go:113-123 | While in CSS, every non-blank line without '}' is skipped. |
| DescriptionFormat.OneLineRuleSwallows | pkg/leetcode_to_anki/leetcode_parser.go:113-123 | As written, a line holding both '{' and '}' enters the CSS state and swallows the following lines (see Findings). |
| DescriptionFormat.OneLineRuleSkipped | pkg/leetcode_to_anki/leetcode_parser.go:113-123 | With the correction, a one-line rule is skipped on its own. |
| DescriptionFormat.FixAgreesWithoutBraces | pkg/leetcode_to_anki/leetcode_parser.go:113-123 | The corrected scanner behaves as written on every description without '{'. |
| DescriptionFormat.ScanConcat | pkg/leetcode_to_anki/leetcode_parser.go:103-238 | Scanning two runs of lines one after the other equals scanning them together. |
| DescriptionFormat.FormatDescription | pkg/leetcode_to_anki/leetcode_parser.go:40-265 | The method equals the specified formatting, and its output is framed by the header and `</div>`. |
| DescriptionFormat.ScanLines | pkg/leetcode_to_anki/leetcode_parser.go:103-238 | From a given starting state, the line loop's six state variables and result end as the specified scan of the lines. |
| DescriptionFormat.ScanLine | pkg/leetcode_to_anki/leetcode_parser.go:104-237 | One loop turn equals one step of the scanner. |
| DescriptionFormat.ClassifyLine | pkg/leetcode_to_anki/leetcode_parser.go:177-236 | The if-chain over Example/IO/Constraints/follow-up/plain lines equals the specified classification step. |
| DescriptionFormat.Finish | pkg/leetcode_to_anki/leetcode_parser.go:240-264 | The tail flushes the paragraph, closes the example, adds the follow-up div and the closing `</div>`, and joins with newlines. |
| PythonLines.ContainsAnyIff | pkg/leetcode_parser/leetcode_parser.go:694-746 | A line contains one of the listed phrases iff some listed phrase occurs in it. |
| PythonLines.HtmlMarkerIsCodePattern | pkg/leetcode_parser/leetcode_parser.go:722-743 | Every line the HTML check could reject already matched a code token, so that check is unreachable. |
| PythonLines.IsCodeLineIff | pkg/leetcode_parser/leetcode_parser.go:694-746 | isCodeLine is false exactly when the line contains one of the nine UI phrases. |
| PythonLines.PartitionPermutation | pkg/leetcode_parser/leetcode_parser.go:640-662 | The class, method and body groups together are a permutation of the input lines. |
| PythonLines.PartitionClassified | pkg/leetcode_parser/leetcode_parser.go:640-662 | Each group holds only lines of its kind. |
| PythonLines.PartitionStable | pkg/leetcode_parser/leetcode_parser.go:640-662 | The partition is stable. Each group is exactly the input's lines of its kind, in input order, as a filter from the head of the list selects them. |
| PythonLines.PartitionFound | pkg/leetcode_parser/leetcode_parser.go:640-662 | The class and method flags are set exactly when such a line exists. |
| PythonLines.ReorganizedLines | pkg/leetcode_parser/leetcode_parser.go:664-690 | Without both a `class Solution` and a `def name(self` line, the input comes back unchanged. Otherwise the output is class lines, then method lines, then the rest, each `\n`-terminated. |
| PythonLines.ReorganizedNonEmpty | pkg/leetcode_parser/leetcode_parser.go:664-690 | A first line that is not empty gives a non-empty result. |
| PythonLines.ReorganizePythonCode | pkg/leetcode_parser/leetcode_parser.go:631-691 | The method equals the specified reorganisation. |
| PythonLines.SortLines | pkg/leetcode_parser/leetcode_parser.go:640-662 | The loop builds the three groups and the two flags of the specified partition. |
| PythonLines.WriteLines | pkg/leetcode_parser/leetcode_parser.go:670-688 | The builder loop writes each line followed by a newline. |
| MonacoEditor.SpanTextsNoNbsp | pkg/leetcode_parser/leetcode_parser.go:469-487 | A cleaned code line never holds a non-breaking space. |
| MonacoEditor.CleanCodeLine | pkg/leetcode_parser/leetcode_parser.go:469-487 | cleanCodeLine concatenates the unescaped span texts with U+00A0 turned into spaces. |
| MonacoEditor.LinesByPositionKeys | pkg/leetcode_parser/leetcode_parser.go:321-336 | The map has an entry for a top exactly when some kept row has that top. |
| MonacoEditor.LastRowWins | pkg/leetcode_parser/leetcode_parser.go:321-336 | A later row at the same top overwrites an earlier one. |
| MonacoEditor.LinesByPositionNotBlank | pkg/leetcode_parser/leetcode_parser.go:321-336 | Rows whose cleaned text is whitespace-only never enter the map. |
| MonacoEditor.Ascending | pkg/leetcode_parser/leetcode_parser.go:338-343 | The sorted positions are exactly the map's keys, strictly ascending. |
| MonacoEditor.RowLinesShape | pkg/leetcode_parser/leetcode_parser.go:321-349 | One line per distinct top, in strictly ascending top order, none blank, and no blank line inserted. |
| MonacoEditor.AssembleRows | pkg/leetcode_parser/leetcode_parser.go:321-349 | The map, sort and read-out loops equal the specified row lines. |
| MonacoEditor.FillPositions | pkg/leetcode_parser/leetcode_parser.go:321-336 | The map-filling loop gives the specified map. |
| MonacoEditor.ReadOut | pkg/leetcode_parser/leetcode_parser.go:345-349 | The read-out loop looks up every position in order. |
| MonacoEditor.WithReturn | pkg/leetcode_parser/leetcode_parser.go:351-367 | The recovery either leaves the lines alone or appends the cleaned text of the return-pattern match. |
| MonacoEditor.WithReturnAdds | pkg/leetcode_parser/leetcode_parser.go:351-367 | A line is appended iff the code has "def " but no "return ", and the return-pattern match cleans to non-empty text. |
| MonacoEditor.RecuttedShape | pkg/leetcode_parser/leetcode_parser.go:396-416 | The re-split never yields an empty line. Every line after the first starts with a keyword token. Concatenated, the lines give back the tokens' text. |
| MonacoEditor.ConcatSplit | pkg/leetcode_parser/leetcode_parser.go:385-395 | The pieces of a text split at newlines, concatenated, are the text without its newlines. |
| MonacoEditor.RecutLines | pkg/leetcode_parser/leetcode_parser.go:396-416 | The loop with the current-line accumulator equals the specified re-split. |
| MonacoEditor.AggressiveLinesShape | pkg/leetcode_parser/leetcode_parser.go:374-421 | The aggressive lines are non-empty. Concatenated, they are the span text with its newlines removed. |
| MonacoEditor.Aggressive | pkg/leetcode_parser/leetcode_parser.go:374-421 | The method equals the specified aggressive extraction. |
| PythonCode.TrimmedShape | pkg/leetcode_parser/leetcode_parser.go:247-255 | Kept lines are non-empty and already trimmed. They hold no newline when the input lines hold none. |
| PythonCode.TrimmedCodeShape | pkg/leetcode_parser/leetcode_parser.go:287-294 | Additionally, every kept line passes isCodeLine. |
| PythonCode.TextareaLines | pkg/leetcode_parser/leetcode_parser.go:262-301 | The textarea result splits back into trimmed non-empty lines that contain no UI phrase. |
| PythonCode.ClassTextareaLines | pkg/leetcode_parser/leetcode_parser.go:237-260 | The class-body result splits back into trimmed non-empty lines. |
| PythonCode.MonacoNonEmpty | pkg/leetcode_parser/leetcode_parser.go:303-372 | The Monaco stage returns only non-empty code. |
| PythonCode.FromPreNonEmpty | pkg/leetcode_parser/leetcode_parser.go:448-461 | The `<pre>` stage returns only non-empty code. |
| PythonCode.PythonCodeNonEmpty | pkg/leetcode_parser/leetcode_parser.go:228-466 | extractPythonCode never returns "". Every stage is guarded by a non-emptiness check, and the sentinel is the last resort. |
| PythonCode.ExtractPythonCode | pkg/leetcode_parser/leetcode_parser.go:228-466 | The method tries the stages in the source's order, equals the specified chain, and returns non-empty code. |
| PythonCode.KeepTrimmed | pkg/leetcode_parser/leetcode_parser.go:247-255 | The loop keeps the trimmed non-empty lines, in order. |
| PythonCode.HasPythonCode | pkg/leetcode_parser/leetcode_parser.go:275-283 | The first pass finds a line iff some line has "class Solution", or "def " together with "(self". |
| PythonCode.KeepCode | pkg/leetcode_parser/leetcode_parser.go:288-294 | The second pass keeps the trimmed non-empty code lines, in order. |
| PythonCode.UnescapeSpans | pkg/leetcode_parser/leetcode_parser.go:428-446 | The span loop concatenates the unescaped token texts. |
| PythonCode.FirstDefPre | pkg/leetcode_parser/leetcode_parser.go:448-461 | The first `<pre>` whose raw capture contains "def" is chosen, and its text is returned unescaped. |
| OldDescription.CollapseSpacesShape | pkg/leetcode_parser/leetcode_parser.go:518-543 | After the `\s+` pass no newline is left and no two `\s` characters (space, tab, newline, form feed, carriage return) touch. |
| OldDescription.CollapseBlankLinesNoNewline | pkg/leetcode_parser/leetcode_parser.go:519-544 | Without a newline the `\n\s*\n` pass changes nothing, so after `\s+` it is a no-op. |
| OldDescription.CleanDescriptionShape | pkg/leetcode_parser/leetcode_parser.go:505-545 | A regex branch returns text with no newline and no two adjacent `\s` characters. It has no leading or trailing whitespace in the sense of `strings.TrimSpace`. |
| OldDescription.DecodeEntitiesTwice | pkg/leetcode_parser/leetcode_parser.go:511-515 | As written, the escaped text `&amp;quot;` decodes to `"` rather than `&quot;` (see Findings). The second regex branch repeats the same replacements at :538-542. |
| OldDescription.DecodeEscapeFixed | pkg/leetcode_parser/leetcode_parser.go:511-515 | With `&amp;` decoded last, decoding is one level deep: decoding an escaped text gives it back. |
| OldDescription.NoNbspEscape | pkg/leetcode_parser/leetcode_parser.go:511 | An escaped text never contains `&nbsp;`, so the first replacement does not touch it. |
| DescriptionTree.GetAttrFirst | pkg/leetcode_parser/leetcode_parser.go:490-497 | getAttr returns the value of the first attribute with the key, or "" when there is none. |
| DescriptionTree.NodeTextVisible | pkg/leetcode_parser/leetcode_parser.go:598-627 | extractTextFromNode keeps every non-whitespace character of the text nodes, in document order. |
| DescriptionTree.ExtractTextFromNode | pkg/leetcode_parser/leetcode_parser.go:598-628 | The method equals the specified text: a walk with "\n" before each br/p/div and after each p/div, the blank-line pass, then a trim. |
| DescriptionTree.Traverse | pkg/leetcode_parser/leetcode_parser.go:602-618 | The recursive walk appends exactly the node's raw text to the builder. |
| DescriptionTree.MatchedAreDivs | pkg/leetcode_parser/leetcode_parser.go:570-576 | Every candidate found is a div whose class contains `question-content` or `description`, or whose `data-track-load` contains `description_content`. |
| DescriptionTree.FindIsFirstText | pkg/leetcode_parser/leetcode_parser.go:564-587 | The search yields the text of the first matching div, in pre-order, whose text is non-empty. Matched divs are never searched inside. |
| DescriptionTree.FirstNonEmptyIs | pkg/leetcode_parser/leetcode_parser.go:564-587 | The first non-empty text is "" iff all texts are empty. Otherwise it is some text with only empty texts before it. |
| DescriptionTree.FindDescriptionDiv | pkg/leetcode_parser/leetcode_parser.go:564-587 | The recursive search with its captured result equals the specification. |
| DescriptionTree.ProblemDescriptionIs | pkg/leetcode_parser/leetcode_parser.go:500-595 | Both regex branches give tidy text. Failing them, the first matching div's text is used. With no page it is "". |
| DescriptionTree.ExtractProblemDescription | pkg/leetcode_parser/leetcode_parser.go:500-595 | The method equals the specified branch order. |
| DescriptionTree.ChosenDescriptionLonger | pkg/leetcode_parser/leetcode_parser.go:87-104 | The result is the unescaped meta description or the detailed one, and it is at least as long in bytes as both. The meta description wins when it is at least as long. |
| OldFormat.Element | pkg/leetcode_parser/leetcode_parser.go:152-179 | Every line becomes one element that is a heading, a paragraph, a list item or a pre block. |
| OldFormat.ElementNotMarker | pkg/leetcode_parser/leetcode_parser.go:152-179 | No formatted line can be mistaken for an example div marker. |
| OldFormat.ExampleDivsBalanced | pkg/leetcode_parser/leetcode_parser.go:152-183 | Example divs nest properly. Each one opened is closed by a later Example line, a Constraints line or the end of input. |
| OldFormat.OneElementPerLine | pkg/leetcode_parser/leetcode_parser.go:140-179 | Blank lines are dropped and every other line yields exactly one element, in order. |
| OldFormat.BulletOnlyAfterPreamble | pkg/leetcode_parser/leetcode_parser.go:141-171 | The " * " branch is reached only when the trimmed line held the "Can you solve this real interview question? " preamble. |
| OldFormat.NormalizedStart | pkg/leetcode_parser/leetcode_parser.go:141-150 | Without the preamble, a normalised line never starts with a space. |
| OldFormat.FormatDescription | pkg/leetcode_parser/leetcode_parser.go:135-225 | The method equals the specified formatting, which starts with the CSS block. |
| OldFormat.Finish | pkg/leetcode_parser/leetcode_parser.go:181-224 | The tail closes an open example and prefixes the CSS block. |
| OldFormat.FormatLine | pkg/leetcode_parser/leetcode_parser.go:140-179 | One loop turn equals the specified step. |
| OldFormat.EmitLine | pkg/leetcode_parser/leetcode_parser.go:152-179 | The if-chain over line kinds equals the specified emission. |
| GoStrings.SplitJoin | pkg/leetcode_to_anki/leetcode_parser.go:379-395 | Splitting newline-free lines joined with newlines gives the lines back. |
| GoStrings.ReindentShape | pkg/leetcode_to_anki/leetcode_parser.go:321-331 | Re-indenting keeps the leading spaces and the trimmed text, and is idempotent. |
| Html.UnescapeTrailingNewline | pkg/leetcode_to_anki/leetcode_parser.go:376-377 | Unescaping does not touch a trailing newline. |

## Left out

- File and directory I/O are not modelled, and neither is batch orchestration: `ParseDirectory` in both packages, `ParseHTMLFile`'s file read, and the timestamp parsing of file names with `time.Parse`.
- The string cleanup inside the newer `ParseDirectory` (pkg/leetcode_to_anki/leetcode_parser.go:563-599) is not modelled. It sits inside that orchestration and shares its helpers with the description line cleanup modelled in `DescriptionLine`.
- Title extraction is not modelled. It uses the two title regexes in `ParseHTMLFile`.
- `extractImages` is not modelled: it does HTTP fetches, base64 decoding and `filepath.Base`. Its file names reach the model as the `names` parameter.
- goquery, x/net/html and `regexp` are library code. Their results are inputs. A regex over the whole page, such as the textarea, meta, Monaco, mtk, span and `<pre>` patterns, is an `Option` capture or a sequence of captures. No regex matcher is built.
- `html.UnescapeString` is modelled by `Html.Unescape`, a fixed decoder for a small entity table, not the library's full table.
- Strings are sequences of Unicode scalar values. `len` is the one place where Go's bytes matter, and it is modelled by `GoStrings.Utf8Len`.
- The map iteration that picks an image file name is modelled by a `pick` index into the names (pkg/leetcode_to_anki/leetcode_parser.go:144). Which name Go picks is not determined.
- DescriptionFormat.FormatDescription: one `pick` index is fixed for the whole description. Go starts a new map iteration in every img callback (pkg/leetcode_to_anki/leetcode_parser.go:144), so two tags may get different names. Those runs are not covered.
- `sort.Slice` is not stable. It is modelled by an insertion sort. The lemmas about it promise only sortedness and permutation, so they say nothing about the order of rows with equal tops.
- `strconv.Atoi` on the `top:(\d+)px` capture is an input `Option<nat>`. Overflow of very long digit runs is not modelled.
- The two quote replacements in `cleanCode` (pkg/leetcode_to_anki/leetcode_parser.go:404-405) replace a character by itself as the file reads, so they are left out as no-ops.
- The node tree has text, element and "other" nodes. Comments, doctype and document nodes are all "other", because the walk treats them alike.
- DescriptionLine.ImgTagSurvives: the placeholder round trip is proved only for a line with one img tag, where every tag before it closes, and where neither stripped side spells `__IMG_TAG_`. With several tags, the proof would need to rule out placeholders that overlap the text or an earlier tag.
- Debug logging, `pkg/anki_deck`, `main.go` and the tests are not modelled. Neither is any idempotence of the newer `FormatDescription`, which nothing promises.

## Findings

| source | as written | input that shows it | evidently intended | confidence | as-written member | corrected member |
|---|---|---|---|---|---|---|
| pkg/leetcode_to_anki/leetcode_parser.go:374-396 | the code is trimmed and given "\n", split, re-joined with "\n" and given another "\n", so it always ends in an empty line | any rows, e.g. one row `x` gives "x\n\n" | the code ends in a single newline | not executed | CodeAssembly.AssembleCodeEndsWithBlankLine | CodeAssembly.AssembleCodeFixed |
| pkg/leetcode_to_anki/leetcode_parser.go:113-123 | a line with both '{' and '}' sets inCSS, and every following non-blank line without '}' is then skipped | a description line `Input: s = "()[]{}"` followed by `Output: true` | a rule that opens and closes on one line is skipped on its own | not executed | DescriptionFormat.OneLineRuleSwallows | DescriptionFormat.OneLineRuleSkipped |
| pkg/leetcode_parser/leetcode_parser.go:511-515 | `&amp;` is decoded before `&quot;`, so an escaped entity is decoded twice | the page text `&amp;quot;` (the characters `&quot;`) becomes `"` | entities decoded one level deep, `&amp;` last | not executed | OldDescription.DecodeEntitiesTwice | OldDescription.DecodeEscapeFixed |
