# Structure inference for styled-document-to-Markdown conversion, in Dafny

The repository turns PDF, DOCX and PPTX files into Markdown. None of those
formats marks a heading as such, so the code infers headings from font sizes,
drops boilerplate text with a small pattern classifier, and renders what is
left. This project models the routines that make those decisions. The parser
libraries are not modelled: each routine reads abstract values in their place,
such as spans of `(text, integer score)`, paragraphs of `(style name, text)`,
grids of table cells, and integer font flags.

The modules follow the source files:

- `Text` has the Python string operations the code relies on: `str.strip`
  with Python's Unicode whitespace, `str.join`, `str.replace` of one
  character, `str.ljust`, repetition and decimal printing.
- `Outcomes` has the `Result` type. It carries the Python exceptions the code
  can raise: `IndexError`, `KeyError` and `ValueError`.
- `Tallies` models `collections.Counter` as keys in insertion order plus
  counts. It includes `most_common(1)`, where ties go to the first key
  counted, and sorting the distinct keys in descending order.
- `TextSkipping` is `should_skip`. Each of its regular expressions is written
  twice: once as a predicate that says what the pattern matches, and once as
  a scanner. A lemma proves the two agree.
- `PdfStructure` models `src/pdf/main.py`: `parse_page` with the shared score
  counter as a class, `calculate_heading_levels`, `render`, and the two page
  passes of `_main`.
- `PdfHelpers` models `src/pdf/unused/main.py`: the font-flag decoder, the
  block and line filters, the outline printer, and `collapse_lines`.
  `collapse_lines` merges runs of same-style lines in place, so its lines
  are heap objects.
- `CustomMarkdown` models `src/pdf/unused/custom_markdown.py`: the
  `IdentifyHeaders` size tally and header map, and the formatting of each
  span in `write_text`.
- `DocMarkdown` models `src/doc/main.py`: headers, footers and the section
  loop. It is proved over a generic style table, blank test and noise test,
  then applied to the file's own table, `strip()` and `should_skip`.
- `PptxTable` models `src/powerpoint/main.py`: column widths over a row-major
  cell grid, and the Markdown table lines.
- `Annotator` models `rect_intersection` over real numbers.

Operations that work by updating state are methods with loops. Each one is
proved equal to a function that states the result, and the properties are
proved as lemmas about those functions.

Some behaviours of the code that the model keeps:

- `should_skip("3024")` is true, because the numeric rule accepts any run of
  digits.
- `should_skip` only tests `len(text) == 0`. It does not strip the text first.
- `src/pdf/main.py` applies no noise filter while it builds lines.
- `parse_page` keeps every block, even an empty one.
- `render` always writes `prefix + " " + text`, so body lines start with a
  space.
- `_main` puts `"PAGE n"` before each page's lines and joins all lines with
  `"\n"`.
- A PDF with no text fails with `IndexError` in `most_common(1)[0]`.

## Model

| member | source | states |
|---|---|---|
| Text.Strip | src/pdf/main.py:48 | the stripped text neither starts nor ends with whitespace and is no longer than the input |
| Text.StripIsSlice | src/pdf/main.py:48 | `strip()` returns a contiguous slice of the input, and everything cut from either end is whitespace |
| Text.StripBlank | src/doc/main.py:15 | the stripped text is empty exactly when every character is whitespace |
| Text.LJust | src/powerpoint/main.py:49 | `ljust` keeps the text as a prefix, pads with spaces, and its length is the larger of the width and the text length |
| Text.ReplaceCharRemoves | src/doc/main.py:78 | after replacing every `"\n"` with a string that has no newline, no newline is left |
| Text.ReplaceCharLength | src/doc/main.py:78 | replacing one character with one character keeps the length |
| TextSkipping.ShouldSkip | src/utils/text_skipping.py:4-20 | skip holds exactly when the text is empty or matches the numeric/currency/percent, short-words or year pattern |
| TextSkipping.NumberScanExact | src/utils/text_skipping.py:8-10 | the scanner accepts exactly the strings matching `^[-$]?['`,.\d ]*[?%]?$` |
| TextSkipping.ShortWordsScanExact | src/utils/text_skipping.py:12-14 | the scanner accepts exactly the strings matching `^\w{,3}( \w{,3})?$` |
| TextSkipping.YearScanExact | src/utils/text_skipping.py:16-18 | the scanner accepts exactly the strings matching `^[(]?[12]\d{,3}[)]?$` |
| TextSkipping.NumberCharsSkipped | src/utils/text_skipping.py:8-10 | any run of digits, `'`, `` ` ``, `,`, `.` and spaces, with at most one leading `-`/`$` and at most one trailing `?`/`%`, is skipped |
| TextSkipping.ShortWordsSkipped | src/utils/text_skipping.py:12-14 | one word of at most 3 word characters, or two such words separated by one space, is skipped |
| TextSkipping.YearSkipped | src/utils/text_skipping.py:16-18 | an optional `(`, then `1` or `2`, up to three digits and an optional `)` is skipped; the parentheses need not pair |
| TextSkipping.FourLetterRunKept | src/utils/text_skipping.py:8-20 | a text holding four consecutive word characters, one of them a letter, is kept |
| TextSkipping.ForeignCharKept | src/utils/text_skipping.py:4-20 | a text holding a character that is not a word character, a space, or one of `- $ ' ` , . ? % ( )` is kept |
| TextSkipping.TwoSignsKept | src/utils/text_skipping.py:8-20 | a text starting with two sign or currency characters is kept |
| TextSkipping.NumberExamples | src/utils/text_skipping.py:5-10 | `""`, `"3024"`, `"$1,234.56"`, `"75%"` and `"..."` are skipped |
| TextSkipping.ShortWordsExamples | src/utils/text_skipping.py:12-14 | `"ok"`, `"an it"` and `"ab "` are skipped |
| TextSkipping.YearExamples | src/utils/text_skipping.py:16-18 | `"(1999)"`, `"(2024"` and `"2024"` are skipped |
| TextSkipping.KeptExamples | src/utils/text_skipping.py:8-20 | `"-$12"` and `"hello world"` are kept |
| Tallies.AddAllCounts | src/pdf/main.py:70 | after `Counter.update`, a key is present exactly when it was present before or was added, and its count is the old count plus the number of times it was added |
| Tallies.AddAllKeepsOrder | src/pdf/main.py:70 | updating a counter keeps the existing keys in their first-insertion order |
| Tallies.MostCommon | src/pdf/main.py:103 | `most_common(1)[0][0]` fails with IndexError exactly when the counter is empty; otherwise it returns a key whose count no other key exceeds |
| Tallies.FirstMaxIndex | src/pdf/main.py:103 | the chosen key has the largest count, and every key inserted before it has a strictly smaller count, so ties go to the first key counted |
| Tallies.SortDescending | src/pdf/main.py:104 | `sorted(keys, reverse=True)` of the distinct keys is strictly descending and holds exactly those keys |
| Tallies.DescendingOrderUnique | src/pdf/main.py:104 | there is only one strictly descending listing of a set of scores |
| Tallies.RankInDescendingOrder | src/pdf/main.py:108-112 | the index of a score in the descending order is the number of distinct scores greater than it |
| PdfStructure.ScoreCounter.Update | src/pdf/main.py:70 | `score_counter.update([s])` adds one to the count of `s`, inserting it at the end if new |
| PdfStructure.SurvivingSpansTrimmed | src/pdf/main.py:47-63 | every kept span holds stripped text |
| PdfStructure.MaxScore | src/pdf/main.py:68 | the line score is at least every span score and equals one of them |
| PdfStructure.ParseLineSpans | src/pdf/main.py:45-63 | the loop keeps exactly the spans whose stripped text is non-empty, storing the stripped text |
| PdfStructure.ParseBlock | src/pdf/main.py:40-80 | the counter gains one count per PDF line with a surviving span, keyed by the line's maximum span score; the block's Lines are the merged lines; the score set gains exactly those scores |
| PdfStructure.ParsePage | src/pdf/main.py:32-84 | the page's blocks are the merged blocks, one per input block; the counter gains the page tally; `Page.scores` is the set of line scores, strictly descending |
| PdfStructure.MergeLineWellFormed | src/pdf/main.py:72-79 | merging a PDF line into a block keeps adjacent Lines' scores different, keeps every Line non-empty, and keeps each Line's score the maximum of its spans |
| PdfStructure.BuildLinesShape | src/pdf/main.py:44-79 | a block's Lines have pairwise different adjacent scores, no empty Line, each score at least its spans' scores, and every score counted in the block tally |
| PdfStructure.BuildLinesKeepsSpans | src/pdf/main.py:61-79 | flattening a block's Lines gives exactly its surviving spans, in input order |
| PdfStructure.LineTallyScores | src/pdf/main.py:68-79 | a score is tallied for a block exactly when some Line of that block has it |
| PdfStructure.PageLinesTallied | src/pdf/main.py:32-84 | every Line of a parsed page has its score in the page tally |
| PdfStructure.CalculateHeadingLevels | src/pdf/main.py:102-114 | the loop builds the score-to-prefix map of the ranked scores, or the IndexError of an empty counter |
| PdfStructure.HeadingLevelsShape | src/pdf/main.py:102-114 | fails exactly on an empty counter; the keys are the counter's keys; the body score is the most common, with ties to the first counted; it and every lower score map to `""`; no prefix is longer than 6 `#` |
| PdfStructure.HeadingLevelsByPosition | src/pdf/main.py:104-112 | the score at descending index i maps to i+1 `#` exactly when it is above the body score and i < 6, and to `""` otherwise |
| PdfStructure.HeadingDepthIncreasesDownwards | src/pdf/main.py:104-112 | when a lower score has a heading prefix, every higher score has a strictly shorter, non-empty one |
| PdfStructure.RenderBlock | src/pdf/main.py:92-97 | one string per Line, in order; KeyError exactly when some Line's score has no prefix |
| PdfStructure.Render | src/pdf/main.py:87-99 | one string per Line of the page, in block and line order; KeyError exactly when a score is unmapped |
| PdfStructure.RenderLinesAppend | src/pdf/main.py:91-97 | rendering consecutive blocks concatenates their renderings |
| PdfStructure.RenderLinesAt | src/pdf/main.py:93-97 | the k-th rendered string is the Line's prefix, one space, and its span texts joined by single spaces |
| PdfStructure.ParsePages | src/pdf/main.py:120-122 | the first pass parses every page into one shared counter, which ends with the tally of the whole document |
| PdfStructure.ParsedPages | src/pdf/main.py:122 | page i of the result holds the blocks parsed from PDF page i |
| PdfStructure.AddAllAppend | src/pdf/main.py:120-122 | tallying page after page into one counter equals tallying the whole document at once |
| PdfStructure.AllPagesScored | src/pdf/main.py:122-130 | every Line of every parsed page has a heading level, so the second pass never raises KeyError |
| PdfStructure.RenderPages | src/pdf/main.py:126-130 | the output is `"PAGE n"` (from 1) followed by the page's rendered lines, page by page |
| PdfStructure.ConvertPdf | src/pdf/main.py:117-132 | fails with IndexError exactly when the document has no surviving line; otherwise one parsed page per input page, document-wide heading levels, and the rendered lines joined with `"\n"` |
| PdfHelpers.FlagsDecomposer | src/pdf/unused/main.py:33-51 | the result is the names of the decoded flags joined with `", "` |
| PdfHelpers.FlagListMembers | src/pdf/unused/main.py:33-49 | superscript, italic and bold appear exactly when bits 0, 1 and 4 are set; serifed when bit 2 is set and sans otherwise; monospaced when bit 3 is set and proportional otherwise; 2 to 5 names |
| PdfHelpers.FlagListOrdered | src/pdf/unused/main.py:33-51 | the names always come in the fixed order superscript, italic, serifed/sans, monospaced/proportional, bold |
| PdfHelpers.FlagListInjective | src/pdf/unused/main.py:33-49 | two flag values give the same list exactly when their low five bits agree |
| PdfHelpers.NameInjective | src/pdf/unused/main.py:36-49 | distinct flags have distinct names |
| PdfHelpers.IsBold | src/pdf/unused/main.py:54-55 | returns 0 or 1, and 1 exactly when `flags_decomposer` lists bold |
| PdfHelpers.IsSuperscript | src/pdf/unused/main.py:58-59 | true exactly when `flags_decomposer` lists superscript |
| PdfHelpers.BlockFilter | src/pdf/unused/main.py:108-109 | true exactly for blocks whose type is not 0 |
| PdfHelpers.BlockTextFilter | src/pdf/unused/main.py:112-122 | true exactly when the stripped text has length at most 1 or matches `^\d+%?$` |
| PdfHelpers.PercentScanExact | src/pdf/unused/main.py:118 | the scanner accepts exactly the strings matching `^\d+%?$` |
| PdfHelpers.BlockTextFilterDropsNumber | src/pdf/unused/main.py:112-120 | every non-empty run of digits is filtered out |
| PdfHelpers.BlockTextFilterDropsPercentage | src/pdf/unused/main.py:118-120 | digits followed by one `%` are filtered out |
| PdfHelpers.BlockTextFilterKeeps | src/pdf/unused/main.py:112-122 | a stripped text of length at least 2 holding a non-digit (other than a final `%`) is kept |
| PdfHelpers.LineFilter | src/pdf/unused/main.py:125-138 | true exactly when wmode is 1, the direction is not (1, 0), or the concatenated span text, stripped, has length at most 1 |
| PdfHelpers.LineFilterKeeps | src/pdf/unused/main.py:125-138 | a horizontal line in normal writing mode is kept when its span texts hold two non-space characters, in one span or in two |
| PdfHelpers.FormatOutline | src/pdf/unused/main.py:96-105 | the while-loop over siblings, with recursion on children, produces the outline text |
| PdfHelpers.OutlineTextStep | src/pdf/unused/main.py:98-103 | a node contributes `level` tabs, its title and `"\n"`, then its children one level deeper, then its siblings at the same level |
| PdfHelpers.OutlineTextIsPreorder | src/pdf/unused/main.py:96-105 | the outline text is one line per node in pre-order, never less indented than the starting level |
| PdfHelpers.CollapseRuns | src/pdf/unused/main.py:211-216 | the collapsed lines have different adjacent styles, and each is one maximal same-style run of the input, with the run's style |
| PdfHelpers.RunTextIsJoin | src/pdf/unused/main.py:213 | a run's merged text is its lines' texts joined by single spaces |
| PdfHelpers.CollapseIdentity | src/pdf/unused/main.py:211-216 | a block without adjacent equal styles is unchanged |
| PdfHelpers.CollapseIdempotent | src/pdf/unused/main.py:211-216 | collapsing twice is the same as collapsing once |
| PdfHelpers.CollapseKeepsText | src/pdf/unused/main.py:211-216 | joining the collapsed texts with spaces gives the same text as joining the input texts |
| PdfHelpers.CollapsedLines | src/pdf/unused/main.py:210-216 | in a collapsed block the kept lines show the collapse of the original entries, and every line not kept still holds its original text |
| PdfHelpers.CollapseBlock | src/pdf/unused/main.py:208-218 | the result lines show the collapse of the block; result line `k` is the block's own first line of run `k` (runs cut at the returned bounds); that line now holds the run's merged text, and every other line of the block is unchanged |
| PdfHelpers.CollapsePage | src/pdf/unused/main.py:204-220 | one result block per input block; in each, the result is the first line of each run of that block, showing the collapse of its original lines, and the block's other lines keep their texts |
| PdfHelpers.CollapseLines | src/pdf/unused/main.py:201-222 | one result page per page and one block per block; in each block, the result is the first line of each run, showing the collapse of the original block, and the lines merged away keep their texts |
| CustomMarkdown.SizeTallyKeys | src/pdf/unused/custom_markdown.py:18-27 | a size is in the tally exactly when some span of that size is not all ASCII whitespace |
| CustomMarkdown.SizeTallyWeights | src/pdf/unused/custom_markdown.py:18-27 | the tally of a size is the total stripped-text length of the counted spans of that size |
| CustomMarkdown.BlankSpanCountsNothing | src/pdf/unused/custom_markdown.py:23-27 | a span of only Unicode whitespace that is not all ASCII whitespace enters its size into the tally with weight 0 |
| CustomMarkdown.TallySizes | src/pdf/unused/custom_markdown.py:13-27 | the loop builds the size tally, with keys in first-insertion order |
| CustomMarkdown.NumberSizes | src/pdf/unused/custom_markdown.py:38-41 | numbering the sizes above the limit in descending order gives i+1 `#` and a space to the i-th |
| CustomMarkdown.BuildHeaderIds | src/pdf/unused/custom_markdown.py:29-41 | the constructor's header map, or the IndexError of an empty tally with no body limit |
| CustomMarkdown.HeaderIdsKeys | src/pdf/unused/custom_markdown.py:31-41 | fails exactly when no body limit is given and the tally is empty; otherwise the map has an entry exactly for the tallied sizes above the limit |
| CustomMarkdown.BodySizeIsMostUsed | src/pdf/unused/custom_markdown.py:31-36 | with no body limit, the limit is the size with the largest tally, ties going to the first inserted, and that size has no header |
| CustomMarkdown.HeaderIdsByPosition | src/pdf/unused/custom_markdown.py:38-41 | the i-th largest size above the limit maps to i+1 `#` and a space |
| CustomMarkdown.HeaderIdsUncapped | src/pdf/unused/custom_markdown.py:38-41 | there is no depth cap: the smallest heading size gets as many `#` as there are sizes above the limit |
| CustomMarkdown.HeaderDepthIncreasesDownwards | src/pdf/unused/custom_markdown.py:38-41 | a larger heading size gets a strictly shorter prefix |
| CustomMarkdown.IdentifyHeaders.constructor | src/pdf/unused/custom_markdown.py:8-41 | the object holds the header map of the given tally and limit |
| CustomMarkdown.Identify | src/pdf/unused/custom_markdown.py:8-41 | builds the object from the span tally, or fails with IndexError exactly when no limit is given and no span is counted |
| CustomMarkdown.IdentifyHeaders.GetHeaderId | src/pdf/unused/custom_markdown.py:43-51 | non-empty exactly for tallied sizes above the body limit, and then the size's numbered prefix; `""` for the body size and all smaller sizes |
| CustomMarkdown.EscapeLessThan | src/pdf/unused/custom_markdown.py:127-128 | `<` becomes `&lt;` |
| CustomMarkdown.EscapeGreaterThan | src/pdf/unused/custom_markdown.py:129 | `>` becomes `&gt;` |
| CustomMarkdown.EscapeBullet | src/pdf/unused/custom_markdown.py:130-133 | U+F0B7, U+00B7, U+2022 and U+25CF each become `-` |
| CustomMarkdown.EscapeOther | src/pdf/unused/custom_markdown.py:127-134 | every other character is kept |
| CustomMarkdown.EscapeAppend | src/pdf/unused/custom_markdown.py:127-134 | the replace chain works character by character over a concatenation |
| CustomMarkdown.EscapeIsEachChar | src/pdf/unused/custom_markdown.py:127-134 | the replace chain equals replacing each character independently |
| CustomMarkdown.MarkersNest | src/pdf/unused/custom_markdown.py:105-120 | span 0 gets `#` and no emphasis; later spans open with `**` then `_` and close in the reverse order |
| CustomMarkdown.FormatSpanLayout | src/pdf/unused/custom_markdown.py:105-135 | a non-monospaced span is opening markers, the escaped stripped text or link, closing markers and a space |
| CustomMarkdown.FormatSpanEscaped | src/pdf/unused/custom_markdown.py:127-134 | a formatted non-monospaced span holds no `<`, `>` or bullet character |
| CustomMarkdown.MonoSpanVerbatim | src/pdf/unused/custom_markdown.py:98-103 | a monospaced span is a backtick, its stripped text unescaped, a backtick and a space, whatever its index and link |
| CustomMarkdown.FormatSpanEndsWithSpace | src/pdf/unused/custom_markdown.py:103-126 | every formatted span ends with a space |
| CustomMarkdown.FormatSpansEscaped | src/pdf/unused/custom_markdown.py:97-135 | a line of non-monospaced spans contributes no `<`, `>` or bullet character |
| CustomMarkdown.FormatSpanText | src/pdf/unused/custom_markdown.py:98-134 | the branchy formatting of one span computes its formatted text |
| CustomMarkdown.WriteSpans | src/pdf/unused/custom_markdown.py:97-135 | the span loop appends each span's formatted text to the output, in order |
| DocMarkdown.HeaderFooterLinesSpec | src/doc/main.py:12-19 | KeyError exactly when a non-blank paragraph has an unlisted style; otherwise one line per non-blank paragraph, in order, the style prefix followed by the unmodified text |
| DocMarkdown.HeaderFooterToMarkdown | src/doc/main.py:12-19 | the loop computes the header or footer lines, stopping at the first KeyError |
| DocMarkdown.BodyLinesSpec | src/doc/main.py:74-84 | KeyError exactly when an emitted body item has an unlisted style; otherwise one line per emitted item, in order, the prefix followed by the text with newlines made spaces |
| DocMarkdown.BodyItemsPartition | src/doc/main.py:74-84 | every body item is exactly one of blank, skipped as noise, or emitted |
| DocMarkdown.EmittedTextIsOneLine | src/doc/main.py:75-78 | an emitted body text has no newline and keeps its (non-zero) length |
| DocMarkdown.AppendBody | src/doc/main.py:74-84 | the body loop appends the body lines, and the skip counter gains exactly the skipped texts |
| DocMarkdown.AppendSection | src/doc/main.py:72-86 | one section appends its header lines, body lines and footer lines in that order, or the first KeyError |
| DocMarkdown.DocumentLinesAppend | src/doc/main.py:69-86 | the lines of consecutive sections are the concatenation of each section's lines |
| DocMarkdown.DocumentLinesNonEmpty | src/doc/main.py:69-86 | no emitted line is empty |
| DocMarkdown.MarkdownEmptyIffNoLines | src/doc/main.py:95 | the output is empty exactly when no line was emitted |
| DocMarkdown.SectionsToMarkdown | src/doc/main.py:67-95 | the section loop gives the document lines joined with `"\n\n"`, or the first KeyError, and the skip counter is the multiset of all skipped texts |
| DocMarkdown.ToMarkdown | src/doc/main.py:52-95 | the same, with the file's style table, `strip()` blank test and `should_skip` |
| DocMarkdown.WordRulesBlank | src/doc/main.py:15 | a paragraph counts as blank exactly when all its characters are whitespace |
| DocMarkdown.NoisyItemCounted | src/doc/main.py:80-82 | a noisy item emits no line and is counted once |
| DocMarkdown.YearItemCounted | src/doc/main.py:78-82 | a body item `"2024"` is skipped and counted even when its style is not in the table |
| DocMarkdown.StyleTableExamples | src/doc/main.py:56-65 | `"Subheading"` maps to `"## "`, `"Body"` to `""`, and `"Normal"` has no entry |
| PptxTable.ColWidthsSpec | src/powerpoint/main.py:7-24 | ValueError exactly when there are columns but no rows; otherwise one width per column, the largest cell width in that column, where merged and spanned cells count 0 |
| PptxTable.MergedColumnHasNoWidth | src/powerpoint/main.py:17-18 | a column of merged or spanned cells has width 0 |
| PptxTable.CalculateColCharWidths | src/powerpoint/main.py:7-24 | the row and column loops compute the column widths |
| PptxTable.AppendRowWidths | src/powerpoint/main.py:15-22 | one row's inner loop appends each cell's width to its column's list |
| PptxTable.TableToMarkdown | src/powerpoint/main.py:27-56 | the table lines, or the ValueError of the width computation |
| PptxTable.RowsToLines | src/powerpoint/main.py:32-54 | the row loop emits each row's line, with the separator before row 1 |
| PptxTable.RowToLine | src/powerpoint/main.py:42-54 | the column loop pads each cell and frames the row |
| PptxTable.TableLines | src/powerpoint/main.py:32-54 | rows+1 lines for at least two rows, and one line per row otherwise |
| PptxTable.TableLinesLayout | src/powerpoint/main.py:32-54 | line 0 is row 0, line 1 is the separator, and row r ≥ 1 is line r+1 |
| PptxTable.TableLinesFramed | src/powerpoint/main.py:35-38 | every emitted line starts with `"| "` and ends with `" |"` |
| PptxTable.SeparatorRuns | src/powerpoint/main.py:35-37 | the separator holds one run of `-` per column, as long as the column width |
| PptxTable.PadOrdinary | src/powerpoint/main.py:48-49 | an ordinary cell is padded with spaces to exactly the column width, its text kept as a prefix |
| PptxTable.PadMerged | src/powerpoint/main.py:46-47 | a merged or spanned cell is emitted unpadded |
| PptxTable.OrdinaryCellsFillColumn | src/powerpoint/main.py:44-49 | every ordinary cell fits its column and is padded to exactly its width, never truncated |
| PptxTable.MergedCellOverflows | src/powerpoint/main.py:17-47 | a merged cell can be wider than its column, because it counts 0 towards the width |
| Annotator.IntersectionIsSharedPoint | src/utils/annotator.py:9-15 | two rectangles intersect exactly when some point lies strictly inside both |
| Annotator.IntersectionSymmetric | src/utils/annotator.py:9-15 | the test is symmetric in its arguments |
| Annotator.CornerOrderIrrelevant | src/utils/annotator.py:10-13 | swapping the x or the y coordinates of either rectangle changes nothing |
| Annotator.TouchingRectsDoNotIntersect | src/utils/annotator.py:15 | rectangles that only share an edge or a corner do not intersect |
| Annotator.DegenerateRectIntersectsNothing | src/utils/annotator.py:10-15 | a rectangle of zero width or height intersects nothing |
| Annotator.SelfIntersection | src/utils/annotator.py:10-15 | a rectangle intersects itself exactly when its width and height are non-zero |

## Left out

- Parsing is not modelled: fitz `open`/`pages`/`get_text`, python-docx `Document` and python-pptx `Presentation`. Their output comes in as sequences of spans, paragraphs or cells.
- `round(size)` is not modelled, because it is floating point. Scores and font sizes come in as integers.
- `calculate_line_score`, `scale_rect` and `resolve_links` are not modelled, because they are floating-point geometry. The link text of a span is an optional input.
- `load_text`, `find_clip_rects`, the custom_markdown `to_markdown`, `collapse_blocks`, `collect_source_references` and the pandas and PIL helpers are not part of this model. They depend on parser dictionaries or floating point, are unfinished, or are never called.
- `paragraph_to_markdown` is not modelled. Its call is switched off by `should_use_paragraphs = False`.
- The pptx `to_markdown` driver and every file read and write are not modelled.
- `pprint` of the skip counter is not modelled. The counter is returned instead.
- The unused `max_score`/`min_score` of `parse_page` and `previous_y` of `write_text` are not modelled. They do not affect any output.
- The outer loops of `write_text` are not modelled: rotated-line skipping and the newlines between lines and blocks. Only the formatting of the spans of one line is modelled.
- `IdentifyHeaders` does not iterate `doc.pages`. It tallies a given list of spans.
- `get_header_id` is modelled, but its call in `write_text` is commented out, so span 0 always gets `"#"`.
- TextSkipping.ShouldSkip: `\d` and `\w` are modelled as ASCII digits and ASCII word characters, and `$` as the end of the string. In Python `\d` and `\w` also match non-ASCII digits and letters, and `$` also matches before a single trailing newline, so a Unicode text or one ending in `"\n"` may be classified differently.
- PdfHelpers.BlockTextFilter: `\d` is modelled as ASCII digits only, as in should_skip.
- PdfHelpers.CollapseLines: requires the line objects to be pairwise distinct. The Python function also runs when one dict appears twice, but the model's frame reasoning does not cover that aliasing.
- PdfStructure.ParsePage: `current_line.spans += spans` extends the open Line's list in place. The model replaces the last Line with an extended copy. This is the same value, because nothing else holds that list.
- Annotator.RectIntersection: coordinates are finite reals. NaN and the infinities of Python floats are not modelled; with a NaN coordinate the Python comparison is false, while no model input has one.
- Text direction (`PdfHelpers.LineFilter`) and the body size limit (`CustomMarkdown.BodyLimit`) are finite reals in the same way; rounding of float arithmetic is not modelled.
- PptxTable.CalculateColCharWidths: the stateful `iter_cells()` iterator is modelled as indexing a row-major grid that holds exactly one cell per (row, column).
