/**
 * The PDF pipeline: spans of each PDF line are stripped and scored,
 * consecutive PDF lines of a block with the same score are merged into one
 * Line, a document-wide counter tallies one count per PDF line, the scores
 * are ranked against the most common ("body") score to give heading
 * prefixes, and every Line is rendered as `prefix + " " + text`.
 *
 * A score is the rounded font size of a span, taken here as an integer
 * supplied by the PDF parser.
 */
module PdfStructure {
  import opened Outcomes
  import opened Text
  import opened Tallies

  /** A span as the PDF parser hands it over. */
  datatype RawSpan = RawSpan(text: string, size: int)
  type RawLine = seq<RawSpan>
  type RawBlock = seq<RawLine>
  type RawPage = seq<RawBlock>

  datatype Span = Span(score: int, text: string)
  datatype Line = Line(score: int, spans: seq<Span>)
  datatype Block = Block(lines: seq<Line>)
  datatype Page = Page(scores: seq<int>, blocks: seq<Block>)

  /** The `collections.Counter` of line scores shared by all pages of a document. */
  class ScoreCounter {
    var keys: seq<int>
    var counts: map<int, nat>

    function Value(): Tally
      reads this
    {
      Tally(keys, counts)
    }

    ghost predicate Valid()
      reads this
    {
      Value().Valid()
    }

    constructor ()
      ensures Valid() && Value() == Empty
    {
      keys, counts := [], map[];
    }

    /** `counter.update([score])`. */
    method Update(score: int)
      requires Valid()
      modifies this
      ensures Valid() && Value() == Add(old(Value()), score, 1)
    {
      if score in counts {
        counts := counts[score := counts[score] + 1];
      } else {
        keys := keys + [score];
        counts := counts[score := 1];
      }
    }
  }

  // ---------------------------------------------------------------------
  // What parse_page builds, stated as functions of the parser's output.

  /** The spans of a PDF line whose stripped text is not empty, holding that stripped text. */
  function SurvivingSpans(l: RawLine): (r: seq<Span>)
    ensures |r| <= |l|
  {
    if l == [] then []
    else
      var front := SurvivingSpans(l[..|l| - 1]);
      var text := Strip(l[|l| - 1].text);
      if text == [] then front else front + [Span(l[|l| - 1].size, text)]
  }

  predicate Trimmed(text: string) {
    text != [] && !IsSpace(text[0]) && !IsSpace(text[|text| - 1])
  }

  /** Every surviving span holds non-empty text with no whitespace at either end. */
  lemma {:induction false} SurvivingSpansTrimmed(l: RawLine)
    ensures forall k :: 0 <= k < |SurvivingSpans(l)| ==> Trimmed(SurvivingSpans(l)[k].text)
  {
    if l != [] {
      var front := SurvivingSpans(l[..|l| - 1]);
      SurvivingSpansTrimmed(l[..|l| - 1]);
      var text := Strip(l[|l| - 1].text);
      if text != [] {
        assert Trimmed(text);
        var r := front + [Span(l[|l| - 1].size, text)];
        assert SurvivingSpans(l) == r;
        forall k | 0 <= k < |r| ensures Trimmed(r[k].text) {
          if k < |front| {
            assert r[k] == front[k];
          }
        }
      } else {
        assert SurvivingSpans(l) == front;
      }
    }
  }

  /** `max(span.score for span in spans)`. */
  function MaxScore(spans: seq<Span>): (m: int)
    requires spans != []
    ensures forall k :: 0 <= k < |spans| ==> spans[k].score <= m
    ensures exists k :: 0 <= k < |spans| && spans[k].score == m
  {
    if |spans| == 1 then spans[0].score
    else
      var front := MaxScore(spans[..|spans| - 1]);
      var last := spans[|spans| - 1].score;
      if last > front then last else front
  }

  /** Appends the spans of one PDF line to the Lines of its block so far. */
  function MergeLine(lines: seq<Line>, spans: seq<Span>): seq<Line>
    requires spans != []
  {
    var score := MaxScore(spans);
    if lines != [] && lines[|lines| - 1].score == score then
      lines[..|lines| - 1] + [Line(score, lines[|lines| - 1].spans + spans)]
    else
      lines + [Line(score, spans)]
  }

  /** The Lines of a block. */
  function BuildLines(ls: seq<RawLine>): seq<Line>
  {
    if ls == [] then []
    else
      var lines := BuildLines(ls[..|ls| - 1]);
      var spans := SurvivingSpans(ls[|ls| - 1]);
      if spans == [] then lines else MergeLine(lines, spans)
  }

  /** The scores a block adds to the counter: one per PDF line with a surviving span. */
  function LineTally(ls: seq<RawLine>): seq<int>
  {
    if ls == [] then []
    else
      var spans := SurvivingSpans(ls[|ls| - 1]);
      LineTally(ls[..|ls| - 1]) + (if spans == [] then [] else [MaxScore(spans)])
  }

  function BuildBlocks(page: RawPage): (r: seq<Block>)
    ensures |r| == |page|
  {
    if page == [] then [] else BuildBlocks(page[..|page| - 1]) + [Block(BuildLines(page[|page| - 1]))]
  }

  function PageTally(page: RawPage): seq<int>
  {
    if page == [] then [] else PageTally(page[..|page| - 1]) + LineTally(page[|page| - 1])
  }

  lemma SurvivingSpansStep(l: RawLine, si: nat)
    requires si < |l|
    ensures SurvivingSpans(l[..si + 1]) ==
      var text := Strip(l[si].text);
      if text == [] then SurvivingSpans(l[..si]) else SurvivingSpans(l[..si]) + [Span(l[si].size, text)]
  {
    assert l[..si + 1][..si] == l[..si];
  }

  lemma BlockStep(b: RawBlock, li: nat)
    requires li < |b|
    ensures var spans := SurvivingSpans(b[li]);
      && BuildLines(b[..li + 1]) == (if spans == [] then BuildLines(b[..li]) else MergeLine(BuildLines(b[..li]), spans))
      && LineTally(b[..li + 1]) == LineTally(b[..li]) + (if spans == [] then [] else [MaxScore(spans)])
  {
    assert b[..li + 1][..li] == b[..li];
  }

  lemma PageStep(raw: RawPage, bi: nat)
    requires bi < |raw|
    ensures BuildBlocks(raw[..bi + 1]) == BuildBlocks(raw[..bi]) + [Block(BuildLines(raw[bi]))]
    ensures PageTally(raw[..bi + 1]) == PageTally(raw[..bi]) + LineTally(raw[bi])
  {
    assert raw[..bi + 1][..bi] == raw[..bi];
  }

  lemma MergeLineStarts(lines: seq<Line>, spans: seq<Span>)
    requires spans != [] && (lines == [] || lines[|lines| - 1].score != MaxScore(spans))
    ensures MergeLine(lines, spans) == lines + [Line(MaxScore(spans), spans)]
  {
  }

  lemma MergeLineExtends(lines: seq<Line>, spans: seq<Span>)
    requires spans != [] && lines != [] && lines[|lines| - 1].score == MaxScore(spans)
    ensures MergeLine(lines, spans) == lines[..|lines| - 1] + [Line(MaxScore(spans), lines[|lines| - 1].spans + spans)]
  {
  }

  lemma AddAllSnoc(t: Tally, xs: seq<int>, x: int)
    requires t.Valid()
    ensures AddAll(t, xs + [x]) == Add(AddAll(t, xs), x, 1)
  {
    assert (xs + [x])[..|xs|] == xs;
  }

  /** The innermost loop of `parse_page`: the stripped, non-empty spans of one PDF line. */
  method ParseLineSpans(l: RawLine) returns (spans: seq<Span>)
    ensures spans == SurvivingSpans(l)
  {
    spans := [];
    for si := 0 to |l|
      invariant spans == SurvivingSpans(l[..si])
    {
      SurvivingSpansStep(l, si);
      var text := Strip(l[si].text);
      if |text| == 0 {
        continue;
      }
      spans := spans + [Span(l[si].size, text)];
    }
    assert l[..|l|] == l;
  }

  /**
   * The loop of `parse_page` over the PDF lines of one block: it counts one
   * score per PDF line with a surviving span, adds that score to the page's
   * set of scores, and merges the line into the current Line when their
   * scores agree.
   */
  method ParseBlock(b: RawBlock, counter: ScoreCounter, scores: seq<int>) returns (lines: seq<Line>, scores': seq<int>)
    requires counter.Valid() && Distinct(scores)
    modifies counter
    ensures counter.Valid()
    ensures counter.Value() == AddAll(old(counter.Value()), LineTally(b))
    ensures lines == BuildLines(b)
    ensures Distinct(scores') && forall x :: x in scores' <==> x in scores || x in LineTally(b)
  {
    ghost var start := counter.Value();
    ghost var tallied: seq<int> := [];
    scores' := scores;
    lines := [];
    for li := 0 to |b|
      invariant counter.Valid()
      invariant tallied == LineTally(b[..li])
      invariant counter.Value() == AddAll(start, tallied)
      invariant lines == BuildLines(b[..li])
      invariant Distinct(scores') && forall x :: x in scores' <==> x in scores || x in tallied
    {
      var spans := ParseLineSpans(b[li]);
      BlockStep(b, li);
      if |spans| == 0 {
        continue;
      }
      var maxSpanScore := MaxScore(spans);
      if maxSpanScore !in scores' {
        DistinctSnoc(scores', maxSpanScore);
        scores' := scores' + [maxSpanScore];
      }
      counter.Update(maxSpanScore);
      AddAllSnoc(start, tallied, maxSpanScore);
      tallied := tallied + [maxSpanScore];

      // `current_line` is always the last Line of `lines`
      var lineScore := maxSpanScore;
      if |lines| == 0 || lines[|lines| - 1].score != lineScore {
        MergeLineStarts(lines, spans);
        lines := lines + [Line(lineScore, spans)];
      } else {
        MergeLineExtends(lines, spans);
        var current := lines[|lines| - 1];
        lines := lines[..|lines| - 1] + [Line(current.score, current.spans + spans)];
      }
    }
    assert b[..|b|] == b;
  }

  /** `parse_page`: one Block per parser block, and the page's scores in descending order. */
  method ParsePage(raw: RawPage, counter: ScoreCounter) returns (page: Page)
    requires counter.Valid()
    modifies counter
    ensures counter.Valid()
    ensures counter.Value() == AddAll(old(counter.Value()), PageTally(raw))
    ensures page.blocks == BuildBlocks(raw)
    ensures IsDescendingOrder(page.scores, set x | x in PageTally(raw))
  {
    ghost var start := counter.Value();
    var scores: seq<int> := [];  // the set `scores`, kept free of repetitions
    var blocks: seq<Block> := [];
    for bi := 0 to |raw|
      invariant counter.Valid()
      invariant counter.Value() == AddAll(start, PageTally(raw[..bi]))
      invariant blocks == BuildBlocks(raw[..bi])
      invariant Distinct(scores) && forall x :: x in scores <==> x in PageTally(raw[..bi])
    {
      ghost var before := counter.Value();
      var lines;
      lines, scores := ParseBlock(raw[bi], counter, scores);
      PageStep(raw, bi);
      AddAllAppend(start, PageTally(raw[..bi]), LineTally(raw[bi]));
      blocks := blocks + [Block(lines)];
    }
    assert raw[..|raw|] == raw;
    var sorted := SortDescending(scores);
    page := Page(sorted, blocks);
  }

  // ---------------------------------------------------------------------
  // Properties of the Lines and Blocks built.

  function AllSpans(lines: seq<Line>): seq<Span>
  {
    if lines == [] then [] else AllSpans(lines[..|lines| - 1]) + lines[|lines| - 1].spans
  }

  function AllSurvivingSpans(ls: seq<RawLine>): seq<Span>
  {
    if ls == [] then [] else AllSurvivingSpans(ls[..|ls| - 1]) + SurvivingSpans(ls[|ls| - 1])
  }

  function Scores(lines: seq<Line>): (r: seq<int>)
    ensures |r| == |lines| && forall k :: 0 <= k < |lines| ==> r[k] == lines[k].score
  {
    if lines == [] then [] else Scores(lines[..|lines| - 1]) + [lines[|lines| - 1].score]
  }

  predicate AdjacentScoresDiffer(lines: seq<Line>) {
    forall k :: 0 <= k < |lines| - 1 ==> lines[k].score != lines[k + 1].score
  }

  predicate NoEmptyLine(lines: seq<Line>) {
    forall k :: 0 <= k < |lines| ==> lines[k].spans != []
  }

  /** Every span of a Line scores at most the Line's score. */
  predicate LineScoreIsMax(lines: seq<Line>) {
    forall k, j :: 0 <= k < |lines| && 0 <= j < |lines[k].spans| ==> lines[k].spans[j].score <= lines[k].score
  }

  predicate WellFormedLines(lines: seq<Line>) {
    AdjacentScoresDiffer(lines) && NoEmptyLine(lines) && LineScoreIsMax(lines)
  }

  lemma MergeLineWellFormed(lines: seq<Line>, spans: seq<Span>)
    requires spans != [] && WellFormedLines(lines)
    ensures WellFormedLines(MergeLine(lines, spans))
  {
    var score := MaxScore(spans);
    var merged := MergeLine(lines, spans);
    if lines != [] && lines[|lines| - 1].score == score {
      var n := |lines| - 1;
      assert merged[..n] == lines[..n];
      forall k, j | 0 <= k < |merged| && 0 <= j < |merged[k].spans|
        ensures merged[k].spans[j].score <= merged[k].score
      {
        if k == n && j >= |lines[n].spans| {
          assert merged[k].spans[j] == spans[j - |lines[n].spans|];
        }
      }
    } else {
      assert merged[..|lines|] == lines;
    }
  }

  /**
   * Within a block no two adjacent Lines share a score, no Line is empty,
   * and every span of a Line scores at most the Line's score, which is one
   * of the block's tallied scores.
   */
  lemma {:induction false} BuildLinesShape(ls: seq<RawLine>)
    ensures WellFormedLines(BuildLines(ls))
    ensures forall k :: 0 <= k < |BuildLines(ls)| ==> BuildLines(ls)[k].score in LineTally(ls)
  {
    if ls != [] {
      BuildLinesShape(ls[..|ls| - 1]);
      var spans := SurvivingSpans(ls[|ls| - 1]);
      if spans != [] {
        MergeLineWellFormed(BuildLines(ls[..|ls| - 1]), spans);
      }
    }
    LineTallyScores(ls);
  }

  lemma MergeLineSpans(lines: seq<Line>, spans: seq<Span>)
    requires spans != []
    ensures AllSpans(MergeLine(lines, spans)) == AllSpans(lines) + spans
  {
    var merged := MergeLine(lines, spans);
    if lines != [] && lines[|lines| - 1].score == MaxScore(spans) {
      var n := |lines| - 1;
      assert merged[..n] == lines[..n];
      assert AllSpans(lines) == AllSpans(lines[..n]) + lines[n].spans;
    } else {
      assert merged[..|lines|] == lines;
    }
  }

  /** Flattening a block's Lines gives back its surviving spans, in order: no span is lost. */
  lemma {:induction false} BuildLinesKeepsSpans(ls: seq<RawLine>)
    ensures AllSpans(BuildLines(ls)) == AllSurvivingSpans(ls)
  {
    if ls != [] {
      BuildLinesKeepsSpans(ls[..|ls| - 1]);
      var spans := SurvivingSpans(ls[|ls| - 1]);
      if spans != [] {
        MergeLineSpans(BuildLines(ls[..|ls| - 1]), spans);
      }
    }
  }

  /** The tally of a block holds exactly the scores of its Lines. */
  lemma {:induction false} LineTallyScores(ls: seq<RawLine>)
    ensures forall x :: x in LineTally(ls) <==> x in Scores(BuildLines(ls))
  {
    if ls != [] {
      var front := ls[..|ls| - 1];
      LineTallyScores(front);
      var lines := BuildLines(front);
      var spans := SurvivingSpans(ls[|ls| - 1]);
      if spans != [] {
        var score := MaxScore(spans);
        var merged := MergeLine(lines, spans);
        if lines != [] && lines[|lines| - 1].score == score {
          var n := |lines| - 1;
          assert Scores(merged) == Scores(lines) by {
            assert Scores(merged)[n] == Scores(lines)[n];
          }
        } else {
          assert Scores(merged) == Scores(lines) + [score];
        }
      }
    }
  }

  function PageLines(blocks: seq<Block>): seq<Line>
  {
    if blocks == [] then [] else PageLines(blocks[..|blocks| - 1]) + blocks[|blocks| - 1].lines
  }

  /** Every Line of a parsed page has its score in the page's tally. */
  lemma {:induction false} PageLinesTallied(raw: RawPage)
    ensures forall l :: l in PageLines(BuildBlocks(raw)) ==> l.score in PageTally(raw)
  {
    if raw != [] {
      var front := raw[..|raw| - 1];
      PageLinesTallied(front);
      BuildLinesShape(raw[|raw| - 1]);
      assert BuildBlocks(raw)[..|front|] == BuildBlocks(front);
    }
  }

  // ---------------------------------------------------------------------
  // calculate_heading_levels

  const MaxHeadingLevels := 6

  /**
   * The prefix of a score: as many `#` as its position in the descending
   * order of the scores, counted from 1, when it is above the body score
   * and among the first six; otherwise empty.
   */
  function Prefix(body: int, scores: set<int>, s: int): string
  {
    var rank := Rank(scores, s);
    if s <= body || rank >= MaxHeadingLevels then "" else Repeat('#', rank + 1)
  }

  /** The map `calculate_heading_levels` returns for a tally, or its IndexError. */
  function HeadingLevels(t: Tally): Result<map<int, string>>
    requires t.Valid()
  {
    match MostCommon(t)
    case Err(e) => Err(e)
    case Ok(body) => Ok(map s | s in t.counts :: Prefix(body, t.counts.Keys, s))
  }

  lemma LevelsAsMapped(levels: map<int, string>, scores: set<int>, body: int)
    requires levels.Keys == scores
    requires forall s :: s in levels ==> levels[s] == Prefix(body, scores, s)
    ensures levels == map s | s in scores :: Prefix(body, scores, s)
  {
  }

  method CalculateHeadingLevels(counter: ScoreCounter) returns (r: Result<map<int, string>>)
    requires counter.Valid()
    ensures r == HeadingLevels(counter.Value())
  {
    var t := counter.Value();
    var mostCommon := MostCommon(t);
    if mostCommon.Err? {
      return Err(mostCommon.error);
    }
    var bodyScore := mostCommon.value;
    var headingScoreLevels := SortDescending(counter.keys);
    KeySet(t);
    var levelForScore: map<int, string> := map[];
    for index := 0 to |headingScoreLevels|
      invariant forall x :: x in levelForScore <==> x in headingScoreLevels[..index]
      invariant forall s :: s in levelForScore ==> levelForScore[s] == Prefix(bodyScore, t.counts.Keys, s)
    {
      var score := headingScoreLevels[index];
      RankInDescendingOrder(headingScoreLevels, t.counts.Keys, index);
      if score <= bodyScore || index >= MaxHeadingLevels {
        levelForScore := levelForScore[score := ""];
      } else {
        levelForScore := levelForScore[score := Repeat('#', index + 1)];
      }
      assert headingScoreLevels[..index + 1] == headingScoreLevels[..index] + [score];
    }
    assert headingScoreLevels[..|headingScoreLevels|] == headingScoreLevels;
    forall x ensures x in levelForScore <==> x in t.counts {
      assert x in headingScoreLevels <==> x in (set y | y in counter.keys);
    }
    assert levelForScore.Keys == t.counts.Keys;
    LevelsAsMapped(levelForScore, t.counts.Keys, bodyScore);
    r := Ok(levelForScore);
  }

  /**
   * The map has an entry for every counted score; the most common score
   * (the first counted among equals) and every score at or below it map to
   * "", and no prefix is longer than six `#`.
   */
  lemma HeadingLevelsShape(t: Tally)
    requires t.Valid()
    ensures HeadingLevels(t).Err? <==> t.keys == []
    ensures HeadingLevels(t).Ok? ==>
      var levels, body := HeadingLevels(t).value, MostCommon(t).value;
      && levels.Keys == t.counts.Keys
      && (forall k :: k in t.counts ==> t.counts[k] <= t.counts[body])
      && (forall j :: 0 <= j < |t.keys| && t.keys[j] == body ==> forall i :: 0 <= i < j ==> t.counts[t.keys[i]] < t.counts[body])
      && levels[body] == ""
      && (forall s :: s in levels && s <= body ==> levels[s] == "")
      && (forall s :: s in levels ==> |levels[s]| <= MaxHeadingLevels && forall c :: c in levels[s] ==> c == '#')
  {
    if t.keys != [] {
      var i := FirstMaxIndex(t.keys, t.counts);
      forall j | 0 <= j < |t.keys| && t.keys[j] == t.keys[i]
        ensures j == i
      {
      }
    }
  }

  /**
   * The score at position i of the descending order gets i + 1 `#` exactly
   * when it is above the body score and i < 6, and "" otherwise; higher
   * heading scores get strictly shorter prefixes.
   */
  lemma HeadingLevelsByPosition(t: Tally, ordered: seq<int>, i: nat)
    requires t.Valid() && t.keys != []
    requires IsDescendingOrder(ordered, t.counts.Keys) && i < |ordered|
    ensures var levels, body := HeadingLevels(t).value, MostCommon(t).value;
      levels[ordered[i]] == if ordered[i] > body && i < MaxHeadingLevels then Repeat('#', i + 1) else ""
  {
    RankInDescendingOrder(ordered, t.counts.Keys, i);
  }

  lemma HeadingDepthIncreasesDownwards(t: Tally, s: int, u: int)
    requires t.Valid() && t.keys != []
    requires s in t.counts && u in t.counts && s > u
    requires HeadingLevels(t).value[u] != ""
    ensures var levels := HeadingLevels(t).value;
      levels[s] != "" && |levels[s]| < |levels[u]|
  {
    RankDecreasing(t.counts.Keys, s, u);
  }

  // ---------------------------------------------------------------------
  // render

  function SpanTexts(spans: seq<Span>): (r: seq<string>)
    ensures |r| == |spans| && forall k :: 0 <= k < |spans| ==> r[k] == spans[k].text
  {
    if spans == [] then [] else SpanTexts(spans[..|spans| - 1]) + [spans[|spans| - 1].text]
  }

  /** `" ".join(span.text for span in line.spans)`. */
  function LineText(line: Line): string
  {
    Join(" ", SpanTexts(line.spans))
  }

  ghost predicate AllScored(lines: seq<Line>, levels: map<int, string>) {
    forall k :: 0 <= k < |lines| ==> lines[k].score in levels
  }

  /** The rendered form of each Line: its prefix, one space, its text. */
  function RenderLines(lines: seq<Line>, levels: map<int, string>): (r: seq<string>)
    requires AllScored(lines, levels)
    ensures |r| == |lines|
  {
    if lines == [] then []
    else
      var last := lines[|lines| - 1];
      RenderLines(lines[..|lines| - 1], levels) + [levels[last.score] + " " + LineText(last)]
  }

  /** The inner loop of `render`: the Lines of one block, or a KeyError for an unmapped score. */
  method RenderBlock(lines: seq<Line>, levels: map<int, string>) returns (r: Result<seq<string>>)
    ensures r.Ok? <==> AllScored(lines, levels)
    ensures r.Err? ==> r.error == KeyError
    ensures r.Ok? ==> r.value == RenderLines(lines, levels)
  {
    var results: seq<string> := [];
    for li := 0 to |lines|
      invariant AllScored(lines[..li], levels)
      invariant results == RenderLines(lines[..li], levels)
    {
      var line := lines[li];
      var text := LineText(line);
      if line.score !in levels {
        assert !AllScored(lines, levels) by {
          assert lines[li].score !in levels;
        }
        return Err(KeyError);
      }
      var prefix := levels[line.score];
      RenderLinesSnoc(lines[..li], line, levels);
      assert lines[..li + 1] == lines[..li] + [line];
      results := results + [prefix + " " + text];
    }
    assert lines[..|lines|] == lines;
    r := Ok(results);
  }

  /** `render`: one string per Line in block and line order, or a KeyError for an unmapped score. */
  method Render(page: Page, levels: map<int, string>) returns (r: Result<seq<string>>)
    ensures r.Ok? <==> AllScored(PageLines(page.blocks), levels)
    ensures r.Err? ==> r.error == KeyError
    ensures r.Ok? ==> r.value == RenderLines(PageLines(page.blocks), levels)
  {
    var results: seq<string> := [];
    for bi := 0 to |page.blocks|
      invariant AllScored(PageLines(page.blocks[..bi]), levels)
      invariant results == RenderLines(PageLines(page.blocks[..bi]), levels)
    {
      PageLinesStep(page.blocks, bi);
      var rendered := RenderBlock(page.blocks[bi].lines, levels);
      AllScoredAppend(PageLines(page.blocks[..bi]), page.blocks[bi].lines, levels);
      if rendered.Err? {
        PageLinesPrefix(page.blocks, bi + 1, levels);
        return rendered;
      }
      RenderLinesAppend(PageLines(page.blocks[..bi]), page.blocks[bi].lines, levels);
      results := results + rendered.value;
    }
    assert page.blocks[..|page.blocks|] == page.blocks;
    r := Ok(results);
  }

  lemma RenderLinesSnoc(lines: seq<Line>, line: Line, levels: map<int, string>)
    requires AllScored(lines, levels) && line.score in levels
    ensures AllScored(lines + [line], levels)
    ensures RenderLines(lines + [line], levels) == RenderLines(lines, levels) + [levels[line.score] + " " + LineText(line)]
  {
    assert (lines + [line])[..|lines|] == lines;
  }

  lemma AllScoredAppend(a: seq<Line>, b: seq<Line>, levels: map<int, string>)
    ensures AllScored(a + b, levels) <==> AllScored(a, levels) && AllScored(b, levels)
  {
    if AllScored(a, levels) && AllScored(b, levels) {
      forall k | 0 <= k < |a + b| ensures (a + b)[k].score in levels {
        if k >= |a| {
          assert (a + b)[k] == b[k - |a|];
        }
      }
    }
    if AllScored(a + b, levels) {
      forall k | 0 <= k < |a| ensures a[k].score in levels {
        assert (a + b)[k] == a[k];
      }
      forall k | 0 <= k < |b| ensures b[k].score in levels {
        assert (a + b)[|a| + k] == b[k];
      }
    }
  }

  /** Rendering a concatenation of Lines renders each part in turn. */
  lemma {:induction false} RenderLinesAppend(a: seq<Line>, b: seq<Line>, levels: map<int, string>)
    requires AllScored(a, levels) && AllScored(b, levels)
    ensures AllScored(a + b, levels)
    ensures RenderLines(a + b, levels) == RenderLines(a, levels) + RenderLines(b, levels)
  {
    AllScoredAppend(a, b, levels);
    if b != [] {
      var m := |b| - 1;
      RenderLinesAppend(a, b[..m], levels);
      assert (a + b)[..|a| + m] == a + b[..m];
    } else {
      assert a + b == a;
    }
  }

  /** A page whose first `n` blocks hold an unmapped score is not fully mapped. */
  lemma {:induction false} PageLinesPrefix(blocks: seq<Block>, n: nat, levels: map<int, string>)
    requires n <= |blocks| && !AllScored(PageLines(blocks[..n]), levels)
    ensures !AllScored(PageLines(blocks), levels)
  {
    if n < |blocks| {
      var m := |blocks| - 1;
      assert blocks[..m][..n] == blocks[..n];
      PageLinesPrefix(blocks[..m], n, levels);
      AllScoredAppend(PageLines(blocks[..m]), blocks[m].lines, levels);
    } else {
      assert blocks[..n] == blocks;
    }
  }

  lemma PageLinesStep(blocks: seq<Block>, bi: nat)
    requires bi < |blocks|
    ensures PageLines(blocks[..bi + 1]) == PageLines(blocks[..bi]) + blocks[bi].lines
  {
    assert blocks[..bi + 1][..bi] == blocks[..bi];
  }

  /** Each rendered string is the Line's prefix, a space, and its span texts joined by spaces. */
  lemma {:induction false} RenderLinesAt(lines: seq<Line>, levels: map<int, string>, k: nat)
    requires AllScored(lines, levels) && k < |lines|
    ensures RenderLines(lines, levels)[k] == levels[lines[k].score] + " " + Join(" ", SpanTexts(lines[k].spans))
  {
    if k < |lines| - 1 {
      RenderLinesAt(lines[..|lines| - 1], levels, k);
    }
  }

  // ---------------------------------------------------------------------
  // _main, without the file write

  function DocumentTally(doc: seq<RawPage>): seq<int>
  {
    if doc == [] then [] else DocumentTally(doc[..|doc| - 1]) + PageTally(doc[|doc| - 1])
  }

  /** The lines of the output: "PAGE n" (from 1) before the rendered lines of each page. */
  function DocumentLines(pages: seq<Page>, levels: map<int, string>): seq<string>
    requires forall i :: 0 <= i < |pages| ==> AllScored(PageLines(pages[i].blocks), levels)
  {
    if pages == [] then []
    else
      var n := |pages| - 1;
      DocumentLines(pages[..n], levels) + ["PAGE " + NatToString(n + 1)] + RenderLines(PageLines(pages[n].blocks), levels)
  }

  function PagesBlocks(pages: seq<Page>): (r: seq<seq<Block>>)
    ensures |r| == |pages|
  {
    if pages == [] then [] else PagesBlocks(pages[..|pages| - 1]) + [pages[|pages| - 1].blocks]
  }

  /** The Blocks of every page of a document. */
  function ParseDocument(doc: seq<RawPage>): (r: seq<seq<Block>>)
    ensures |r| == |doc|
  {
    if doc == [] then [] else ParseDocument(doc[..|doc| - 1]) + [BuildBlocks(doc[|doc| - 1])]
  }

  lemma {:induction false} ParsedPages(doc: seq<RawPage>, pages: seq<Page>)
    requires PagesBlocks(pages) == ParseDocument(doc)
    ensures |pages| == |doc| && forall i :: 0 <= i < |doc| ==> pages[i].blocks == BuildBlocks(doc[i])
  {
    if doc != [] {
      var n := |doc| - 1;
      assert PagesBlocks(pages)[..n] == PagesBlocks(pages[..n]);
      assert ParseDocument(doc)[..n] == ParseDocument(doc[..n]);
      ParsedPages(doc[..n], pages[..n]);
      assert PagesBlocks(pages)[n] == pages[n].blocks;
    }
  }

  datatype Conversion = Conversion(markdown: string, pages: seq<Page>)

  /**
   * `_main`: the first pass parses every page into one shared counter, the
   * heading levels are computed once for the whole document, and the
   * second pass renders every page; the lines are joined with "\n".
   */
  method ConvertPdf(doc: seq<RawPage>) returns (r: Result<Conversion>)
    ensures r.Err? <==> DocumentTally(doc) == []
    ensures r.Err? ==> r.error == IndexError
    ensures r.Ok? ==>
      var pages := r.value.pages;
      && |pages| == |doc|
      && (forall i :: 0 <= i < |doc| ==> pages[i].blocks == BuildBlocks(doc[i]))
      && HeadingLevels(AddAll(Empty, DocumentTally(doc))).Ok?
      && var levels := HeadingLevels(AddAll(Empty, DocumentTally(doc))).value;
         (forall i :: 0 <= i < |pages| ==> AllScored(PageLines(pages[i].blocks), levels))
         && r.value.markdown == Join("\n", DocumentLines(pages, levels))
  {
    var counter := new ScoreCounter();
    var pages := ParsePages(doc, counter);
    ParsedPages(doc, pages);
    var levelForScore := CalculateHeadingLevels(counter);
    AddAllEmpty(DocumentTally(doc));
    if levelForScore.Err? {
      return Err(levelForScore.error);
    }
    var levels := levelForScore.value;
    AllPagesScored(doc, pages, levels);
    var renderedLines := RenderPages(pages, levels);
    r := Ok(Conversion(Join("\n", renderedLines), pages));
  }

  /** The first loop of `_main`: every page is parsed into the one shared counter. */
  method ParsePages(doc: seq<RawPage>, counter: ScoreCounter) returns (pages: seq<Page>)
    requires counter.Valid() && counter.Value() == Empty
    modifies counter
    ensures counter.Valid() && counter.Value() == AddAll(Empty, DocumentTally(doc))
    ensures PagesBlocks(pages) == ParseDocument(doc)
  {
    pages := [];
    for i := 0 to |doc|
      invariant counter.Valid()
      invariant counter.Value() == AddAll(Empty, DocumentTally(doc[..i]))
      invariant PagesBlocks(pages) == ParseDocument(doc[..i])
    {
      var page := ParsePage(doc[i], counter);
      DocumentStep(doc, i);
      AddAllAppend(Empty, DocumentTally(doc[..i]), PageTally(doc[i]));
      PagesBlocksSnoc(pages, page);
      pages := pages + [page];
    }
    assert doc[..|doc|] == doc;
  }

  lemma DocumentStep(doc: seq<RawPage>, i: nat)
    requires i < |doc|
    ensures DocumentTally(doc[..i + 1]) == DocumentTally(doc[..i]) + PageTally(doc[i])
    ensures ParseDocument(doc[..i + 1]) == ParseDocument(doc[..i]) + [BuildBlocks(doc[i])]
  {
    assert doc[..i + 1][..i] == doc[..i];
  }

  lemma PagesBlocksSnoc(pages: seq<Page>, page: Page)
    ensures PagesBlocks(pages + [page]) == PagesBlocks(pages) + [page.blocks]
  {
    assert (pages + [page])[..|pages|] == pages;
  }

  /** The second loop of `_main`: a "PAGE n" line, then the page's rendered lines. */
  method RenderPages(pages: seq<Page>, levels: map<int, string>) returns (renderedLines: seq<string>)
    requires forall i :: 0 <= i < |pages| ==> AllScored(PageLines(pages[i].blocks), levels)
    ensures renderedLines == DocumentLines(pages, levels)
  {
    renderedLines := [];
    for pageIndex := 0 to |pages|
      invariant renderedLines == DocumentLines(pages[..pageIndex], levels)
    {
      renderedLines := renderedLines + ["PAGE " + NatToString(pageIndex + 1)];
      var rendered := Render(pages[pageIndex], levels);
      assert pages[..pageIndex + 1][..pageIndex] == pages[..pageIndex];
      renderedLines := renderedLines + rendered.value;
    }
    assert pages[..|pages|] == pages;
  }

  lemma {:induction false} AddAllAppend(t: Tally, xs: seq<int>, ys: seq<int>)
    requires t.Valid()
    ensures AddAll(t, xs + ys) == AddAll(AddAll(t, xs), ys)
  {
    if ys != [] {
      var front := ys[..|ys| - 1];
      AddAllAppend(t, xs, front);
      assert (xs + ys)[..|xs + ys| - 1] == xs + front;
      assert (xs + ys)[|xs + ys| - 1] == ys[|ys| - 1];
    } else {
      assert xs + ys == xs;
    }
  }

  lemma AddAllEmpty(xs: seq<int>)
    ensures AddAll(Empty, xs).keys == [] <==> xs == []
  {
    if xs != [] {
      AddAllCounts(Empty, xs, xs[0]);
    }
  }

  lemma {:induction false} DocumentTallyContains(doc: seq<RawPage>, i: nat)
    requires i < |doc|
    ensures forall x :: x in PageTally(doc[i]) ==> x in DocumentTally(doc)
  {
    if i < |doc| - 1 {
      DocumentTallyContains(doc[..|doc| - 1], i);
    }
  }

  /** No render can fail: every Line's score was counted, so it has a level. */
  lemma AllPagesScored(doc: seq<RawPage>, pages: seq<Page>, levels: map<int, string>)
    requires |pages| == |doc| && forall j :: 0 <= j < |doc| ==> pages[j].blocks == BuildBlocks(doc[j])
    requires levels.Keys == AddAll(Empty, DocumentTally(doc)).counts.Keys
    ensures forall i :: 0 <= i < |pages| ==> AllScored(PageLines(pages[i].blocks), levels)
  {
    forall i, k | 0 <= i < |pages| && 0 <= k < |PageLines(pages[i].blocks)|
      ensures PageLines(pages[i].blocks)[k].score in levels
    {
      var l := PageLines(pages[i].blocks)[k];
      PageLinesTallied(doc[i]);
      assert l in PageLines(BuildBlocks(doc[i]));
      DocumentTallyContains(doc, i);
      AddAllCounts(Empty, DocumentTally(doc), l.score);
    }
  }
}
