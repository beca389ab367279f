/**
 * The Word-document converter: each section contributes its header
 * paragraphs, its body items and its footer paragraphs, in that order; a
 * paragraph becomes its style's Markdown prefix followed by its text, blank
 * paragraphs are dropped, body items are put on one line and noisy ones are
 * counted instead of emitted, and the lines are joined by blank lines.
 *
 * A paragraph is its style name and its text; the document reader that
 * produces them is not part of this model. The loops and the lemmas about
 * them take the prefix table, the blank test and the noise test as a
 * `Rules` value; `WordRules` is the one `to_markdown` uses.
 */
module DocMarkdown {
  import opened Outcomes
  import opened Text
  import TextSkipping

  datatype Paragraph = Paragraph(style: string, text: string)

  datatype Section = Section(header: seq<Paragraph>, body: seq<Paragraph>, footer: seq<Paragraph>)

  /** The prefix of each style, when a paragraph counts as blank, and when a one-line text is noise. */
  datatype Rules = Rules(table: map<string, string>, blank: string -> bool, noise: string -> bool)

  /** The `style_to_prefix` table of `to_markdown`. */
  const StyleToPrefix: map<string, string> :=
    map[
      "title" := "# ",
      "body" := "",
      "Attribution" := "# ",
      "Subheading" := "## ",
      "Title 2" := "### ",
      "Body" := "",
      "Heading" := "# ",
      "Header & Footer" := "### "
    ]

  /** `len(text.strip()) == 0`. */
  predicate IsBlank(text: string) {
    |Strip(text)| == 0
  }

  /** The rules of `to_markdown`: its table, `strip` and `should_skip`. */
  const WordRules: Rules := Rules(StyleToPrefix, IsBlank, TextSkipping.ShouldSkip)

  /** `text.replace("\n", " ")`. */
  function OneLine(text: string): string {
    ReplaceChar(text, '\n', " ")
  }

  // ---------------------------------------------------------------------
  // Headers and footers

  /** `header_footer_to_markdown`: the lines of the non-blank paragraphs, or the KeyError of an unknown style. */
  function HeaderFooterLines(ps: seq<Paragraph>, c: Rules): Result<seq<string>>
  {
    if ps == [] then Ok([])
    else
      var n := |ps| - 1;
      var p := ps[n];
      match HeaderFooterLines(ps[..n], c)
      case Err(e) => Err(e)
      case Ok(lines) =>
        if c.blank(p.text) then Ok(lines)
        else if p.style !in c.table then Err(KeyError)
        else Ok(lines + [c.table[p.style] + p.text])
  }

  /** The paragraphs that are not blank, in order. */
  function NonBlank(ps: seq<Paragraph>, c: Rules): (r: seq<Paragraph>)
    ensures forall k :: 0 <= k < |r| ==> !c.blank(r[k].text)
  {
    if ps == [] then []
    else
      var n := |ps| - 1;
      NonBlank(ps[..n], c) + (if c.blank(ps[n].text) then [] else [ps[n]])
  }

  /** Some non-blank paragraph has a style the table does not know. */
  predicate UnknownStyle(ps: seq<Paragraph>, c: Rules) {
    exists k :: 0 <= k < |ps| && !c.blank(ps[k].text) && ps[k].style !in c.table
  }

  /** Each line is a prefix followed by the paragraph's text, as it is. */
  predicate PrefixedLines(lines: seq<string>, ps: seq<Paragraph>, c: Rules) {
    && |lines| == |ps|
    && forall k :: 0 <= k < |ps| ==> ps[k].style in c.table && lines[k] == c.table[ps[k].style] + ps[k].text
  }

  lemma PrefixedLinesSnoc(lines: seq<string>, ps: seq<Paragraph>, p: Paragraph, c: Rules)
    requires PrefixedLines(lines, ps, c) && p.style in c.table
    ensures PrefixedLines(lines + [c.table[p.style] + p.text], ps + [p], c)
  {
  }

  lemma UnknownStyleSnoc(ps: seq<Paragraph>, c: Rules)
    requires ps != []
    ensures var n := |ps| - 1;
      UnknownStyle(ps, c) <==> UnknownStyle(ps[..n], c) || (!c.blank(ps[n].text) && ps[n].style !in c.table)
  {
    var n := |ps| - 1;
    if UnknownStyle(ps, c) {
      var k :| 0 <= k < |ps| && !c.blank(ps[k].text) && ps[k].style !in c.table;
      if k < n {
        assert ps[..n][k] == ps[k];
      }
    }
    if UnknownStyle(ps[..n], c) {
      var k :| 0 <= k < n && !c.blank(ps[..n][k].text) && ps[..n][k].style !in c.table;
      assert ps[k] == ps[..n][k];
    }
  }

  /**
   * A header or footer fails with KeyError exactly when one of its
   * non-blank paragraphs has an unknown style; otherwise it gives one line
   * per non-blank paragraph: the prefix, then the unmodified text.
   */
  lemma {:induction false} HeaderFooterLinesSpec(ps: seq<Paragraph>, c: Rules)
    ensures HeaderFooterLines(ps, c).Err? <==> UnknownStyle(ps, c)
    ensures HeaderFooterLines(ps, c).Err? ==> HeaderFooterLines(ps, c).error == KeyError
    ensures HeaderFooterLines(ps, c).Ok? ==> PrefixedLines(HeaderFooterLines(ps, c).value, NonBlank(ps, c), c)
  {
    if ps != [] {
      var n := |ps| - 1;
      HeaderFooterLinesSpec(ps[..n], c);
      UnknownStyleSnoc(ps, c);
      var front := HeaderFooterLines(ps[..n], c);
      if front.Ok? && !c.blank(ps[n].text) && ps[n].style in c.table {
        PrefixedLinesSnoc(front.value, NonBlank(ps[..n], c), ps[n], c);
      }
    }
  }

  /** The loop of `header_footer_to_markdown`. */
  method HeaderFooterToMarkdown(ps: seq<Paragraph>, c: Rules) returns (r: Result<seq<string>>)
    ensures r == HeaderFooterLines(ps, c)
  {
    var lines: seq<string> := [];
    for i := 0 to |ps|
      invariant HeaderFooterLines(ps[..i], c) == Ok(lines)
    {
      var paragraph := ps[i];
      assert ps[..i + 1][..i] == ps[..i];
      if c.blank(paragraph.text) {
        continue;
      }
      if paragraph.style !in c.table {
        HeaderFooterErrStays(ps, c, i + 1);
        return Err(KeyError);
      }
      lines := lines + [c.table[paragraph.style] + paragraph.text];
    }
    assert ps[..|ps|] == ps;
    r := Ok(lines);
  }

  /** A KeyError in the paragraphs so far is the header's or footer's error. */
  lemma {:induction false} HeaderFooterErrStays(ps: seq<Paragraph>, c: Rules, i: nat)
    requires i <= |ps| && HeaderFooterLines(ps[..i], c).Err?
    ensures HeaderFooterLines(ps, c) == HeaderFooterLines(ps[..i], c)
    decreases |ps| - i
  {
    if i < |ps| {
      assert ps[..i + 1][..i] == ps[..i];
      HeaderFooterErrStays(ps, c, i + 1);
    } else {
      assert ps[..i] == ps;
    }
  }

  // ---------------------------------------------------------------------
  // Body items

  /** A body item that is emitted: not blank, and not noise once put on one line. */
  predicate Emitted(p: Paragraph, c: Rules) {
    !c.blank(p.text) && !c.noise(OneLine(p.text))
  }

  /** A body item that is counted instead: not blank, but noise once put on one line. */
  predicate Noisy(p: Paragraph, c: Rules) {
    !c.blank(p.text) && c.noise(OneLine(p.text))
  }

  /** The lines the section loop emits for a body, or the KeyError of an emitted item of unknown style. */
  function BodyLines(ps: seq<Paragraph>, c: Rules): Result<seq<string>>
  {
    if ps == [] then Ok([])
    else
      var n := |ps| - 1;
      var p := ps[n];
      match BodyLines(ps[..n], c)
      case Err(e) => Err(e)
      case Ok(lines) =>
        if !Emitted(p, c) then Ok(lines)
        else if p.style !in c.table then Err(KeyError)
        else Ok(lines + [c.table[p.style] + OneLine(p.text)])
  }

  /** The one-line texts whose `skip_counter` entry each noisy body item increments, in order. */
  function SkippedTexts(ps: seq<Paragraph>, c: Rules): seq<string>
  {
    if ps == [] then []
    else
      var n := |ps| - 1;
      SkippedTexts(ps[..n], c) + (if Noisy(ps[n], c) then [OneLine(ps[n].text)] else [])
  }

  /** The emitted body items, in order. */
  function EmittedItems(ps: seq<Paragraph>, c: Rules): (r: seq<Paragraph>)
    ensures forall k :: 0 <= k < |r| ==> Emitted(r[k], c)
  {
    if ps == [] then []
    else
      var n := |ps| - 1;
      EmittedItems(ps[..n], c) + (if Emitted(ps[n], c) then [ps[n]] else [])
  }

  /** How many body items are blank. */
  function BlankCount(ps: seq<Paragraph>, c: Rules): nat
  {
    if ps == [] then 0
    else
      var n := |ps| - 1;
      BlankCount(ps[..n], c) + (if c.blank(ps[n].text) then 1 else 0)
  }

  /** Some emitted body item has a style the table does not know (a noisy one is never looked up). */
  predicate UnknownEmittedStyle(ps: seq<Paragraph>, c: Rules) {
    exists k :: 0 <= k < |ps| && Emitted(ps[k], c) && ps[k].style !in c.table
  }

  /** Each line is a prefix followed by the item's text with its line breaks turned into spaces. */
  predicate OneLinePrefixed(lines: seq<string>, ps: seq<Paragraph>, c: Rules) {
    && |lines| == |ps|
    && forall k :: 0 <= k < |ps| ==> ps[k].style in c.table && lines[k] == c.table[ps[k].style] + OneLine(ps[k].text)
  }

  lemma UnknownEmittedStyleSnoc(ps: seq<Paragraph>, c: Rules)
    requires ps != []
    ensures var n := |ps| - 1;
      UnknownEmittedStyle(ps, c) <==> UnknownEmittedStyle(ps[..n], c) || (Emitted(ps[n], c) && ps[n].style !in c.table)
  {
    var n := |ps| - 1;
    if UnknownEmittedStyle(ps, c) {
      var k :| 0 <= k < |ps| && Emitted(ps[k], c) && ps[k].style !in c.table;
      if k < n {
        assert ps[..n][k] == ps[k];
      }
    }
    if UnknownEmittedStyle(ps[..n], c) {
      var k :| 0 <= k < n && Emitted(ps[..n][k], c) && ps[..n][k].style !in c.table;
      assert ps[k] == ps[..n][k];
    }
  }

  lemma OneLinePrefixedSnoc(lines: seq<string>, ps: seq<Paragraph>, p: Paragraph, c: Rules)
    requires OneLinePrefixed(lines, ps, c) && p.style in c.table
    ensures OneLinePrefixed(lines + [c.table[p.style] + OneLine(p.text)], ps + [p], c)
  {
  }

  /**
   * A body fails with KeyError exactly when an emitted item has an unknown
   * style; otherwise it gives one line per emitted item, in order.
   */
  lemma {:induction false} BodyLinesSpec(ps: seq<Paragraph>, c: Rules)
    ensures BodyLines(ps, c).Err? <==> UnknownEmittedStyle(ps, c)
    ensures BodyLines(ps, c).Err? ==> BodyLines(ps, c).error == KeyError
    ensures BodyLines(ps, c).Ok? ==> OneLinePrefixed(BodyLines(ps, c).value, EmittedItems(ps, c), c)
  {
    if ps != [] {
      var n := |ps| - 1;
      BodyLinesSpec(ps[..n], c);
      UnknownEmittedStyleSnoc(ps, c);
      var front := BodyLines(ps[..n], c);
      if front.Ok? && Emitted(ps[n], c) && ps[n].style in c.table {
        OneLinePrefixedSnoc(front.value, EmittedItems(ps[..n], c), ps[n], c);
      }
    }
  }

  /** Every body item is blank, counted as noise, or emitted: exactly one of the three. */
  lemma {:induction false} BodyItemsPartition(ps: seq<Paragraph>, c: Rules)
    ensures BlankCount(ps, c) + |SkippedTexts(ps, c)| + |EmittedItems(ps, c)| == |ps|
  {
    if ps != [] {
      BodyItemsPartition(ps[..|ps| - 1], c);
    }
  }

  /** An emitted item's text is put on one line of the same length, and is not empty when the empty text is blank. */
  lemma EmittedTextIsOneLine(p: Paragraph, c: Rules)
    requires Emitted(p, c) && c.blank("")
    ensures '\n' !in OneLine(p.text)
    ensures |OneLine(p.text)| == |p.text| > 0
  {
    ReplaceCharRemoves(p.text, '\n', " ");
    ReplaceCharLength(p.text, '\n', " ");
  }

  /** The loop over the inner content of one section, from `lines` and `skipCounter` on. */
  method AppendBody(lines: seq<string>, skipCounter: multiset<string>, body: seq<Paragraph>, c: Rules)
    returns (r: Result<seq<string>>, counter: multiset<string>)
    ensures BodyLines(body, c).Err? ==> r == BodyLines(body, c)
    ensures BodyLines(body, c).Ok? ==> r == Ok(lines + BodyLines(body, c).value)
    ensures r.Ok? ==> counter == skipCounter + multiset(SkippedTexts(body, c))
  {
    var out := lines;
    counter := skipCounter;
    for i := 0 to |body|
      invariant BodyLines(body[..i], c).Ok?
      invariant out == lines + BodyLines(body[..i], c).value
      invariant counter == skipCounter + multiset(SkippedTexts(body[..i], c))
    {
      var item := body[i];
      assert body[..i + 1][..i] == body[..i];
      if c.blank(item.text) {
        continue;
      }
      var text := ReplaceChar(item.text, '\n', " ");
      if c.noise(text) {
        counter := counter + multiset{text};
        continue;
      }
      if item.style !in c.table {
        BodyLinesErrStays(body, c, i + 1);
        return Err(KeyError), counter;
      }
      out := out + [c.table[item.style] + text];
    }
    assert body[..|body|] == body;
    r := Ok(out);
  }

  /** A KeyError in the items so far is the body's error. */
  lemma {:induction false} BodyLinesErrStays(ps: seq<Paragraph>, c: Rules, i: nat)
    requires i <= |ps| && BodyLines(ps[..i], c).Err?
    ensures BodyLines(ps, c) == BodyLines(ps[..i], c)
    decreases |ps| - i
  {
    if i < |ps| {
      assert ps[..i + 1][..i] == ps[..i];
      BodyLinesErrStays(ps, c, i + 1);
    } else {
      assert ps[..i] == ps;
    }
  }

  // ---------------------------------------------------------------------
  // Sections and the document

  /** One section's lines: header, then body, then footer; the first KeyError wins. */
  function SectionLines(s: Section, c: Rules): Result<seq<string>>
  {
    match HeaderFooterLines(s.header, c)
    case Err(e) => Err(e)
    case Ok(h) =>
      match BodyLines(s.body, c)
      case Err(e) => Err(e)
      case Ok(b) =>
        match HeaderFooterLines(s.footer, c)
        case Err(e) => Err(e)
        case Ok(f) => Ok(h + b + f)
  }

  /** The results of a run of steps, concatenated in order; the first error stops the run. */
  function Concat(rs: seq<Result<seq<string>>>): Result<seq<string>>
  {
    if rs == [] then Ok([])
    else
      var n := |rs| - 1;
      match Concat(rs[..n])
      case Err(e) => Err(e)
      case Ok(front) =>
        match rs[n]
        case Err(e) => Err(e)
        case Ok(last) => Ok(front + last)
  }

  /** Each section's own result, in document order. */
  function SectionResults(ss: seq<Section>, c: Rules): (rs: seq<Result<seq<string>>>)
    ensures |rs| == |ss|
  {
    seq(|ss|, i requires 0 <= i < |ss| => SectionLines(ss[i], c))
  }

  /** The lines of the sections in document order, or the first KeyError. */
  function DocumentLines(ss: seq<Section>, c: Rules): Result<seq<string>>
  {
    Concat(SectionResults(ss, c))
  }

  /** The texts the whole document counts as noise, section by section. */
  function DocumentSkipped(ss: seq<Section>, c: Rules): seq<string>
  {
    if ss == [] then [] else DocumentSkipped(ss[..|ss| - 1], c) + SkippedTexts(ss[|ss| - 1].body, c)
  }

  /** The output: the lines joined by blank lines. */
  function DocumentMarkdown(ss: seq<Section>, c: Rules): Result<string>
  {
    match DocumentLines(ss, c)
    case Err(e) => Err(e)
    case Ok(lines) => Ok(Join("\n\n", lines))
  }

  /** Concatenating two runs of successful steps concatenates their lines. */
  lemma {:induction false} ConcatAppend(xs: seq<Result<seq<string>>>, ys: seq<Result<seq<string>>>)
    requires Concat(xs).Ok? && Concat(ys).Ok?
    ensures Concat(xs + ys) == Ok(Concat(xs).value + Concat(ys).value)
    decreases |ys|
  {
    if ys == [] {
      assert xs + ys == xs;
      assert Concat(xs).value + [] == Concat(xs).value;
    } else {
      var n := |ys| - 1;
      ConcatAppend(xs, ys[..n]);
      assert (xs + ys)[..|xs| + n] == xs + ys[..n];
      assert (xs + ys)[|xs| + n] == ys[n];
      var x, y, z := Concat(xs).value, Concat(ys[..n]).value, ys[n].value;
      assert x + y + z == x + (y + z);
    }
  }

  /** An error among the steps so far is the error of the whole run. */
  lemma {:induction false} ConcatErrStays(rs: seq<Result<seq<string>>>, i: nat)
    requires i <= |rs| && Concat(rs[..i]).Err?
    ensures Concat(rs) == Concat(rs[..i])
    decreases |rs| - i
  {
    if i < |rs| {
      assert rs[..i + 1][..i] == rs[..i];
      ConcatErrStays(rs, i + 1);
    } else {
      assert rs[..i] == rs;
    }
  }

  /** Every line of a successful run is a line of one of its steps. */
  lemma {:induction false} ConcatLines(rs: seq<Result<seq<string>>>, line: string)
    requires Concat(rs).Ok? && line in Concat(rs).value
    ensures exists k :: 0 <= k < |rs| && rs[k].Ok? && line in rs[k].value
  {
    var n := |rs| - 1;
    assert rs[..n] + [rs[n]] == rs;
    if line !in rs[n].value {
      ConcatLines(rs[..n], line);
      var k :| 0 <= k < n && rs[..n][k].Ok? && line in rs[..n][k].value;
      assert rs[k] == rs[..n][k];
    }
  }

  lemma SectionResultsAppend(a: seq<Section>, b: seq<Section>, c: Rules)
    ensures SectionResults(a + b, c) == SectionResults(a, c) + SectionResults(b, c)
  {
    var l, r := SectionResults(a + b, c), SectionResults(a, c) + SectionResults(b, c);
    forall i | 0 <= i < |l|
      ensures l[i] == r[i]
    {
      if i < |a| {
        assert (a + b)[i] == a[i];
      } else {
        assert (a + b)[i] == b[i - |a|];
      }
    }
  }

  /** Sections keep their order: the lines of two runs of sections are the lines of each, one after the other. */
  lemma DocumentLinesAppend(a: seq<Section>, b: seq<Section>, c: Rules)
    requires DocumentLines(a, c).Ok? && DocumentLines(b, c).Ok?
    ensures DocumentLines(a + b, c) == Ok(DocumentLines(a, c).value + DocumentLines(b, c).value)
  {
    SectionResultsAppend(a, b, c);
    ConcatAppend(SectionResults(a, c), SectionResults(b, c));
  }

  /** Every line of the document holds at least one character, as long as the empty text is blank. */
  lemma DocumentLinesNonEmpty(ss: seq<Section>, c: Rules)
    requires DocumentLines(ss, c).Ok? && c.blank("")
    ensures "" !in DocumentLines(ss, c).value
  {
    var rs := SectionResults(ss, c);
    if "" in Concat(rs).value {
      ConcatLines(rs, "");
      var k :| 0 <= k < |rs| && rs[k].Ok? && "" in rs[k].value;
      SectionLinesNonEmpty(ss[k], c);
    }
  }

  lemma SectionLinesNonEmpty(s: Section, c: Rules)
    requires SectionLines(s, c).Ok? && c.blank("")
    ensures "" !in SectionLines(s, c).value
  {
    HeaderFooterLinesSpec(s.header, c);
    BodyLinesSpec(s.body, c);
    HeaderFooterLinesSpec(s.footer, c);
    var b := BodyLines(s.body, c).value;
    forall k | 0 <= k < |b|
      ensures b[k] != ""
    {
      EmittedTextIsOneLine(EmittedItems(s.body, c)[k], c);
    }
  }

  /** The joined output is empty exactly when no line was emitted. */
  lemma MarkdownEmptyIffNoLines(ss: seq<Section>, c: Rules)
    requires DocumentLines(ss, c).Ok? && c.blank("")
    ensures DocumentMarkdown(ss, c).value == "" <==> DocumentLines(ss, c).value == []
  {
    var lines := DocumentLines(ss, c).value;
    DocumentLinesNonEmpty(ss, c);
    if lines != [] {
      JoinKeepsLast("\n\n", lines);
    }
  }

  /** A joined text is at least as long as its last part. */
  lemma JoinKeepsLast(sep: string, parts: seq<string>)
    requires parts != []
    ensures |Join(sep, parts)| >= |parts[|parts| - 1]|
  {
  }

  /** One iteration of the section loop: header, body and footer lines appended to `lines`. */
  method AppendSection(lines: seq<string>, skipCounter: multiset<string>, section: Section, c: Rules)
    returns (r: Result<seq<string>>, counter: multiset<string>)
    ensures SectionLines(section, c).Err? ==> r == SectionLines(section, c)
    ensures SectionLines(section, c).Ok? ==> r == Ok(lines + SectionLines(section, c).value)
    ensures r.Ok? ==> counter == skipCounter + multiset(SkippedTexts(section.body, c))
  {
    counter := skipCounter;
    var header := HeaderFooterToMarkdown(section.header, c);
    if header.Err? {
      return Err(header.error), counter;
    }
    var body;
    body, counter := AppendBody(lines + header.value, counter, section.body, c);
    if body.Err? {
      return Err(body.error), counter;
    }
    var footer := HeaderFooterToMarkdown(section.footer, c);
    if footer.Err? {
      return Err(footer.error), counter;
    }
    LinesAssoc(lines, header.value, BodyLines(section.body, c).value, footer.value);
    r := Ok(body.value + footer.value);
  }

  lemma LinesAssoc(l: seq<string>, h: seq<string>, b: seq<string>, f: seq<string>)
    ensures l + h + b + f == l + (h + b + f)
  {
  }

  /** One more step of a successful run. */
  lemma ConcatStep(rs: seq<Result<seq<string>>>, i: nat, lines: seq<string>)
    requires i < |rs| && Concat(rs[..i]) == Ok(lines)
    ensures rs[i].Err? ==> Concat(rs[..i + 1]) == rs[i]
    ensures rs[i].Ok? ==> Concat(rs[..i + 1]) == Ok(lines + rs[i].value)
  {
    assert rs[..i + 1][..i] == rs[..i];
  }

  /** The section loop of `to_markdown`, under any rules. */
  method SectionsToMarkdown(sections: seq<Section>, c: Rules) returns (r: Result<string>, skipCounter: multiset<string>)
    ensures r == DocumentMarkdown(sections, c)
    ensures r.Ok? ==> skipCounter == multiset(DocumentSkipped(sections, c))
  {
    ghost var rs := SectionResults(sections, c);
    var lines: seq<string> := [];
    skipCounter := multiset{};
    for i := 0 to |sections|
      invariant Concat(rs[..i]) == Ok(lines)
      invariant skipCounter == multiset(DocumentSkipped(sections[..i], c))
    {
      assert sections[..i + 1][..i] == sections[..i];
      ConcatStep(rs, i, lines);
      var next;
      next, skipCounter := AppendSection(lines, skipCounter, sections[i], c);
      if next.Err? {
        ConcatErrStays(rs, i + 1);
        return Err(next.error), skipCounter;
      }
      lines := next.value;
    }
    assert rs[..|sections|] == rs;
    assert sections[..|sections|] == sections;
    r := Ok(Join("\n\n", lines));
  }

  /**
   * `to_markdown` after the document is read: for each section its header
   * lines, its body lines and its footer lines, then the lines joined by
   * blank lines. `skipCounter` is the `skip_counter` it prints.
   */
  method ToMarkdown(sections: seq<Section>) returns (r: Result<string>, skipCounter: multiset<string>)
    ensures r == DocumentMarkdown(sections, WordRules)
    ensures r.Ok? ==> skipCounter == multiset(DocumentSkipped(sections, WordRules))
  {
    r, skipCounter := SectionsToMarkdown(sections, WordRules);
  }

  /** Under `to_markdown`'s rules a text is blank exactly when it is all white space; in particular the empty text is. */
  lemma WordRulesBlank(text: string)
    ensures WordRules.blank(text) <==> forall i :: 0 <= i < |text| ==> IsSpace(text[i])
    ensures WordRules.blank("")
  {
    StripBlank(text);
    StripBlank("");
  }

  /** A year is a non-blank text that stays as it is on one line and is noise under `to_markdown`'s rules. */
  lemma YearIsNoise(text: string)
    requires text == "2024"
    ensures !WordRules.blank(text) && WordRules.noise(OneLine(text)) && OneLine(text) == text
  {
    YearNotBlank(text);
    ReplaceCharAbsent(text, '\n', " ");
    TextSkipping.YearExamples();
  }

  lemma YearNotBlank(text: string)
    requires text == "2024"
    ensures !WordRules.blank(text)
  {
    assert !IsSpace(text[0]);
    WordRulesBlank(text);
  }

  /** A noisy body item is counted in the skip counter and emits nothing, whatever its style. */
  lemma NoisyItemCounted(p: Paragraph, c: Rules)
    requires Noisy(p, c)
    ensures BodyLines([p], c) == Ok([])
    ensures SkippedTexts([p], c) == [OneLine(p.text)]
  {
    assert [p][..0] == [];
  }

  /** A year in the body, of a style the table lacks, is counted and raises nothing. */
  lemma YearItemCounted(p: Paragraph)
    requires p.text == "2024" && p.style !in StyleToPrefix
    ensures BodyLines([p], WordRules) == Ok([])
    ensures SkippedTexts([p], WordRules) == ["2024"]
  {
    YearIsNoise(p.text);
    NoisyItemCounted(p, WordRules);
  }

  /** Entries of the prefix table, and a style it does not list. */
  lemma StyleTableExamples()
    ensures StyleToPrefix["Subheading"] == "## " && StyleToPrefix["Body"] == ""
    ensures "Normal" !in StyleToPrefix
  {
  }
}
