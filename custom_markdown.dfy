/**
 * The header resolver and the span formatter of the custom Markdown writer.
 *
 * `IdentifyHeaders` tallies the font sizes of a document, each weighted by
 * the number of characters set in it, takes the most used size as the body
 * size unless a limit is given, and gives every larger size a `#` prefix:
 * one `#` for the largest, one more for each larger size above it, with no
 * cap on the depth.
 *
 * `write_text` renders each span of a line: a monospaced span in backticks,
 * the first span with a bare `#`, later spans with `**` and `_` emphasis,
 * and everything but monospaced spans with `<`, `>` and four bullet
 * characters escaped.
 *
 * Sizes arrive already rounded to integers.
 */
module CustomMarkdown {
  import opened Outcomes
  import opened Text
  import opened Tallies
  import PdfHelpers

  /** A span of extracted text: the text, its rounded font size and its font flags. */
  datatype TextSpan = TextSpan(text: string, size: int, flags: nat)

  // ---------------------------------------------------------------------
  // The size tally

  /** `set(string.whitespace).issuperset(text)`, which holds of the empty text too. */
  predicate OnlyAsciiSpace(text: string) {
    forall i :: 0 <= i < |text| ==> IsAsciiSpace(text[i])
  }

  /** The characters a span adds to the tally of its size: the length of its stripped text. */
  function Weight(s: TextSpan): nat {
    StrippedLength(s.text)
  }

  /** `fontsizes` after the spans: a span with a character outside `string.whitespace` adds its weight to its size. */
  function SizeTally(spans: seq<TextSpan>): (t: Tally)
    ensures t.Valid()
  {
    if spans == [] then Empty
    else
      var t := SizeTally(spans[..|spans| - 1]);
      var s := spans[|spans| - 1];
      if OnlyAsciiSpace(s.text) then t else Add(t, s.size, Weight(s))
  }

  /** `s` is a span the tally looks at, set in size `k`. */
  predicate CountedAt(s: TextSpan, k: int) {
    !OnlyAsciiSpace(s.text) && s.size == k
  }

  /** The characters set in size `k`, summed over the spans the tally looks at. */
  function CharactersAt(spans: seq<TextSpan>, k: int): nat
  {
    if spans == [] then 0
    else
      var s := spans[|spans| - 1];
      CharactersAt(spans[..|spans| - 1], k) + (if CountedAt(s, k) then Weight(s) else 0)
  }

  lemma SizeTallyStep(spans: seq<TextSpan>, i: nat)
    requires i < |spans|
    ensures SizeTally(spans[..i + 1]) ==
      if OnlyAsciiSpace(spans[i].text) then SizeTally(spans[..i])
      else Add(SizeTally(spans[..i]), spans[i].size, Weight(spans[i]))
    ensures CharactersAt(spans[..i + 1], spans[i].size) ==
      CharactersAt(spans[..i], spans[i].size) + (if OnlyAsciiSpace(spans[i].text) then 0 else Weight(spans[i]))
  {
    assert spans[..i + 1][..i] == spans[..i];
  }

  /** A size is in the tally exactly when some counted span is set in it. */
  lemma SizeTallyKeys(spans: seq<TextSpan>, k: int)
    ensures k in SizeTally(spans).counts <==> exists j :: 0 <= j < |spans| && CountedAt(spans[j], k)
  {
    if k in SizeTally(spans).counts {
      var j := CountedSpanOf(spans, k);
    }
    if exists j :: 0 <= j < |spans| && CountedAt(spans[j], k) {
      var j :| 0 <= j < |spans| && CountedAt(spans[j], k);
      CountedSpanTallied(spans, j);
    }
  }

  lemma {:induction false} CountedSpanOf(spans: seq<TextSpan>, k: int) returns (j: nat)
    requires k in SizeTally(spans).counts
    ensures j < |spans| && CountedAt(spans[j], k)
  {
    var n := |spans| - 1;
    assert spans[..n + 1] == spans;
    SizeTallyStep(spans, n);
    AddEntry(SizeTally(spans[..n]), spans[n].size, Weight(spans[n]), k);
    if CountedAt(spans[n], k) {
      j := n;
    } else {
      j := CountedSpanOf(spans[..n], k);
      assert spans[..n][j] == spans[j];
    }
  }

  lemma {:induction false} CountedSpanTallied(spans: seq<TextSpan>, j: nat)
    requires j < |spans| && !OnlyAsciiSpace(spans[j].text)
    ensures spans[j].size in SizeTally(spans).counts
  {
    var n := |spans| - 1;
    var k := spans[j].size;
    assert spans[..n + 1] == spans;
    SizeTallyStep(spans, n);
    AddEntry(SizeTally(spans[..n]), spans[n].size, Weight(spans[n]), k);
    if j < n {
      assert spans[..n][j] == spans[j];
      CountedSpanTallied(spans[..n], j);
    }
  }

  /** The tally entry of a size is the number of characters set in it. */
  lemma {:induction false} SizeTallyWeights(spans: seq<TextSpan>, k: int)
    ensures k in SizeTally(spans).counts ==> SizeTally(spans).counts[k] == CharactersAt(spans, k)
    ensures k !in SizeTally(spans).counts ==> CharactersAt(spans, k) == 0
  {
    if spans != [] {
      var n := |spans| - 1;
      SizeTallyWeights(spans[..n], k);
      assert spans[..n + 1] == spans;
      SizeTallyStep(spans, n);
      AddEntry(SizeTally(spans[..n]), spans[n].size, Weight(spans[n]), k);
    }
  }

  /**
   * A span of Unicode whitespace that is not all `string.whitespace` (a
   * no-break space, say) enters its size into the tally with no weight.
   */
  lemma BlankSpanCountsNothing(spans: seq<TextSpan>, s: TextSpan)
    requires !OnlyAsciiSpace(s.text)
    requires forall i :: 0 <= i < |s.text| ==> IsSpace(s.text[i])
    ensures s.size in SizeTally(spans + [s]).counts
    ensures SizeTally(spans + [s]).counts[s.size]
         == if s.size in SizeTally(spans).counts then SizeTally(spans).counts[s.size] else 0
  {
    StripBlank(s.text);
    StrippedLengthIsStrip(s.text);
    assert (spans + [s])[..|spans|] == spans;
  }

  // ---------------------------------------------------------------------
  // The header map

  /** The body size: the limit when one is given, else the most used size as a number. */
  function BodyLimit(t: Tally, bodyLimit: Option<real>): (r: Result<real>)
    requires t.Valid()
  {
    match bodyLimit
    case Some(limit) => Ok(limit)
    case None =>
      match MostCommon(t)
      case Err(e) => Err(e)
      case Ok(size) => Ok(size as real)
  }

  /** The counted sizes strictly above the body size. */
  function Above(t: Tally, limit: real): set<int> {
    set s | s in t.counts && s as real > limit
  }

  /** The prefix a heading size gets: one `#` more than the number of heading sizes above it, and a space. */
  function HeaderPrefix(above: set<int>, s: int): string {
    Repeat('#', Rank(above, s) + 1) + " "
  }

  function HeaderIdsOf(t: Tally, limit: real): map<int, string> {
    var above := Above(t, limit);
    map s | s in above :: HeaderPrefix(above, s)
  }

  /** The `header_id` map `IdentifyHeaders` builds from a tally, or its IndexError. */
  function HeaderIds(t: Tally, bodyLimit: Option<real>): Result<map<int, string>>
    requires t.Valid()
  {
    match BodyLimit(t, bodyLimit)
    case Err(e) => Err(e)
    case Ok(limit) => Ok(HeaderIdsOf(t, limit))
  }

  /** `[f for f in keys if f > limit]`. */
  function KeysAbove(keys: seq<int>, limit: real): (r: seq<int>)
    ensures forall x :: x in r <==> x in keys && x as real > limit
  {
    if keys == [] then []
    else
      var x := keys[|keys| - 1];
      var front := KeysAbove(keys[..|keys| - 1], limit);
      assert keys == keys[..|keys| - 1] + [x];
      if x as real > limit then front + [x] else front
  }

  /** One more span, in the terms of the loop: `d[k] = d.get(k, 0) + w` when the span is counted. */
  lemma TallyStep(spans: seq<TextSpan>, i: nat, keys: seq<int>, counts: map<int, nat>)
    requires i < |spans|
    requires keys == SizeTally(spans[..i]).keys && counts == SizeTally(spans[..i]).counts
    ensures
      var k, t := spans[i].size, SizeTally(spans[..i + 1]);
      if OnlyAsciiSpace(spans[i].text) then t.keys == keys && t.counts == counts
      else
        && t.counts == counts[k := (if k in counts then counts[k] else 0) + Weight(spans[i])]
        && t.keys == if k in counts then keys else keys + [k]
  {
    SizeTallyStep(spans, i);
    AddEntries(SizeTally(spans[..i]), spans[i].size, Weight(spans[i]));
  }

  /** The first loop of `IdentifyHeaders.__init__`: characters per font size, sizes in first-seen order. */
  method TallySizes(spans: seq<TextSpan>) returns (keys: seq<int>, counts: map<int, nat>)
    ensures keys == SizeTally(spans).keys && counts == SizeTally(spans).counts
  {
    keys := [];
    counts := map[];
    for i := 0 to |spans|
      invariant keys == SizeTally(spans[..i]).keys && counts == SizeTally(spans[..i]).counts
    {
      var span := spans[i];
      TallyStep(spans, i, keys, counts);
      if !OnlyAsciiSpace(span.text) {
        var fontsz := span.size;
        var count := (if fontsz in counts then counts[fontsz] else 0) + StrippedLength(span.text);
        if fontsz !in counts {
          keys := keys + [fontsz];
        }
        counts := counts[fontsz := count];
      }
    }
    assert spans[..|spans|] == spans;
  }

  /** The last loop of `IdentifyHeaders.__init__`: the i-th size, largest first, gets i + 1 `#` and a space. */
  method NumberSizes(sizes: seq<int>, ghost above: set<int>) returns (headerId: map<int, string>)
    requires IsDescendingOrder(sizes, above)
    ensures headerId == map s | s in above :: HeaderPrefix(above, s)
  {
    headerId := map[];
    for i := 0 to |sizes|
      invariant forall x :: x in headerId <==> x in sizes[..i]
      invariant forall s :: s in headerId ==> headerId[s] == HeaderPrefix(above, s)
    {
      var size := sizes[i];
      RankInDescendingOrder(sizes, above, i);
      headerId := headerId[size := Repeat('#', i + 1) + " "];
      assert sizes[..i + 1] == sizes[..i] + [size];
    }
    assert sizes[..|sizes|] == sizes;
    forall x
      ensures x in headerId <==> x in above
    {
      assert x in sizes <==> x in above;
    }
  }

  /** `IdentifyHeaders.__init__` after the spans are collected: tally, choose the body size, number the larger sizes. */
  method BuildHeaderIds(spans: seq<TextSpan>, bodyLimit: Option<real>) returns (r: Result<map<int, string>>)
    ensures r == HeaderIds(SizeTally(spans), bodyLimit)
  {
    var keys, counts := TallySizes(spans);
    var t := Tally(keys, counts);
    var limit: real;
    if bodyLimit.Some? {
      limit := bodyLimit.value;
    } else {
      var mostCommon := MostCommon(t);
      if mostCommon.Err? {
        return Err(mostCommon.error);
      }
      limit := mostCommon.value as real;
    }
    var sizes := SortDescending(KeysAbove(keys, limit));
    ghost var above := Above(t, limit);
    assert (set x | x in KeysAbove(keys, limit)) == above by {
      KeySet(t);
    }
    var headerId := NumberSizes(sizes, above);
    r := Ok(headerId);
  }

  /** Only the counted sizes strictly above the body size have a header prefix. */
  lemma HeaderIdsKeys(t: Tally, bodyLimit: Option<real>)
    requires t.Valid()
    ensures HeaderIds(t, bodyLimit).Err? <==> bodyLimit.None? && t.keys == []
    ensures HeaderIds(t, bodyLimit).Ok? ==>
      forall s :: s in HeaderIds(t, bodyLimit).value <==> s in t.counts && s as real > BodyLimit(t, bodyLimit).value
  {
  }

  /**
   * Without a limit the body size is the most used size, the first counted
   * among equals, and it has no header prefix.
   */
  lemma BodySizeIsMostUsed(t: Tally)
    requires t.Valid() && t.keys != []
    ensures
      var body := MostCommon(t).value;
      && BodyLimit(t, None) == Ok(body as real)
      && (forall k :: k in t.counts ==> t.counts[k] <= t.counts[body])
      && (forall j :: 0 <= j < |t.keys| && t.keys[j] == body ==> forall i :: 0 <= i < j ==> t.counts[t.keys[i]] < t.counts[body])
      && body !in HeaderIds(t, None).value
  {
    var i := FirstMaxIndex(t.keys, t.counts);
    forall j | 0 <= j < |t.keys| && t.keys[j] == t.keys[i]
      ensures j == i
    {
    }
  }

  /** The i-th largest size above the body size gets i + 1 `#` and a space. */
  lemma HeaderIdsByPosition(t: Tally, limit: real, sizes: seq<int>, i: nat)
    requires IsDescendingOrder(sizes, Above(t, limit)) && i < |sizes|
    ensures sizes[i] in HeaderIdsOf(t, limit)
    ensures HeaderIdsOf(t, limit)[sizes[i]] == Repeat('#', i + 1) + " "
  {
    RankInDescendingOrder(sizes, Above(t, limit), i);
  }

  /** There is no depth cap: the smallest heading size gets as many `#` as there are heading sizes. */
  lemma HeaderIdsUncapped(t: Tally, limit: real, sizes: seq<int>)
    requires IsDescendingOrder(sizes, Above(t, limit)) && sizes != []
    ensures sizes[|sizes| - 1] in HeaderIdsOf(t, limit)
    ensures |HeaderIdsOf(t, limit)[sizes[|sizes| - 1]]| == |Above(t, limit)| + 1
  {
    HeaderIdsByPosition(t, limit, sizes, |sizes| - 1);
    DescendingSetSize(sizes);
    assert (set y | y in sizes) == Above(t, limit);
  }

  /** A smaller heading size gets a longer prefix. */
  lemma HeaderDepthIncreasesDownwards(t: Tally, limit: real, s: int, u: int)
    requires s in HeaderIdsOf(t, limit) && u in HeaderIdsOf(t, limit) && s > u
    ensures |HeaderIdsOf(t, limit)[s]| < |HeaderIdsOf(t, limit)[u]|
  {
    RankDecreasing(Above(t, limit), s, u);
  }

  /** The resolver: its `header_id` map and, for the proofs, the tally and body size it came from. */
  class IdentifyHeaders {
    var headerId: map<int, string>
    ghost var sizes: Tally
    ghost var bodyLimit: real

    ghost predicate Valid()
      reads this
    {
      sizes.Valid() && headerId == HeaderIdsOf(sizes, bodyLimit)
    }

    constructor (headerId: map<int, string>, ghost sizes: Tally, ghost bodyLimit: real)
      requires sizes.Valid() && headerId == HeaderIdsOf(sizes, bodyLimit)
      ensures Valid() && this.sizes == sizes && this.bodyLimit == bodyLimit
    {
      this.headerId := headerId;
      this.sizes := sizes;
      this.bodyLimit := bodyLimit;
    }

    /** `get_header_id`: the prefix of a heading size, "" for the body size, smaller sizes and unknown sizes. */
    function GetHeaderId(size: int): (r: string)
      reads this
      requires Valid()
      ensures r != "" <==> size in sizes.counts && size as real > bodyLimit
      ensures r != "" ==> r == HeaderPrefix(Above(sizes, bodyLimit), size)
    {
      var ids := headerId;
      if size in ids then ids[size] else ""
    }
  }

  /** `IdentifyHeaders(doc, body_limit)` over the document's spans: an IndexError, or a resolver for the spans' tally. */
  method Identify(spans: seq<TextSpan>, bodyLimit: Option<real>) returns (r: Result<IdentifyHeaders>)
    ensures r.Err? <==> bodyLimit.None? && SizeTally(spans).keys == []
    ensures r.Err? ==> r.error == IndexError
    ensures r.Ok? ==>
      && fresh(r.value) && r.value.Valid() && r.value.sizes == SizeTally(spans)
      && r.value.bodyLimit == BodyLimit(SizeTally(spans), bodyLimit).value
  {
    var headerId := BuildHeaderIds(spans, bodyLimit);
    if headerId.Err? {
      return Err(headerId.error);
    }
    var h := new IdentifyHeaders(headerId.value, SizeTally(spans), BodyLimit(SizeTally(spans), bodyLimit).value);
    r := Ok(h);
  }

  // ---------------------------------------------------------------------
  // Escaping

  /** The bullet characters U+F0B7, U+00B7, U+2022 and U+25CF. */
  predicate IsBullet(c: char) {
    c == '\U{F0B7}' || c == '\U{B7}' || c == '\U{2022}' || c == '\U{25CF}'
  }

  /** A character no escaped text contains. */
  predicate IsEscaped(c: char) {
    c == '<' || c == '>' || IsBullet(c)
  }

  /** The `.replace` chain of `write_text`, in its order. */
  function Escape(s: string): string {
    var a := ReplaceChar(s, '<', "&lt;");
    var b := ReplaceChar(a, '>', "&gt;");
    var c := ReplaceChar(b, '\U{F0B7}', "-");
    var d := ReplaceChar(c, '\U{B7}', "-");
    var e := ReplaceChar(d, '\U{2022}', "-");
    ReplaceChar(e, '\U{25CF}', "-")
  }

  function EscapeChar(c: char): string {
    if c == '<' then "&lt;" else if c == '>' then "&gt;" else if IsBullet(c) then "-" else [c]
  }

  /** Every character escaped on its own, in one pass. */
  function EscapeEach(s: string): (r: string)
    ensures forall k :: 0 <= k < |r| ==> !IsEscaped(r[k])
  {
    if s == [] then "" else EscapeChar(s[0]) + EscapeEach(s[1..])
  }

  lemma EscapeAppend(x: string, y: string)
    ensures Escape(x + y) == Escape(x) + Escape(y)
  {
    var a := ReplaceChar(x, '<', "&lt;");
    var b := ReplaceChar(a, '>', "&gt;");
    var c := ReplaceChar(b, '\U{F0B7}', "-");
    var d := ReplaceChar(c, '\U{B7}', "-");
    var e := ReplaceChar(d, '\U{2022}', "-");
    var a' := ReplaceChar(y, '<', "&lt;");
    var b' := ReplaceChar(a', '>', "&gt;");
    var c' := ReplaceChar(b', '\U{F0B7}', "-");
    var d' := ReplaceChar(c', '\U{B7}', "-");
    var e' := ReplaceChar(d', '\U{2022}', "-");
    ReplaceCharAppend(x, y, '<', "&lt;");
    ReplaceCharAppend(a, a', '>', "&gt;");
    ReplaceCharAppend(b, b', '\U{F0B7}', "-");
    ReplaceCharAppend(c, c', '\U{B7}', "-");
    ReplaceCharAppend(d, d', '\U{2022}', "-");
    ReplaceCharAppend(e, e', '\U{25CF}', "-");
  }

  /** The later replacements never touch what an earlier one wrote. */
  lemma EscapeOne(x: char)
    ensures Escape([x]) == EscapeChar(x)
  {
    if x == '<' {
      EscapeLessThan(x);
    } else if x == '>' {
      EscapeGreaterThan(x);
    } else if IsBullet(x) {
      EscapeBullet(x);
    } else {
      EscapeOther(x);
    }
  }

  /** The replacements after the first leave a text with nothing to escape as it is. */
  lemma EscapeRestKeeps(t: string)
    requires forall k :: 0 <= k < |t| ==> !IsEscaped(t[k])
    ensures ReplaceChar(t, '>', "&gt;") == t
    ensures ReplaceChar(t, '\U{F0B7}', "-") == t
    ensures ReplaceChar(t, '\U{B7}', "-") == t
    ensures ReplaceChar(t, '\U{2022}', "-") == t
    ensures ReplaceChar(t, '\U{25CF}', "-") == t
  {
    ReplaceCharAbsent(t, '>', "&gt;");
    ReplaceCharAbsent(t, '\U{F0B7}', "-");
    ReplaceCharAbsent(t, '\U{B7}', "-");
    ReplaceCharAbsent(t, '\U{2022}', "-");
    ReplaceCharAbsent(t, '\U{25CF}', "-");
  }

  lemma LtKept()
    ensures ReplaceChar(ReplaceChar(ReplaceChar(ReplaceChar(ReplaceChar("&lt;", '>', "&gt;"), '\U{F0B7}', "-"), '\U{B7}', "-"), '\U{2022}', "-"), '\U{25CF}', "-") == "&lt;"
  {
    EscapeRestKeeps("&lt;");
  }

  lemma GtKept()
    ensures ReplaceChar(ReplaceChar(ReplaceChar(ReplaceChar("&gt;", '\U{F0B7}', "-"), '\U{B7}', "-"), '\U{2022}', "-"), '\U{25CF}', "-") == "&gt;"
  {
    EscapeRestKeeps("&gt;");
  }

  lemma EscapeLessThan(x: char)
    requires x == '<'
    ensures Escape([x]) == "&lt;"
  {
    ReplaceCharOne(x, '<', "&lt;");
    LtKept();
  }

  lemma EscapeGreaterThan(x: char)
    requires x == '>'
    ensures Escape([x]) == "&gt;"
  {
    ReplaceCharOne(x, '<', "&lt;");
    ReplaceCharOne(x, '>', "&gt;");
    GtKept();
  }

  lemma EscapeBullet(x: char)
    requires IsBullet(x)
    ensures Escape([x]) == "-"
  {
    ReplaceCharOne(x, '<', "&lt;");
    ReplaceCharOne(x, '>', "&gt;");
    ReplaceCharOne(x, '\U{F0B7}', "-");
    ReplaceCharOne(if x == '\U{F0B7}' then '-' else x, '\U{B7}', "-");
    ReplaceCharOne(if x == '\U{F0B7}' || x == '\U{B7}' then '-' else x, '\U{2022}', "-");
    ReplaceCharOne(if x != '\U{25CF}' then '-' else x, '\U{25CF}', "-");
  }

  lemma EscapeOther(x: char)
    requires !IsEscaped(x)
    ensures Escape([x]) == [x]
  {
    ReplaceCharOne(x, '<', "&lt;");
    ReplaceCharOne(x, '>', "&gt;");
    ReplaceCharOne(x, '\U{F0B7}', "-");
    ReplaceCharOne(x, '\U{B7}', "-");
    ReplaceCharOne(x, '\U{2022}', "-");
    ReplaceCharOne(x, '\U{25CF}', "-");
  }

  /** The replacement chain escapes every character on its own. */
  lemma {:induction false} EscapeIsEachChar(s: string)
    ensures Escape(s) == EscapeEach(s)
  {
    if s != [] {
      assert s == [s[0]] + s[1..];
      EscapeAppend([s[0]], s[1..]);
      EscapeOne(s[0]);
      EscapeIsEachChar(s[1..]);
    }
  }

  lemma {:induction false} EscapeEachAppend(x: string, y: string)
    ensures EscapeEach(x + y) == EscapeEach(x) + EscapeEach(y)
  {
    if x != [] {
      assert (x + y)[1..] == x[1..] + y;
      EscapeEachAppend(x[1..], y);
    } else {
      assert x + y == y;
    }
  }

  /** A text with nothing to escape is its own escaped form. */
  lemma {:induction false} EscapeEachPlain(s: string)
    requires forall k :: 0 <= k < |s| ==> !IsEscaped(s[k])
    ensures EscapeEach(s) == s
  {
    if s != [] {
      EscapeEachPlain(s[1..]);
      assert s == [s[0]] + s[1..];
    }
  }

  // ---------------------------------------------------------------------
  // Span formatting

  predicate IsMono(s: TextSpan) {
    PdfHelpers.Bit(s.flags, 3)
  }

  predicate IsBold(s: TextSpan) {
    PdfHelpers.Bit(s.flags, 4)
  }

  predicate IsItalic(s: TextSpan) {
    PdfHelpers.Bit(s.flags, 1)
  }

  /** The link text when there is a non-empty one, else the stripped span text. */
  function SpanBody(s: TextSpan, link: Option<string>): string {
    if link.Some? && link.value != "" then link.value else Strip(s.text)
  }

  /** The prefix and suffix `write_text` builds: bold outside, italic inside, none after a header mark. */
  function Markers(hdr: string, bold: bool, italic: bool): (string, string) {
    if hdr != "" then ("", "")
    else
      var prefix := if bold then "**" else "";
      var suffix := if bold then "**" else "";
      if italic then (prefix + "_", "_" + suffix) else (prefix, suffix)
  }

  /** The text `write_text` appends for the span at position `i` of a line, given its resolved link. */
  function FormatSpan(s: TextSpan, i: nat, link: Option<string>): string {
    if IsMono(s) then "`" + Strip(s.text) + "` "
    else
      var hdr := if i == 0 then "#" else "";
      var markers := Markers(hdr, IsBold(s), IsItalic(s));
      Escape(hdr + markers.0 + SpanBody(s, link) + markers.1 + " ")
  }

  /** The marks in front of a non-monospaced span: a bare `#` first in the line, else `**` outside `_`. */
  function Opening(s: TextSpan, i: nat): string {
    if i == 0 then "#" else (if IsBold(s) then "**" else "") + (if IsItalic(s) then "_" else "")
  }

  /** The marks after a non-monospaced span, closing `_` inside `**`. */
  function Closing(s: TextSpan, i: nat): string {
    if i == 0 then "" else (if IsItalic(s) then "_" else "") + (if IsBold(s) then "**" else "")
  }

  lemma MarkersNest(s: TextSpan, i: nat)
    ensures
      var markers := Markers(if i == 0 then "#" else "", IsBold(s), IsItalic(s));
      (if i == 0 then "#" else "") + markers.0 == Opening(s, i) && markers.1 == Closing(s, i)
  {
  }

  /** Marks and the closing space pass the escaping unchanged. */
  lemma OpeningPlain(s: TextSpan, i: nat)
    ensures EscapeEach(Opening(s, i)) == Opening(s, i)
  {
    EscapeEachPlain(Opening(s, i));
  }

  lemma ClosingPlain(s: TextSpan, i: nat)
    ensures EscapeEach(Closing(s, i)) == Closing(s, i)
  {
    EscapeEachPlain(Closing(s, i));
  }

  lemma SpacePlain()
    ensures EscapeEach(" ") == " "
  {
    EscapeEachPlain(" ");
  }

  /**
   * A non-monospaced span renders as its opening marks, its escaped text
   * and its closing marks, then a space: the first span of a line as
   * `#text ` whatever its style, a later one as `**_text_** ` with the
   * marks its style calls for. Only the text is escaped.
   */
  lemma FormatSpanLayout(s: TextSpan, i: nat, link: Option<string>)
    requires !IsMono(s)
    ensures FormatSpan(s, i, link) == Opening(s, i) + EscapeEach(SpanBody(s, link)) + Closing(s, i) + " "
  {
    var body := SpanBody(s, link);
    var o, c := Opening(s, i), Closing(s, i);
    MarkersNest(s, i);
    OpeningPlain(s, i);
    ClosingPlain(s, i);
    SpacePlain();
    assert FormatSpan(s, i, link) == Escape(o + body + c + " ");
    EscapeIsEachChar(o + body + c + " ");
    EscapeEachAppend(o + body + c, " ");
    EscapeEachAppend(o + body, c);
    EscapeEachAppend(o, body);
  }

  /** No `<`, `>` or bullet survives in a non-monospaced span. */
  lemma FormatSpanEscaped(s: TextSpan, i: nat, link: Option<string>)
    requires !IsMono(s)
    ensures forall k :: 0 <= k < |FormatSpan(s, i, link)| ==> !IsEscaped(FormatSpan(s, i, link)[k])
  {
    var hdr := if i == 0 then "#" else "";
    var markers := Markers(hdr, IsBold(s), IsItalic(s));
    EscapeIsEachChar(hdr + markers.0 + SpanBody(s, link) + markers.1 + " ");
  }

  /**
   * A monospaced span keeps its stripped text verbatim, unescaped, between
   * backticks, whatever its position and link.
   */
  lemma MonoSpanVerbatim(s: TextSpan, i: nat, link: Option<string>, j: nat, other: Option<string>)
    requires IsMono(s)
    ensures FormatSpan(s, i, link) == FormatSpan(s, j, other)
    ensures var r, t := FormatSpan(s, i, link), Strip(s.text);
      |r| == |t| + 3 && r[0] == '`' && r[|r| - 2] == '`' && forall k :: 0 <= k < |t| ==> r[k + 1] == t[k]
  {
  }

  /** Every piece ends with a space. */
  lemma FormatSpanEndsWithSpace(s: TextSpan, i: nat, link: Option<string>)
    ensures var r := FormatSpan(s, i, link); r != [] && r[|r| - 1] == ' '
  {
    if !IsMono(s) {
      FormatSpanLayout(s, i, link);
    }
  }

  /** `out_string`'s growth over the spans of one line: each span's piece in order. */
  function FormatSpans(spans: seq<TextSpan>, links: seq<Option<string>>): string
    requires |links| == |spans|
  {
    if spans == [] then ""
    else
      var n := |spans| - 1;
      FormatSpans(spans[..n], links[..n]) + FormatSpan(spans[n], n, links[n])
  }

  lemma FormatSpansStep(spans: seq<TextSpan>, links: seq<Option<string>>, i: nat)
    requires |links| == |spans| && i < |spans|
    ensures FormatSpans(spans[..i + 1], links[..i + 1])
         == FormatSpans(spans[..i], links[..i]) + FormatSpan(spans[i], i, links[i])
  {
    assert spans[..i + 1][..i] == spans[..i];
    assert links[..i + 1][..i] == links[..i];
  }

  /** A line without monospaced spans renders with no `<`, `>` or bullet character. */
  lemma {:induction false} FormatSpansEscaped(spans: seq<TextSpan>, links: seq<Option<string>>)
    requires |links| == |spans|
    requires forall k :: 0 <= k < |spans| ==> !IsMono(spans[k])
    ensures forall k :: 0 <= k < |FormatSpans(spans, links)| ==> !IsEscaped(FormatSpans(spans, links)[k])
  {
    if spans != [] {
      var n := |spans| - 1;
      FormatSpansEscaped(spans[..n], links[..n]);
      FormatSpanEscaped(spans[n], n, links[n]);
    }
  }

  /** The text `write_text` builds for one span, its lines 98 to 134. */
  method FormatSpanText(s: TextSpan, i: nat, link: Option<string>) returns (text: string)
    ensures text == FormatSpan(s, i, link)
  {
    var mono := PdfHelpers.Bit(s.flags, 3);
    var bold := PdfHelpers.Bit(s.flags, 4);
    var italic := PdfHelpers.Bit(s.flags, 1);
    if mono {
      text := "`" + Strip(s.text) + "` ";
    } else {
      var hdrString := if i == 0 then "#" else "";
      var prefix := "";
      var suffix := "";
      if hdrString == "" {
        if bold {
          prefix := "**";
          suffix := suffix + "**";
          assert suffix == "**";
        }
        if italic {
          prefix := prefix + "_";
          suffix := "_" + suffix;
        }
      }
      assert (prefix, suffix) == Markers(hdrString, bold, italic);
      var ltext := link;
      if ltext.Some? && ltext.value != "" {
        text := hdrString + prefix + ltext.value + suffix + " ";
      } else {
        text := hdrString + prefix + Strip(s.text) + suffix + " ";
      }
      assert text == hdrString + prefix + SpanBody(s, link) + suffix + " ";
      text := ReplaceChar(text, '<', "&lt;");
      text := ReplaceChar(text, '>', "&gt;");
      text := ReplaceChar(text, '\U{F0B7}', "-");
      text := ReplaceChar(text, '\U{B7}', "-");
      text := ReplaceChar(text, '\U{2022}', "-");
      text := ReplaceChar(text, '\U{25CF}', "-");
    }
  }

  /** The span loop of `write_text` (its lines 97 to 135), appending to `out_string`. */
  method WriteSpans(outString: string, spans: seq<TextSpan>, links: seq<Option<string>>) returns (out: string)
    requires |links| == |spans|
    ensures out == outString + FormatSpans(spans, links)
  {
    out := outString;
    for i := 0 to |spans|
      invariant out == outString + FormatSpans(spans[..i], links[..i])
    {
      var text := FormatSpanText(spans[i], i, links[i]);
      FormatSpansStep(spans, links, i);
      AppendAssoc(outString, FormatSpans(spans[..i], links[..i]), text);
      out := out + text;
    }
    assert spans[..|spans|] == spans && links[..|links|] == links;
  }
}
