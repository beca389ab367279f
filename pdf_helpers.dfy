/**
 * Helpers of the earlier PDF path: the decoder of a span's font flags, the
 * filters that drop non-text blocks, noise text and vertical lines, the
 * printer of the document outline, and the merging of consecutive line
 * dictionaries that share a style.
 */
module PdfHelpers {
  import opened Outcomes
  import opened Text

  // ---------------------------------------------------------------------
  // Font flags

  function Pow2(k: nat): (p: nat)
    ensures p >= 1
  {
    if k == 0 then 1 else 2 * Pow2(k - 1)
  }

  /** `flags & 2**k` is non-zero: bit `k` of the flags is set. */
  predicate Bit(flags: nat, k: nat) {
    (flags / Pow2(k)) % 2 == 1
  }

  /** The descriptions `flags_decomposer` can list, in its fixed order. */
  datatype FlagName = Superscript | Italic | Serifed | Sans | Monospaced | Proportional | Bold

  function Name(f: FlagName): string
  {
    match f
    case Superscript => "superscript"
    case Italic => "italic"
    case Serifed => "serifed"
    case Sans => "sans"
    case Monospaced => "monospaced"
    case Proportional => "proportional"
    case Bold => "bold"
  }

  /** The descriptions of the five low bits: each optional one when its bit is set, one of each pair. */
  function Describe(b0: bool, b1: bool, b2: bool, b3: bool, b4: bool): seq<FlagName>
  {
    Opt(b0, Superscript) + Opt(b1, Italic) + Pick(b2, Serifed, Sans) + Pick(b3, Monospaced, Proportional) + Opt(b4, Bold)
  }

  function Opt(b: bool, f: FlagName): seq<FlagName>
  {
    if b then [f] else []
  }

  function Pick(b: bool, f: FlagName, g: FlagName): seq<FlagName>
  {
    if b then [f] else [g]
  }

  function FlagList(flags: nat): seq<FlagName>
  {
    Describe(Bit(flags, 0), Bit(flags, 1), Bit(flags, 2), Bit(flags, 3), Bit(flags, 4))
  }

  function Names(fs: seq<FlagName>): (r: seq<string>)
    ensures |r| == |fs|
  {
    if fs == [] then [] else Names(fs[..|fs| - 1]) + [Name(fs[|fs| - 1])]
  }

  lemma {:induction false} NamesAppend(fs: seq<FlagName>, gs: seq<FlagName>)
    ensures Names(fs + gs) == Names(fs) + Names(gs)
    decreases |gs|
  {
    if gs == [] {
      assert fs + gs == fs;
    } else {
      var n := |gs| - 1;
      NamesAppend(fs, gs[..n]);
      assert (fs + gs)[..|fs| + n] == fs + gs[..n];
      assert (fs + gs)[|fs| + n] == gs[n];
    }
  }

  lemma NamesOpt(b: bool, f: FlagName)
    ensures Names(Opt(b, f)) == if b then [Name(f)] else []
  {
  }

  lemma NamesPick(b: bool, f: FlagName, g: FlagName)
    ensures Names(Pick(b, f, g)) == if b then [Name(f)] else [Name(g)]
  {
  }

  /** The names of the five parts of a description, one part after the other. */
  lemma NamesDescribe(b0: bool, b1: bool, b2: bool, b3: bool, b4: bool)
    ensures Names(Describe(b0, b1, b2, b3, b4))
         == Names(Opt(b0, Superscript)) + Names(Opt(b1, Italic)) + Names(Pick(b2, Serifed, Sans))
          + Names(Pick(b3, Monospaced, Proportional)) + Names(Opt(b4, Bold))
  {
    var p0, p1, p2, p3, p4 := Opt(b0, Superscript), Opt(b1, Italic), Pick(b2, Serifed, Sans), Pick(b3, Monospaced, Proportional), Opt(b4, Bold);
    NamesAppend(p0, p1);
    NamesAppend(p0 + p1, p2);
    NamesAppend(p0 + p1 + p2, p3);
    NamesAppend(p0 + p1 + p2 + p3, p4);
  }

  /** `flags_decomposer`: the names of the set flags, appended in order and joined by ", ". */
  method FlagsDecomposer(flags: nat) returns (r: string)
    ensures r == Join(", ", Names(FlagList(flags)))
  {
    var b0, b1, b2, b3, b4 := Bit(flags, 0), Bit(flags, 1), Bit(flags, 2), Bit(flags, 3), Bit(flags, 4);
    var l: seq<string> := [];
    if b0 {
      l := l + [Name(Superscript)];
    }
    ghost var l0 := l;
    NamesOpt(b0, Superscript);
    assert l0 == Names(Opt(b0, Superscript));
    if b1 {
      l := l + [Name(Italic)];
    }
    ghost var l1 := l;
    NamesOpt(b1, Italic);
    assert l1 == l0 + Names(Opt(b1, Italic));
    if b2 {
      l := l + [Name(Serifed)];
    } else {
      l := l + [Name(Sans)];
    }
    ghost var l2 := l;
    NamesPick(b2, Serifed, Sans);
    assert l2 == l1 + Names(Pick(b2, Serifed, Sans));
    if b3 {
      l := l + [Name(Monospaced)];
    } else {
      l := l + [Name(Proportional)];
    }
    ghost var l3 := l;
    NamesPick(b3, Monospaced, Proportional);
    assert l3 == l2 + Names(Pick(b3, Monospaced, Proportional));
    if b4 {
      l := l + [Name(Bold)];
    }
    NamesOpt(b4, Bold);
    assert l == l3 + Names(Opt(b4, Bold));
    NamesDescribe(b0, b1, b2, b3, b4);
    r := Join(", ", l);
  }

  /** Different descriptions print differently. */
  lemma NameInjective(f: FlagName, g: FlagName)
    ensures Name(f) == Name(g) <==> f == g
  {
    if f != g {
      assert Name(f)[0] != Name(g)[0] || Name(f)[1] != Name(g)[1];
    }
  }

  lemma DescribeMembers(b0: bool, b1: bool, b2: bool, b3: bool, b4: bool)
    ensures var d := Describe(b0, b1, b2, b3, b4);
      && (Superscript in d <==> b0) && (Italic in d <==> b1) && (Bold in d <==> b4)
      && (Serifed in d <==> b2) && (Sans in d <==> !b2)
      && (Monospaced in d <==> b3) && (Proportional in d <==> !b3)
      && 2 <= |d| <= 5
  {
    var p0, p1, p2, p3, p4 := Opt(b0, Superscript), Opt(b1, Italic), Pick(b2, Serifed, Sans), Pick(b3, Monospaced, Proportional), Opt(b4, Bold);
    var d := Describe(b0, b1, b2, b3, b4);
    assert d == p0 + p1 + p2 + p3 + p4;
    InParts(Superscript, p0, p1, p2, p3, p4);
    InParts(Italic, p0, p1, p2, p3, p4);
    InParts(Serifed, p0, p1, p2, p3, p4);
    InParts(Sans, p0, p1, p2, p3, p4);
    InParts(Monospaced, p0, p1, p2, p3, p4);
    InParts(Proportional, p0, p1, p2, p3, p4);
    InParts(Bold, p0, p1, p2, p3, p4);
  }

  lemma InParts(f: FlagName, p0: seq<FlagName>, p1: seq<FlagName>, p2: seq<FlagName>, p3: seq<FlagName>, p4: seq<FlagName>)
    ensures f in p0 + p1 + p2 + p3 + p4 <==> f in p0 || f in p1 || f in p2 || f in p3 || f in p4
  {
  }

  /** Each optional description is listed exactly when its bit is set, and exactly one of each pair is. */
  lemma FlagListMembers(flags: nat)
    ensures Superscript in FlagList(flags) <==> Bit(flags, 0)
    ensures Italic in FlagList(flags) <==> Bit(flags, 1)
    ensures Bold in FlagList(flags) <==> Bit(flags, 4)
    ensures Serifed in FlagList(flags) <==> Bit(flags, 2)
    ensures Sans in FlagList(flags) <==> !Bit(flags, 2)
    ensures Monospaced in FlagList(flags) <==> Bit(flags, 3)
    ensures Proportional in FlagList(flags) <==> !Bit(flags, 3)
    ensures 2 <= |FlagList(flags)| <= 5
  {
    DescribeMembers(Bit(flags, 0), Bit(flags, 1), Bit(flags, 2), Bit(flags, 3), Bit(flags, 4));
  }

  /** The position of a description in the fixed order. */
  function NameRank(f: FlagName): nat
  {
    match f
    case Superscript => 0
    case Italic => 1
    case Serifed => 2
    case Sans => 3
    case Monospaced => 4
    case Proportional => 5
    case Bold => 6
  }

  /** The descriptions always come in the fixed order, each at most once. */
  lemma FlagListOrdered(flags: nat)
    ensures forall i, j :: 0 <= i < j < |FlagList(flags)| ==> NameRank(FlagList(flags)[i]) < NameRank(FlagList(flags)[j])
  {
  }

  /** Two flag values have the same description exactly when their five low bits agree. */
  lemma FlagListInjective(f: nat, g: nat)
    ensures FlagList(f) == FlagList(g) <==> forall k :: 0 <= k < 5 ==> Bit(f, k) == Bit(g, k)
  {
    if FlagList(f) == FlagList(g) {
      FlagListMembers(f);
      FlagListMembers(g);
      forall k | 0 <= k < 5 ensures Bit(f, k) == Bit(g, k) {
        assert k == 0 || k == 1 || k == 2 || k == 3 || k == 4;
      }
    }
  }

  /** `is_bold`: 1 when bit 4 is set, else 0. */
  function IsBold(flags: nat): (r: int)
    ensures r == 0 || r == 1
    ensures r == 1 <==> Bold in FlagList(flags)
  {
    FlagListMembers(flags);
    if (flags / 16) % 2 == 1 then 1 else 0
  }

  /** `is_superscript`: bit 0 is set. */
  function IsSuperscript(flags: nat): (r: bool)
    ensures r <==> Superscript in FlagList(flags)
  {
    FlagListMembers(flags);
    flags % 2 == 1
  }

  // ---------------------------------------------------------------------
  // Filters: true means the block, text or line is dropped.

  /** `block_filter`: everything but a text block (type 0) is dropped. */
  function BlockFilter(blockType: int): (r: bool)
    ensures r <==> blockType != 0
  {
    blockType != 0
  }

  /** `^\d+%?$`: `t[..n]` the digits, `t[n..]` the optional percent sign. */
  predicate PercentCut(t: string, n: int) {
    && 1 <= n <= |t| && |t| - n <= 1
    && (forall k :: 0 <= k < n ==> IsDigit(t[k]))
    && (n < |t| ==> t[n] == '%')
  }

  ghost predicate PercentPattern(t: string) {
    exists n :: PercentCut(t, n)
  }

  function PercentEnd(t: string): nat {
    if |t| > 0 && t[|t| - 1] == '%' then |t| - 1 else |t|
  }

  predicate IsDigitsPercent(t: string) {
    PercentEnd(t) >= 1 && forall k :: 0 <= k < PercentEnd(t) ==> IsDigit(t[k])
  }

  lemma PercentScanExact(t: string)
    ensures IsDigitsPercent(t) <==> PercentPattern(t)
  {
    if IsDigitsPercent(t) {
      assert PercentCut(t, PercentEnd(t));
    }
    if PercentPattern(t) {
      var n :| PercentCut(t, n);
      assert n == PercentEnd(t);
    }
  }

  /**
   * `block_text_filter`: a block's text is noise when, stripped, it is at
   * most one character long or is digits with an optional trailing "%".
   * Stripping leaves no trailing newline, so `$` can only match at the end.
   */
  function BlockTextFilter(text: string): (r: bool)
    ensures r <==> |Strip(text)| <= 1 || PercentPattern(Strip(text))
  {
    var t := Strip(text);
    PercentScanExact(t);
    |t| <= 1 || IsDigitsPercent(t)
  }

  /** A run of digits is dropped. */
  lemma BlockTextFilterDropsNumber(digits: string)
    requires digits != [] && forall k :: 0 <= k < |digits| ==> IsDigit(digits[k])
    ensures BlockTextFilter(digits)
  {
    assert IsDigit(digits[0]) && IsDigit(digits[|digits| - 1]);
    StripUnpadded(digits);
    assert PercentCut(digits, |digits|);
  }

  /** A run of digits followed by one percent sign is dropped. */
  lemma BlockTextFilterDropsPercentage(digits: string)
    requires digits != [] && forall k :: 0 <= k < |digits| ==> IsDigit(digits[k])
    ensures BlockTextFilter(digits + "%")
  {
    var t := digits + "%";
    assert t[0] == digits[0] && IsDigit(t[0]);
    assert t[|t| - 1] == '%';
    StripUnpadded(t);
    assert PercentCut(t, |digits|);
  }

  /**
   * A stripped text of two or more characters is kept when it has a
   * character other than a digit that is not a single final percent sign:
   * a letter, a leading "%" or a doubled "%%".
   */
  lemma BlockTextFilterKeeps(text: string, k: nat)
    requires 2 <= |Strip(text)| && k < |Strip(text)|
    requires !IsDigit(Strip(text)[k]) && (Strip(text)[k] != '%' || k < |Strip(text)| - 1)
    ensures !BlockTextFilter(text)
  {
    var t := Strip(text);
    if PercentPattern(t) {
      var n :| PercentCut(t, n);
    }
  }

  /** The span texts of a line, concatenated. */
  function Concat(texts: seq<string>): (r: string)
  {
    if texts == [] then "" else Concat(texts[..|texts| - 1]) + texts[|texts| - 1]
  }

  /**
   * `line_filter`: vertical writing, a direction other than (1, 0), or a
   * stripped concatenated text of at most one character drops the line.
   */
  function LineFilter(wmode: int, dir: (real, real), texts: seq<string>): (r: bool)
    ensures r <==> wmode == 1 || dir != (1.0, 0.0) || |Strip(Concat(texts))| <= 1
  {
    if wmode == 1 || dir != (1.0, 0.0) then true
    else
      var text := Strip(Concat(texts));
      |text| <= 1
  }

  /** Every character of each span text appears in the concatenation, after the texts before it. */
  lemma {:induction false} ConcatContains(texts: seq<string>, s: nat, k: nat)
    requires s < |texts| && k < |texts[s]|
    ensures |Concat(texts[..s])| + k < |Concat(texts)|
    ensures Concat(texts)[|Concat(texts[..s])| + k] == texts[s][k]
  {
    var n := |texts| - 1;
    assert texts[..n] == texts[..|texts| - 1];
    if s < n {
      assert texts[..n][..s] == texts[..s];
      ConcatContains(texts[..n], s, k);
    } else {
      assert texts[..s] == texts[..n];
    }
  }

  /** A longer prefix of the span texts concatenates to at least the shorter one and the next text. */
  lemma {:induction false} ConcatPrefixGrows(texts: seq<string>, s1: nat, s2: nat)
    requires s1 < s2 <= |texts|
    ensures |Concat(texts[..s1])| + |texts[s1]| <= |Concat(texts[..s2])|
    decreases s2
  {
    assert texts[..s2][..s2 - 1] == texts[..s2 - 1];
    if s1 < s2 - 1 {
      ConcatPrefixGrows(texts, s1, s2 - 1);
    }
  }

  /**
   * A horizontal line in normal writing mode is kept when its span texts
   * hold two non-whitespace characters, character `i` of span `s1` before
   * character `j` of span `s2`, in one span or in two.
   */
  lemma LineFilterKeeps(wmode: int, texts: seq<string>, s1: nat, i: nat, s2: nat, j: nat)
    requires wmode != 1
    requires s1 < |texts| && i < |texts[s1]| && s2 < |texts| && j < |texts[s2]|
    requires s1 < s2 || (s1 == s2 && i < j)
    requires !IsSpace(texts[s1][i]) && !IsSpace(texts[s2][j])
    ensures !LineFilter(wmode, (1.0, 0.0), texts)
  {
    var c := Concat(texts);
    ConcatContains(texts, s1, i);
    ConcatContains(texts, s2, j);
    var p := |Concat(texts[..s1])| + i;
    var q := |Concat(texts[..s2])| + j;
    if s1 < s2 {
      ConcatPrefixGrows(texts, s1, s2);
    }
    assert p < q;
    StripIsSlice(c);
    var a := |c| - |LStrip(c)|;
    assert a <= p;
    assert q < a + |Strip(c)|;
  }

  // ---------------------------------------------------------------------
  // The outline

  /** A node of the document outline: its title, its first child, its next sibling. */
  datatype OutlineNode = OutlineNode(title: string, down: Option<OutlineNode>, next: Option<OutlineNode>)

  function Size(o: Option<OutlineNode>): nat
  {
    match o
    case None => 0
    case Some(n) => 1 + Size(n.down) + Size(n.next)
  }

  /** Pre-order: a node, then its children one level deeper, then its next sibling at the same level. */
  function OutlineText(o: Option<OutlineNode>, level: nat): string
    decreases Size(o)
  {
    match o
    case None => ""
    case Some(n) => Repeat('\t', level) + n.title + "\n" + OutlineText(n.down, level + 1) + OutlineText(n.next, level)
  }

  /** A node's own line, followed by its children's text, followed by its siblings' text. */
  lemma OutlineTextStep(n: OutlineNode, level: nat)
    ensures OutlineText(Some(n), level)
      == (Repeat('\t', level) + n.title + "\n") + OutlineText(n.down, level + 1) + OutlineText(n.next, level)
  {
  }

  lemma AppendRegroup(r: string, a: string, b: string, c: string)
    ensures r + (a + b + c) == (r + a + b) + c
  {
  }

  /** `format_outline`: walks the siblings in a loop and recurses into each node's children. */
  method FormatOutline(outline: Option<OutlineNode>, level: nat) returns (result: string)
    ensures result == OutlineText(outline, level)
    decreases Size(outline)
  {
    result := "";
    var o := outline;
    while o.Some?
      invariant Size(o) <= Size(outline)
      invariant result + OutlineText(o, level) == OutlineText(outline, level)
      decreases Size(o)
    {
      var node := o.value;
      var line := Repeat('\t', level) + node.title + "\n";
      var children := "";
      if node.down.Some? {
        children := FormatOutline(node.down, level + 1);
      }
      OutlineTextStep(node, level);
      AppendRegroup(result, line, children, OutlineText(node.next, level));
      result := result + line + children;
      o := node.next;
    }
  }

  /** The (depth, title) of every node, in pre-order. */
  function Entries(o: Option<OutlineNode>, level: nat): seq<(nat, string)>
    decreases Size(o)
  {
    match o
    case None => []
    case Some(n) => [(level, n.title)] + Entries(n.down, level + 1) + Entries(n.next, level)
  }

  function RenderEntries(es: seq<(nat, string)>): string
  {
    if es == [] then "" else Repeat('\t', es[0].0) + es[0].1 + "\n" + RenderEntries(es[1..])
  }

  lemma {:induction false} RenderEntriesAppend(a: seq<(nat, string)>, b: seq<(nat, string)>)
    ensures RenderEntries(a + b) == RenderEntries(a) + RenderEntries(b)
  {
    if a != [] {
      RenderEntriesAppend(a[1..], b);
      assert (a + b)[1..] == a[1..] + b;
    } else {
      assert a + b == b;
    }
  }

  /**
   * The outline text is one line per node, in pre-order, each indented by
   * its depth: there are as many lines as nodes, and no node is shallower
   * than the starting level.
   */
  lemma {:induction false} OutlineTextIsPreorder(o: Option<OutlineNode>, level: nat)
    ensures OutlineText(o, level) == RenderEntries(Entries(o, level))
    ensures |Entries(o, level)| == Size(o)
    ensures forall k :: 0 <= k < |Entries(o, level)| ==> Entries(o, level)[k].0 >= level
    decreases Size(o)
  {
    if o.Some? {
      var n := o.value;
      OutlineTextIsPreorder(n.down, level + 1);
      OutlineTextIsPreorder(n.next, level);
      var head := [(level, n.title)];
      RenderEntriesAppend(head + Entries(n.down, level + 1), Entries(n.next, level));
      RenderEntriesAppend(head, Entries(n.down, level + 1));
      assert RenderEntries(head) == Repeat('\t', level) + n.title + "\n" by {
        assert head[1..] == [];
      }
    }
  }

  // ---------------------------------------------------------------------
  // Collapsing lines of the same style

  /**
   * A line dictionary with its "style" and "text" entries. Collapsing
   * rewrites the text in place and never the style.
   */
  class StyledLine {
    const style: string
    var text: string

    constructor(style: string, text: string)
      ensures this.style == style && this.text == text
    {
      this.style := style;
      this.text := text;
    }
  }

  /** The value of a line dictionary at one moment. */
  datatype Entry = Entry(style: string, text: string)

  /** The entries the lines hold now, in order. */
  function Snapshot(ls: seq<StyledLine>): (es: seq<Entry>)
    reads ls
    ensures |es| == |ls|
  {
    if ls == [] then []
    else Snapshot(ls[..|ls| - 1]) + [Entry(ls[|ls| - 1].style, ls[|ls| - 1].text)]
  }

  /** The `k`-th entry of a snapshot is what the `k`-th line holds. */
  lemma {:induction false} SnapshotAt(ls: seq<StyledLine>, k: nat)
    requires k < |ls|
    ensures Snapshot(ls)[k] == Entry(ls[k].style, ls[k].text)
  {
    if k < |ls| - 1 {
      SnapshotAt(ls[..|ls| - 1], k);
    }
  }

  /** Lines that hold the entries, position by position, have those entries as their snapshot. */
  lemma {:induction false} SnapshotOf(ls: seq<StyledLine>, es: seq<Entry>)
    requires |ls| == |es|
    requires forall k :: 0 <= k < |ls| ==> es[k] == Entry(ls[k].style, ls[k].text)
    ensures Snapshot(ls) == es
  {
    if ls != [] {
      SnapshotOf(ls[..|ls| - 1], es[..|es| - 1]);
    }
  }

  /**
   * One step of the merging: a line of the same style as the last kept line
   * is appended to that line's text after a space, any other line is kept.
   */
  function Merge(c: seq<Entry>, e: Entry): (r: seq<Entry>)
    ensures |r| == if c != [] && e.style == c[|c| - 1].style then |c| else |c| + 1
  {
    if c != [] && e.style == c[|c| - 1].style then
      c[..|c| - 1] + [Entry(c[|c| - 1].style, c[|c| - 1].text + " " + e.text)]
    else c + [e]
  }

  /**
   * Consecutive lines of one style become one line: the first of the run,
   * whose text gains a space and the next line's text for each follower.
   */
  function Collapse(es: seq<Entry>): (r: seq<Entry>)
    ensures |r| <= |es| && (r == [] <==> es == [])
  {
    if es == [] then [] else Merge(Collapse(es[..|es| - 1]), es[|es| - 1])
  }

  /** The first `i + 1` entries are the first `i` and then entry `i`. */
  lemma PrefixStep(es: seq<Entry>, i: nat)
    requires i < |es|
    ensures es[..i] + [es[i]] == es[..i + 1]
  {
  }

  lemma CollapseStep(es: seq<Entry>, i: nat)
    requires i < |es|
    ensures Collapse(es[..i + 1]) == Merge(Collapse(es[..i]), es[i])
  {
    assert es[..i + 1][..i] == es[..i];
  }

  /** The texts of the entries, in order. */
  function Texts(es: seq<Entry>): (r: seq<string>)
    ensures |r| == |es| && forall k :: 0 <= k < |es| ==> r[k] == es[k].text
  {
    if es == [] then [] else Texts(es[..|es| - 1]) + [es[|es| - 1].text]
  }

  predicate AdjacentStylesDiffer(es: seq<Entry>) {
    forall k :: 0 <= k < |es| - 1 ==> es[k].style != es[k + 1].style
  }

  /** `bounds` rises strictly from 0 to `len` in `n` steps. */
  predicate RunBounds(n: nat, bounds: seq<int>, len: nat) {
    && |bounds| == n + 1 && bounds[0] == 0 && bounds[n] == len
    && (forall k :: 0 <= k < |bounds| ==> 0 <= bounds[k] <= len)
    && (forall k :: 0 <= k < n ==> bounds[k] < bounds[k + 1])
  }

  /** Every entry of run `k` has the style of `r[k]`. */
  predicate RunStyles(es: seq<Entry>, r: seq<Entry>, bounds: seq<int>)
    requires RunBounds(|r|, bounds, |es|)
  {
    forall k, j :: 0 <= k < |r| && bounds[k] <= j < bounds[k + 1] ==> es[j].style == r[k].style
  }

  /** The texts of `es[lo..hi]` joined by single spaces, built as the merging builds it. */
  function RunText(es: seq<Entry>, lo: nat, hi: nat): string
    requires lo < hi <= |es|
    decreases hi
  {
    if hi == lo + 1 then es[lo].text else RunText(es, lo, hi - 1) + " " + es[hi - 1].text
  }

  /** A run's text is `" ".join` of its texts. */
  lemma {:induction false} RunTextIsJoin(es: seq<Entry>, lo: nat, hi: nat)
    requires lo < hi <= |es|
    ensures RunText(es, lo, hi) == Join(" ", Texts(es[lo..hi]))
    decreases hi
  {
    if hi > lo + 1 {
      RunTextIsJoin(es, lo, hi - 1);
      RunTextJoinStep(es, lo, hi);
    } else {
      RunTextJoinOne(es, lo);
    }
  }

  lemma RunTextJoinStep(es: seq<Entry>, lo: nat, hi: nat)
    requires lo + 1 < hi <= |es|
    requires RunText(es, lo, hi - 1) == Join(" ", Texts(es[lo..hi - 1]))
    ensures RunText(es, lo, hi) == Join(" ", Texts(es[lo..hi]))
  {
    var run, e := es[lo..hi - 1], es[hi - 1];
    SliceSnoc(es, lo, hi);
    JoinTextsSnoc(run, e);
  }

  lemma RunTextJoinOne(es: seq<Entry>, lo: nat)
    requires lo < |es|
    ensures RunText(es, lo, lo + 1) == Join(" ", Texts(es[lo..lo + 1]))
  {
    assert es[lo..lo + 1] == [es[lo]];
    assert Texts([es[lo]]) == [es[lo].text];
  }

  lemma SliceSnoc<T>(s: seq<T>, lo: nat, hi: nat)
    requires lo < hi <= |s|
    ensures s[lo..hi] == s[lo..hi - 1] + [s[hi - 1]]
  {
  }

  /** A run's text does not depend on what follows the run. */
  lemma {:induction false} RunTextSnoc(es: seq<Entry>, e: Entry, lo: nat, hi: nat)
    requires lo < hi <= |es|
    ensures RunText(es + [e], lo, hi) == RunText(es, lo, hi)
    decreases hi
  {
    if hi > lo + 1 {
      RunTextSnoc(es, e, lo, hi - 1);
    }
  }

  /** The text of `r[k]` is the texts of run `k` joined by single spaces. */
  predicate RunTexts(es: seq<Entry>, r: seq<Entry>, bounds: seq<int>)
    requires RunBounds(|r|, bounds, |es|)
  {
    forall k :: 0 <= k < |r| ==> r[k].text == RunText(es, bounds[k], bounds[k + 1])
  }

  /**
   * `bounds` cuts `es` into the runs that `r` shows: run `k` is
   * `es[bounds[k]..bounds[k + 1]]`, never empty, all of `r[k]`'s style, and
   * `r[k]`'s text is the run's texts joined by single spaces (`RunTextIsJoin`).
   */
  predicate RunsOf(es: seq<Entry>, r: seq<Entry>, bounds: seq<int>) {
    RunBounds(|r|, bounds, |es|) && RunStyles(es, r, bounds) && RunTexts(es, r, bounds)
  }

  lemma MergeBounds(n: nat, b: seq<int>, len: nat)
    requires n >= 1 && RunBounds(n, b, len)
    ensures RunBounds(n, b[..n] + [len + 1], len + 1)
  {
    var b' := b[..n] + [len + 1];
    forall k | 0 <= k < n ensures b'[k] < b'[k + 1] {
      if k < n - 1 {
        assert b'[k] == b[k] && b'[k + 1] == b[k + 1];
      }
    }
  }

  lemma MergeStyles(es: seq<Entry>, c: seq<Entry>, b: seq<int>, e: Entry)
    requires c != [] && RunBounds(|c|, b, |es|) && RunStyles(es, c, b) && e.style == c[|c| - 1].style
    ensures RunBounds(|c|, b[..|c|] + [|es| + 1], |es| + 1)
    ensures RunStyles(es + [e], Merge(c, e), b[..|c|] + [|es| + 1])
  {
    MergeBounds(|c|, b, |es|);
    var m := |c| - 1;
    var es', b' := es + [e], b[..|c|] + [|es| + 1];
    var r := c[..m] + [Entry(c[m].style, c[m].text + " " + e.text)];
    assert Merge(c, e) == r;
    forall k, j | 0 <= k < |r| && b'[k] <= j < b'[k + 1] ensures es'[j].style == r[k].style {
      if j < |es| {
        assert es'[j] == es[j];
        if k == m {
          assert b[m] <= j < b[m + 1];
        } else {
          assert b[k] <= j < b[k + 1];
        }
      }
    }
  }

  lemma JoinTextsSnoc(run: seq<Entry>, e: Entry)
    requires run != []
    ensures Join(" ", Texts(run + [e])) == Join(" ", Texts(run)) + " " + e.text
  {
    assert (run + [e])[..|run|] == run;
  }

  lemma MergeTexts(es: seq<Entry>, c: seq<Entry>, b: seq<int>, e: Entry)
    requires c != [] && RunBounds(|c|, b, |es|) && RunTexts(es, c, b) && e.style == c[|c| - 1].style
    ensures RunBounds(|c|, b[..|c|] + [|es| + 1], |es| + 1)
    ensures RunTexts(es + [e], Merge(c, e), b[..|c|] + [|es| + 1])
  {
    MergeBounds(|c|, b, |es|);
    var m := |c| - 1;
    var es', b' := es + [e], b[..|c|] + [|es| + 1];
    var r := c[..m] + [Entry(c[m].style, c[m].text + " " + e.text)];
    assert Merge(c, e) == r;
    forall k | 0 <= k < |r| ensures r[k].text == RunText(es', b'[k], b'[k + 1]) {
      RunTextSnoc(es, e, b[k], b[k + 1]);
      if k == m {
        assert RunText(es', b[m], |es| + 1) == RunText(es', b[m], |es|) + " " + e.text;
      }
    }
  }

  lemma KeepStyles(es: seq<Entry>, c: seq<Entry>, b: seq<int>, e: Entry)
    requires RunBounds(|c|, b, |es|) && RunStyles(es, c, b)
    ensures RunBounds(|c| + 1, b + [|es| + 1], |es| + 1)
    ensures RunStyles(es + [e], c + [e], b + [|es| + 1])
  {
    var n := |c|;
    var es', r, b' := es + [e], c + [e], b + [|es| + 1];
    forall k, j | 0 <= k < |r| && b'[k] <= j < b'[k + 1] ensures es'[j].style == r[k].style {
      if k < n {
        assert es'[j] == es[j] && b[k] <= j < b[k + 1];
      }
    }
  }

  lemma KeepTexts(es: seq<Entry>, c: seq<Entry>, b: seq<int>, e: Entry)
    requires RunBounds(|c|, b, |es|) && RunTexts(es, c, b)
    ensures RunBounds(|c| + 1, b + [|es| + 1], |es| + 1)
    ensures RunTexts(es + [e], c + [e], b + [|es| + 1])
  {
    var n := |c|;
    var es', r, b' := es + [e], c + [e], b + [|es| + 1];
    forall k | 0 <= k < |r| ensures r[k].text == RunText(es', b'[k], b'[k + 1]) {
      if k < n {
        RunTextSnoc(es, e, b[k], b[k + 1]);
      }
    }
  }

  /** The runs of a block, as `collapse_lines` leaves them. */
  lemma {:induction false} CollapseBounds(es: seq<Entry>) returns (bounds: seq<int>)
    ensures RunsOf(es, Collapse(es), bounds)
  {
    if es == [] {
      bounds := [0];
    } else {
      var front, e := es[..|es| - 1], es[|es| - 1];
      assert es == front + [e];
      var b := CollapseBounds(front);
      var c := Collapse(front);
      assert Collapse(es) == Merge(c, e);
      if c != [] && e.style == c[|c| - 1].style {
        MergeStyles(front, c, b, e);
        MergeTexts(front, c, b, e);
        bounds := b[..|c|] + [|front| + 1];
      } else {
        assert Merge(c, e) == c + [e];
        KeepStyles(front, c, b, e);
        KeepTexts(front, c, b, e);
        bounds := b + [|front| + 1];
      }
    }
  }

  /** After collapsing, neighbouring lines differ in style. */
  lemma {:induction false} CollapseAdjacentDiffer(es: seq<Entry>)
    ensures AdjacentStylesDiffer(Collapse(es))
  {
    if es != [] {
      var front, e := es[..|es| - 1], es[|es| - 1];
      CollapseAdjacentDiffer(front);
      var c := Collapse(front);
      if c != [] && e.style == c[|c| - 1].style {
        var m := |c| - 1;
        assert Merge(c, e) == c[..m] + [Entry(c[m].style, c[m].text + " " + e.text)];
      } else {
        assert Merge(c, e) == c + [e];
      }
    }
  }

  /**
   * What `collapse_lines` promises of a block: adjacent kept lines differ in
   * style, and the block cuts into runs of one style each, in order, every
   * kept line holding its run's texts joined by single spaces.
   */
  lemma CollapseRuns(es: seq<Entry>)
    ensures AdjacentStylesDiffer(Collapse(es))
    ensures exists bounds :: RunsOf(es, Collapse(es), bounds)
  {
    CollapseAdjacentDiffer(es);
    var bounds := CollapseBounds(es);
  }

  /** Lines whose neighbours already differ in style are left as they are. */
  lemma {:induction false} CollapseIdentity(es: seq<Entry>)
    requires AdjacentStylesDiffer(es)
    ensures Collapse(es) == es
  {
    if es != [] {
      var front := es[..|es| - 1];
      CollapseIdentity(front);
      assert front + [es[|es| - 1]] == es;
    }
  }

  /** Collapsing twice is collapsing once. */
  lemma CollapseIdempotent(es: seq<Entry>)
    ensures Collapse(Collapse(es)) == Collapse(es)
  {
    CollapseRuns(es);
    CollapseIdentity(Collapse(es));
  }

  /** No text is lost or reordered: the space-joined texts are the same before and after. */
  lemma {:induction false} CollapseKeepsText(es: seq<Entry>)
    ensures Join(" ", Texts(Collapse(es))) == Join(" ", Texts(es))
  {
    if es != [] {
      var front, e := es[..|es| - 1], es[|es| - 1];
      CollapseKeepsText(front);
      MergeKeepsText(Collapse(front), e);
      assert Texts(es) == Texts(front) + [e.text];
      if front != [] {
        JoinSnoc(" ", Texts(front), e.text);
      }
    }
  }

  /** One merging step adds a space and the line's text to the joined texts. */
  lemma MergeKeepsText(c: seq<Entry>, e: Entry)
    ensures c == [] ==> Texts(Merge(c, e)) == [e.text]
    ensures c != [] ==> Join(" ", Texts(Merge(c, e))) == Join(" ", Texts(c)) + " " + e.text
  {
    if c != [] && e.style == c[|c| - 1].style {
      AppendKeepsText(c, e);
    } else if c != [] {
      assert Texts(c + [e]) == Texts(c) + [e.text];
      JoinSnoc(" ", Texts(c), e.text);
    }
  }

  lemma AppendKeepsText(c: seq<Entry>, e: Entry)
    requires c != [] && e.style == c[|c| - 1].style
    ensures Join(" ", Texts(Merge(c, e))) == Join(" ", Texts(c)) + " " + e.text
  {
    var m := |c| - 1;
    var ts := Texts(c);
    TextsReplaceLast(c, c[m].style, c[m].text + " " + e.text);
    AppendAssoc(ts[m], " ", e.text);
    JoinExtendLast(" ", ts, " " + e.text);
    AppendAssoc(Join(" ", ts), " ", e.text);
  }

  lemma TextsReplaceLast(c: seq<Entry>, style: string, t: string)
    requires c != []
    ensures Texts(c[..|c| - 1] + [Entry(style, t)]) == Texts(c)[..|c| - 1] + [t]
  {
  }

  predicate Distinct<T(==)>(xs: seq<T>) {
    forall i, j :: 0 <= i < j < |xs| ==> xs[i] != xs[j]
  }

  /**
   * The state of `collapse_lines` on a block whose entries were `es` after
   * its first `i` lines: `result` holds the first line of each run so far
   * (`block[starts[k]]`, the runs cut at `starts + [i]`) and shows the
   * collapse of those lines, and every line that is not yet reached or was
   * merged away is as it was.
   */
  ghost predicate Progress(block: seq<StyledLine>, es: seq<Entry>, i: nat, result: seq<StyledLine>, starts: seq<int>)
    reads block, result
  {
    && |es| == |block| && i <= |block|
    && Snapshot(result) == Collapse(es[..i])
    && |starts| == |result|
    && RunsOf(es[..i], Collapse(es[..i]), starts + [i])
    && (forall k :: 0 <= k < |result| ==> 0 <= starts[k] < i && result[k] == block[starts[k]])
    && (forall k :: 0 <= k < |result| - 1 ==> starts[k] < starts[|result| - 1])
    && (forall j :: 0 <= j < |block| && (i <= j || j !in starts) ==> es[j] == Entry(block[j].style, block[j].text))
  }

  /** The runs after a line of a new style: that line starts a run of its own. */
  lemma KeepRunsStep(pre: seq<Entry>, n: nat, c: seq<Entry>, starts: seq<int>, e: Entry)
    requires |pre| == n && |starts| == |c| && RunsOf(pre, c, starts + [n])
    ensures RunsOf(pre + [e], c + [e], starts + [n] + [n + 1])
  {
    KeepStyles(pre, c, starts + [n], e);
    KeepTexts(pre, c, starts + [n], e);
  }

  /** The runs after a line of the reference line's style: the last run grows by one line. */
  lemma MergeRunsStep(pre: seq<Entry>, n: nat, c: seq<Entry>, starts: seq<int>, e: Entry)
    requires |pre| == n && |starts| == |c| && c != [] && RunsOf(pre, c, starts + [n]) && e.style == c[|c| - 1].style
    ensures RunsOf(pre + [e], Merge(c, e), starts + [n + 1])
  {
    MergeStyles(pre, c, starts + [n], e);
    MergeTexts(pre, c, starts + [n], e);
    assert (starts + [n])[..|c|] == starts;
  }


  /** A line of a new style is kept and becomes the reference line. */
  lemma KeepStep(block: seq<StyledLine>, es: seq<Entry>, i: nat, result: seq<StyledLine>, starts: seq<int>)
    requires i < |block| && Progress(block, es, i, result, starts)
    requires result == [] || block[i].style != result[|result| - 1].style
    ensures Progress(block, es, i + 1, result + [block[i]], starts + [i])
  {
    CollapseStep(es, i);
    var next := result + [block[i]];
    assert next[..|result|] == result;
    var pre, c := es[..i], Collapse(es[..i]);
    assert Merge(c, es[i]) == c + [es[i]];
    PrefixStep(es, i);
    KeepRunsStep(pre, i, c, starts, es[i]);
    assert RunsOf(es[..i + 1], Collapse(es[..i + 1]), starts + [i] + [i + 1]);
  }

  /** `pos` gives each line of the block its position, so no line occurs twice. */
  ghost predicate Positions(block: seq<StyledLine>, pos: map<StyledLine, int>) {
    forall j :: 0 <= j < |block| ==> block[j] in pos && pos[block[j]] == j
  }

  lemma DistinctPositions(block: seq<StyledLine>) returns (pos: map<StyledLine, int>)
    requires Distinct(block)
    ensures Positions(block, pos)
  {
    pos := map j | 0 <= j < |block| :: block[j] := j;
  }

  /** A line of the reference line's style has its text appended to the reference line's. */
  method AppendToReference(block: seq<StyledLine>, i: nat, result: seq<StyledLine>, ghost es: seq<Entry>, ghost starts: seq<int>,
                           ghost pos: map<StyledLine, int>)
    requires Positions(block, pos) && i < |block| && Progress(block, es, i, result, starts)
    requires result != [] && block[i].style == result[|result| - 1].style
    modifies result[|result| - 1]
    ensures Progress(block, es, i + 1, result, starts)
  {
    CollapseStep(es, i);
    ghost var vals := Collapse(es[..i]);
    var reference := result[|result| - 1];
    ghost var n := |result| - 1;
    ghost var front := result[..n];
    assert result[..n] == front;
    assert reference !in front by {
      forall k | 0 <= k < n ensures result[k] != reference {
        assert starts[k] < starts[n];
        assert pos[result[k]] == starts[k];
      }
    }
    assert pos[reference] == starts[n];
    assert forall j :: 0 <= j < |block| && j != starts[n] ==> block[j] != reference;
    assert Entry(reference.style, reference.text) == vals[n] by {
      SnapshotAt(result, n);
    }
    assert Entry(block[i].style, block[i].text) == es[i];
    PrefixStep(es, i);
    MergeRunsStep(es[..i], i, vals, starts, es[i]);
    assert RunsOf(es[..i + 1], Collapse(es[..i + 1]), starts + [i + 1]);
    ExtendLast(result, block[i].text);
    assert Merge(vals, es[i]) == vals[..n] + [Entry(vals[n].style, vals[n].text + " " + es[i].text)];
    forall j | 0 <= j < |block| && (i + 1 <= j || j !in starts) ensures es[j] == Entry(block[j].style, block[j].text) {
      assert block[j] != reference;
    }
  }

  /** The last kept line's text gets a space and `suffix` appended; the lines before it are not touched. */
  method ExtendLast(result: seq<StyledLine>, suffix: string)
    requires result != [] && result[|result| - 1] !in result[..|result| - 1]
    modifies result[|result| - 1]
    ensures Snapshot(result) == old(Snapshot(result))[..|result| - 1]
      + [Entry(result[|result| - 1].style, old(result[|result| - 1].text) + " " + suffix)]
  {
    var n := |result| - 1;
    var reference := result[n];
    ghost var front := result[..n];
    assert result[..n] == front;
    assert Snapshot(result)[..n] == Snapshot(front);
    reference.text := reference.text + " " + suffix;
  }

  /**
   * One pass of the inner loop of `collapse_lines`, over the `i`-th line of
   * the block: a line of the same style as the last kept line (the
   * reference line) is appended to its text, any other line is kept and
   * becomes the reference line.
   */
  method AddLine(block: seq<StyledLine>, i: nat, result: seq<StyledLine>, ghost es: seq<Entry>, ghost starts: seq<int>,
                 ghost pos: map<StyledLine, int>)
    returns (next: seq<StyledLine>, ghost nextStarts: seq<int>)
    requires Positions(block, pos) && i < |block| && Progress(block, es, i, result, starts)
    modifies block
    ensures Progress(block, es, i + 1, next, nextStarts)
  {
    var line := block[i];
    if |result| > 0 && line.style == result[|result| - 1].style {
      ReferenceInBlock(block, es, i, result, starts);
      AppendToReference(block, i, result, es, starts, pos);
      next, nextStarts := result, starts;
    } else {
      KeepStep(block, es, i, result, starts);
      next, nextStarts := result + [line], starts + [i];
    }
  }

  /** Before the first line, nothing is kept and every line is as it was. */
  lemma ProgressStart(block: seq<StyledLine>, es: seq<Entry>)
    requires es == Snapshot(block)
    ensures Progress(block, es, 0, [], [])
  {
    assert es[..0] == [];
    forall j | 0 <= j < |block| ensures es[j] == Entry(block[j].style, block[j].text) {
      SnapshotAt(block, j);
    }
  }

  /**
   * `result` keeps, of the lines of `block` whose entries were `es`, the
   * first line of each run: the runs of `es` are cut at `bounds`, and kept
   * line `k` is the block's line at `bounds[k]`.
   */
  ghost predicate FirstOfRuns(es: seq<Entry>, block: seq<StyledLine>, result: seq<StyledLine>, bounds: seq<int>) {
    && RunsOf(es, Collapse(es), bounds)
    && |result| == |Collapse(es)|
    && (forall k :: 0 <= k < |result| ==> 0 <= bounds[k] < |block| && result[k] == block[bounds[k]])
  }

  /**
   * What the lines of a block whose entries were `es` hold once the block is
   * collapsed with its runs cut at `bounds`: the first line of run `k` holds
   * the run's merged entry, and every other line is as it was.
   */
  ghost predicate CollapsedBlock(es: seq<Entry>, bounds: seq<int>, now: seq<Entry>) {
    && RunsOf(es, Collapse(es), bounds)
    && |now| == |es|
    && (forall k :: 0 <= k < |Collapse(es)| ==> 0 <= bounds[k] < |now| && now[bounds[k]] == Collapse(es)[k])
    && (forall j :: 0 <= j < |es| && j !in bounds ==> now[j] == es[j])
  }

  /**
   * A block in its collapsed state: its kept lines show the collapse of its
   * entries, and the lines it does not keep hold their old texts.
   */
  lemma CollapsedLines(es: seq<Entry>, block: seq<StyledLine>, result: seq<StyledLine>, bounds: seq<int>)
    requires FirstOfRuns(es, block, result, bounds) && CollapsedBlock(es, bounds, Snapshot(block))
    ensures Snapshot(result) == Collapse(es)
    ensures forall l :: l in result ==> l in block
    ensures forall j :: 0 <= j < |block| && block[j] !in result ==> block[j].text == es[j].text
  {
    var c := Collapse(es);
    forall k | 0 <= k < |result| ensures c[k] == Entry(result[k].style, result[k].text) {
      SnapshotAt(block, bounds[k]);
    }
    SnapshotOf(result, c);
    forall l | l in result ensures l in block {
      var k :| 0 <= k < |result| && result[k] == l;
    }
    forall j | 0 <= j < |block| && block[j] !in result ensures block[j].text == es[j].text {
      NotKeptNotBound(es, block, result, bounds, j);
      SnapshotAt(block, j);
    }
  }

  /** A line the block does not keep is no run's first line. */
  lemma NotKeptNotBound(es: seq<Entry>, block: seq<StyledLine>, result: seq<StyledLine>, bounds: seq<int>, j: int)
    requires FirstOfRuns(es, block, result, bounds) && 0 <= j < |es| && j < |block| && block[j] !in result
    ensures j !in bounds
  {
  }

  /** After the last line, the block is in its collapsed state. */
  lemma ProgressDone(block: seq<StyledLine>, es: seq<Entry>, result: seq<StyledLine>, starts: seq<int>)
    requires Progress(block, es, |block|, result, starts)
    ensures FirstOfRuns(es, block, result, starts + [|block|])
    ensures CollapsedBlock(es, starts + [|block|], Snapshot(block))
  {
    assert es[..|block|] == es;
    var bounds := starts + [|block|];
    var now := Snapshot(block);
    forall k | 0 <= k < |Collapse(es)| ensures now[bounds[k]] == Collapse(es)[k] {
      SnapshotAt(block, starts[k]);
      SnapshotAt(result, k);
    }
    forall j | 0 <= j < |es| && j !in bounds ensures now[j] == es[j] {
      SnapshotAt(block, j);
    }
  }

  /** The last kept line is a line of the block. */
  lemma ReferenceInBlock(block: seq<StyledLine>, es: seq<Entry>, i: nat, result: seq<StyledLine>, starts: seq<int>)
    requires Progress(block, es, i, result, starts) && result != []
    ensures result[|result| - 1] in block
  {
    assert result[|result| - 1] == block[starts[|result| - 1]];
  }

  /**
   * `collapse_lines` for one block: the returned lines are the first line of
   * each run of equal styles, each now holding the run's texts joined by
   * spaces.
   */
  method CollapseBlock(block: seq<StyledLine>) returns (result: seq<StyledLine>, ghost bounds: seq<int>)
    requires Distinct(block)
    modifies block
    ensures Snapshot(result) == Collapse(old(Snapshot(block)))
    ensures FirstOfRuns(old(Snapshot(block)), block, result, bounds)
    ensures CollapsedBlock(old(Snapshot(block)), bounds, Snapshot(block))
    ensures forall j :: 0 <= j < |block| && block[j] !in result ==> block[j].text == old(block[j].text)
    ensures forall l :: l in result ==> l in block
  {
    ghost var es := Snapshot(block);
    assert es == old(Snapshot(block));
    ghost var pos := DistinctPositions(block);
    ProgressStart(block, es);
    assert forall j :: 0 <= j < |block| ==> es[j].text == old(block[j].text);
    ghost var starts: seq<int> := [];
    result := [];
    for i := 0 to |block|
      invariant Progress(block, es, i, result, starts)
    {
      result, starts := AddLine(block, i, result, es, starts, pos);
    }
    bounds := starts + [|block|];
    ProgressDone(block, es, result, starts);
    CollapsedLines(es, block, result, bounds);
  }

  /** Lines none of which changed show what they showed before. */
  twostate lemma {:induction false} SnapshotUntouched(ls: seq<StyledLine>)
    requires forall l :: l in ls ==> unchanged(l)
    ensures Snapshot(ls) == old(Snapshot(ls))
  {
    if ls != [] {
      var front := ls[..|ls| - 1];
      forall l | l in front ensures unchanged(l) {
        assert l in ls;
      }
      SnapshotUntouched(front);
      assert ls[|ls| - 1] in ls;
    }
  }

  /** No line object occurs twice in a page, whether in one block or in two. */
  predicate DisjointBlocks(page: seq<seq<StyledLine>>) {
    && (forall b :: 0 <= b < |page| ==> Distinct(page[b]))
    && (forall b, c, l :: 0 <= b < c < |page| && l in page[b] ==> l !in page[c])
  }

  /** A line of one block is no line of another block of the page. */
  lemma OtherBlock(page: seq<seq<StyledLine>>, b: nat, c: nat)
    requires DisjointBlocks(page) && b < |page| && c < |page| && b != c
    ensures forall l :: l in page[c] ==> l !in page[b]
  {
  }

  function PageObjects(page: seq<seq<StyledLine>>): set<StyledLine> {
    set b, l | b in page && l in b :: l
  }

  lemma BlockInPage(page: seq<seq<StyledLine>>, b: nat)
    requires b < |page|
    ensures forall l :: l in page[b] ==> l in PageObjects(page)
  {
    assert page[b] in page;
  }

  lemma PrefixInPage(page: seq<seq<StyledLine>>, n: nat)
    requires n <= |page|
    ensures PageObjects(page[..n]) <= PageObjects(page)
  {
    forall l | l in PageObjects(page[..n]) ensures l in PageObjects(page) {
      var blk :| blk in page[..n] && l in blk;
      assert blk in page;
    }
  }

  /** What the blocks of a page hold now, block by block. */
  function PageSnapshot(page: seq<seq<StyledLine>>): (r: seq<seq<Entry>>)
    reads PageObjects(page)
    ensures |r| == |page| && forall b :: 0 <= b < |page| ==> r[b] == Snapshot(page[b])
  {
    if page == [] then []
    else
      PrefixInPage(page, |page| - 1);
      BlockInPage(page, |page| - 1);
      PageSnapshot(page[..|page| - 1]) + [Snapshot(page[|page| - 1])]
  }

  lemma BlocksInPage(page: seq<seq<StyledLine>>)
    ensures forall b, l {:trigger l in page[b]} {:trigger l in PageObjects(page), page[b]} :: 0 <= b < |page| && l in page[b] ==> l in PageObjects(page)
  {
    forall b, l | 0 <= b < |page| && l in page[b] ensures l in PageObjects(page) {
      BlockInPage(page, b);
    }
  }

  /**
   * The state of `collapse_lines` on a page whose blocks held `snaps` after
   * its first `b` blocks: each collapsed block kept the first line of each
   * of its runs (cut at `bs`) and is in its collapsed state, and the blocks
   * not yet reached are as they were.
   */
  ghost predicate PageProgress(page: seq<seq<StyledLine>>, snaps: seq<seq<Entry>>, b: nat, result: seq<seq<StyledLine>>, bs: seq<seq<int>>)
    reads PageObjects(page)
  {
    BlocksInPage(page);
    && |snaps| == |page| && b <= |page| && |result| == b && |bs| == b
    && (forall c :: 0 <= c < b ==> FirstOfRuns(snaps[c], page[c], result[c], bs[c]) && CollapsedBlock(snaps[c], bs[c], Snapshot(page[c])))
    && (forall c :: b <= c < |page| ==> Snapshot(page[c]) == snaps[c])
  }

  /** The facts that make up `PageProgress` after block `b`, assembled. */
  lemma PageProgressNext(page: seq<seq<StyledLine>>, snaps: seq<seq<Entry>>, b: nat, result: seq<seq<StyledLine>>, lines: seq<StyledLine>,
                         bs: seq<seq<int>>, bounds: seq<int>, before: seq<seq<Entry>>)
    requires |snaps| == |page| && b < |page| && |result| == b && |bs| == b && |before| == |page|
    requires forall c :: 0 <= c < |page| && c != b ==> Snapshot(page[c]) == before[c]
    requires forall c :: 0 <= c < b ==> FirstOfRuns(snaps[c], page[c], result[c], bs[c]) && CollapsedBlock(snaps[c], bs[c], before[c])
    requires FirstOfRuns(snaps[b], page[b], lines, bounds) && CollapsedBlock(snaps[b], bounds, Snapshot(page[b]))
    requires forall c :: b < c < |page| ==> before[c] == snaps[c]
    ensures PageProgress(page, snaps, b + 1, result + [lines], bs + [bounds])
  {
    var next := result + [lines];
    var nextBounds := bs + [bounds];
    BlocksInPage(page);
    assert forall c :: 0 <= c < b ==> next[c] == result[c] && nextBounds[c] == bs[c];
    assert next[b] == lines && nextBounds[b] == bounds;
  }

  /** Block `b` of a page collapsed; the page's other blocks are not touched. */
  method CollapseBlockOf(page: seq<seq<StyledLine>>, b: nat) returns (lines: seq<StyledLine>, ghost bounds: seq<int>)
    requires DisjointBlocks(page) && b < |page|
    modifies page[b]
    ensures FirstOfRuns(old(Snapshot(page[b])), page[b], lines, bounds)
    ensures CollapsedBlock(old(Snapshot(page[b])), bounds, Snapshot(page[b]))
    ensures forall c :: 0 <= c < |page| && c != b ==> Snapshot(page[c]) == old(Snapshot(page[c]))
  {
    label Before:
    lines, bounds := CollapseBlock(page[b]);
    forall c | 0 <= c < |page| && c != b ensures Snapshot(page[c]) == old@Before(Snapshot(page[c])) {
      OtherBlock(page, b, c);
      forall l | l in page[c] ensures unchanged@Before(l) {
      }
      SnapshotUntouched@Before(page[c]);
    }
  }

  /** One pass of the loop over the blocks of a page: block `b` collapsed. */
  method CollapseNextBlock(page: seq<seq<StyledLine>>, b: nat, result: seq<seq<StyledLine>>, ghost snaps: seq<seq<Entry>>, ghost bs: seq<seq<int>>)
    returns (next: seq<seq<StyledLine>>, ghost nextBounds: seq<seq<int>>)
    requires DisjointBlocks(page) && b < |page| && PageProgress(page, snaps, b, result, bs)
    modifies page[b]
    ensures PageProgress(page, snaps, b + 1, next, nextBounds)
  {
    BlocksInPage(page);
    ghost var before: seq<seq<Entry>> := PageSnapshot(page);
    var lines, bounds := CollapseBlockOf(page, b);
    PageProgressNext(page, snaps, b, result, lines, bs, bounds, before);
    next, nextBounds := result + [lines], bs + [bounds];
  }

  /**
   * `collapse_lines` for one page: every block collapsed in turn. Each block
   * keeps the first line of each of its runs, that line now holding the
   * run's texts joined by spaces; the other lines are not written.
   */
  method CollapsePage(page: seq<seq<StyledLine>>) returns (result: seq<seq<StyledLine>>, ghost bounds: seq<seq<int>>)
    requires DisjointBlocks(page)
    modifies PageObjects(page)
    ensures |result| == |page| && |bounds| == |page|
    ensures forall b :: 0 <= b < |page| ==> Snapshot(result[b]) == Collapse(old(Snapshot(page[b])))
    ensures forall b :: 0 <= b < |page| ==> FirstOfRuns(old(Snapshot(page[b])), page[b], result[b], bounds[b])
    ensures forall b :: 0 <= b < |page| ==> CollapsedBlock(old(Snapshot(page[b])), bounds[b], Snapshot(page[b]))
    ensures forall b, j :: 0 <= b < |page| && 0 <= j < |page[b]| && page[b][j] !in result[b] ==> page[b][j].text == old(page[b][j].text)
    ensures forall b, l :: 0 <= b < |page| && l in result[b] ==> l in page[b]
  {
    ghost var snaps: seq<seq<Entry>> := PageSnapshot(page);
    forall c, j | 0 <= c < |page| && 0 <= j < |page[c]| ensures snaps[c][j].text == page[c][j].text {
      SnapshotAt(page[c], j);
    }
    assert forall c, j :: 0 <= c < |page| && 0 <= j < |page[c]| ==> snaps[c][j].text == old(page[c][j].text);
    result, bounds := [], [];
    for b := 0 to |page|
      invariant PageProgress(page, snaps, b, result, bounds)
    {
      BlockInPage(page, b);
      result, bounds := CollapseNextBlock(page, b, result, snaps, bounds);
    }
    forall b | 0 <= b < |page| ensures
      && Snapshot(result[b]) == Collapse(snaps[b])
      && (forall l :: l in result[b] ==> l in page[b])
      && (forall j :: 0 <= j < |page[b]| && page[b][j] !in result[b] ==> page[b][j].text == snaps[b][j].text)
    {
      CollapsedLines(snaps[b], page[b], result[b], bounds[b]);
    }
  }

  /** No line object occurs twice in the document. */
  predicate DisjointPages(pages: seq<seq<seq<StyledLine>>>) {
    && (forall p :: 0 <= p < |pages| ==> DisjointBlocks(pages[p]))
    && (forall p, q, l :: 0 <= p < q < |pages| && l in PageObjects(pages[p]) ==> l !in PageObjects(pages[q]))
  }

  function DocumentObjects(pages: seq<seq<seq<StyledLine>>>): set<StyledLine> {
    set pg, l | pg in pages && l in PageObjects(pg) :: l
  }

  lemma PageInDocument(pages: seq<seq<seq<StyledLine>>>, p: nat)
    requires p < |pages|
    ensures PageObjects(pages[p]) <= DocumentObjects(pages)
  {
    assert pages[p] in pages;
  }

  lemma PrefixInDocument(pages: seq<seq<seq<StyledLine>>>, n: nat)
    requires n <= |pages|
    ensures DocumentObjects(pages[..n]) <= DocumentObjects(pages)
  {
    forall l | l in DocumentObjects(pages[..n]) ensures l in DocumentObjects(pages) {
      var pg :| pg in pages[..n] && l in PageObjects(pg);
      assert pg in pages;
    }
  }

  /** What every block of every page holds now. */
  function DocumentSnapshot(pages: seq<seq<seq<StyledLine>>>): (r: seq<seq<seq<Entry>>>)
    reads DocumentObjects(pages)
    ensures |r| == |pages| && forall p :: 0 <= p < |pages| ==> r[p] == PageSnapshot(pages[p])
  {
    if pages == [] then []
    else
      PrefixInDocument(pages, |pages| - 1);
      PageInDocument(pages, |pages| - 1);
      DocumentSnapshot(pages[..|pages| - 1]) + [PageSnapshot(pages[|pages| - 1])]
  }

  /** A line of one page is no line of another. */
  lemma OtherPage(pages: seq<seq<seq<StyledLine>>>, p: nat, q: nat)
    requires DisjointPages(pages) && p < |pages| && q < |pages| && p != q
    ensures PageObjects(pages[q]) !! PageObjects(pages[p])
  {
    forall l | l in PageObjects(pages[q]) ensures l !in PageObjects(pages[p]) {
      if q < p {
        assert l in PageObjects(pages[q]);
      }
    }
  }

  lemma LinesInDocument(pages: seq<seq<seq<StyledLine>>>)
    ensures forall q, b, l {:trigger l in pages[q][b]} {:trigger l in DocumentObjects(pages), pages[q][b]} :: 0 <= q < |pages| && 0 <= b < |pages[q]| && l in pages[q][b] ==> l in DocumentObjects(pages)
  {
    forall q, b, l | 0 <= q < |pages| && 0 <= b < |pages[q]| && l in pages[q][b]
      ensures l in DocumentObjects(pages)
    {
      BlockInPage(pages[q], b);
      PageInDocument(pages, q);
    }
  }

  /**
   * The state of `collapse_lines` after the first `p` pages of a document
   * whose blocks held `snaps`: each collapsed block kept the first line of
   * each of its runs (cut at `bs`) and is in its collapsed state, and the
   * pages not yet reached are as they were.
   */
  ghost predicate DocumentProgress(pages: seq<seq<seq<StyledLine>>>, snaps: seq<seq<seq<Entry>>>, p: nat, result: seq<seq<seq<StyledLine>>>,
                                   bs: seq<seq<seq<int>>>)
    reads DocumentObjects(pages)
  {
    LinesInDocument(pages);
    && |snaps| == |pages| && p <= |pages| && |result| == p && |bs| == p
    && (forall q :: 0 <= q < |pages| ==> |snaps[q]| == |pages[q]|)
    && (forall q :: 0 <= q < p ==> |result[q]| == |pages[q]| && |bs[q]| == |pages[q]|)
    && (forall q, b :: 0 <= q < p && 0 <= b < |pages[q]| ==>
          FirstOfRuns(snaps[q][b], pages[q][b], result[q][b], bs[q][b]) && CollapsedBlock(snaps[q][b], bs[q][b], Snapshot(pages[q][b])))
    && (forall q, b :: p <= q < |pages| && 0 <= b < |pages[q]| ==> Snapshot(pages[q][b]) == snaps[q][b])
  }

  /** The facts that make up `DocumentProgress` after page `p`, assembled. */
  lemma DocumentProgressNext(pages: seq<seq<seq<StyledLine>>>, snaps: seq<seq<seq<Entry>>>, p: nat,
                             result: seq<seq<seq<StyledLine>>>, blocks: seq<seq<StyledLine>>,
                             bs: seq<seq<seq<int>>>, bounds: seq<seq<int>>)
    requires |snaps| == |pages| && p < |pages| && |result| == p && |bs| == p
    requires forall q :: 0 <= q < |pages| ==> |snaps[q]| == |pages[q]|
    requires forall q :: 0 <= q < p ==> |result[q]| == |pages[q]| && |bs[q]| == |pages[q]|
    requires forall q, b :: 0 <= q < p && 0 <= b < |pages[q]| ==>
      FirstOfRuns(snaps[q][b], pages[q][b], result[q][b], bs[q][b]) && CollapsedBlock(snaps[q][b], bs[q][b], Snapshot(pages[q][b]))
    requires |blocks| == |pages[p]| && |bounds| == |pages[p]|
    requires forall b :: 0 <= b < |pages[p]| ==>
      FirstOfRuns(snaps[p][b], pages[p][b], blocks[b], bounds[b]) && CollapsedBlock(snaps[p][b], bounds[b], Snapshot(pages[p][b]))
    requires forall q, b :: p < q < |pages| && 0 <= b < |pages[q]| ==> Snapshot(pages[q][b]) == snaps[q][b]
    ensures DocumentProgress(pages, snaps, p + 1, result + [blocks], bs + [bounds])
  {
    var next := result + [blocks];
    var nextBounds := bs + [bounds];
    LinesInDocument(pages);
    assert forall q :: 0 <= q < p ==> next[q] == result[q] && nextBounds[q] == bs[q];
    assert next[p] == blocks && nextBounds[p] == bounds;
  }

  /** One pass of the loop over the pages: page `p` collapsed. */
  method CollapseNextPage(pages: seq<seq<seq<StyledLine>>>, p: nat, result: seq<seq<seq<StyledLine>>>,
                          ghost snaps: seq<seq<seq<Entry>>>, ghost bs: seq<seq<seq<int>>>)
    returns (next: seq<seq<seq<StyledLine>>>, ghost nextBounds: seq<seq<seq<int>>>)
    requires DisjointPages(pages) && p < |pages| && DocumentProgress(pages, snaps, p, result, bs)
    modifies PageObjects(pages[p])
    ensures DocumentProgress(pages, snaps, p + 1, next, nextBounds)
  {
    LinesInDocument(pages);
    label Before:
    var blocks, bounds := CollapsePage(pages[p]);
    forall q, b | 0 <= q < |pages| && q != p && 0 <= b < |pages[q]|
      ensures Snapshot(pages[q][b]) == old@Before(Snapshot(pages[q][b]))
    {
      OtherPage(pages, p, q);
      BlockInPage(pages[q], b);
      forall l | l in pages[q][b] ensures unchanged@Before(l) {
      }
      SnapshotUntouched@Before(pages[q][b]);
    }
    DocumentProgressNext(pages, snaps, p, result, blocks, bs, bounds);
    next, nextBounds := result + [blocks], bs + [bounds];
  }

  /**
   * `collapse_lines`: every block of every page collapsed. The result lists
   * are new; the line objects in them are the input's own, the first line of
   * each run, rewritten in place; the other lines are not written.
   */
  method CollapseLines(pages: seq<seq<seq<StyledLine>>>) returns (result: seq<seq<seq<StyledLine>>>, ghost bounds: seq<seq<seq<int>>>)
    requires DisjointPages(pages)
    modifies DocumentObjects(pages)
    ensures |result| == |pages| && |bounds| == |pages|
    ensures forall p :: 0 <= p < |pages| ==> |result[p]| == |pages[p]| && |bounds[p]| == |pages[p]|
    ensures forall p, b :: 0 <= p < |pages| && 0 <= b < |pages[p]| ==>
      Snapshot(result[p][b]) == Collapse(old(Snapshot(pages[p][b])))
    ensures forall p, b :: 0 <= p < |pages| && 0 <= b < |pages[p]| ==>
      FirstOfRuns(old(Snapshot(pages[p][b])), pages[p][b], result[p][b], bounds[p][b])
    ensures forall p, b :: 0 <= p < |pages| && 0 <= b < |pages[p]| ==>
      CollapsedBlock(old(Snapshot(pages[p][b])), bounds[p][b], Snapshot(pages[p][b]))
    ensures forall p, b, j :: 0 <= p < |pages| && 0 <= b < |pages[p]| && 0 <= j < |pages[p][b]| && pages[p][b][j] !in result[p][b] ==>
      pages[p][b][j].text == old(pages[p][b][j].text)
    ensures forall p, b, l :: 0 <= p < |pages| && 0 <= b < |pages[p]| && l in result[p][b] ==> l in pages[p][b]
  {
    ghost var snaps: seq<seq<seq<Entry>>> := DocumentSnapshot(pages);
    forall q, b, j | 0 <= q < |pages| && 0 <= b < |pages[q]| && 0 <= j < |pages[q][b]|
      ensures snaps[q][b][j].text == pages[q][b][j].text
    {
      SnapshotAt(pages[q][b], j);
    }
    assert forall q, b, j :: 0 <= q < |pages| && 0 <= b < |pages[q]| && 0 <= j < |pages[q][b]| ==>
      snaps[q][b][j].text == old(pages[q][b][j].text);
    result, bounds := [], [];
    for p := 0 to |pages|
      invariant DocumentProgress(pages, snaps, p, result, bounds)
    {
      PageInDocument(pages, p);
      result, bounds := CollapseNextPage(pages, p, result, snaps, bounds);
    }
    forall q, b | 0 <= q < |pages| && 0 <= b < |pages[q]| ensures
      && Snapshot(result[q][b]) == Collapse(snaps[q][b])
      && (forall l :: l in result[q][b] ==> l in pages[q][b])
      && (forall j :: 0 <= j < |pages[q][b]| && pages[q][b][j] !in result[q][b] ==> pages[q][b][j].text == snaps[q][b][j].text)
    {
      CollapsedLines(snaps[q][b], pages[q][b], result[q][b], bounds[q][b]);
    }
  }
}
