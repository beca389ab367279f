/**
 * The noise classifier `should_skip`: a text is noise when it is empty or
 * when it matches one of three anchored regular expressions,
 *   numeric/currency/percent  ^[-$]?['`,.\d ]*[?%]?$
 *   one or two short words    ^\w{,3}( \w{,3})?$
 *   bare year                 ^[(]?[12]\d{,3}[)]?$
 *
 * Each expression is written twice: as what the pattern means (a way of
 * cutting the text into the pieces the pattern names, `...Pattern`) and as
 * a direct scan of the text (`Is...`), which `ShouldSkip` uses. A lemma
 * per expression shows the two agree on every text.
 */
module TextSkipping {
  import opened Text

  predicate IsSignOrCurrency(c: char) {
    c == '-' || c == '$'
  }

  /** The repeated class `['`,.\d ]`. */
  predicate IsNumberChar(c: char) {
    c == '\'' || c == '`' || c == ',' || c == '.' || IsDigit(c) || c == ' '
  }

  predicate IsQueryOrPercent(c: char) {
    c == '?' || c == '%'
  }

  // ---------------------------------------------------------------------
  // ^[-$]?['`,.\d ]*[?%]?$

  /** `s[..i]` is the optional sign, `s[i..j]` the repeated class, `s[j..]` the optional suffix. */
  predicate NumberCut(s: string, i: int, j: int) {
    && 0 <= i <= 1 && i <= j <= |s| && |s| - j <= 1
    && (i == 1 ==> IsSignOrCurrency(s[0]))
    && (forall k :: i <= k < j ==> IsNumberChar(s[k]))
    && (j < |s| ==> IsQueryOrPercent(s[j]))
  }

  ghost predicate NumberPattern(s: string) {
    exists i, j :: NumberCut(s, i, j)
  }

  function NumberStart(s: string): nat {
    if |s| > 0 && IsSignOrCurrency(s[0]) then 1 else 0
  }

  function NumberEnd(s: string): nat {
    if |s| > NumberStart(s) && IsQueryOrPercent(s[|s| - 1]) then |s| - 1 else |s|
  }

  predicate IsNumberCurrencyPercent(s: string) {
    forall k :: NumberStart(s) <= k < NumberEnd(s) ==> IsNumberChar(s[k])
  }

  lemma NumberScanExact(s: string)
    ensures IsNumberCurrencyPercent(s) <==> NumberPattern(s)
  {
    if IsNumberCurrencyPercent(s) {
      assert NumberCut(s, NumberStart(s), NumberEnd(s));
    }
    if NumberPattern(s) {
      var i, j :| NumberCut(s, i, j);
      assert i <= NumberStart(s);
      if j < |s| {
        assert |s| > NumberStart(s) by {
          if NumberStart(s) == 1 {
            assert IsSignOrCurrency(s[0]);
            assert j != 0;
          }
        }
      }
      assert NumberEnd(s) <= j;
    }
  }

  // ---------------------------------------------------------------------
  // ^\w{,3}( \w{,3})?$

  predicate AllWordChars(s: string) {
    forall k :: 0 <= k < |s| ==> IsWordChar(s[k])
  }

  /** `s[..k]` is the first word, `s[k]` the single space, `s[k + 1..]` the second word. */
  predicate TwoWordsCut(s: string, k: int) {
    && 0 <= k < |s| && s[k] == ' '
    && k <= 3 && AllWordChars(s[..k])
    && |s| - (k + 1) <= 3 && AllWordChars(s[k + 1..])
  }

  ghost predicate ShortWordsPattern(s: string) {
    (|s| <= 3 && AllWordChars(s)) || exists k :: TwoWordsCut(s, k)
  }

  /** The number of word characters `s` starts with. */
  function WordPrefixLength(s: string): (n: nat)
    ensures n <= |s|
    ensures AllWordChars(s[..n])
    ensures n < |s| ==> !IsWordChar(s[n])
  {
    if s != [] && IsWordChar(s[0]) then
      var n := 1 + WordPrefixLength(s[1..]);
      assert s[..n] == [s[0]] + s[1..][..n - 1];
      n
    else 0
  }

  predicate IsShortWords(s: string) {
    var k := WordPrefixLength(s);
    && k <= 3
    && (k == |s| || (s[k] == ' ' && |s| - (k + 1) <= 3 && AllWordChars(s[k + 1..])))
  }

  lemma ShortWordsScanExact(s: string)
    ensures IsShortWords(s) <==> ShortWordsPattern(s)
  {
    var n := WordPrefixLength(s);
    if IsShortWords(s) && n < |s| {
      assert TwoWordsCut(s, n);
    }
    if ShortWordsPattern(s) {
      if !(|s| <= 3 && AllWordChars(s)) {
        var k :| TwoWordsCut(s, k);
      }
    }
  }

  // ---------------------------------------------------------------------
  // ^[(]?[12]\d{,3}[)]?$

  /** `s[..i]` the optional "(", `s[i]` the 1 or 2, `s[i + 1..j]` up to three digits, `s[j..]` the optional ")". */
  predicate YearCut(s: string, i: int, j: int) {
    && 0 <= i <= 1 && i < j <= |s| && |s| - j <= 1
    && (i == 1 ==> s[0] == '(')
    && (s[i] == '1' || s[i] == '2')
    && j - (i + 1) <= 3
    && (forall k :: i < k < j ==> IsDigit(s[k]))
    && (j < |s| ==> s[j] == ')')
  }

  ghost predicate YearPattern(s: string) {
    exists i, j :: YearCut(s, i, j)
  }

  function YearStart(s: string): nat {
    if |s| > 0 && s[0] == '(' then 1 else 0
  }

  function YearEnd(s: string): nat {
    if |s| > YearStart(s) && s[|s| - 1] == ')' then |s| - 1 else |s|
  }

  predicate IsYear(s: string) {
    var i, j := YearStart(s), YearEnd(s);
    && i < j
    && (s[i] == '1' || s[i] == '2')
    && j - (i + 1) <= 3
    && (forall k :: i < k < j ==> IsDigit(s[k]))
  }

  lemma YearScanExact(s: string)
    ensures IsYear(s) <==> YearPattern(s)
  {
    if IsYear(s) {
      assert YearCut(s, YearStart(s), YearEnd(s));
    }
    if YearPattern(s) {
      var i, j :| YearCut(s, i, j);
      assert i == YearStart(s);
      assert j == YearEnd(s);
    }
  }

  // ---------------------------------------------------------------------

  /**
   * `should_skip`: empty, or one of the three patterns matches the whole
   * text. Nothing is trimmed first.
   */
  function ShouldSkip(text: string): (r: bool)
    ensures r <==> |text| == 0 || NumberPattern(text) || ShortWordsPattern(text) || YearPattern(text)
  {
    NumberScanExact(text);
    ShortWordsScanExact(text);
    YearScanExact(text);
    |text| == 0 || IsNumberCurrencyPercent(text) || IsShortWords(text) || IsYear(text)
  }

  /** Every text made only of digits and `'`, backtick, `,`, `.` and space is skipped. */
  lemma NumberCharsSkipped(s: string, sign: string, suffix: string)
    requires |sign| <= 1 && (sign != "" ==> IsSignOrCurrency(sign[0]))
    requires |suffix| <= 1 && (suffix != "" ==> IsQueryOrPercent(suffix[0]))
    requires forall k :: 0 <= k < |s| ==> IsNumberChar(s[k])
    ensures ShouldSkip(sign + s + suffix)
  {
    var t := sign + s + suffix;
    assert NumberCut(t, |sign|, |sign| + |s|);
  }

  /** One word of up to three word characters, optionally a space and a second such word, is skipped. */
  lemma ShortWordsSkipped(w1: string, w2: string)
    requires |w1| <= 3 && AllWordChars(w1)
    requires |w2| <= 3 && AllWordChars(w2)
    ensures ShouldSkip(w1)
    ensures ShouldSkip(w1 + " " + w2)
  {
    var t := w1 + " " + w2;
    assert t[..|w1|] == w1 && t[|w1| + 1..] == w2;
    assert TwoWordsCut(t, |w1|);
  }

  /** A 1 or 2 followed by up to three digits, each parenthesis optional and unpaired, is skipped. */
  lemma YearSkipped(open: string, lead: char, digits: string, close: string)
    requires open == "" || open == "("
    requires lead == '1' || lead == '2'
    requires |digits| <= 3 && forall k :: 0 <= k < |digits| ==> IsDigit(digits[k])
    requires close == "" || close == ")"
    ensures ShouldSkip(open + [lead] + digits + close)
  {
    var t := open + [lead] + digits + close;
    assert YearCut(t, |open|, |open| + 1 + |digits|);
  }

  /** A run of four word characters containing a letter makes a text substantive. */
  lemma FourLetterRunKept(s: string, start: nat, letter: nat)
    requires start + 4 <= |s|
    requires forall k :: start <= k < start + 4 ==> IsWordChar(s[k])
    requires start <= letter < start + 4 && IsLetter(s[letter])
    ensures !ShouldSkip(s)
  {
    NumberScanExact(s);
    ShortWordsScanExact(s);
    YearScanExact(s);
    assert !IsNumberChar(s[letter]);
    var n := WordPrefixLength(s);
    if n <= 3 && n < |s| && s[n] == ' ' {
      assert s[n + 1..][letter - (n + 1)] == s[letter];
    }
    assert !IsYear(s) by {
      var i, j := YearStart(s), YearEnd(s);
      if i < letter < j {
        assert !IsDigit(s[letter]);
      }
    }
  }

  /** Any character outside the three patterns' alphabets makes a text substantive. */
  lemma ForeignCharKept(s: string, k: nat)
    requires k < |s|
    requires !IsWordChar(s[k]) && s[k] !in {' ', '-', '$', '\'', '`', ',', '.', '?', '%', '(', ')'}
    ensures !ShouldSkip(s)
  {
    NumberScanExact(s);
    YearScanExact(s);
    ForeignCharNoShortWords(s, k);
  }

  lemma ForeignCharNoShortWords(s: string, k: nat)
    requires k < |s| && !IsWordChar(s[k]) && s[k] != ' '
    ensures !ShortWordsPattern(s)
  {
    ShortWordsScanExact(s);
    var n := WordPrefixLength(s);
    if n < k {
      assert s[n + 1..][k - (n + 1)] == s[k];
    }
  }

  /** Only one leading sign or currency character is accepted: "-$" starts a kept text. */
  lemma TwoSignsKept(s: string)
    requires |s| >= 2 && IsSignOrCurrency(s[0]) && IsSignOrCurrency(s[1])
    ensures !ShouldSkip(s)
  {
    NumberScanExact(s);
    ShortWordsScanExact(s);
    YearScanExact(s);
    assert !IsNumberChar(s[1]);
  }

  /** Verdicts of the numeric rule, including an all-digit text that is no year. */
  lemma NumberExamples()
    ensures ShouldSkip("") && ShouldSkip("3024") && ShouldSkip("$1,234.56")
    ensures ShouldSkip("75%") && ShouldSkip("...")
  {
    assert NumberCut("3024", 0, 4);
    assert NumberCut("$1,234.56", 1, 9);
    assert NumberCut("75%", 0, 2);
    assert NumberCut("...", 0, 3);
  }

  /** Verdicts of the short-words rule; a trailing space leaves an empty second word. */
  lemma ShortWordsExamples()
    ensures ShouldSkip("ok") && ShouldSkip("an it") && ShouldSkip("ab ")
  {
    assert AllWordChars("ok");
    assert TwoWordsCut("an it", 2);
    assert TwoWordsCut("ab ", 2);
  }

  /** Verdicts of the year rule: the parentheses need not pair. */
  lemma YearExamples()
    ensures ShouldSkip("(1999)") && ShouldSkip("(2024") && ShouldSkip("2024")
  {
    assert YearCut("(1999)", 1, 5);
    assert YearCut("(2024", 1, 5);
    assert YearCut("2024", 0, 4);
  }

  /** Texts that no rule matches. */
  lemma KeptExamples()
    ensures !ShouldSkip("-$12") && !ShouldSkip("hello world")
  {
    TwoSignsKept("-$12");
    FourLetterRunKept("hello world", 0, 0);
  }
}
