/**
 * The pieces of Python's `str` behaviour that the converters rely on:
 * `strip`, `join`, `replace` of one character, `ljust`, repetition of a
 * character, `str(n)` of a natural number, and the ASCII readings of the
 * regular-expression classes `\d` and `\w`.
 */
module Text {

  /** `str.isspace` for one character: the characters Python's `strip()` removes. */
  predicate IsSpace(c: char) {
    || ('\t' <= c <= '\r')
    || ('\U{1C}' <= c <= ' ')
    || c == '\U{85}' || c == '\U{A0}' || c == '\U{1680}'
    || ('\U{2000}' <= c <= '\U{200A}')
    || c == '\U{2028}' || c == '\U{2029}' || c == '\U{202F}' || c == '\U{205F}' || c == '\U{3000}'
  }

  /** A member of `string.whitespace`, the ASCII subset of `IsSpace`. */
  predicate IsAsciiSpace(c: char) {
    ('\t' <= c <= '\r') || c == ' '
  }

  /** `\d` read as the ASCII digits. */
  predicate IsDigit(c: char) {
    '0' <= c <= '9'
  }

  predicate IsLetter(c: char) {
    ('a' <= c <= 'z') || ('A' <= c <= 'Z')
  }

  /** `\w` read as the ASCII word characters. */
  predicate IsWordChar(c: char) {
    IsLetter(c) || IsDigit(c) || c == '_'
  }

  /** The number of whitespace characters `s` starts with. */
  function LeadingSpaces(s: string): (n: nat)
    ensures n <= |s|
    ensures forall i :: 0 <= i < n ==> IsSpace(s[i])
    ensures n < |s| ==> !IsSpace(s[n])
  {
    if s != [] && IsSpace(s[0]) then 1 + LeadingSpaces(s[1..]) else 0
  }

  /** The number of whitespace characters `s` ends with. */
  function TrailingSpaces(s: string): (n: nat)
    ensures n <= |s|
    ensures forall i :: |s| - n <= i < |s| ==> IsSpace(s[i])
    ensures n < |s| ==> !IsSpace(s[|s| - 1 - n])
  {
    if s != [] && IsSpace(s[|s| - 1]) then 1 + TrailingSpaces(s[..|s| - 1]) else 0
  }

  /** `str.lstrip()`. */
  function LStrip(s: string): string {
    s[LeadingSpaces(s)..]
  }

  /** `str.rstrip()`. */
  function RStrip(s: string): string {
    s[..|s| - TrailingSpaces(s)]
  }

  /** `str.strip()`: the text between the leading and the trailing whitespace. */
  function Strip(s: string): (r: string)
    ensures |r| <= |s|
    ensures r != [] ==> !IsSpace(r[0]) && !IsSpace(r[|r| - 1])
  {
    var l := LStrip(s);
    var r := RStrip(l);
    assert r != [] ==> r[0] == s[LeadingSpaces(s)];
    r
  }

  /** `len(s.strip())`, counted without building the stripped text. */
  function StrippedLength(s: string): nat
    decreases |s|
  {
    if s == [] then 0
    else if IsSpace(s[0]) then StrippedLength(s[1..])
    else if IsSpace(s[|s| - 1]) then StrippedLength(s[..|s| - 1])
    else |s|
  }

  lemma {:induction false} StrippedLengthIsStrip(s: string)
    ensures StrippedLength(s) == |Strip(s)|
    decreases |s|
  {
    if s != [] {
      var n := |s| - 1;
      if IsSpace(s[0]) {
        StrippedLengthIsStrip(s[1..]);
        StripDropsLeading(s);
      } else if IsSpace(s[n]) {
        StrippedLengthIsStrip(s[..n]);
        StripDropsTrailing(s);
      } else {
        StripUnpadded(s);
      }
    }
  }

  lemma StripDropsLeading(s: string)
    requires s != [] && IsSpace(s[0])
    ensures Strip(s) == Strip(s[1..])
  {
    var a := LeadingSpaces(s[1..]);
    assert LeadingSpaces(s) == 1 + a;
    assert s[1 + a..] == s[1..][a..];
  }

  lemma StripDropsTrailing(s: string)
    requires s != [] && !IsSpace(s[0]) && IsSpace(s[|s| - 1])
    ensures Strip(s) == Strip(s[..|s| - 1])
  {
    var n := |s| - 1;
    var t := TrailingSpaces(s[..n]);
    assert s[..n][0] == s[0];
    assert s[0..] == s && s[..n][0..] == s[..n];
    assert TrailingSpaces(s) == 1 + t;
    assert s[..n][..n - t] == s[..n - t];
  }

  /** The stripped text is the slice of `s` after its leading and before its trailing whitespace. */
  lemma StripIsSlice(s: string)
    ensures |s| - |LStrip(s)| + |Strip(s)| <= |s|
    ensures Strip(s) == s[|s| - |LStrip(s)|..|s| - |LStrip(s)| + |Strip(s)|]
    ensures forall i :: 0 <= i < |s| - |LStrip(s)| ==> IsSpace(s[i])
    ensures forall i :: |s| - |LStrip(s)| + |Strip(s)| <= i < |s| ==> IsSpace(s[i])
  {
    StripTrailsSpaces(s);
  }

  lemma StripTrailsSpaces(s: string)
    ensures forall i :: |s| - |LStrip(s)| + |Strip(s)| <= i < |s| ==> IsSpace(s[i])
  {
    var a := LeadingSpaces(s);
    var l := s[a..];
    forall i | a + |l| - TrailingSpaces(l) <= i < |s|
      ensures IsSpace(s[i])
    {
      assert s[i] == l[i - a];
    }
  }

  /** Stripping empties exactly the texts made only of whitespace. */
  lemma StripBlank(s: string)
    ensures Strip(s) == [] <==> forall i :: 0 <= i < |s| ==> IsSpace(s[i])
  {
    StripIsSlice(s);
    if Strip(s) != [] {
      assert s[|s| - |LStrip(s)|] == Strip(s)[0];
    }
  }

  /** A text with no whitespace at either end is its own stripped form. */
  lemma StripUnpadded(s: string)
    requires s != [] && !IsSpace(s[0]) && !IsSpace(s[|s| - 1])
    ensures Strip(s) == s
  {
  }

  /** `sep.join(parts)`, built from the end as a loop that appends builds it. */
  function Join(sep: string, parts: seq<string>): string
  {
    if |parts| == 0 then ""
    else if |parts| == 1 then parts[0]
    else Join(sep, parts[..|parts| - 1]) + sep + parts[|parts| - 1]
  }

  lemma AppendAssoc(a: string, b: string, c: string)
    ensures a + b + c == a + (b + c)
  {
  }

  /** Joining one more part adds the separator and the part. */
  lemma JoinSnoc(sep: string, parts: seq<string>, x: string)
    requires parts != []
    ensures Join(sep, parts + [x]) == Join(sep, parts) + sep + x
  {
    assert (parts + [x])[..|parts|] == parts;
  }

  /** Extending the last part extends the joined text by the same suffix. */
  lemma JoinExtendLast(sep: string, parts: seq<string>, x: string)
    requires parts != []
    ensures Join(sep, parts[..|parts| - 1] + [parts[|parts| - 1] + x]) == Join(sep, parts) + x
  {
    var n := |parts| - 1;
    var q := parts[..n] + [parts[n] + x];
    if n > 0 {
      assert q[..n] == parts[..n];
      var head := Join(sep, parts[..n]);
      assert head + sep + (parts[n] + x) == head + sep + parts[n] + x;
    }
  }

  /** `c * n` for a one-character string `c`. */
  function Repeat(c: char, n: nat): (r: string)
    ensures |r| == n
    ensures forall i :: 0 <= i < n ==> r[i] == c
  {
    if n == 0 then "" else Repeat(c, n - 1) + [c]
  }

  /** `s.replace(c, t)` for a one-character pattern `c`. */
  function ReplaceChar(s: string, c: char, t: string): string
  {
    if s == [] then ""
    else (if s[0] == c then t else [s[0]]) + ReplaceChar(s[1..], c, t)
  }

  /** Replacing in a concatenation replaces in each part. */
  lemma {:induction false} ReplaceCharAppend(a: string, b: string, c: char, t: string)
    ensures ReplaceChar(a + b, c, t) == ReplaceChar(a, c, t) + ReplaceChar(b, c, t)
  {
    if a != [] {
      ReplaceCharAppend(a[1..], b, c, t);
      assert (a + b)[1..] == a[1..] + b;
      var h := if a[0] == c then t else [a[0]];
      assert h + (ReplaceChar(a[1..], c, t) + ReplaceChar(b, c, t))
          == (h + ReplaceChar(a[1..], c, t)) + ReplaceChar(b, c, t);
    } else {
      assert a + b == b;
    }
  }

  /** Replacing in a one-character text. */
  lemma ReplaceCharOne(x: char, c: char, t: string)
    ensures ReplaceChar([x], c, t) == if x == c then t else [x]
  {
    assert [x][1..] == [];
  }

  /** A text without the pattern character is left as it is. */
  lemma {:induction false} ReplaceCharAbsent(s: string, c: char, t: string)
    requires c !in s
    ensures ReplaceChar(s, c, t) == s
  {
    if s != [] {
      assert s[0] != c;
      ReplaceCharAbsent(s[1..], c, t);
      assert s == [s[0]] + s[1..];
    }
  }

  /** Replacing a character by a one-character text keeps the length. */
  lemma {:induction false} ReplaceCharLength(s: string, c: char, t: string)
    requires |t| == 1
    ensures |ReplaceChar(s, c, t)| == |s|
  {
    if s != [] {
      ReplaceCharLength(s[1..], c, t);
    }
  }

  /** After the replacement the pattern character is gone, unless the replacement brings it back. */
  lemma {:induction false} ReplaceCharRemoves(s: string, c: char, t: string)
    requires c !in t
    ensures c !in ReplaceChar(s, c, t)
  {
    if s != [] {
      ReplaceCharRemoves(s[1..], c, t);
    }
  }

  /** `s.ljust(width)`: pad with spaces on the right, never truncate. */
  function LJust(s: string, width: int): (r: string)
    ensures |r| == if |s| < width then width else |s|
    ensures r[..|s|] == s
    ensures forall i :: |s| <= i < |r| ==> r[i] == ' '
  {
    if |s| < width then s + Repeat(' ', width - |s|) else s
  }

  /** `str(n)` for a natural number. */
  function NatToString(n: nat): (r: string)
    ensures |r| > 0
    ensures forall i :: 0 <= i < |r| ==> IsDigit(r[i])
  {
    var d := [('0' as int + n % 10) as char];
    if n < 10 then d else NatToString(n / 10) + d
  }
}
