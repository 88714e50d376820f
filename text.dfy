/**
 * The pieces of Swift's String and Foundation's CharacterSet that the core
 * relies on: the `whitespaces` and `newlines` character sets, trimming,
 * splitting into lines, searching, and the decimal rendering of `Int`
 * done by string interpolation.
 *
 * Characters are Unicode scalar values; Swift's grapheme clusters are not
 * modelled.
 */
module Text {
  import opened Common

  // ---------------------------------------------------------------------
  // Character sets

  /** `CharacterSet.whitespaces`: general category Zs plus CHARACTER TABULATION. */
  predicate IsWhitespace(c: char) {
    c == '\t' || c == ' ' || c == '\U{00A0}' || c == '\U{1680}'
    || ('\U{2000}' <= c <= '\U{200A}') || c == '\U{202F}' || c == '\U{205F}' || c == '\U{3000}'
  }

  /** `CharacterSet.newlines`: U+000A through U+000D, U+0085, U+2028 and U+2029. */
  predicate IsNewline(c: char) {
    ('\n' <= c <= '\r') || c == '\U{0085}' || c == '\U{2028}' || c == '\U{2029}'
  }

  /** `CharacterSet.whitespacesAndNewlines`. */
  predicate IsWhitespaceOrNewline(c: char) {
    IsWhitespace(c) || IsNewline(c)
  }

  predicate IsAsciiUpper(c: char) { 'A' <= c <= 'Z' }
  predicate IsAsciiLower(c: char) { 'a' <= c <= 'z' }
  predicate IsAsciiLetter(c: char) { IsAsciiUpper(c) || IsAsciiLower(c) }
  predicate IsAsciiDigit(c: char) { '0' <= c <= '9' }

  // ---------------------------------------------------------------------
  // Trimming: `trimmingCharacters(in:)`

  /** `a` is the suffix of `s` left once its leading members of the set are dropped. */
  predicate LeadingDropped(a: string, s: string, p: char -> bool) {
    && |a| <= |s| && a == s[|s| - |a|..]
    && (forall k :: 0 <= k < |s| - |a| ==> p(s[k]))
    && (a != [] ==> !p(a[0]))
  }

  /** `r` is the prefix of `a` left once its trailing members of the set are dropped. */
  predicate TrailingDropped(r: string, a: string, p: char -> bool) {
    && |r| <= |a| && r == a[..|r|]
    && (forall k :: |r| <= k < |a| ==> p(a[k]))
    && (r != [] ==> !p(r[|r| - 1]))
  }

  /** Drops the leading characters of `s` that satisfy `p`. */
  function TrimStart(s: string, p: char -> bool): (r: string)
    ensures LeadingDropped(r, s, p)
  {
    if s != [] && p(s[0]) then
      var r := TrimStart(s[1..], p);
      assert forall k :: 1 <= k < |s| ==> s[k] == s[1..][k - 1];
      r
    else s
  }

  /** Drops the trailing characters of `s` that satisfy `p`. */
  function TrimEnd(s: string, p: char -> bool): (r: string)
    ensures TrailingDropped(r, s, p)
  {
    if s != [] && p(s[|s| - 1]) then TrimEnd(s[..|s| - 1], p) else s
  }

  /** `r` is the stretch `s[i..i + |r|]`, and every character of `s` outside it satisfies `p`. */
  predicate StretchOf(r: string, s: string, i: int, p: char -> bool) {
    && 0 <= i && i + |r| <= |s| && r == s[i..i + |r|]
    && (forall k :: 0 <= k < i ==> p(s[k]))
    && (forall k :: i + |r| <= k < |s| ==> p(s[k]))
  }

  /**
   * `s.trimmingCharacters(in:)` for the character set whose membership test
   * is `p`: the result is the slice of `s` left once every member of the set
   * is removed from both ends; all that is removed belongs to the set, and
   * the result neither starts nor ends with a member of the set.
   */
  function Trim(s: string, p: char -> bool): (r: string)
    ensures TrimmedForm(r, s, |s| - |TrimStart(s, p)|, p)
  {
    var a := TrimStart(s, p);
    var r := TrimEnd(a, p);
    FormOfParts(s, p, a, r);
    r
  }

  /** A non-empty `r` neither starts nor ends with a member of the set. */
  predicate EndsOutside(r: string, p: char -> bool) {
    r != [] ==> !p(r[0]) && !p(r[|r| - 1])
  }

  /**
   * `r` is the stretch of `s` at `i`, only members of the set lie outside
   * it, it neither starts nor ends with one, and it is empty exactly when
   * all of `s` is in the set.
   */
  predicate TrimmedForm(r: string, s: string, i: int, p: char -> bool) {
    && StretchOf(r, s, i, p)
    && EndsOutside(r, p)
    && (r == [] <==> All(s, p))
  }

  lemma FormOfParts(s: string, p: char -> bool, a: string, r: string)
    requires LeadingDropped(a, s, p) && TrailingDropped(r, a, p)
    ensures TrimmedForm(r, s, |s| - |a|, p)
  {
    TrimIsStretch(s, p, a, r);
    TrimEnds(s, p, a, r);
    StretchEmpty(r, s, |s| - |a|, p);
  }

  lemma TrimIsStretch(s: string, p: char -> bool, a: string, r: string)
    requires LeadingDropped(a, s, p) && TrailingDropped(r, a, p)
    ensures StretchOf(r, s, |s| - |a|, p)
  {
    SliceOfSuffix(s, a, r);
    var i := |s| - |a|;
    forall k | i + |r| <= k < |s| ensures p(s[k]) {
      SuffixAt(s, a, k);
    }
  }

  lemma TrimEnds(s: string, p: char -> bool, a: string, r: string)
    requires LeadingDropped(a, s, p) && TrailingDropped(r, a, p)
    ensures EndsOutside(r, p)
  {
    if r != [] {
      assert r[0] == a[0];
    }
  }

  /** A stretch that neither starts nor ends with a member of the set is empty exactly when all of `s` is in the set. */
  lemma StretchEmpty(r: string, s: string, i: int, p: char -> bool)
    requires StretchOf(r, s, i, p)
    requires r != [] ==> !p(r[0])
    ensures r == [] <==> All(s, p)
  {
    if r != [] {
      assert s[i] == r[0];
    }
  }

  lemma SliceOfSuffix(s: string, a: string, r: string)
    requires |a| <= |s| && a == s[|s| - |a|..]
    requires |r| <= |a| && r == a[..|r|]
    ensures var i := |s| - |a|;
      && i + |r| <= |s| && r == s[i..i + |r|]
  {
  }

  lemma SuffixAt(s: string, a: string, k: int)
    requires |a| <= |s| && a == s[|s| - |a|..]
    requires |s| - |a| <= k < |s|
    ensures s[k] == a[k - (|s| - |a|)]
  {
  }

  /** A string that neither starts nor ends with a member of the set is left as it is. */
  lemma TrimUnchanged(s: string, p: char -> bool)
    requires s != [] ==> !p(s[0]) && !p(s[|s| - 1])
    ensures Trim(s, p) == s
  {
  }

  // ---------------------------------------------------------------------
  // Searching

  /** True when some character of `s` satisfies `p` (a regular-expression range search). */
  function Contains(s: string, p: char -> bool): (b: bool)
    ensures b <==> exists k :: 0 <= k < |s| && p(s[k])
  {
    if s == [] then false
    else p(s[0]) || (assert forall k :: 1 <= k < |s| ==> s[k] == s[1..][k - 1]; Contains(s[1..], p))
  }

  /** True when every character of `s` satisfies `p`. */
  predicate All(s: string, p: char -> bool) {
    forall k :: 0 <= k < |s| ==> p(s[k])
  }

  /** The index of the first occurrence of `c` in `s`. */
  function IndexOf(s: string, c: char): (r: Option<nat>)
    ensures r.None? <==> c !in s
    ensures r.Some? ==> r.value < |s| && s[r.value] == c && c !in s[..r.value]
  {
    if s == [] then None
    else if s[0] == c then Some(0)
    else match IndexOf(s[1..], c)
      case None => None
      case Some(i) => Some(i + 1)
  }

  /** The index of the last occurrence of `c` in `s`. */
  function LastIndexOf(s: string, c: char): (r: Option<nat>)
    ensures r.None? <==> c !in s
    ensures r.Some? ==> r.value < |s| && s[r.value] == c && c !in s[r.value + 1..]
  {
    if s == [] then None
    else if s[|s| - 1] == c then Some(|s| - 1)
    else LastIndexOf(s[..|s| - 1], c)
  }

  // ---------------------------------------------------------------------
  // Lines: `components(separatedBy: .newlines)`

  /**
   * Splits `s` at every newline character. Two adjacent newline characters
   * (such as CR LF) give an empty component between them, and the result
   * always has one component more than `s` has newline characters.
   */
  function Lines(s: string): (r: seq<string>)
    ensures |r| >= 1
    ensures forall k :: 0 <= k < |r| ==> forall c :: c in r[k] ==> !IsNewline(c)
  {
    if s == [] then [""]
    else
      var rest := Lines(s[1..]);
      if IsNewline(s[0]) then [""] + rest
      else [[s[0]] + rest[0]] + rest[1..]
  }

  /** The newline characters of `s`, in order. */
  function Newlines(s: string): (r: string)
    ensures forall c :: c in r ==> IsNewline(c)
  {
    if s == [] then []
    else if IsNewline(s[0]) then [s[0]] + Newlines(s[1..])
    else Newlines(s[1..])
  }

  /** Glues components back together, putting `seps[k]` after `parts[k]`. */
  function Interleave(parts: seq<string>, seps: string): string
    requires |parts| == |seps| + 1
  {
    if seps == [] then parts[0]
    else parts[0] + [seps[0]] + Interleave(parts[1..], seps[1..])
  }

  /** Splitting loses nothing: the components and the separators rebuild the text. */
  lemma {:induction false} LinesRoundTrip(s: string)
    ensures |Lines(s)| == |Newlines(s)| + 1
    ensures Interleave(Lines(s), Newlines(s)) == s
  {
    if s != [] {
      LinesRoundTrip(s[1..]);
      var rest := Lines(s[1..]);
      var seps := Newlines(s[1..]);
      if !IsNewline(s[0]) && seps != [] {
        assert Lines(s)[1..] == rest[1..];
      }
    }
  }

  // ---------------------------------------------------------------------
  // Decimal numbers: `"\(n)"` for an `Int`

  function DigitChar(d: nat): (c: char)
    requires d < 10
    ensures IsAsciiDigit(c)
  {
    ['0', '1', '2', '3', '4', '5', '6', '7', '8', '9'][d]
  }

  function DigitValue(c: char): (d: nat)
    requires IsAsciiDigit(c)
    ensures d < 10 && DigitChar(d) == c
  {
    (c as int) - ('0' as int)
  }

  /** The decimal digits of `n`, without leading zeros. */
  function NatToDecimal(n: nat): (r: string)
    ensures r != [] && forall c :: c in r ==> IsAsciiDigit(c)
  {
    if n < 10 then [DigitChar(n)] else NatToDecimal(n / 10) + [DigitChar(n % 10)]
  }

  /** Interpolation of an `Int`: a minus sign for negative numbers, then the digits. */
  function IntToDecimal(i: int): (r: string)
    ensures r != []
    ensures forall k :: 0 <= k < |r| ==> IsAsciiDigit(r[k]) || (k == 0 && r[k] == '-')
  {
    if i < 0 then "-" + NatToDecimal(-i) else NatToDecimal(i)
  }

  predicate AllDigits(s: string) {
    forall c :: c in s ==> IsAsciiDigit(c)
  }

  /** The value of a non-empty digit string. */
  function ParseNat(s: string): nat
    requires s != [] && AllDigits(s)
  {
    if |s| == 1 then DigitValue(s[0])
    else ParseNat(s[..|s| - 1]) * 10 + DigitValue(s[|s| - 1])
  }

  /** Reads an optional minus sign followed by digits; `None` for anything else. */
  function ParseInt(s: string): Option<int> {
    if |s| > 1 && s[0] == '-' && AllDigits(s[1..]) then Some(0 - ParseNat(s[1..]) as int)
    else if s != [] && AllDigits(s) then Some(ParseNat(s))
    else None
  }

  lemma {:induction false} NatToDecimalRoundTrip(n: nat)
    ensures ParseNat(NatToDecimal(n)) == n
  {
    if n >= 10 {
      var s := NatToDecimal(n);
      assert s[..|s| - 1] == NatToDecimal(n / 10);
      NatToDecimalRoundTrip(n / 10);
    }
  }

  /** Decimal rendering is undone by parsing, so it loses no information. */
  lemma IntToDecimalRoundTrip(i: int)
    ensures ParseInt(IntToDecimal(i)) == Some(i)
  {
    if i < 0 {
      NegativeRoundTrip(i);
    } else {
      var s := NatToDecimal(i);
      assert s[0] in s;
      NatToDecimalRoundTrip(i);
    }
  }

  lemma NegativeRoundTrip(i: int)
    requires i < 0
    ensures ParseInt(IntToDecimal(i)) == Some(i)
  {
    var n: nat := -i;
    NatToDecimalRoundTrip(n);
    NegativeDecimal(i, n);
    ParseNegative(IntToDecimal(i), NatToDecimal(n));
  }

  lemma NegativeDecimal(i: int, n: nat)
    requires i < 0 && n == -i
    ensures IntToDecimal(i) == "-" + NatToDecimal(n) && AllDigits(NatToDecimal(n))
  {
  }

  lemma ParseNegative(s: string, digits: string)
    requires s == "-" + digits && digits != [] && AllDigits(digits)
    ensures ParseInt(s) == Some(0 - ParseNat(digits) as int)
  {
    assert s[1..] == digits;
  }

  /** Distinct integers have distinct decimal renderings. */
  lemma IntToDecimalInjective(i: int, j: int)
    requires IntToDecimal(i) == IntToDecimal(j)
    ensures i == j
  {
    IntToDecimalRoundTrip(i);
    IntToDecimalRoundTrip(j);
  }
}
