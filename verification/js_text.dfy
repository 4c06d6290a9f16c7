/**
 * The pieces of JavaScript string behaviour the backend relies on: the
 * whitespace class `\s`, greedy character runs, `parseInt`, and
 * `String.prototype.includes`. Strings are sequences of characters.
 */
module JsText {
  import opened Wrappers

  /** The class `\s` of a regular expression, and the leading characters
      `parseInt` skips: the WhiteSpace and LineTerminator characters of
      ECMA-262. Those are TAB, LF, VT, FF, CR and SPACE; then NBSP, OGHAM
      SPACE MARK, U+2000 to U+200A, LINE SEPARATOR, PARAGRAPH SEPARATOR,
      NNBSP, MMSP, IDEOGRAPHIC SPACE and the byte order mark. */
  predicate IsSpace(c: char): (b: bool)
    ensures c == ' ' || c == '\t' || c == '\n' || c == '\r' ==> b
    // whitespace is a control character, the space, or lies beyond ASCII
    ensures b ==> c <= ' ' || '\U{A0}' <= c
  {
    || c == ' ' || ('\t' <= c <= '\r')
    || c == '\U{A0}' || c == '\U{1680}' || ('\U{2000}' <= c <= '\U{200A}')
    || c == '\U{2028}' || c == '\U{2029}' || c == '\U{202F}' || c == '\U{205F}'
    || c == '\U{3000}' || c == '\U{FEFF}'
  }

  /** The class `\d`. */
  predicate IsDigit(c: char)
  {
    '0' <= c <= '9'
  }

  predicate IsHexDigit(c: char)
  {
    IsDigit(c) || ('a' <= c <= 'f') || ('A' <= c <= 'F')
  }

  predicate AllDigits(s: string)
  {
    forall k :: 0 <= k < |s| ==> IsDigit(s[k])
  }

  predicate AllHexDigits(s: string)
  {
    forall k :: 0 <= k < |s| ==> IsHexDigit(s[k])
  }

  /** Length of the longest prefix of `s` whose characters all satisfy `p`:
      what a greedy `p*` consumes. */
  function Span(s: string, p: char -> bool): (n: nat)
    ensures n <= |s|
    ensures forall k :: 0 <= k < n ==> p(s[k])
    ensures n < |s| ==> !p(s[n])
  {
    if s == [] || !p(s[0]) then 0 else 1 + Span(s[1..], p)
  }

  function DigitValue(c: char): (d: nat)
    requires IsHexDigit(c)
    ensures d < 16
    ensures IsDigit(c) ==> d < 10
  {
    if IsDigit(c) then c as int - '0' as int
    else if 'a' <= c <= 'f' then c as int - 'a' as int + 10
    else c as int - 'A' as int + 10
  }

  function Pow(base: nat, n: nat): (r: nat)
    ensures base > 0 ==> r > 0
  {
    if n == 0 then 1 else base * Pow(base, n - 1)
  }

  /** The value of a run of digits in the given radix, most significant first. */
  function Value(d: string, radix: nat): (v: nat)
    requires radix == 10 || radix == 16
    requires AllHexDigits(d)
    requires radix == 10 ==> AllDigits(d)
    ensures v < Pow(radix, |d|)
  {
    if d == [] then 0
    else
      var init := Value(d[..|d| - 1], radix);
      assert init <= Pow(radix, |d| - 1) - 1;
      assert radix * init <= radix * Pow(radix, |d| - 1) - radix;
      radix * init + DigitValue(d[|d| - 1])
  }

  /** The value of a decimal digit string, as `parseInt` gives it. */
  function DecimalValue(d: string): nat
    requires AllDigits(d)
  {
    Value(d, 10)
  }

  /** The decimal text of `n` as a template literal `${n}` prints it: no
      leading zero except for `0` itself. */
  function DecimalString(n: nat): (d: string)
    ensures AllDigits(d) && d != []
    ensures |d| > 1 ==> d[0] != '0'
  {
    var last := ['0' + (n % 10) as char];
    if n < 10 then last else DecimalString(n / 10) + last
  }

  /** Printing then reading back a number gives the number. */
  lemma {:induction false} DecimalRoundTrip(n: nat)
    ensures DecimalValue(DecimalString(n)) == n
  {
    var d := DecimalString(n);
    if n >= 10 {
      DecimalRoundTrip(n / 10);
      assert d[..|d| - 1] == DecimalString(n / 10);
    }
  }

  /** Different numbers print differently, so `${n}` identifies `n`. */
  lemma DecimalStringInjective(m: nat, n: nat)
    requires DecimalString(m) == DecimalString(n)
    ensures m == n
  {
    DecimalRoundTrip(m);
    DecimalRoundTrip(n);
  }

  /** Leading zeros do not change the value of a digit string. */
  lemma {:induction false} LeadingZeroIgnored(d: string)
    requires AllDigits(d)
    ensures AllDigits("0" + d) && DecimalValue("0" + d) == DecimalValue(d)
  {
    assert AllDigits("0" + d);
    if d != [] {
      assert ("0" + d)[..|"0" + d| - 1] == "0" + d[..|d| - 1];
      LeadingZeroIgnored(d[..|d| - 1]);
    }
  }

  /** The text `parseInt` reads digits from: leading whitespace and one
      sign removed. */
  function Unsigned(s: string): string
  {
    var t := s[Span(s, IsSpace)..];
    if |t| > 0 && (t[0] == '-' || t[0] == '+') then t[1..] else t
  }

  /** The first non-whitespace character is a minus sign. */
  predicate IsNegative(s: string)
  {
    var t := s[Span(s, IsSpace)..];
    |t| > 0 && t[0] == '-'
  }

  predicate HasHexPrefix(u: string)
  {
    |u| >= 2 && u[0] == '0' && (u[1] == 'x' || u[1] == 'X')
  }

  /** The digits `parseInt` reads from the unsigned text `u`: hexadecimal
      ones after a `0x` prefix, decimal ones otherwise. */
  function DigitRun(u: string): (d: string)
    ensures d == [] <==>
      if HasHexPrefix(u) then |u| == 2 || !IsHexDigit(u[2]) else |u| == 0 || !IsDigit(u[0])
    ensures AllHexDigits(d)
    ensures !HasHexPrefix(u) ==> AllDigits(d)
  {
    if HasHexPrefix(u) then u[2..][..Span(u[2..], IsHexDigit)] else u[..Span(u, IsDigit)]
  }

  /** `parseInt(s)` with no radix: skip leading whitespace, take an optional
      sign, switch to radix 16 after a `0x`/`0X` prefix, then read the longest
      run of digits. `None` stands for NaN (no digit at all). */
  function ParseInt(s: string): (r: Option<int>)
    ensures var u := Unsigned(s);
      r == None <==>
        if HasHexPrefix(u) then |u| == 2 || !IsHexDigit(u[2]) else |u| == 0 || !IsDigit(u[0])
    ensures r.Some? && r.value < 0 ==> IsNegative(s)
    ensures AllDigits(s) && s != [] ==> r == Some(DecimalValue(s))
  {
    var u := Unsigned(s);
    var digits := DigitRun(u);
    if digits == [] then None
    else
      var v: int := Value(digits, if HasHexPrefix(u) then 16 else 10);
      assert AllDigits(s) && s != [] ==> digits == s by {
        if AllDigits(s) && s != [] {
          assert !IsSpace(s[0]) && u == s;
          assert Span(s, IsDigit) == |s|;
        }
      }
      Some(if IsNegative(s) then -v else v)
  }

  /** `word` occurs in `text` starting at index `k`. */
  predicate OccursAt(text: string, word: string, k: nat)
  {
    k + |word| <= |text| && text[k..k + |word|] == word
  }

  /** `text.includes(word)`. */
  predicate Includes(text: string, word: string): (b: bool)
    ensures b ==> |word| <= |text|
    ensures word == [] ==> b
  {
    assert word == [] ==> OccursAt(text, word, 0);
    exists k: nat | k <= |text| :: OccursAt(text, word, k)
  }
}
