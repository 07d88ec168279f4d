/**
 * Python's `int(s)` on a string, base 10: surrounding whitespace is ignored,
 * one optional sign, then decimal digits with single underscores allowed
 * between digits. Anything else raises `ValueError`, modelled as `None`.
 */
module PyInt {
  import opened Wrappers
  import opened PyStr

  predicate IsDigit(c: char) {
    '0' <= c <= '9'
  }

  function DigitValue(c: char): nat
    requires IsDigit(c)
  {
    c as int - '0' as int
  }

  function DigitChar(d: nat): (c: char)
    requires d < 10
    ensures IsDigit(c) && DigitValue(c) == d
  {
    ('0' as int + d) as char
  }

  predicate DigitsOrUnderscores(d: string) {
    forall k :: 0 <= k < |d| ==> IsDigit(d[k]) || d[k] == '_'
  }

  /** The digit part of a literal: digits, with single underscores only between two digits. */
  predicate WellFormedDigits(d: string) {
    && |d| > 0
    && DigitsOrUnderscores(d)
    && IsDigit(d[0]) && IsDigit(d[|d| - 1])
    && forall k :: 0 <= k < |d| - 1 ==> !(d[k] == '_' && d[k + 1] == '_')
  }

  /** The value of a digit string, underscores skipped. */
  function DigitsValue(d: string): nat
    requires DigitsOrUnderscores(d)
  {
    if d == [] then 0
    else
      var init := d[..|d| - 1];
      assert forall k :: 0 <= k < |init| ==> init[k] == d[k];
      if d[|d| - 1] == '_' then DigitsValue(init)
      else 10 * DigitsValue(init) + DigitValue(d[|d| - 1])
  }

  /**
   * The four information separators U+001C to U+001F. `str.isspace()`
   * counts them as whitespace, but `int()` skips only the other whitespace
   * characters around a literal, so these four stay and are rejected.
   */
  predicate IsSeparator(c: char) {
    '\U{1c}' <= c <= '\U{1f}'
  }

  /** The whitespace `int()` skips around a literal. */
  predicate IsIntSpace(c: char) {
    IsSpace(c) && !IsSeparator(c)
  }

  predicate AllIntSpace(s: string) {
    forall k :: 0 <= k < |s| ==> IsIntSpace(s[k])
  }

  predicate NoSeparator(s: string) {
    forall k :: 0 <= k < |s| ==> !IsSeparator(s[k])
  }

  /** The default limit on the number of digits `int()` converts from a decimal string. */
  const MaxStrDigits := 4300

  /** The number of digits in `d`, underscores not counted. */
  function DigitCount(d: string): nat {
    if d == [] then 0
    else DigitCount(d[..|d| - 1]) + (if IsDigit(d[|d| - 1]) then 1 else 0)
  }

  /**
   * `int(s)`. A separator cannot be skipped and cannot be part of a
   * literal, so any separator in `s` makes it fail; without one, what
   * `int()` skips is exactly what `strip()` removes. An empty or
   * all-whitespace string is rejected, and whatever is accepted ends, once
   * stripped, in a digit.
   */
  function IntLiteral(s: string): (r: Option<int>)
    ensures AllSpace(s) ==> r == None
    ensures r.Some? ==> NoSeparator(s) && Strip(s) != [] && IsDigit(Strip(s)[|Strip(s)| - 1])
  {
    if NoSeparator(s) then ParseStripped(Strip(s)) else None
  }

  /** The digits of a literal, when well formed and no more than the limit allows. */
  function ParseDigits(d: string): (r: Option<nat>)
    ensures r.Some? <==> WellFormedDigits(d) && DigitCount(d) <= MaxStrDigits
  {
    if WellFormedDigits(d) && DigitCount(d) <= MaxStrDigits then Some(DigitsValue(d)) else None
  }

  /** The literal once its surrounding whitespace is gone: an optional sign, then the digits. */
  function ParseStripped(t: string): (r: Option<int>)
    ensures r.Some? ==> t != [] && IsDigit(t[|t| - 1])
  {
    if t != [] && (t[0] == '+' || t[0] == '-') then
      var body := t[1..];
      match ParseDigits(body)
      case Some(v) =>
        assert t[|t| - 1] == body[|body| - 1];
        Some(if t[0] == '-' then -(v as int) else v)
      case None => None
    else
      match ParseDigits(t)
      case Some(v) => Some(v)
      case None => None
  }

  /** The decimal digits of `n`, most significant first, as `str(n)` writes them. */
  function Decimal(n: nat): (d: string)
    ensures |d| > 0 && forall k :: 0 <= k < |d| ==> IsDigit(d[k])
  {
    if n < 10 then [DigitChar(n)] else Decimal(n / 10) + [DigitChar(n % 10)]
  }

  /** `str(n)` for any integer: a minus sign before the digits of a negative number. */
  function Render(n: int): (r: string)
    ensures r != [] && (r[0] == '-' <==> n < 0)
  {
    if n < 0 then "-" + Decimal(-n) else Decimal(n)
  }

  /** Reading the digits of `n` gives back `n`. */
  lemma {:induction false} DecimalValue(n: nat)
    ensures DigitsOrUnderscores(Decimal(n)) && DigitsValue(Decimal(n)) == n
  {
    var d := Decimal(n);
    if n >= 10 {
      DecimalValue(n / 10);
      assert d[..|d| - 1] == Decimal(n / 10);
    }
  }

  /** `str(n)` of a natural number is a well-formed digit string. */
  lemma DecimalWellFormed(n: nat)
    ensures WellFormedDigits(Decimal(n))
  {
  }

  /** In a string of digits, every character counts as a digit. */
  lemma {:induction false} DigitCountAllDigits(d: string)
    requires forall k :: 0 <= k < |d| ==> IsDigit(d[k])
    ensures DigitCount(d) == |d|
  {
    if d != [] {
      DigitCountAllDigits(d[..|d| - 1]);
    }
  }

  /** The stripped literal `str(n)` parses back to `n` when it has no more digits than the limit. */
  lemma ParseRender(n: int)
    requires |Decimal(if n < 0 then -n else n)| <= MaxStrDigits
    ensures ParseStripped(Render(n)) == Some(n)
  {
    var m: nat := if n < 0 then -n else n;
    DecimalValue(m);
    DecimalWellFormed(m);
    DigitCountAllDigits(Decimal(m));
    if n < 0 {
      assert Render(n)[1..] == Decimal(m);
    }
  }

  /**
   * `int` reads back what `str` writes, whatever whitespace it skips
   * surrounds it: `int(pre + str(n) + post) == n`, for up to the limit's
   * number of digits.
   */
  lemma {:induction false} IntLiteralRoundTrip(n: int, pre: string, post: string)
    requires AllIntSpace(pre) && AllIntSpace(post)
    requires |Decimal(if n < 0 then -n else n)| <= MaxStrDigits
    ensures IntLiteral(pre + Render(n) + post) == Some(n)
  {
    var text := Render(n);
    var s := pre + text + post;
    assert !IsSpace(text[0]) && !IsSpace(text[|text| - 1]);
    forall k | 0 <= k < |s|
      ensures !IsSeparator(s[k])
    {
      if k < |pre| {
        assert s[k] == pre[k];
      } else if k < |pre| + |text| {
        assert s[k] == text[k - |pre|];
      } else {
        assert s[k] == post[k - |pre| - |text|];
      }
    }
    StripPadded(pre, text, post);
    ParseRender(n);
  }

  /** A separator anywhere in the text makes `int` fail. */
  lemma SeparatorRejected(s: string, k: nat)
    requires k < |s| && IsSeparator(s[k])
    ensures IntLiteral(s) == None
  {
  }

  /** A well-formed digit string with more digits than the limit makes `int` fail. */
  lemma TooManyDigitsRejected(s: string)
    requires WellFormedDigits(Strip(s)) && DigitCount(Strip(s)) > MaxStrDigits
    ensures IntLiteral(s) == None
  {
  }

  /**
   * A character other than a digit, an underscore or a sign anywhere in the
   * stripped text (a letter, a decimal point, an inner space) makes `int` fail.
   */
  lemma IntLiteralRejects(s: string, k: nat)
    requires k < |Strip(s)|
    requires !IsDigit(Strip(s)[k]) && Strip(s)[k] != '_' && Strip(s)[k] != '+' && Strip(s)[k] != '-'
    ensures IntLiteral(s) == None
  {
  }
}
