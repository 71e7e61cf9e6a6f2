/**
 * `strconv.ParseInt(s, 10, 64)`: an optional `+` or `-`, then one or more
 * ASCII digits (no underscores, no base prefix, no spaces), whose value must
 * lie in the `int64` range. Anything else is an error.
 *
 * `Format` writes an integer the way `strconv.FormatInt(v, 10)` does; it is the
 * reference against which the parser is proved.
 */
module Decimal {
  import opened Wrappers
  import opened Integers

  predicate IsDigit(c: char) {
    '0' <= c <= '9'
  }

  predicate AllDigits(s: string) {
    forall i :: 0 <= i < |s| ==> IsDigit(s[i])
  }

  /** The digit string of an unsigned decimal literal: at least one digit. */
  predicate IsDigits(s: string) {
    |s| > 0 && AllDigits(s)
  }

  /** The value of a string of digits, most significant digit first. */
  function Value(s: string): (v: nat)
    requires AllDigits(s)
  {
    if |s| == 0 then 0
    else Value(s[..|s| - 1]) * 10 + (s[|s| - 1] - '0') as int
  }

  /** The sign character of `s`, if it has one, and the rest of `s`. */
  function SplitSign(s: string): (bool, string) {
    if |s| > 0 && s[0] == '-' then (true, s[1..])
    else if |s| > 0 && s[0] == '+' then (false, s[1..])
    else (false, s)
  }

  /** The mathematical value a well-formed literal denotes, before any range check. */
  function SignedValue(s: string): int
    requires IsDigits(SplitSign(s).1)
  {
    var (negative, digits) := SplitSign(s);
    var magnitude: int := Value(digits);
    if negative then -magnitude else magnitude
  }

  /**
   * `strconv.ParseInt(s, 10, 64)`, with `None` standing for a non-nil error.
   * It succeeds exactly on a sign-then-digits literal whose value fits in 64
   * bits, and then returns that value.
   */
  function ParseInt64(s: string): (r: Option<Int64>)
    ensures r.Some? <==> IsDigits(SplitSign(s).1) && InInt64(SignedValue(s))
    ensures r.Some? ==> r.value == SignedValue(s)
    ensures s == "" ==> r.None?
  {
    if s == "" then None
    else
      var (negative, digits) := SplitSign(s);
      if !IsDigits(digits) then None
      else
        var magnitude: int := Value(digits);
        var v := if negative then -magnitude else magnitude;
        if InInt64(v) then Some(v) else None
  }

  function DigitChar(d: nat): (c: char)
    requires d < 10
    ensures IsDigit(c) && (c - '0') as int == d
  {
    '0' + d as char
  }

  /** The shortest digit string for `n`: no leading zeros, "0" for zero. */
  function FormatNat(n: nat): (s: string)
    decreases n
  {
    if n < 10 then [DigitChar(n)] else FormatNat(n / 10) + [DigitChar(n % 10)]
  }

  /** `strconv.FormatInt(v, 10)`: a `-` for negative values, then the digits. */
  function Format(v: int): string {
    if v < 0 then "-" + FormatNat(-v) else FormatNat(v)
  }

  /** The digits `FormatNat` writes are digits and read back as `n`. */
  lemma {:induction false} ValueFormatNat(n: nat)
    ensures IsDigits(FormatNat(n)) && Value(FormatNat(n)) == n
    decreases n
  {
    if n >= 10 {
      ValueFormatNat(n / 10);
      var s := FormatNat(n);
      assert s[..|s| - 1] == FormatNat(n / 10);
    }
  }

  /** Every `int64` is accepted in its canonical decimal form and read back unchanged. */
  lemma ParseFormat(v: Int64)
    ensures ParseInt64(Format(v)) == Some(v)
  {
    var s, w: int := Format(v), v;
    if w < 0 {
      var digits := FormatNat(-w);
      ValueFormatNat(-w);
      assert s == "-" + digits && s[1..] == digits;
      assert SplitSign(s) == (true, digits);
      assert SignedValue(s) == v;
    } else {
      ValueFormatNat(w);
      assert IsDigit(s[0]);
      assert SplitSign(s) == (false, s);
      assert SignedValue(s) == v;
    }
  }

  /** A `+` in front of a digit string changes nothing. */
  lemma PlusSign(digits: string)
    requires IsDigits(digits)
    ensures ParseInt64("+" + digits) == ParseInt64(digits)
  {
  }

  /** A leading zero does not change the value of a digit string. */
  lemma {:induction false} LeadingZero(digits: string)
    requires IsDigits(digits)
    ensures Value("0" + digits) == Value(digits)
    decreases |digits|
  {
    var s := "0" + digits;
    assert s[..|s| - 1] == "0" + digits[..|digits| - 1];
    if |digits| > 1 {
      LeadingZero(digits[..|digits| - 1]);
    } else {
      assert Value(s[..|s| - 1]) == 0;
    }
  }

  /** The largest and smallest `int64` are accepted; one past either end is rejected. */
  lemma RangeEdge()
    ensures ParseInt64(Format(MAX_INT64)) == Some(MAX_INT64)
    ensures ParseInt64(Format(MIN_INT64)) == Some(MIN_INT64)
    ensures ParseInt64(Format(MAX_INT64 + 1)).None?
    ensures ParseInt64(Format(MIN_INT64 - 1)).None?
  {
    ParseFormat(MAX_INT64);
    ParseFormat(MIN_INT64);
    ValueFormatNat(MAX_INT64 + 1);
    ValueFormatNat(-(MIN_INT64 - 1));
    assert Format(MIN_INT64 - 1)[1..] == FormatNat(-(MIN_INT64 - 1));
    assert Format(MAX_INT64 + 1)[0] == FormatNat(MAX_INT64 + 1)[0];
  }
}
