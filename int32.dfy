/**
 * Rust's `i32` and the decimal reading of it that `str::parse::<i32>` performs:
 * an optional `+` or `-`, then one or more ASCII digits, and a value that fits
 * in 32 bits. Anything else, a sign alone included, is not a number.
 */
module Int32 {
  import opened Wrappers

  const MIN: int := -0x8000_0000
  const MAX: int := 0x7FFF_FFFF

  newtype i32 = x: int | -0x8000_0000 <= x <= 0x7FFF_FFFF

  predicate InRange(x: int) {
    MIN <= x <= MAX
  }

  predicate IsDigit(c: char) {
    '0' <= c <= '9'
  }

  predicate AllDigits(s: string) {
    forall i :: 0 <= i < |s| ==> IsDigit(s[i])
  }

  function DigitValue(c: char): (d: nat)
    requires IsDigit(c)
    ensures d < 10
  {
    c as int - '0' as int
  }

  function DigitChar(d: nat): (c: char)
    requires d < 10
    ensures IsDigit(c) && DigitValue(c) == d
  {
    ('0' as int + d) as char
  }

  /** The value of a string of decimal digits, most significant first. */
  function DigitsValue(s: string): nat
    requires AllDigits(s)
  {
    if s == [] then 0 else 10 * DigitsValue(s[..|s| - 1]) + DigitValue(s[|s| - 1])
  }

  /** A sign character that `parse::<i32>` accepts in front of the digits. */
  predicate IsSign(c: char) {
    c == '+' || c == '-'
  }

  /** `str::parse::<i32>`: `None` is the `Err` of the source. */
  function ParseI32(t: string): (r: Option<i32>)
    ensures r.Some? ==> t != [] && (IsSign(t[0]) || IsDigit(t[0]))
    ensures r.Some? ==> |t| >= 2 || IsDigit(t[0])
    ensures r.Some? ==> AllDigits(t[1..])
  {
    if t == [] then None
    else
      var digits := if IsSign(t[0]) then t[1..] else t;
      if digits == [] || !AllDigits(digits) then None
      else
        var v: int := if t[0] == '-' then -(DigitsValue(digits) as int) else DigitsValue(digits);
        if InRange(v) then Some(v as i32) else None
  }

  /** The shortest decimal digits of `n`. */
  function NatDigits(n: nat): (s: string)
    ensures s != [] && AllDigits(s) && DigitsValue(s) == n
    decreases n
  {
    if n < 10 then [DigitChar(n)]
    else
      var s := NatDigits(n / 10) + [DigitChar(n % 10)];
      assert s[..|s| - 1] == NatDigits(n / 10);
      s
  }

  /** Rust's `Display` for `i32`: a minus sign for negative values, then the digits. */
  function FormatI32(v: i32): (s: string)
    ensures s != [] && AllDigits(if v < 0 then s[1..] else s)
  {
    if v < 0 then "-" + NatDigits(-(v as int)) else NatDigits(v as nat)
  }

  /** Every `i32` is read back from its decimal form. */
  lemma {:induction false} ParseFormat(v: i32)
    ensures ParseI32(FormatI32(v)) == Some(v)
  {
  }

  /** A leading `+` is accepted and changes nothing. */
  lemma {:induction false} ParsePlusSign(v: i32)
    requires v >= 0
    ensures ParseI32("+" + FormatI32(v)) == Some(v)
  {
  }

  /**
   * The full reading of a signed literal: no sign, `+` or `-`, then one or
   * more digits (leading zeros allowed) is the signed value of the digits
   * when that fits in 32 bits, and not a number otherwise. With the
   * contract of `ParseI32`, every string read as a number has this form.
   */
  lemma {:induction false} ParseSignedDigits(sign: string, d: string)
    requires sign == "" || sign == "+" || sign == "-"
    requires d != [] && AllDigits(d)
    ensures var v := if sign == "-" then -(DigitsValue(d) as int) else DigitsValue(d) as int;
      ParseI32(sign + d) == if InRange(v) then Some(v as i32) else None
  {
    var t := sign + d;
    if sign == "" {
      assert t == d;
      assert !IsSign(t[0]);
    } else {
      assert t[0] == sign[0];
      assert t[1..] == d;
    }
  }

  /** A digit string whose value does not fit in 32 bits is not an `i32`, whatever its sign. */
  lemma {:induction false} ParseOutOfRange(s: string)
    requires s != [] && AllDigits(s) && DigitsValue(s) > MAX
    ensures ParseI32(s) == None
    ensures ParseI32("+" + s) == None
    ensures DigitsValue(s) > -MIN ==> ParseI32("-" + s) == None
  {
    ParseSignedDigits("", s);
    ParseSignedDigits("+", s);
    ParseSignedDigits("-", s);
  }

  /** Leading zeros are accepted, with or without a sign. */
  lemma {:induction false} LeadingZeros()
    ensures ParseI32("007") == Some(7) && ParseI32("-007") == Some(-7)
  {
    assert DigitsValue("007") == 7 by {
      assert "007"[..2] == "00" && "00"[..1] == "0" && "0"[..0] == "";
    }
    ParseSignedDigits("", "007");
    assert "" + "007" == "007";
    ParseSignedDigits("-", "007");
    assert "-" + "007" == "-007";
  }

  /** A signed zero is zero. */
  lemma {:induction false} SignedZero()
    ensures ParseI32("-0") == Some(0) && ParseI32("+0") == Some(0)
  {
    assert DigitsValue("0") == 0 by {
      assert "0"[..0] == "";
    }
    ParseSignedDigits("-", "0");
    assert "-" + "0" == "-0";
    ParseSignedDigits("+", "0");
    assert "+" + "0" == "+0";
  }

  /** A sign on its own is not a number, so a lone `+` or `-` reaches the operator branch. */
  lemma {:induction false} SignAloneIsNotANumber()
    ensures ParseI32("+") == None && ParseI32("-") == None
  {
  }
}
