/** Decimal text of integers: `Integer.toString` / `String.valueOf(int)` and
    `Integer.parseInt` (optional sign, decimal digits, 32-bit range,
    `For input string: "…"` as the failure message), with the digits
    restricted to ASCII where Java also accepts every other Unicode decimal
    digit. */
module Decimal {
  import opened Wrappers
  import JavaString

  const IntMin: int := -0x8000_0000
  const IntMax: int := 0x7FFF_FFFF

  predicate IsInt32(i: int) {
    IntMin <= i <= IntMax
  }

  /** Java's narrowing of an integral value to `int`: the low 32 bits read
      as a two's-complement number (`Number.intValue()` on a `Long`). */
  function Wrap32(i: int): (r: int)
    ensures IsInt32(r)
    ensures (r - i) % 0x1_0000_0000 == 0
    ensures IsInt32(i) ==> r == i
  {
    var m := i % 0x1_0000_0000;
    if m <= IntMax then m else m - 0x1_0000_0000
  }

  /** Java's narrowing of a `double` to `int` (`Double.intValue()`): the
      value rounded toward zero, clamped to the `int` range. */
  function DoubleToInt(d: real): (r: int)
    ensures IsInt32(r)
    ensures (IntMin - 1) as real < d < (IntMax + 1) as real ==>
      (d >= 0.0 ==> r as real <= d < r as real + 1.0) && (d < 0.0 ==> r as real - 1.0 < d <= r as real)
    ensures d >= (IntMax + 1) as real ==> r == IntMax
    ensures d <= (IntMin - 1) as real ==> r == IntMin
  {
    var t := if d >= 0.0 then d.Floor else -((-d).Floor);
    if t > IntMax then IntMax else if t < IntMin then IntMin else t
  }

  function DigitChar(d: nat): (c: char)
    requires d < 10
    ensures JavaString.IsAsciiDigit(c)
  {
    ('0' as int + d) as char
  }

  function DigitValue(c: char): (d: nat)
    requires JavaString.IsAsciiDigit(c)
    ensures d < 10
  {
    c as int - '0' as int
  }

  predicate AllDigits(s: string) {
    forall i :: 0 <= i < |s| ==> JavaString.IsAsciiDigit(s[i])
  }

  /** The shortest decimal text of `n`, most significant digit first. */
  function NatToDecimal(n: nat): (r: string)
    ensures r != [] && AllDigits(r)
    ensures |r| > 1 ==> r[0] != '0'
    decreases n
  {
    if n < 10 then [DigitChar(n)] else NatToDecimal(n / 10) + [DigitChar(n % 10)]
  }

  /** `Integer.toString(i)`. */
  function IntToDecimal(i: int): (r: string)
    ensures r != []
    ensures i >= 0 <==> r[0] != '-'
  {
    if i < 0 then "-" + NatToDecimal(-i) else NatToDecimal(i)
  }

  /** The value of a run of decimal digits. */
  function DigitsValue(s: string): nat
    requires AllDigits(s)
  {
    if s == [] then 0 else DigitsValue(s[..|s| - 1]) * 10 + DigitValue(s[|s| - 1])
  }

  /** The message of `NumberFormatException.forInputString(s, 10)`. */
  function BadNumber(s: string): string {
    "For input string: \"" + s + "\""
  }

  /** `Integer.parseInt(s)`: an optional `-` or `+`, then one or more
      decimal digits whose value fits in 32 bits. Only ASCII digits are
      accepted here. */
  function ParseInt(s: string): (r: Result<int, string>)
    ensures r.Ok? ==> IsInt32(r.value)
    ensures r.Err? ==> r.error == BadNumber(s)
    ensures s == [] ==> r.Err?
  {
    if s == [] then Err(BadNumber(s))
    else
      var negative := s[0] == '-';
      var start := if s[0] == '-' || s[0] == '+' then 1 else 0;
      var digits := s[start..];
      if digits == [] || !AllDigits(digits) then Err(BadNumber(s))
      else
        var magnitude: int := DigitsValue(digits);
        var v := if negative then -magnitude else magnitude;
        if IsInt32(v) then Ok(v) else Err(BadNumber(s))
  }

  lemma {:induction false} DigitsValueOfDecimal(n: nat)
    ensures DigitsValue(NatToDecimal(n)) == n
    decreases n
  {
    if n >= 10 {
      var r := NatToDecimal(n);
      DigitsValueOfDecimal(n / 10);
      assert r[..|r| - 1] == NatToDecimal(n / 10);
    }
  }

  /** Printing a 32-bit integer and parsing it back gives the integer. */
  lemma {:induction false} ParseIntOfDecimal(i: int)
    requires IsInt32(i)
    ensures ParseInt(IntToDecimal(i)) == Ok(i)
  {
    if i < 0 {
      DigitsValueOfDecimal(-i);
      assert IntToDecimal(i)[1..] == NatToDecimal(-i);
    } else {
      DigitsValueOfDecimal(i);
    }
  }
}
