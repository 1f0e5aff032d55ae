/** Decimal text of integers as the JavaScript runtime produces and reads it:
    `String(n)` for an integer number (used when a writer joins its arguments
    and appends a body length) and `parseInt(s, 10)` (used by the Number
    argument type to decide whether a value is numeric). */
module Decimal {
  import opened JsValues

  predicate IsDigit(c: char)
  {
    '0' <= c <= '9'
  }

  function DigitChar(d: nat): (c: char)
    requires d < 10
    ensures IsDigit(c)
  {
    ('0' as int + d) as char
  }

  function DigitValue(c: char): (d: nat)
    requires IsDigit(c)
    ensures d < 10 && DigitChar(d) == c
  {
    c as int - '0' as int
  }

  /** The characters `parseInt` skips before the number: the white space and
      line terminators of the ECMAScript grammar. */
  predicate IsWhiteSpace(c: char)
  {
    var k := c as int;
    (0x09 <= k <= 0x0D) || k == 0x20 || k == 0xA0 || k == 0x1680
    || (0x2000 <= k <= 0x200A) || k == 0x2028 || k == 0x2029 || k == 0x202F
    || k == 0x205F || k == 0x3000 || k == 0xFEFF
  }

  /** The string without its leading white space. */
  function TrimStart(s: string): (t: string)
    ensures |t| <= |s| && t == s[|s| - |t|..]
    ensures t == [] || !IsWhiteSpace(t[0])
    ensures forall i :: 0 <= i < |s| - |t| ==> IsWhiteSpace(s[i])
  {
    if s != [] && IsWhiteSpace(s[0]) then TrimStart(s[1..]) else s
  }

  /** Length of the longest prefix made of decimal digits. */
  function DigitRun(s: string): (k: nat)
    ensures k <= |s|
    ensures forall i :: 0 <= i < k ==> IsDigit(s[i])
    ensures k < |s| ==> !IsDigit(s[k])
  {
    if s != [] && IsDigit(s[0]) then 1 + DigitRun(s[1..]) else 0
  }

  predicate AllDigits(s: string)
  {
    forall i :: 0 <= i < |s| ==> IsDigit(s[i])
  }

  /** The value of a string of decimal digits, most significant first. */
  function DigitsValue(s: string): nat
    requires AllDigits(s)
  {
    if s == [] then 0 else DigitsValue(s[..|s| - 1]) * 10 + DigitValue(s[|s| - 1])
  }

  /** `parseInt(s, 10)`: skip leading white space, take one optional sign, then
      the longest run of decimal digits; `None` stands for NaN (no digit). */
  function ParseInt(s: string): (r: Option<int>)
  {
    var t := TrimStart(s);
    var negative := t != [] && t[0] == '-';
    var u := if t != [] && (t[0] == '-' || t[0] == '+') then t[1..] else t;
    var k := DigitRun(u);
    if k == 0 then None
    else
      var v: int := DigitsValue(u[..k]);
      Some(if negative then -v else v)
  }

  /** Decimal digits of a natural number, without leading zeros. */
  function Digits(n: nat): (s: string)
    ensures s != [] && AllDigits(s)
    ensures IsDigit(s[0])
  {
    if n < 10 then [DigitChar(n)] else Digits(n / 10) + [DigitChar(n % 10)]
  }

  /** `String(n)` for an integer number. */
  function NumberToString(n: int): (s: string)
    ensures s != [] && IsAscii(s)
    ensures n >= 0 ==> AllDigits(s)
  {
    if n < 0 then "-" + Digits(-n) else Digits(n)
  }

  lemma {:induction false} DigitsValueOfDigits(n: nat)
    ensures DigitsValue(Digits(n)) == n
  {
    if n >= 10 {
      DigitsValueOfDigits(n / 10);
      var s := Digits(n);
      assert s[..|s| - 1] == Digits(n / 10);
    }
  }

  lemma {:induction false} DigitRunOfDigitsThen(d: string, rest: string)
    requires AllDigits(d)
    requires rest == [] || !IsDigit(rest[0])
    ensures DigitRun(d + rest) == |d|
  {
    if d != [] {
      assert (d + rest)[1..] == d[1..] + rest;
      DigitRunOfDigitsThen(d[1..], rest);
    }
  }

  /** `parseInt` reads back exactly the number that `String(n)` wrote, whatever
      non-digit text follows it. */
  lemma ParseIntOfNumberToString(n: int, rest: string)
    requires rest == [] || !IsDigit(rest[0])
    ensures ParseInt(NumberToString(n) + rest) == Some(n)
  {
    var m: nat := if n < 0 then -n else n;
    var d := Digits(m);
    var s := NumberToString(n) + rest;
    assert !IsWhiteSpace(s[0]);
    assert TrimStart(s) == s;
    var u := if n < 0 then d + rest else s;
    if n < 0 {
      assert s == "-" + (d + rest);
      assert s[1..] == d + rest;
    }
    DigitRunOfDigitsThen(d, rest);
    assert u[..|d|] == d;
    DigitsValueOfDigits(m);
  }

  /** `parseInt` gives a number exactly when, after the white space, a digit
      follows, or a sign and then a digit. */
  lemma ParseIntIsNumber(s: string)
    ensures ParseInt(s).Some? <==>
      (var t := TrimStart(s);
       (|t| > 0 && IsDigit(t[0])) || (|t| > 1 && (t[0] == '-' || t[0] == '+') && IsDigit(t[1])))
  {
  }
}
