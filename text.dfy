/**
 Text helpers shared by the DecentIoT model: decimal formatting (`sprintf("%d")`
 and `String(int)`), the C library's `atol` that backs Arduino's `String::toInt`,
 and the byte-wise order (`strcmp`) that `String::operator<` gives the keys of
 the scheduler's `std::map`.
 */
module Text {

  /** The 32-bit `int`/`long` of the ESP8266/ESP32 targets. */
  newtype int32 = x: int | -0x8000_0000 <= x < 0x8000_0000

  predicate IsDigit(c: char) {
    '0' <= c <= '9'
  }

  function DigitValue(c: char): nat
    requires IsDigit(c)
  {
    (c as int) - ('0' as int)
  }

  function DigitChar(d: nat): (c: char)
    requires d < 10
    ensures IsDigit(c) && DigitValue(c) == d
  {
    (('0' as int) + d) as char
  }

  predicate AllDigits(s: string) {
    forall i :: 0 <= i < |s| ==> IsDigit(s[i])
  }

  /** Decimal digits of `n`, most significant first, without leading zeros. */
  function NatToDecimal(n: nat): (s: string)
    ensures 0 < |s| && AllDigits(s)
    ensures n < 10 <==> |s| == 1
    ensures s[0] == '0' ==> n == 0
    decreases n
  {
    if n < 10 then [DigitChar(n)] else NatToDecimal(n / 10) + [DigitChar(n % 10)]
  }

  /** The text `sprintf("%d", n)` and `String(n)` produce: a `-` exactly for negative numbers, then digits. */
  function Decimal(n: int): (s: string)
    ensures 0 < |s| && (s[0] == '-' <==> n < 0)
    ensures forall i :: 0 <= i < |s| ==> IsDigit(s[i]) || (i == 0 && s[i] == '-')
  {
    if n < 0 then "-" + NatToDecimal(-n) else NatToDecimal(n)
  }

  /** Value of a run of decimal digits (most significant first). */
  function DigitsValue(s: string): nat
    requires AllDigits(s)
  {
    if s == [] then 0 else DigitsValue(s[..|s| - 1]) * 10 + DigitValue(s[|s| - 1])
  }

  lemma {:induction false} DigitsValueOfDecimal(n: nat)
    ensures DigitsValue(NatToDecimal(n)) == n
    decreases n
  {
    var s := NatToDecimal(n);
    if n >= 10 {
      DigitsValueOfDecimal(n / 10);
      assert s[..|s| - 1] == NatToDecimal(n / 10);
    }
  }

  /** Different natural numbers have different decimal texts. */
  lemma NatToDecimalInjective(a: nat, b: nat)
    requires NatToDecimal(a) == NatToDecimal(b)
    ensures a == b
  {
    DigitsValueOfDecimal(a);
    DigitsValueOfDecimal(b);
  }

  /** `isspace` in the C locale. */
  predicate IsSpace(c: char) {
    c == ' ' || c == '\t' || c == '\n' || c == '\U{000B}' || c == '\U{000C}' || c == '\r'
  }

  function SkipSpace(s: string): (t: string)
    ensures |t| <= |s| && t == s[|s| - |t|..]
    ensures 0 < |t| ==> !IsSpace(t[0])
  {
    if 0 < |s| && IsSpace(s[0]) then SkipSpace(s[1..]) else s
  }

  /** The longest prefix of `s` made of decimal digits. */
  function LeadingDigits(s: string): (r: string)
    ensures |r| <= |s| && r == s[..|r|] && AllDigits(r)
    ensures |r| < |s| ==> !IsDigit(s[|r|])
  {
    if s == [] || !IsDigit(s[0]) then [] else [s[0]] + LeadingDigits(s[1..])
  }

  lemma {:induction false} LeadingDigitsOfDigits(s: string)
    requires AllDigits(s)
    ensures LeadingDigits(s) == s
  {
    if s != [] {
      LeadingDigitsOfDigits(s[1..]);
    }
  }

  /** `strtol` clamps an out-of-range value to `LONG_MIN`/`LONG_MAX`. */
  function Saturate(x: int): (r: int32)
    ensures -0x8000_0000 <= x < 0x8000_0000 ==> r as int == x
  {
    if x < -0x8000_0000 then -0x8000_0000
    else if x >= 0x8000_0000 then 0x7FFF_FFFF
    else x as int32
  }

  /**
   `atol(s)`, which is `strtol(s, NULL, 10)`: leading white space, an optional
   sign, then the longest run of digits; anything after it is ignored and an
   empty run reads as 0.
   */
  function ToLong(s: string): int32 {
    var t := SkipSpace(s);
    if 0 < |t| && (t[0] == '-' || t[0] == '+') then
      var v: int := DigitsValue(LeadingDigits(t[1..]));
      Saturate(if t[0] == '-' then -v else v)
    else
      Saturate(DigitsValue(LeadingDigits(t)))
  }

  /** `atol` of a run of digits, with or without a leading minus sign (alone, it reads as 0). */
  lemma ToLongOfDigits(neg: bool, d: string)
    requires AllDigits(d) && (neg || 0 < |d|)
    ensures ToLong((if neg then "-" else "") + d)
         == Saturate(if neg then -(DigitsValue(d) as int) else DigitsValue(d))
  {
    var s := (if neg then "-" else "") + d;
    LeadingDigitsOfDigits(d);
    assert !IsSpace(s[0]);
    assert SkipSpace(s) == s;
    if neg {
      assert s[1..] == d;
    } else {
      assert s == d && IsDigit(s[0]);
    }
  }

  /** `atol` reads back every 32-bit value from its `%d` text. */
  lemma ToLongOfDecimal(n: int32)
    ensures ToLong(Decimal(n as int)) == n
  {
    if n < 0 {
      var m: nat := -(n as int);
      DigitsValueOfDecimal(m);
      assert Decimal(n as int) == "-" + NatToDecimal(m);
      ToLongOfDigits(true, NatToDecimal(m));
    } else {
      var m: nat := n as int;
      DigitsValueOfDecimal(m);
      assert Decimal(n as int) == "" + NatToDecimal(m);
      ToLongOfDigits(false, NatToDecimal(m));
    }
  }

  /**
   Arduino's `String::operator<` is `strcmp(a, b) < 0`: the byte-wise
   lexicographic order in which a proper prefix comes first.
   */
  predicate Less(a: string, b: string) {
    if |b| == 0 then false
    else if |a| == 0 then true
    else if a[0] != b[0] then a[0] < b[0]
    else Less(a[1..], b[1..])
  }

  predicate LessEq(a: string, b: string) {
    a == b || Less(a, b)
  }

  lemma {:induction false} LessIrreflexive(a: string)
    ensures !Less(a, a)
  {
    if a != [] {
      LessIrreflexive(a[1..]);
    }
  }

  lemma {:induction false} LessTransitive(a: string, b: string, c: string)
    requires Less(a, b) && Less(b, c)
    ensures Less(a, c)
  {
    if a != [] && a[0] == b[0] && b[0] == c[0] {
      LessTransitive(a[1..], b[1..], c[1..]);
    }
  }

  lemma {:induction false} LessTotal(a: string, b: string)
    requires a != b
    ensures Less(a, b) || Less(b, a)
  {
    if a != [] && b != [] && a[0] == b[0] {
      assert a == [a[0]] + a[1..] && b == [b[0]] + b[1..];
      LessTotal(a[1..], b[1..]);
    }
  }
}
