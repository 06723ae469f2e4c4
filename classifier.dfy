/**
 Decoding an inbound payload into a `DecentIoTValue`: boolean first, then
 integer, then float, then string.
 */
module Classifier {
  import opened Text
  import opened Values

  /** What `isNumericString` accepts: non-empty, a `-` only in front, digits elsewhere. */
  predicate IsNumeric(s: string) {
    0 < |s| && forall i :: 0 <= i < |s| ==> IsDigit(s[i]) || (i == 0 && s[i] == '-')
  }

  /** `isNumericString`: one scan that stops at the first character that is not allowed. */
  method IsNumericString(s: string) returns (r: bool)
    ensures r == IsNumeric(s)
  {
    if |s| == 0 {
      return false;
    }
    var i := 0;
    while i < |s|
      invariant 0 <= i <= |s|
      invariant forall j :: 0 <= j < i ==> IsDigit(s[j]) || (j == 0 && s[j] == '-')
    {
      var c := s[i];
      if i == 0 && c == '-' {
        i := i + 1;
        continue;
      }
      if c < '0' || c > '9' {
        return false;
      }
      i := i + 1;
    }
    return true;
  }

  /**
   The decoding chain of `_handleMessage`. `parse` is `String::toFloat`,
   left uninterpreted.
   */
  function Classify(message: string, parse: string -> Float32): (v: Value)
    ensures v.Bool? ==> v.boolValue == (message == "true")
    ensures v.Int? ==> IsNumeric(message)
    ensures v.Float? ==> v.floatValue == parse(message) && !IsZero(v.floatValue)
    ensures v.Str? ==> v.stringValue == message
  {
    if message == "true" || message == "false" then
      Bool(message == "true")
    else if |message| > 0 && IsNumeric(message) then
      Int(ToLong(message))
    else if '.' in message && !IsZero(parse(message)) then
      Float(parse(message))
    else
      Str(message)
  }

  /** The value of a numeric text: its digits, negated after a leading `-`, saturated to 32 bits. */
  function NumericValue(s: string): int32
    requires IsNumeric(s)
  {
    if s[0] == '-' then Saturate(-(DigitsValue(s[1..]) as int)) else Saturate(DigitsValue(s))
  }

  /** Which variant comes out is fixed by the text alone, branch by branch, in order. */
  lemma ClassifyVariant(m: string, parse: string -> Float32)
    ensures Classify(m, parse).Bool? <==> m == "true" || m == "false"
    ensures Classify(m, parse).Int? <==> IsNumeric(m)
    ensures Classify(m, parse).Float? <==> !IsNumeric(m) && '.' in m && !IsZero(parse(m))
    ensures Classify(m, parse).Str? <==>
      m != "true" && m != "false" && !IsNumeric(m) && ('.' !in m || IsZero(parse(m)))
  {
    assert !IsDigit('t') && !IsDigit('f');
    if m == "true" || m == "false" {
      assert !IsNumeric(m) by { assert !IsDigit(m[0]) && m[0] != '-'; }
    }
  }

  /** `"true"` and `"false"` decode to BOOL, ahead of every other branch. */
  lemma ClassifyBool(m: string, parse: string -> Float32)
    requires m == "true" || m == "false"
    ensures Classify(m, parse) == Bool(m == "true")
  {
  }

  /** `atol` of a numeric text is its numeric value. */
  lemma ToLongOfNumeric(m: string)
    requires IsNumeric(m)
    ensures ToLong(m) == NumericValue(m)
  {
    if m[0] == '-' {
      ToLongOfNegative(m);
    } else {
      assert AllDigits(m);
      assert "" + m == m;
      ToLongOfDigits(false, m);
    }
  }

  /** `atol` of a `-` followed by digits is the negated, saturated digit value. */
  lemma ToLongOfNegative(m: string)
    requires IsNumeric(m) && m[0] == '-'
    ensures ToLong(m) == Saturate(-(DigitsValue(m[1..]) as int))
  {
    var d := m[1..];
    forall i | 0 <= i < |d|
      ensures IsDigit(d[i])
    {
      assert d[i] == m[i + 1];
    }
    assert m == "-" + d;
    ToLongOfDigits(true, d);
  }

  /** A numeric text decodes to INT with its `atol` value. */
  lemma ClassifyNumeric(m: string, parse: string -> Float32)
    requires IsNumeric(m)
    ensures Classify(m, parse) == Int(NumericValue(m))
  {
    ClassifyVariant(m, parse);
    ToLongOfNumeric(m);
  }

  /** A lone `-` counts as numeric and decodes to INT 0. */
  lemma ClassifyLoneDash(parse: string -> Float32)
    ensures IsNumeric("-")
    ensures Classify("-", parse) == Int(0)
  {
    assert IsNumeric("-");
    assert "-"[1..] == [] && DigitsValue([]) == 0;
    assert NumericValue("-") == 0;
    ClassifyNumeric("-", parse);
  }

  /**
   A text that is neither boolean nor numeric and has no `.` decodes to STRING
   holding exactly that text, whatever float parsing would give.
   */
  lemma ClassifyPlainText(m: string, parse: string -> Float32)
    requires m != "true" && m != "false" && !IsNumeric(m) && '.' !in m
    ensures Classify(m, parse) == Str(m)
  {
  }

  /** A text with a `.` that parses to zero falls through to STRING. */
  lemma ClassifyZeroFloat(m: string, parse: string -> Float32)
    requires '.' in m && IsZero(parse(m))
    ensures Classify(m, parse) == Str(m)
  {
    ClassifyVariant(m, parse);
  }

  /** What `write(pin, bool)` publishes decodes back to the same BOOL. */
  lemma DecodeBoolText(b: bool, parse: string -> Float32)
    ensures Classify(BoolText(b), parse) == Bool(b)
  {
  }

  /** What `write(pin, int)` publishes decodes back to the same INT. */
  lemma DecodeDecimal(n: int32, parse: string -> Float32)
    ensures Classify(Decimal(n as int), parse) == Int(n)
  {
    var s := Decimal(n as int);
    assert IsNumeric(s);
    ClassifyVariant(s, parse);
    ToLongOfDecimal(n);
  }

  /** Decoding inverts `operator String` for BOOL and INT values. */
  lemma DecodeOfText(v: Value, ops: FloatOps)
    requires v.Bool? || v.Int?
    ensures Classify(ToText(v, ops), ops.parse) == v
  {
    if v.Bool? {
      DecodeBoolText(v.boolValue, ops.parse);
    } else {
      DecodeDecimal(v.intValue, ops.parse);
    }
  }

  /** Sample payloads that decode to BOOL and INT: `"true"`, `"42"`, `"-3"`. */
  lemma ClassifyNumberExamples(parse: string -> Float32)
    ensures Classify("true", parse) == Bool(true)
    ensures Classify("42", parse) == Int(42)
    ensures Classify("-3", parse) == Int(-3)
  {
    assert Decimal(42) == "42" by { assert NatToDecimal(4) == "4"; }
    assert Decimal(-3) == "-3";
    DecodeDecimal(42, parse);
    DecodeDecimal(-3, parse);
  }

  /** Sample payloads that do not decode to a number: `"hello"`, `"0.0"` and `"3.5"`. */
  lemma ClassifyTextExamples(parse: string -> Float32)
    ensures Classify("hello", parse) == Str("hello")
    ensures IsZero(parse("0.0")) ==> Classify("0.0", parse) == Str("0.0")
    ensures !IsZero(parse("3.5")) ==> Classify("3.5", parse) == Float(parse("3.5"))
  {
    assert !IsNumeric("hello") by { assert !IsDigit("hello"[0]); }
    assert !IsNumeric("3.5") by { assert !IsDigit("3.5"[1]); }
    assert "3.5"[1] == '.' && "0.0"[1] == '.';
  }
}
