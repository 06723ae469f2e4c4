/**
 `DecentIoTValue`: the tagged union an inbound payload is decoded into, and its
 implicit conversions to `bool`, `int`, `float`, `String` and `uint8_t`.
 */
module Values {
  import opened Text

  newtype u8 = x: int | 0 <= x < 256

  /** Arduino's `HIGH` and `LOW`. */
  const High: u8 := 1
  const Low: u8 := 0

  /**
   A single-precision float kept as its IEEE-754 bit pattern. Only comparison
   with `0.0f` is interpreted; arithmetic, parsing and printing are not.
   */
  datatype Float32 = Float32(bits: bv32)

  const FloatZero := Float32(0)
  const FloatOne := Float32(0x3F80_0000)

  /** `f == 0.0f`: true for +0.0 and -0.0, false for every NaN. */
  predicate IsZero(f: Float32) {
    f.bits & 0x7FFF_FFFF == 0
  }

  /**
   The float operations the conversions call into and this model leaves
   uninterpreted: `String::toFloat`, `static_cast<float>(int)`,
   `static_cast<int>(float)`, `static_cast<uint8_t>(float)` and `String(float)`.
   */
  datatype FloatOps = FloatOps(
    parse: string -> Float32,
    fromInt: int32 -> Float32,
    toInt: Float32 -> int32,
    toByte: Float32 -> u8,
    toText: Float32 -> string)

  datatype Value =
    | Bool(boolValue: bool)
    | Int(intValue: int32)
    | Float(floatValue: Float32)
    | Str(stringValue: string)

  /** The text a boolean is written as, on the wire and by `operator String`. */
  function BoolText(b: bool): string {
    if b then "true" else "false"
  }

  /** `operator bool` */
  predicate ToBool(v: Value) {
    match v
    case Bool(b) => b
    case Int(n) => n != 0
    case Float(f) => !IsZero(f)
    case Str(s) => s == "true" || s == "1"
  }

  /** `operator int` */
  function ToInt(v: Value, ops: FloatOps): int32 {
    match v
    case Int(n) => n
    case Bool(b) => if b then 1 else 0
    case Float(f) => ops.toInt(f)
    case Str(s) => ToLong(s)
  }

  /** `operator float` */
  function ToFloat(v: Value, ops: FloatOps): Float32 {
    match v
    case Float(f) => f
    case Int(n) => ops.fromInt(n)
    case Bool(b) => if b then FloatOne else FloatZero
    case Str(s) => ops.parse(s)
  }

  /** `operator String` */
  function ToText(v: Value, ops: FloatOps): string {
    match v
    case Str(s) => s
    case Bool(b) => BoolText(b)
    case Int(n) => Decimal(n as int)
    case Float(f) => ops.toText(f)
  }

  /** `operator uint8_t`; an `int` is narrowed modulo 256. */
  function ToByte(v: Value, ops: FloatOps): u8 {
    match v
    case Bool(b) => if b then High else Low
    case Int(n) => ((n as int) % 256) as u8
    case Float(f) => ops.toByte(f)
    case Str(s) => if s == "true" || s == "1" then High else Low
  }

  /** For BOOL and STRING values the pin level agrees with the truth value. */
  lemma ByteAgreesWithBool(v: Value, ops: FloatOps)
    requires v.Bool? || v.Str?
    ensures ToByte(v, ops) == (if ToBool(v) then High else Low)
  {
  }

  /** For an INT value the pin level is the low byte, which need not agree with the truth value. */
  lemma ByteOfIntIsLowByte(n: int32, ops: FloatOps)
    ensures ToByte(Int(n), ops) as int == (n as int) % 256
    ensures ToBool(Int(256)) && ToByte(Int(256), ops) == Low
  {
  }

  /** A boolean read as a number is 1 or 0 (1.0f or 0.0f), and as a pin level HIGH or LOW. */
  lemma BoolAsNumber(b: bool, ops: FloatOps)
    ensures ToInt(Bool(b), ops) == (if b then 1 else 0)
    ensures ToInt(Bool(b), ops) as int == ToByte(Bool(b), ops) as int
    ensures ToBool(Int(ToInt(Bool(b), ops))) == b
    ensures ToBool(Float(ToFloat(Bool(b), ops))) == b
  {
  }

  /** Converting to `String` and reading the text back as a `bool` or `int` returns the original. */
  lemma TextConversionRoundTrip(v: Value, ops: FloatOps)
    ensures v.Bool? ==> ToBool(Str(ToText(v, ops))) == v.boolValue
    ensures v.Int? ==> ToInt(Str(ToText(v, ops)), ops) == v.intValue
  {
    if v.Int? {
      ToLongOfDecimal(v.intValue);
    }
  }
}
