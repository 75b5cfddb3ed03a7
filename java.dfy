/** Values as the Java backend receives them from Jackson (`Map<String, Object>` request
    bodies), and the JDK number conversions the services apply to them. */
module Java {
  import opened Wrappers
  import opened Strings

  const INT_MIN: int := -0x8000_0000
  const INT_MAX: int := 0x7FFF_FFFF
  const LONG_MIN: int := -0x8000_0000_0000_0000
  const LONG_MAX: int := 0x7FFF_FFFF_FFFF_FFFF

  predicate IsInt(x: int) { INT_MIN <= x <= INT_MAX }
  predicate IsLong(x: int) { LONG_MIN <= x <= LONG_MAX }

  /** A deserialised JSON value: Jackson yields an Integer for numbers that fit
      32 bits, a Long for those that fit 64 bits, a BigInteger beyond, and a
      Double for numbers with a fraction or exponent. */
  datatype JavaValue =
    | JNull
    | JInteger(i: int)
    | JLong(l: int)
    | JBigInteger(b: int)
    | JDouble(d: real)
    | JString(s: string)
    | JBool(z: bool)
    | JMap(entries: map<string, JavaValue>)
    | JOther

  /** `map.get(key)`: null for a missing key. */
  function Get(m: map<string, JavaValue>, key: string): JavaValue {
    if key in m then m[key] else JNull
  }

  /** The cast `(String) value`: `Err` where Java throws ClassCastException. */
  function AsString(v: JavaValue): Result<Option<string>> {
    match v
    case JNull => Ok(None)
    case JString(s) => Ok(Some(s))
    case _ => Err(CLASS_CAST)
  }

  /** The cast `(Integer) value`. */
  function AsInteger(v: JavaValue): Result<Option<int>> {
    match v
    case JNull => Ok(None)
    case JInteger(i) => Ok(Some(i))
    case _ => Err(CLASS_CAST)
  }

  /** The cast `(Map<String, Object>) value`. */
  function AsMap(v: JavaValue): Result<Option<map<string, JavaValue>>> {
    match v
    case JNull => Ok(None)
    case JMap(m) => Ok(Some(m))
    case _ => Err(CLASS_CAST)
  }

  /** Stands for the message of a ClassCastException. */
  const CLASS_CAST := "ClassCastException"

  /** Stands for the message of a NullPointerException. */
  const NULL_POINTER := "NullPointerException"

  /** String concatenation renders null as the text "null". */
  function OrNullText(s: Option<string>): string {
    match s
    case Some(t) => t
    case None => "null"
  }

  /** Narrowing to 32 bits, as `Number.intValue()` of a Long or BigInteger does. */
  function Wrap32(x: int): (r: int)
    ensures IsInt(r)
    ensures (r - x) % 0x1_0000_0000 == 0
  {
    (x + 0x8000_0000) % 0x1_0000_0000 - 0x8000_0000
  }

  lemma Wrap32InRange(x: int)
    requires IsInt(x)
    ensures Wrap32(x) == x
  {
  }

  /** `Double.intValue()`: truncation toward zero, saturating at the int range. */
  function DoubleToInt(d: real): (r: int)
    ensures IsInt(r)
    ensures INT_MIN as real <= d <= INT_MAX as real ==> -1.0 < d - r as real < 1.0
    ensures (d >= 0.0 ==> r >= 0) && (d <= 0.0 ==> r <= 0)
  {
    var t := if d >= 0.0 then d.Floor else -((-d).Floor);
    if t < INT_MIN then INT_MIN else if t > INT_MAX then INT_MAX else t
  }

  /** A sign-optional run of ASCII decimal digits, as `Integer.parseInt` and
      `Long.valueOf` accept it, checked against the range [lo, hi]. */
  function ParseSigned(s: string, lo: int, hi: int): (r: Option<int>)
    ensures r.Some? ==> lo <= r.value <= hi
  {
    if |s| > 0 && (s[0] == '-' || s[0] == '+') then
      var digits := s[1..];
      if |digits| == 0 || !AllDigits(digits) then None
      else
        var v: int := if s[0] == '-' then -(DigitsValue(digits) as int) else DigitsValue(digits);
        if lo <= v <= hi then Some(v) else None
    else if |s| == 0 || !AllDigits(s) then None
    else if lo <= DigitsValue(s) <= hi then Some(DigitsValue(s))
    else None
  }

  /** `Integer.parseInt(s)`; `None` where Java throws NumberFormatException. */
  function ParseInt(s: string): (r: Option<int>)
    ensures r.Some? ==> IsInt(r.value)
  {
    ParseSigned(s, INT_MIN, INT_MAX)
  }

  /** `Long.valueOf(s)`; `None` where Java throws NumberFormatException. */
  function ParseLong(s: string): (r: Option<int>)
    ensures r.Some? ==> IsLong(r.value)
  {
    ParseSigned(s, LONG_MIN, LONG_MAX)
  }

  /** `String.valueOf` of an integer. */
  function JavaIntToString(x: int): string {
    IntToString(x)
  }

  /** Every integer in range reads back from its decimal rendering. */
  lemma ParseSignedRoundTrip(x: int, lo: int, hi: int)
    requires lo <= x <= hi && lo <= 0
    ensures ParseSigned(IntToString(x), lo, hi) == Some(x)
  {
    if x < 0 {
      NatToStringRoundTrip(-x);
      var s := IntToString(x);
      assert s[1..] == NatToString(-x);
    } else {
      NatToStringRoundTrip(x);
    }
  }

  lemma ParseIntRoundTrip(x: int)
    requires IsInt(x)
    ensures ParseInt(IntToString(x)) == Some(x)
  {
    ParseSignedRoundTrip(x, INT_MIN, INT_MAX);
  }

  lemma ParseLongRoundTrip(x: int)
    requires IsLong(x)
    ensures ParseLong(IntToString(x)) == Some(x)
  {
    ParseSignedRoundTrip(x, LONG_MIN, LONG_MAX);
  }
}
