/** The values a decoded request body holds, and the Python semantics the
    handlers apply to them: `dict.get`, comparison with `False`, `str()` of
    a scalar, and decimal numerals. */
module PyValues {
  import opened Wrappers

  /** A decoded JSON value. Numbers are integers; floating point is not
      modelled. */
  datatype Value =
    | Null
    | Bool(b: bool)
    | Int(n: int)
    | Str(s: string)
    | Arr(items: seq<Value>)
    | Obj(fields: map<string, Value>)

  /** A request body that decoded to a JSON object. */
  type Body = map<string, Value>

  /** `body.get(key, default)` */
  function Get(body: Body, key: string, default: Value): Value {
    if key in body then body[key] else default
  }

  /** Python's `v == False`: true exactly for `False` and the integer `0`. */
  predicate EqualsFalse(v: Value) {
    v == Bool(false) || v == Int(0)
  }

  /** The values whose `str()` the model gives. */
  predicate IsScalar(v: Value) {
    v.Null? || v.Bool? || v.Int? || v.Str?
  }

  predicate IsDigit(c: char) {
    '0' <= c <= '9'
  }

  predicate AllDigits(s: string) {
    |s| > 0 && forall i :: 0 <= i < |s| ==> IsDigit(s[i])
  }

  function DigitChar(d: nat): (c: char)
    requires d < 10
    ensures IsDigit(c)
  {
    (('0' as int) + d) as char
  }

  function DigitValue(c: char): (d: nat)
    requires IsDigit(c)
    ensures d < 10 && DigitChar(d) == c
  {
    (c as int) - ('0' as int)
  }

  /** The decimal numeral of `n`, without leading zeros. */
  function NatToString(n: nat): (s: string)
    ensures AllDigits(s)
    ensures |s| > 1 ==> s[0] != '0'
  {
    if n < 10 then [DigitChar(n)] else NatToString(n / 10) + [DigitChar(n % 10)]
  }

  /** The number a string of decimal digits denotes. */
  function DigitsValue(s: string): nat
    requires forall i :: 0 <= i < |s| ==> IsDigit(s[i])
  {
    if |s| == 0 then 0 else DigitsValue(s[..|s| - 1]) * 10 + DigitValue(s[|s| - 1])
  }

  /** Python's `str(n)` for an integer. */
  function IntToString(n: int): string {
    if n < 0 then "-" + NatToString(-n) else NatToString(n)
  }

  /** A signed decimal numeral, as an integer column accepts it as text. */
  function ParseInt(s: string): Option<int> {
    if |s| > 1 && s[0] == '-' && AllDigits(s[1..]) then Some(-(DigitsValue(s[1..]) as int))
    else if AllDigits(s) then Some(DigitsValue(s))
    else None
  }

  /** Python's `str(v)` for a scalar, as an f-string inserts it. */
  function PyStr(v: Value): (s: string)
    requires IsScalar(v)
    ensures v.Str? ==> s == v.s
    ensures v.Int? ==> ParseInt(s) == Some(v.n)
  {
    IntToStringRoundTrip(if v.Int? then v.n else 0);
    match v
    case Null => "None"
    case Bool(b) => if b then "True" else "False"
    case Int(n) => IntToString(n)
    case Str(s) => s
  }

  lemma {:induction false} NatToStringRoundTrip(n: nat)
    ensures DigitsValue(NatToString(n)) == n
  {
    if n >= 10 {
      var s := NatToString(n);
      assert s[..|s| - 1] == NatToString(n / 10);
      NatToStringRoundTrip(n / 10);
    }
  }

  /** Reading back the numeral `str(n)` gives `n`. */
  lemma IntToStringRoundTrip(n: int)
    ensures ParseInt(IntToString(n)) == Some(n)
  {
    if n < 0 {
      var s := IntToString(n);
      assert s[1..] == NatToString(-n);
      NatToStringRoundTrip(-n);
    } else {
      NatToStringRoundTrip(n);
    }
  }
}
