/**
 The decoded form of the evaluator's JSON output, as Python's `json.loads`
 hands it to the package mapper, and the text Python's `str()` gives such a
 value when it is interpolated into an error message.
 */
module Json {

  /** A decoded JSON value. `JNull` is Python's `None`. Numbers are integers
      only: JSON fractions decode to Python floats, which this model omits. */
  datatype JsonValue =
    | JNull
    | JBool(b: bool)
    | JNumber(n: int)
    | JString(s: string)
    | JArray(items: seq<JsonValue>)
    | JObject(fields: map<string, JsonValue>)

  predicate IsDigit(c: char) {
    '0' <= c <= '9'
  }

  function DigitChar(d: nat): (c: char)
    requires d < 10
    ensures IsDigit(c) && c as int - '0' as int == d
  {
    "0123456789"[d]
  }

  /** Decimal notation of a natural number, most significant digit first,
      without leading zeros. */
  function NatToDecimal(n: nat): (s: string)
    ensures 1 <= |s|
    ensures forall i :: 0 <= i < |s| ==> IsDigit(s[i])
    ensures |s| > 1 ==> s[0] != '0'
  {
    if n < 10 then [DigitChar(n)] else NatToDecimal(n / 10) + [DigitChar(n % 10)]
  }

  /** The number a string of decimal digits denotes. */
  function DecimalValue(s: string): nat
    requires forall i :: 0 <= i < |s| ==> IsDigit(s[i])
  {
    if s == [] then 0
    else
      assert IsDigit(s[|s| - 1]);
      10 * DecimalValue(s[..|s| - 1]) + (s[|s| - 1] as int - '0' as int)
  }

  /** Reading back the digits `NatToDecimal` writes gives the number again. */
  lemma {:induction false} DecimalRoundTrip(n: nat)
    ensures DecimalValue(NatToDecimal(n)) == n
  {
    var s := NatToDecimal(n);
    if n >= 10 {
      DecimalRoundTrip(n / 10);
      assert s[..|s| - 1] == NatToDecimal(n / 10);
    }
  }

  /** What Python's `str()` yields for a decoded value: a string is itself,
      `None`, `True` and `False` are spelt out, an integer is written in
      decimal with a leading `-` when negative. Lists and dictionaries are
      rendered as a fixed placeholder. */
  function Display(v: JsonValue): (t: string)
    ensures v.JString? ==> t == v.s
    ensures v.JNumber? ==> |t| >= 1 && (t[0] == '-' <==> v.n < 0)
  {
    match v
    case JNull => "None"
    case JBool(b) => if b then "True" else "False"
    case JNumber(n) => if n < 0 then "-" + NatToDecimal(-n) else NatToDecimal(n)
    case JString(s) => s
    case JArray(_) => "[...]"
    case JObject(_) => "{...}"
  }

  /** Reading an integer's displayed text back as a signed decimal gives the integer. */
  lemma DisplayIntegerRoundTrip(n: int)
    ensures var t := Display(JNumber(n));
      if n < 0 then t[0] == '-' && DecimalValue(t[1..]) == -n
      else DecimalValue(t) == n
  {
    var t := Display(JNumber(n));
    if n < 0 {
      DecimalRoundTrip(-n);
      assert t[1..] == NatToDecimal(-n);
    } else {
      DecimalRoundTrip(n);
    }
  }
}
