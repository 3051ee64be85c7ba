/** Decoded JSON values as the Python services hold them, and the Python
    built-ins (truthiness, dict.get, int(), str() of an int) the services
    apply to them. */
module PyJson {

  /** A value produced by `response.json()`: None, bool, int, str, list or dict.
      JSON numbers with a fraction part are not part of this model. */
  datatype Json =
    | JNull
    | JBool(b: bool)
    | JInt(i: int)
    | JStr(s: string)
    | JList(items: seq<Json>)
    | JObj(fields: map<string, Json>)

  datatype Option<+T> = None | Some(value: T)

  /** A Python call either returns a value or raises an exception. */
  datatype Outcome<+T> = Returns(value: T) | Raises

  /** Python truthiness of a JSON value (`if x:` / `x or y`). */
  predicate Truthy(j: Json) {
    match j
    case JNull => false
    case JBool(b) => b
    case JInt(i) => i != 0
    case JStr(s) => s != ""
    case JList(xs) => xs != []
    case JObj(m) => m != map[]
  }

  /** `d.get(k, default)` on a dict. */
  function GetOr(fields: map<string, Json>, k: string, default: Json): (r: Json)
    ensures k in fields ==> r == fields[k]
    ensures k !in fields ==> r == default
  {
    if k in fields then fields[k] else default
  }

  predicate IsDigit(c: char) {
    '0' <= c <= '9'
  }

  predicate AllDigits(s: string) {
    forall i :: 0 <= i < |s| ==> IsDigit(s[i])
  }

  function DigitChar(d: nat): (c: char)
    requires d < 10
    ensures IsDigit(c)
  {
    (48 + d) as char
  }

  /** The number a run of decimal digits denotes. */
  function DigitsValue(s: string): nat
    requires AllDigits(s)
    decreases |s|
  {
    if s == [] then 0
    else 10 * DigitsValue(s[..|s| - 1]) + ((s[|s| - 1] as int) - 48)
  }

  /** `int(s)` on a str: an optional sign followed by at least one ASCII digit;
      anything else raises ValueError. */
  function ParseInt(s: string): Outcome<int> {
    if |s| > 1 && (s[0] == '-' || s[0] == '+') && AllDigits(s[1..]) then
      var magnitude: int := DigitsValue(s[1..]);
      Returns(if s[0] == '-' then -magnitude else magnitude)
    else if |s| > 0 && AllDigits(s) then
      Returns(DigitsValue(s))
    else
      Raises
  }

  /** `int(x)` on a JSON value: ints pass, bools become 0/1, strings are
      parsed, and None, lists and dicts raise TypeError. */
  function PyInt(j: Json): Outcome<int> {
    match j
    case JInt(i) => Returns(i)
    case JBool(b) => Returns(if b then 1 else 0)
    case JStr(s) => ParseInt(s)
    case _ => Raises
  }

  /** Decimal digits of a natural number, without leading zeros. */
  function NatRepr(n: nat): (r: string)
    ensures |r| > 0 && AllDigits(r)
    decreases n
  {
    if n < 10 then [DigitChar(n)] else NatRepr(n / 10) + [DigitChar(n % 10)]
  }

  /** `str(i)` for an int. */
  function IntRepr(i: int): (r: string)
    ensures |r| > 0
    ensures forall k :: 0 <= k < |r| ==> IsDigit(r[k]) || (k == 0 && r[k] == '-')
  {
    if i < 0 then "-" + NatRepr(-i) else NatRepr(i)
  }

  lemma {:induction false} NatReprValue(n: nat)
    ensures DigitsValue(NatRepr(n)) == n
    decreases n
  {
    var r := NatRepr(n);
    if n >= 10 {
      NatReprValue(n / 10);
      assert r[..|r| - 1] == NatRepr(n / 10);
    }
  }

  /** `int(str(i)) == i`: the decimal rendering of an int reads back as that int. */
  lemma IntReprRoundTrip(i: int)
    ensures ParseInt(IntRepr(i)) == Returns(i)
    ensures PyInt(JStr(IntRepr(i))) == Returns(i)
  {
    if i < 0 {
      NatReprValue(-i);
      assert IntRepr(i)[1..] == NatRepr(-i);
    } else {
      NatReprValue(i);
    }
  }

  /** Distinct ints have distinct decimal renderings. */
  lemma IntReprInjective(a: int, b: int)
    ensures IntRepr(a) == IntRepr(b) <==> a == b
  {
    if IntRepr(a) == IntRepr(b) {
      IntReprRoundTrip(a);
      IntReprRoundTrip(b);
    }
  }
}
