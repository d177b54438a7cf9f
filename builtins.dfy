/** The pieces of Python's built-in behaviour that the bot relies on: the exceptions it
    raises or catches, decoded JSON values and their truthiness, subscripting with a
    string key, `str.strip()`, `int()` and `float()` on text, `str()` of a non-negative
    integer and `int()` of a float. */
module Builtins {
  import opened Wrappers

  /** The exceptions the modelled code raises, catches or lets through. */
  datatype Error =
    | KeyError         // a missing dictionary key
    | TypeError        // an operand of the wrong type: a list subscripted by a string, float(None), ...
    | ValueError       // int() or float() on text that is not a number
    | AttributeError   // a method the value lacks: .strip() on a non-string, .group() on None
    | TimeoutError     // asyncio.TimeoutError from the HTTP client
    | JSONDecodeError  // the upstream reply is not JSON
    | ClientError      // any other failure of the HTTP request
    | InvalidArgument  // discord.errors.InvalidArgument
    | NoProfileError   // the profile commands' own error for a member without a profile

  /** A decoded JSON value, as json.loads returns it (JSON numbers with a fraction are not modelled). */
  datatype Json =
    | JNull
    | JBool(b: bool)
    | JInt(i: int)
    | JStr(s: string)
    | JList(items: seq<Json>)
    | JObj(fields: map<string, Json>)

  /** Python truthiness: None, False, 0 and empty containers are false. */
  predicate Truthy(v: Json) {
    match v
    case JNull => false
    case JBool(b) => b
    case JInt(i) => i != 0
    case JStr(s) => s != ""
    case JList(xs) => xs != []
    case JObj(m) => m != map[]
  }

  /** `v[key]`: only a dict can be subscripted by a string. */
  function Index(v: Json, key: string): (r: Result<Json, Error>)
    ensures r.Ok? <==> v.JObj? && key in v.fields
    ensures r.Ok? ==> r.value == v.fields[key]
    ensures r.Err? ==> r.error == (if v.JObj? then KeyError else TypeError)
  {
    match v
    case JObj(m) => if key in m then Ok(m[key]) else Err(KeyError)
    case _ => Err(TypeError)
  }

  /** `v[k0][k1]...[kn]`, failing at the first step that fails. */
  function Lookup(v: Json, path: seq<string>): Result<Json, Error>
    decreases |path|
  {
    if path == [] then Ok(v)
    else
      var child :- Index(v, path[0]);
      Lookup(child, path[1..])
  }

  /** Python's str.isspace() on one character. */
  predicate IsSpace(c: char) {
    var n := c as int;
    n == 0x20 || 0x09 <= n <= 0x0D || 0x1C <= n <= 0x1F || n == 0x85 || n == 0xA0 ||
    n == 0x1680 || 0x2000 <= n <= 0x200A || n == 0x2028 || n == 0x2029 || n == 0x202F ||
    n == 0x205F || n == 0x3000
  }

  function StripLeft(s: string): (r: string)
    ensures |r| <= |s| && r == s[|s| - |r|..]
    ensures forall k :: 0 <= k < |s| - |r| ==> IsSpace(s[k])
    ensures r == [] || !IsSpace(r[0])
  {
    if s != [] && IsSpace(s[0]) then StripLeft(s[1..]) else s
  }

  function StripRight(s: string): (r: string)
    ensures |r| <= |s| && r == s[..|r|]
    ensures forall k :: |r| <= k < |s| ==> IsSpace(s[k])
    ensures r == [] || !IsSpace(r[|r| - 1])
  {
    if s != [] && IsSpace(s[|s| - 1]) then StripRight(s[..|s| - 1]) else s
  }

  /** r is s[i..i + |r|] and everything of s around it is whitespace. */
  predicate TrimmedAt(s: string, i: int, r: string) {
    0 <= i <= |s| - |r| && r == s[i..i + |r|] &&
    (forall k :: 0 <= k < i ==> IsSpace(s[k])) &&
    (forall k :: i + |r| <= k < |s| ==> IsSpace(s[k]))
  }

  /** `s.strip()`: s without its leading and trailing whitespace. */
  function Strip(s: string): (r: string)
    ensures exists i :: TrimmedAt(s, i, r)
    ensures r == [] || (!IsSpace(r[0]) && !IsSpace(r[|r| - 1]))
  {
    var left := StripLeft(s);
    var r := StripRight(left);
    var i := |s| - |left|;
    assert TrimmedAt(s, i, r);
    r
  }

  /** Stripping keeps a string whose ends are not whitespace, and strip is idempotent. */
  lemma {:induction false} StripKeeps(s: string)
    requires s == [] || (!IsSpace(s[0]) && !IsSpace(s[|s| - 1]))
    ensures Strip(s) == s
  {
    var r := Strip(s);
    var i :| TrimmedAt(s, i, r);
    if s != [] {
      assert i == 0;
      assert i + |r| == |s|;
    }
  }

  /** `s.strip()` on a str value, AttributeError on any other value. */
  function StripValue(v: Json): Result<string, Error> {
    if v.JStr? then Ok(Strip(v.s)) else Err(AttributeError)
  }

  predicate IsDigit(c: char) {
    '0' <= c <= '9'
  }

  predicate AllDigits(s: string) {
    forall k :: 0 <= k < |s| ==> IsDigit(s[k])
  }

  function DigitValue(c: char): nat
    requires IsDigit(c)
  {
    c as int - '0' as int
  }

  function DigitChar(d: nat): char
    requires d < 10
  {
    ('0' as int + d) as char
  }

  /** The value of a string of decimal digits, read most significant digit first. */
  function DigitsValue(s: string): nat
    requires AllDigits(s)
    decreases |s|
  {
    if s == [] then 0 else DigitsValue(s[..|s| - 1]) * 10 + DigitValue(s[|s| - 1])
  }

  /** `str(n)` for n >= 0: its decimal digits, without leading zeros. */
  function Decimal(n: nat): (r: string)
    ensures r != [] && AllDigits(r) && DigitsValue(r) == n
    ensures r[0] == '0' ==> r == "0"
  {
    if n < 10 then [DigitChar(n)]
    else
      var front := Decimal(n / 10);
      var r := front + [DigitChar(n % 10)];
      assert r[..|r| - 1] == front;
      r
  }

  /** A digit string that starts with a non-zero digit has a positive value. */
  lemma {:induction false} LeadingDigitPositive(s: string)
    requires s != [] && AllDigits(s) && s[0] != '0'
    ensures DigitsValue(s) >= 1
  {
    if |s| > 1 {
      LeadingDigitPositive(s[..|s| - 1]);
    }
  }

  /** `str(int(s)) == s` for a canonical digit string: Decimal and DigitsValue are inverse. */
  lemma {:induction false} DecimalOfDigits(s: string)
    requires s != [] && AllDigits(s) && (s[0] == '0' ==> s == "0")
    ensures Decimal(DigitsValue(s)) == s
  {
    if |s| > 1 {
      var front := s[..|s| - 1];
      LeadingDigitPositive(front);
      DecimalOfDigits(front);
      var v := DigitsValue(s);
      assert v / 10 == DigitsValue(front) && v % 10 == DigitValue(s[|s| - 1]);
      assert s == front + [s[|s| - 1]];
    }
  }

  /** Distinct member ids give distinct `str(id)` keys. */
  lemma DecimalInjective(a: nat, b: nat)
    ensures Decimal(a) == Decimal(b) ==> a == b
  {
  }

  /** A digit string is worth 0 exactly when every digit is '0'. */
  lemma {:induction false} DigitsValueZero(s: string)
    requires AllDigits(s)
    ensures DigitsValue(s) == 0 <==> AllZeros(s)
  {
    if s != [] {
      var front := s[..|s| - 1];
      DigitsValueZero(front);
      assert forall k :: 0 <= k < |front| ==> front[k] == s[k];
    }
  }

  /** A leading '+' or '-' sign, and the text after it. */
  function SplitSign(t: string): (bool, string) {
    if t != [] && (t[0] == '+' || t[0] == '-') then (t[0] == '-', t[1..]) else (false, t)
  }

  /** `int(s)` for a str argument: optional surrounding whitespace and sign, then decimal digits. */
  function ParseInt(s: string): (r: Result<int, Error>)
    ensures r.Err? ==> r.error == ValueError
  {
    var (negative, digits) := SplitSign(Strip(s));
    if digits != [] && AllDigits(digits) then
      var v: int := DigitsValue(digits);
      Ok(if negative then -v else v)
    else
      Err(ValueError)
  }

  /** `int(str(n)) == n`. */
  lemma ParseIntOfDecimal(n: nat)
    ensures ParseInt(Decimal(n)) == Ok(n)
  {
    var d := Decimal(n);
    StripKeeps(d);
  }

  /** The position of the first c in s. */
  function IndexOf(s: string, c: char): (r: Option<nat>)
    ensures r.Some? ==> r.value < |s| && s[r.value] == c && forall k :: 0 <= k < r.value ==> s[k] != c
    ensures r.None? ==> forall k :: 0 <= k < |s| ==> s[k] != c
  {
    if s == [] then None
    else if s[0] == c then Some(0)
    else match IndexOf(s[1..], c)
      case Some(k) => Some(k + 1)
      case None => None
  }

  function Pow10(n: nat): (r: nat)
    ensures r >= 1
  {
    if n == 0 then 1 else 10 * Pow10(n - 1)
  }

  /** The sign, the digits before the first '.' and the digits after it, of a number's text. */
  function NumberParts(s: string): (bool, string, string) {
    var (negative, body) := SplitSign(Strip(s));
    match IndexOf(body, '.')
    case Some(k) => (negative, body[..k], body[k + 1..])
    case None => (negative, body, "")
  }

  predicate AllZeros(s: string) {
    forall k :: 0 <= k < |s| ==> s[k] == '0'
  }

  /** The value of a decimal number from its sign and its digits around the point. */
  function DecimalValue(negative: bool, whole: string, fraction: string): real
    requires AllDigits(whole) && AllDigits(fraction)
  {
    var v := DigitsValue(whole) as real + DigitsValue(fraction) as real / Pow10(|fraction|) as real;
    if negative then -v else v
  }

  /** `float(s)` for a str argument written in plain decimal notation: optional surrounding
      whitespace and sign, digits, and an optional '.' with more digits (at least one digit). */
  function ParseFloat(s: string): (r: Result<real, Error>)
    ensures r.Err? ==> r.error == ValueError
  {
    var (negative, whole, fraction) := NumberParts(s);
    if AllDigits(whole) && AllDigits(fraction) && |whole| + |fraction| > 0 then
      Ok(DecimalValue(negative, whole, fraction))
    else
      Err(ValueError)
  }

  /** A decimal number is zero exactly when all of its digits are '0'. */
  lemma DecimalValueZero(negative: bool, whole: string, fraction: string)
    requires AllDigits(whole) && AllDigits(fraction)
    ensures DecimalValue(negative, whole, fraction) == 0.0 <==> AllZeros(whole) && AllZeros(fraction)
  {
    DigitsValueZero(whole);
    DigitsValueZero(fraction);
    var n := DigitsValue(fraction) as real;
    var p := Pow10(|fraction|) as real;
    assert n / p >= 0.0;
    assert n / p == 0.0 ==> n == 0.0 by {
      if n / p == 0.0 {
        assert n == (n / p) * p;
      }
    }
  }

  /** A number read by `float(text)` is zero exactly when every digit of the text is '0'. */
  lemma ParseFloatZero(t: string)
    requires ParseFloat(t).Ok?
    ensures ParseFloat(t).value == 0.0 <==> AllZeros(NumberParts(t).1) && AllZeros(NumberParts(t).2)
  {
    var (negative, whole, fraction) := NumberParts(t);
    DecimalValueZero(negative, whole, fraction);
  }

  /** `int(v)`: booleans count as 0 and 1, text is parsed, other values are refused. */
  function ToInt(v: Json): (r: Result<int, Error>)
    ensures r.Err? ==> r.error == (if v.JStr? then ValueError else TypeError)
  {
    match v
    case JBool(b) => Ok(if b then 1 else 0)
    case JInt(i) => Ok(i)
    case JStr(s) => ParseInt(s)
    case _ => Err(TypeError)
  }

  /** `float(v)`: booleans count as 0.0 and 1.0, text is parsed, other values are refused. */
  function ToFloat(v: Json): (r: Result<real, Error>)
    ensures r.Err? ==> r.error == (if v.JStr? then ValueError else TypeError)
  {
    match v
    case JBool(b) => Ok(if b then 1.0 else 0.0)
    case JInt(i) => Ok(i as real)
    case JStr(s) => ParseFloat(s)
    case _ => Err(TypeError)
  }

  /** `int(x)` for a float: rounds toward zero. */
  function Trunc(x: real): (r: int)
    ensures 0.0 <= x ==> r as real <= x < r as real + 1.0
    ensures x < 0.0 ==> r as real - 1.0 < x <= r as real
  {
    if x >= 0.0 then x.Floor else -((-x).Floor)
  }
}
