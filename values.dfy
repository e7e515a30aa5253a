/**
 * The Python values the sync script reads out of decoded JSON, with the
 * parts of Python's semantics the script relies on: truthiness, `dict.get`,
 * the `or` operator and `str()`.
 */
module Values {

  /** A decoded JSON value. `Null` is Python's `None`. */
  datatype Value =
    | Null
    | Bool(b: bool)
    | Int(i: int)
    | Num(r: real)
    | Str(s: string)
    | Arr(elems: seq<Value>)
    | Obj(fields: map<string, Value>)

  /**
   * Library functions whose definitions are not part of the model:
   * Unicode NFKC normalisation, `html.unescape`, and `str()` of a float,
   * list or dict.
   */
  datatype Lib = Lib(nfkc: string -> string, unescape: string -> string, repr: Value -> string)

  /** Python truthiness. */
  predicate Truthy(v: Value) {
    match v
    case Null => false
    case Bool(b) => b
    case Int(i) => i != 0
    case Num(r) => r != 0.0
    case Str(s) => s != ""
    case Arr(xs) => xs != []
    case Obj(m) => m != map[]
  }

  /** `d.get(key, default)`; a non-dict is read as having no keys. */
  function GetOr(d: Value, key: string, default: Value): (v: Value)
    ensures d.Obj? && key in d.fields ==> v == d.fields[key]
    ensures !(d.Obj? && key in d.fields) ==> v == default
  {
    if d.Obj? && key in d.fields then d.fields[key] else default
  }

  /** `d.get(key)`. */
  function Get(d: Value, key: string): Value {
    GetOr(d, key, Null)
  }

  /** Python's `a or b`: the first operand when it is truthy, else the second. */
  function Or(a: Value, b: Value): (v: Value)
    ensures Truthy(a) ==> v == a
    ensures !Truthy(a) ==> v == b
    ensures v == a || v == b
    ensures Truthy(v) <==> Truthy(a) || Truthy(b)
  {
    if Truthy(a) then a else b
  }

  predicate IsDigit(c: char) {
    '0' <= c <= '9'
  }

  function DigitChar(d: nat): (c: char)
    requires d < 10
    ensures IsDigit(c) && c as int - '0' as int == d
  {
    (d + '0' as int) as char
  }

  /** Decimal digits of a natural number, most significant first, without leading zeros. */
  function NatToDecimal(n: nat): (s: string)
    ensures |s| >= 1
    ensures forall k :: 0 <= k < |s| ==> IsDigit(s[k])
    ensures s[0] == '0' ==> n == 0
  {
    if n < 10 then [DigitChar(n)] else NatToDecimal(n / 10) + [DigitChar(n % 10)]
  }

  function DigitValue(c: char): nat
    requires IsDigit(c)
  {
    c as int - '0' as int
  }

  /** Reads a string of decimal digits back into a number. */
  function ParseNat(s: string): nat
    requires forall k :: 0 <= k < |s| ==> IsDigit(s[k])
  {
    if s == [] then 0 else ParseNat(s[..|s| - 1]) * 10 + DigitValue(s[|s| - 1])
  }

  lemma {:induction false} ParseNatToDecimal(n: nat)
    ensures ParseNat(NatToDecimal(n)) == n
  {
    if n >= 10 {
      var s := NatToDecimal(n);
      assert s[..|s| - 1] == NatToDecimal(n / 10);
      ParseNatToDecimal(n / 10);
    }
  }

  /** `str(i)` for a Python int. */
  function IntToDecimal(i: int): string {
    if i < 0 then "-" + NatToDecimal(-i) else NatToDecimal(i)
  }

  /** `int(s)` for a string that `str(i)` produced. */
  function ParseInt(s: string): int
    requires |s| >= 1
    requires forall k :: (if s[0] == '-' then 1 else 0) <= k < |s| ==> IsDigit(s[k])
  {
    if s[0] == '-' then -(ParseNat(s[1..]) as int) else ParseNat(s)
  }

  /** `str` on integers can be inverted, so distinct integers print differently. */
  lemma {:induction false} ParseIntToDecimal(i: int)
    ensures var s := IntToDecimal(i);
      |s| >= 1 &&
      (forall k :: (if s[0] == '-' then 1 else 0) <= k < |s| ==> IsDigit(s[k])) &&
      ParseInt(s) == i
  {
    var s := IntToDecimal(i);
    if i < 0 {
      ParseNatToDecimal(-i);
      assert s[1..] == NatToDecimal(-i);
    } else {
      ParseNatToDecimal(i);
    }
  }

  lemma IntToDecimalInjective(a: int, b: int)
    requires IntToDecimal(a) == IntToDecimal(b)
    ensures a == b
  {
    ParseIntToDecimal(a);
    ParseIntToDecimal(b);
  }

  /** Python's `str(v)` (also what an f-string interpolates). */
  function StrOf(lib: Lib, v: Value): (s: string)
    ensures v.Str? ==> s == v.s
    ensures v.Int? ==> s == IntToDecimal(v.i)
    ensures v.Null? ==> s == "None"
  {
    match v
    case Null => "None"
    case Bool(b) => if b then "True" else "False"
    case Int(i) => IntToDecimal(i)
    case Str(s) => s
    case _ => lib.repr(v)
  }
}
