/** JavaScript values as the request handlers see them: UTF-16 strings, the
    JSON values a request body carries, and the two conversions the source
    leans on, String() and truthiness. */
module Js {

  datatype Option<+T> = None | Some(value: T)

  /** A UTF-16 code unit. JavaScript strings, `length`, and regular
      expressions without the `u` flag all work on code units. */
  type CodeUnit = x: int | 0 <= x < 0x1_0000

  type JsString = seq<CodeUnit>

  /** The code units of a literal written in the Basic Multilingual Plane
      (every literal of the source is); anything else would become U+FFFD. */
  function U(s: string): JsString
  {
    seq(|s|, i requires 0 <= i < |s| => if s[i] as int < 0x1_0000 then s[i] as int else 0xFFFD)
  }

  // ----- character classes -----

  predicate IsAsciiLower(u: CodeUnit) { 'a' as int <= u <= 'z' as int }
  predicate IsAsciiUpper(u: CodeUnit) { 'A' as int <= u <= 'Z' as int }
  predicate IsAsciiLetter(u: CodeUnit) { IsAsciiLower(u) || IsAsciiUpper(u) }
  /** `\d` */
  predicate IsAsciiDigit(u: CodeUnit) { '0' as int <= u <= '9' as int }

  /** The ECMAScript LineTerminator set: what `.` refuses to match. */
  predicate IsLineTerminator(u: CodeUnit) { u == 0x0A || u == 0x0D || u == 0x2028 || u == 0x2029 }

  /** `\s`: the ECMAScript WhiteSpace set (TAB, VT, FF, ZWNBSP and every
      Zs space) together with the line terminators. */
  predicate IsWhitespace(u: CodeUnit)
  {
    || u == 0x09 || u == 0x0B || u == 0x0C || u == 0x20 || u == 0xA0
    || u == 0x1680 || (0x2000 <= u <= 0x200A) || u == 0x202F || u == 0x205F
    || u == 0x3000 || u == 0xFEFF
    || IsLineTerminator(u)
  }

  // ----- strings -----

  /** `w` occurs in `s` as a contiguous piece. */
  predicate Contains(s: JsString, w: JsString)
  {
    exists i :: 0 <= i <= |s| - |w| && OccursAt(s, w, i)
  }

  predicate OccursAt(s: JsString, w: JsString, i: int)
  {
    0 <= i <= |s| - |w| && s[i..i + |w|] == w
  }

  predicate EndsWith(s: JsString, w: JsString)
  {
    |w| <= |s| && s[|s| - |w|..] == w
  }

  /** Runs of units satisfying `isWordUnit`, separated by exactly one
      whitespace unit each, with no whitespace at either end. Stated per
      position: every unit is a word unit, or a whitespace unit standing
      between two word units. */
  predicate Words(isWordUnit: CodeUnit -> bool, s: JsString)
  {
    && |s| > 0
    && forall k {:trigger s[k]} :: 0 <= k < |s| ==>
         || isWordUnit(s[k])
         || (0 < k < |s| - 1 && IsWhitespace(s[k]) && isWordUnit(s[k - 1]) && isWordUnit(s[k + 1]))
  }

  /** String.prototype.toLowerCase restricted to ASCII letters. */
  function ToLowerAscii(s: JsString): (r: JsString)
    ensures |r| == |s|
    ensures forall k :: 0 <= k < |s| ==>
              r[k] == (if IsAsciiUpper(s[k]) then s[k] + 32 else s[k])
    ensures forall k :: 0 <= k < |r| ==> !IsAsciiUpper(r[k])
    ensures forall k :: 0 <= k < |r| ==> (IsAsciiLetter(r[k]) <==> IsAsciiLetter(s[k]))
  {
    seq(|s|, k requires 0 <= k < |s| => if IsAsciiUpper(s[k]) then s[k] + 32 else s[k])
  }

  /** The decimal digits of `n`, as Number.prototype.toString writes an
      integer below 10^21. */
  function Decimal(n: nat): (r: JsString)
    decreases n
  {
    if n < 10 then [n + '0' as int] else Decimal(n / 10) + [n % 10 + '0' as int]
  }

  /** The number a string of decimal digits denotes, most significant first. */
  function DigitsValue(s: JsString): int
  {
    if s == [] then 0 else DigitsValue(s[..|s| - 1]) * 10 + (s[|s| - 1] - '0' as int)
  }

  lemma {:induction false} DecimalDigits(n: nat)
    ensures |Decimal(n)| > 0
    ensures forall k :: 0 <= k < |Decimal(n)| ==> IsAsciiDigit(Decimal(n)[k])
    ensures Decimal(n)[0] == '0' as int ==> n == 0
    ensures DigitsValue(Decimal(n)) == n
    decreases n
  {
    if n >= 10 {
      DecimalDigits(n / 10);
      var s := Decimal(n);
      assert s[..|s| - 1] == Decimal(n / 10);
    }
  }

  // ----- JSON values -----

  /** A JSON value of a request body or a stored document. An absent key of
      a `Body` plays the part of `undefined`. Numbers are integers here. */
  datatype Value =
    | Null
    | Bool(b: bool)
    | Num(n: int)
    | Str(s: JsString)
    | Arr(items: seq<Value>)
    | Obj(fields: map<string, Value>)

  type Body = map<string, Value>

  /** `String(v)` for a present value. */
  function ToString(v: Value): (r: JsString)
    ensures v.Str? ==> r == v.s
    ensures v.Num? && v.n >= 0 ==> r == Decimal(v.n)
    ensures v.Num? && v.n < 0 ==> r == U("-") + Decimal(-v.n)
    ensures v.Num? && v.n >= 0 ==> |r| > 0 && IsAsciiDigit(r[0]) && DigitsValue(r) == v.n
    ensures v.Num? && v.n < 0 ==> |r| > 1 && r[0] == '-' as int && DigitsValue(r[1..]) == -v.n
  {
    match v
    case Null => U("null")
    case Bool(b) => if b then U("true") else U("false")
    case Num(n) =>
      DecimalDigits(if n < 0 then -n else n);
      if n < 0 then
        var r := U("-") + Decimal(-n);
        assert r[1..] == Decimal(-n);
        r
      else Decimal(n)
    case Str(s) => s
    case Arr(items) => JoinWithCommas(seq(|items|, i requires 0 <= i < |items| =>
                         if items[i].Null? then [] else ToString(items[i])))
    case Obj(_) => U("[object Object]")
  }

  /** `Array.prototype.join` with the default separator. */
  function JoinWithCommas(parts: seq<JsString>): JsString
  {
    if |parts| == 0 then []
    else if |parts| == 1 then parts[0]
    else parts[0] + U(",") + JoinWithCommas(parts[1..])
  }

  /** `String(obj[key])` when the key may be missing (`"undefined"`). */
  function FieldString(b: Body, key: string): (r: JsString)
    ensures key in b && b[key].Str? ==> r == b[key].s
    ensures key !in b ==> r == U("undefined")
  {
    if key in b then ToString(b[key]) else U("undefined")
  }

  /** JavaScript truthiness (NaN is not a value here). */
  predicate Truthy(v: Value)
  {
    match v
    case Null => false
    case Bool(b) => b
    case Num(n) => n != 0
    case Str(s) => |s| > 0
    case Arr(_) => true
    case Obj(_) => true
  }
}
