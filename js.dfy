/**
 * The JavaScript values that reach the route handlers, and the two ways the
 * handlers look at them: the falsiness test `!x`, and the string a value
 * becomes when a regular expression tests it or when the PostgreSQL client
 * sends it as a statement parameter.
 */
module Js {

  /** A scalar field of a parsed JSON request body; `Undefined` is a field
      the client left out. `Num(n)` stands for an integer JavaScript holds
      exactly, |n| <= 2^53 (see README). */
  datatype JsValue = Undefined | Null | Bool(b: bool) | Num(n: int) | Str(s: string)

  /** JavaScript truthiness: `!v` holds exactly when `Truthy(v)` does not. */
  predicate Truthy(v: JsValue) {
    match v
    case Undefined => false
    case Null => false
    case Bool(b) => b
    case Num(n) => n != 0
    case Str(s) => s != ""
  }

  /** The falsy scalars are exactly `undefined`, `null`, `false`, `0` and
      the empty string. */
  lemma FalsyValues(v: JsValue)
    ensures !Truthy(v) <==> v == Undefined || v == Null || v == Bool(false) || v == Num(0) || v == Str("")
  {
  }

  predicate IsDigit(c: char) {
    '0' <= c <= '9'
  }

  /** A string made of decimal digits only. */
  predicate IsDecimal(s: string) {
    forall i :: 0 <= i < |s| ==> IsDigit(s[i])
  }

  function DigitChar(d: nat): (c: char)
    requires d < 10
    ensures IsDigit(c) && (c as int) - ('0' as int) == d
  {
    ('0' as int + d) as char
  }

  /** The integer a string of decimal digits denotes. */
  function DecimalValue(s: string): nat
    requires IsDecimal(s)
  {
    if s == [] then 0
    else
      assert IsDigit(s[|s| - 1]);
      DecimalValue(s[..|s| - 1]) * 10 + ((s[|s| - 1] as int) - ('0' as int))
  }

  function Pow10(k: nat): (p: nat)
    ensures p >= 1
  {
    if k == 0 then 1 else 10 * Pow10(k - 1)
  }

  /** `String(n)` for a non-negative integer: its decimal digits, without
      leading zeros. */
  function NatToDecimal(n: nat): (r: string)
    ensures |r| > 0 && IsDecimal(r)
    ensures r[0] == '0' <==> n == 0
    ensures n == 0 ==> r == "0"
    ensures DecimalValue(r) == n
    decreases n
  {
    if n < 10 then [DigitChar(n)]
    else
      var front := NatToDecimal(n / 10);
      var r := front + [DigitChar(n % 10)];
      assert r[..|r| - 1] == front;
      r
  }

  /** The number of digits of `n` is `k + 1` when `10^k <= n < 10^(k+1)`. */
  lemma {:induction false} DecimalLength(n: nat, k: nat)
    requires Pow10(k) <= n < Pow10(k + 1)
    ensures |NatToDecimal(n)| == k + 1
    decreases k
  {
    if k > 0 {
      assert Pow10(k) == 10 * Pow10(k - 1);
      assert Pow10(k + 1) == 10 * Pow10(k);
      assert Pow10(k - 1) <= n / 10 < Pow10(k);
      DecimalLength(n / 10, k - 1);
    }
  }

  /** JavaScript's `String(v)`, which `RegExp.prototype.test` applies to its
      argument, for the scalar values of `JsValue`. */
  function ToJsString(v: JsValue): string {
    match v
    case Undefined => "undefined"
    case Null => "null"
    case Bool(b) => if b then "true" else "false"
    case Num(n) => if n < 0 then "-" + NatToDecimal(-n) else NatToDecimal(n)
    case Str(s) => s
  }

  /** What `String(v)` gives: a string is itself; an integer is its decimal
      text without leading zeros, with a minus sign exactly when it is
      negative; the other scalars are named by their own word. */
  lemma ToJsStringText(v: JsValue)
    ensures v.Str? ==> ToJsString(v) == v.s
    ensures v.Num? ==> |ToJsString(v)| > 0 && (ToJsString(v)[0] == '-' <==> v.n < 0)
    ensures v.Num? && v.n >= 0 ==> IsDecimal(ToJsString(v)) && DecimalValue(ToJsString(v)) == v.n
    ensures v.Num? && v.n < 0 ==> IsDecimal(ToJsString(v)[1..]) && DecimalValue(ToJsString(v)[1..]) == -v.n
    ensures v == Num(0) ==> ToJsString(v) == "0"
    ensures v.Num? && v.n > 0 ==> ToJsString(v)[0] != '0'
    ensures v.Num? && v.n < 0 ==> |ToJsString(v)| > 1 && ToJsString(v)[1] != '0'
    ensures v == Undefined ==> ToJsString(v) == "undefined"
    ensures v == Null ==> ToJsString(v) == "null"
    ensures v == Bool(true) ==> ToJsString(v) == "true"
    ensures v == Bool(false) ==> ToJsString(v) == "false"
  {
    if v.Num? && v.n < 0 {
      assert ToJsString(v)[1..] == NatToDecimal(-v.n);
    }
  }

  /** Distinct integers have distinct texts. */
  lemma NumberTextInjective(a: int, b: int)
    requires ToJsString(Num(a)) == ToJsString(Num(b))
    ensures a == b
  {
    ToJsStringText(Num(a));
    ToJsStringText(Num(b));
  }

  /** A cell or a statement parameter as PostgreSQL receives it: SQL NULL or
      text. */
  datatype SqlValue = SqlNull | Text(text: string)

  /** How the PostgreSQL client turns a JavaScript value into a statement
      parameter: `null` and `undefined` become SQL NULL, every other scalar
      its `toString()` text. */
  function ToParam(v: JsValue): SqlValue
  {
    if v.Undefined? || v.Null? then SqlNull else Text(ToJsString(v))
  }

  /** A value that passed the presence test `!v` is sent as its text, so a
      column the route checked holds that text and is never NULL. */
  lemma PresentParamIsText(v: JsValue)
    requires Truthy(v)
    ensures ToParam(v) == Text(ToJsString(v))
  {
  }

  /** The falsy values a route does not check reach the database too: only
      `undefined` and `null` become SQL NULL, while `false`, `0` and `""`
      are sent as their text. */
  lemma FalsyParams(v: JsValue)
    requires !Truthy(v)
    ensures ToParam(v) == SqlNull <==> v == Undefined || v == Null
    ensures v == Bool(false) ==> ToParam(v) == Text("false")
    ensures v == Num(0) ==> ToParam(v) == Text("0")
    ensures v == Str("") ==> ToParam(v) == Text("")
  {
    FalsyValues(v);
    ToJsStringText(v);
  }
}
