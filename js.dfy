/**
 * The JavaScript values that reach the plugin's entry point `$.idleLogout(method, arg)`,
 * and the three things the plugin asks of them: truthiness, `typeof v === 'object'`,
 * and conversion to a property key (which is also what string concatenation shows).
 */
module Js {
  import opened Wrappers
  import opened Config

  /**
   * Numbers are integers here. An object is described by the properties the plugin
   * reads from it: the settings keys (when it is passed to `init`) and `timestamp`
   * (when it is passed to `handleActivity` as an event).
   */
  datatype Value =
    | Undefined
    | Null
    | Bool(b: bool)
    | Number(n: int)
    | Str(s: string)
    | Obj(options: Options, timestamp: Option<int>)

  /** JavaScript truthiness: `undefined`, `null`, `false`, `0` and `""` are falsy. */
  predicate Truthy(v: Value): (r: bool)
    ensures !r <==> v.Undefined? || v.Null? || v == Bool(false) || v == Number(0) || v == Str("")
  {
    match v
    case Undefined => false
    case Null => false
    case Bool(b) => b
    case Number(n) => n != 0
    case Str(s) => s != ""
    case Obj(_, _) => true
  }

  /** `typeof v === 'object'`, which holds of `null` too. */
  predicate IsObject(v: Value): (r: bool)
    ensures r && Truthy(v) <==> v.Obj?
    ensures r && !Truthy(v) <==> v.Null?
  {
    v.Null? || v.Obj?
  }

  /** `String(v)`: the property key `methods[v]` looks up. */
  function Key(v: Value): (r: string)
    ensures v.Str? ==> r == v.s
    ensures v.Number? ==> r == IntToString(v.n)
    ensures v.Obj? ==> r == "[object Object]"
    ensures v.Undefined? ==> r == "undefined"
    ensures v.Null? ==> r == "null"
    ensures v.Bool? ==> r == (if v.b then "true" else "false")
  {
    match v
    case Undefined => "undefined"
    case Null => "null"
    case Bool(b) => if b then "true" else "false"
    case Number(n) => IntToString(n)
    case Str(s) => s
    case Obj(_, _) => "[object Object]"
  }

  /** The options `$.extend` copies out of `v`: only an object carries settings. */
  function OptionsOf(v: Value): Options {
    if v.Obj? then v.options else NoOptions
  }

  predicate IsDigit(c: char) {
    '0' <= c <= '9'
  }

  /** The number a decimal digit stands for. */
  function DigitValue(c: char): nat
    requires IsDigit(c)
  {
    c as int - '0' as int
  }

  /** The number a string of decimal digits stands for, most significant digit first. */
  function DigitsValue(s: string): nat
    requires forall k :: 0 <= k < |s| ==> IsDigit(s[k])
    decreases |s|
  {
    if s == [] then 0 else DigitsValue(s[..|s| - 1]) * 10 + DigitValue(s[|s| - 1])
  }

  /** Decimal notation of an integer, with a leading `-` when it is negative. */
  function IntToString(i: int): (r: string)
    ensures r != []
    ensures r[0] == '-' || IsDigit(r[0])
    ensures r[0] == '-' <==> i < 0
    ensures i < 0 ==> (forall k :: 1 <= k < |r| ==> IsDigit(r[k])) && DigitsValue(r[1..]) == -i
    ensures i >= 0 ==> (forall k :: 0 <= k < |r| ==> IsDigit(r[k])) && DigitsValue(r) == i
    ensures i >= 0 && r[0] == '0' ==> r == "0"
    ensures i < 0 ==> |r| >= 2 && r[1] != '0'
  {
    if i < 0 then
      var d := NatToString(-i);
      assert ("-" + d)[1..] == d;
      "-" + d
    else NatToString(i)
  }

  /** Decimal notation of a natural number: its digits, with no leading zero. */
  function NatToString(n: nat): (r: string)
    ensures r != []
    ensures forall k :: 0 <= k < |r| ==> IsDigit(r[k])
    ensures DigitsValue(r) == n
    ensures r[0] == '0' ==> n == 0 && r == "0"
    decreases n
  {
    if n < 10 then ["0123456789"[n]]
    else
      var p := NatToString(n / 10);
      var r := p + ["0123456789"[n % 10]];
      assert r[..|r| - 1] == p;
      r
  }
}
