/**
 * The JavaScript values the code inspects: what `JSON.parse` can return, the
 * rows a query returns, and the conversions (`String(v)`, truthiness,
 * property access) the code applies to them. Numbers are integers here.
 */
module Js {
  import opened Wrappers
  import opened Text

  /** A property: key and value. An object is its list of properties in
      `Object.keys` order. */
  datatype Field = Field(key: string, value: JsValue)

  datatype JsValue =
    | Undefined
    | Null
    | Bool(b: bool)
    | Num(n: int)
    | Str(s: string)
    | Arr(elems: seq<JsValue>)
    | Obj(fields: seq<Field>)

  /** A result row: an object whose keys are listed in `Object.keys` order. */
  type Row = seq<Field>

  /** JavaScript truthiness: `undefined`, `null`, `false`, `0` and `""` are falsy. */
  predicate Truthy(v: JsValue) {
    match v
    case Undefined => false
    case Null => false
    case Bool(b) => b
    case Num(n) => n != 0
    case Str(s) => s != ""
    case Arr(_) => true
    case Obj(_) => true
  }

  /** `Object.keys(row)`. */
  function Keys(row: Row): (ks: seq<string>)
    ensures |ks| == |row|
    ensures forall i :: 0 <= i < |row| ==> ks[i] == row[i].key
  {
    seq(|row|, i requires 0 <= i < |row| => row[i].key)
  }

  /** `row[key]`: the value of the first property named `key`, or `undefined`. */
  function Get(row: Row, key: string): (v: JsValue)
    ensures key !in Keys(row) ==> v == Undefined
    ensures |row| > 0 && row[0].key == key ==> v == row[0].value
    decreases |row|
  {
    if |row| == 0 then Undefined
    else if row[0].key == key then row[0].value
    else Get(row[1..], key)
  }

  lemma {:induction false} GetFound(row: Row, i: nat)
    requires i < |row|
    requires forall j :: 0 <= j < i ==> row[j].key != row[i].key
    ensures Get(row, row[i].key) == row[i].value
    decreases i
  {
    if i > 0 {
      GetFound(row[1..], i - 1);
    }
  }

  /** `value.prop`: on `null` or `undefined` it throws a TypeError (`None`);
      non-objects have none of the properties the code reads. */
  function Prop(v: JsValue, key: string): (r: Option<JsValue>)
    ensures r.None? <==> v.Null? || v.Undefined?
    ensures v.Obj? ==> r == Some(Get(v.fields, key))
    ensures !v.Obj? && !v.Null? && !v.Undefined? ==> r == Some(Undefined)
  {
    match v
    case Null => None
    case Undefined => None
    case Obj(fields) => Some(Get(fields, key))
    case _ => Some(Undefined)
  }

  function DigitChar(d: nat): (c: char)
    requires d < 10
    ensures '0' <= c <= '9'
  {
    ('0' as int + d) as char
  }

  function NatToString(n: nat): (s: string)
    ensures |s| > 0
    ensures forall i :: 0 <= i < |s| ==> '0' <= s[i] <= '9'
    ensures n < 10 <==> |s| == 1
    decreases n
  {
    if n < 10 then [DigitChar(n)] else NatToString(n / 10) + [DigitChar(n % 10)]
  }

  /** The value of a string of decimal digits. */
  function DigitsValue(s: string): nat
    requires forall i :: 0 <= i < |s| ==> '0' <= s[i] <= '9'
    decreases |s|
  {
    if s == [] then 0 else DigitsValue(s[..|s| - 1]) * 10 + (s[|s| - 1] as int - '0' as int)
  }

  /** Decimal rendering is exact: reading the digits back gives the number, and
      no number other than zero is rendered with a leading zero. */
  lemma {:induction false} NatToStringRoundTrip(n: nat)
    ensures DigitsValue(NatToString(n)) == n
    ensures |NatToString(n)| > 1 ==> NatToString(n)[0] != '0'
    decreases n
  {
    if n >= 10 {
      NatToStringRoundTrip(n / 10);
      var s := NatToString(n);
      assert s[..|s| - 1] == NatToString(n / 10);
      assert s[0] == NatToString(n / 10)[0];
    }
  }

  /** `String(n)` for an integer. */
  function IntToString(n: int): string {
    if n < 0 then "-" + NatToString(-n) else NatToString(n)
  }

  /** `String(v)`: arrays render as their elements joined by "," with `null`
      and `undefined` elements empty; plain objects as "[object Object]". */
  function ToJsString(v: JsValue): string
    decreases v, 1
  {
    match v
    case Undefined => "undefined"
    case Null => "null"
    case Bool(b) => if b then "true" else "false"
    case Num(n) => IntToString(n)
    case Str(s) => s
    case Arr(elems) => Join(seq(|elems|, i requires 0 <= i < |elems| => JoinText(elems[i])), ",")
    case Obj(_) => "[object Object]"
  }

  /** How `Array.prototype.join` renders one element: `null` and `undefined` as "". */
  function JoinText(v: JsValue): (r: string)
    decreases v, 2
    ensures v.Undefined? || v.Null? ==> r == ""
    ensures v.Str? ==> r == v.s
  {
    if v.Undefined? || v.Null? then "" else ToJsString(v)
  }
}
