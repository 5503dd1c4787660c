/**
 * JSON values as a decoded JWT payload holds them, and JavaScript's ToString
 * (what a template literal `${v}` and Array.prototype.join apply). Numbers are
 * integers here.
 */
module JsValue {
  import opened Strings

  datatype Json = Undefined | Null | Bool(b: bool) | Num(n: int) | Str(s: string) | Arr(items: seq<Json>) | Obj

  /** The values JavaScript treats as false in `||` and `?:`. */
  predicate Truthy(v: Json)
  {
    match v
    case Undefined => false
    case Null => false
    case Bool(b) => b
    case Num(n) => n != 0
    case Str(s) => s != ""
    case Arr(_) => true
    case Obj => true
  }

  function DigitChar(d: nat): (c: char)
    requires d < 10
    ensures '0' <= c <= '9'
  {
    ('0' as int + d) as char
  }

  function NatText(n: nat): (r: string)
    ensures |r| >= 1
    ensures forall i :: 0 <= i < |r| ==> '0' <= r[i] <= '9'
  {
    if n < 10 then [DigitChar(n)] else NatText(n / 10) + [DigitChar(n % 10)]
  }

  /** The decimal text of an integer. */
  function IntText(n: int): string
  {
    if n < 0 then "-" + NatText(-n) else NatText(n)
  }

  /**
   * JavaScript ToString. A string is its own text, and only a string or an
   * array (whose elements may all be empty) can give the empty text.
   */
  function ToText(v: Json): (r: string)
    ensures v.Str? ==> r == v.s
    ensures r == "" ==> v.Str? || v.Arr?
    ensures v.Obj? ==> r == "[object Object]"
    decreases v, 1
  {
    match v
    case Undefined => "undefined"
    case Null => "null"
    case Bool(b) => if b then "true" else "false"
    case Num(n) => IntText(n)
    case Str(s) => s
    case Arr(items) => Join(ElementTexts(items), ",")
    case Obj => "[object Object]"
  }

  /** What `join` writes for each element: nothing for null and undefined. */
  function ElementTexts(items: seq<Json>): (r: seq<string>)
    ensures |r| == |items|
    decreases items, 0
  {
    if |items| == 0 then []
    else [if items[0].Null? || items[0].Undefined? then "" else ToText(items[0])] + ElementTexts(items[1..])
  }

  /** `${v || d}`: the text of `v`, or `d` when `v` is falsy. */
  function TextOr(v: Json, d: string): (r: string)
    ensures !Truthy(v) ==> r == d
    ensures v.Str? && v.s != "" ==> r == v.s
  {
    if Truthy(v) then ToText(v) else d
  }

  /** `items.map((p) => `${p}`)`. */
  function Texts(items: seq<Json>): (r: seq<string>)
    ensures |r| == |items|
    ensures forall i :: 0 <= i < |items| ==> r[i] == ToText(items[i])
  {
    seq(|items|, i requires 0 <= i < |items| => ToText(items[i]))
  }
}
