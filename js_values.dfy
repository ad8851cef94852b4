/** The JavaScript values that travel through the webhook handler, the
    broadcast messages and the browser scripts, and the few language
    operations applied to them: property access, truthiness and the
    conversions to string used by template literals, `setAttribute` and
    `textContent`. Numbers are modelled as integers; arrays are not modelled. */
module JsValues {

  datatype Option<T> = None | Some(value: T)

  /** A completed JavaScript computation: a value, or an exception with its message. */
  datatype Result<T> = Ok(value: T) | Thrown(message: string)

  datatype Value =
    | Undefined
    | Null
    | Bool(b: bool)
    | Num(n: int)
    | Str(s: string)
    | Obj(fields: map<string, Value>)

  predicate Nullish(v: Value) {
    v.Undefined? || v.Null?
  }

  /** `key in o ? o[key] : undefined` on a plain object. */
  function Property(o: map<string, Value>, key: string): (r: Value)
    ensures key !in o ==> r == Undefined
    ensures key in o ==> r == o[key]
  {
    if key in o then o[key] else Undefined
  }

  /** `v.key`: a TypeError on `undefined` and `null`; on any other primitive
      the keys read in this system are not defined, so the result is `undefined`. */
  function Member(v: Value, key: string): (r: Option<Value>)
    ensures r.None? <==> Nullish(v)
    ensures v.Obj? ==> r == Some(Property(v.fields, key))
    ensures !Nullish(v) && !v.Obj? ==> r == Some(Undefined)
  {
    match v
    case Undefined => None
    case Null => None
    case Obj(fields) => Some(Property(fields, key))
    case _ => Some(Undefined)
  }

  /** JavaScript truthiness (`if (v)`, `v ? a : b`, `v || d`). */
  predicate Truthy(v: Value) {
    match v
    case Undefined => false
    case Null => false
    case Bool(b) => b
    case Num(n) => n != 0
    case Str(s) => s != ""
    case Obj(_) => true
  }

  function Digit(d: nat): (c: char)
    requires d < 10
    ensures '0' <= c <= '9'
  {
    "0123456789"[d]
  }

  /** The decimal numeral of `n`, without leading zeros. */
  function NatToDecimal(n: nat): (s: string)
    ensures |s| >= 1
    ensures forall i :: 0 <= i < |s| ==> '0' <= s[i] <= '9'
    decreases n
  {
    if n < 10 then [Digit(n)] else NatToDecimal(n / 10) + [Digit(n % 10)]
  }

  /** `String(v)`, the conversion done by template literals, `String.prototype.includes`
      and `setAttribute`. */
  function ToString(v: Value): string {
    match v
    case Undefined => "undefined"
    case Null => "null"
    case Bool(b) => if b then "true" else "false"
    case Num(n) => if n < 0 then "-" + NatToDecimal(-n) else NatToDecimal(n)
    case Str(s) => s
    case Obj(_) => "[object Object]"
  }

  /** What an element's text becomes after `element.textContent = v`: the
      attribute is a nullable DOMString, so `undefined` and `null` clear it. */
  function TextContent(v: Value): (t: string)
    ensures Nullish(v) ==> t == ""
    ensures v.Str? ==> t == v.s
  {
    if Nullish(v) then "" else ToString(v)
  }
}
