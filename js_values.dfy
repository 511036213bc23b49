/**
 * The JavaScript values that the intake form holds, their truthiness, and
 * the numeric conversions the form applies to them.
 */
module JsValues {
  import opened Wrappers

  /**
   * A form-field value. Typed fields hold strings, checkboxes hold booleans,
   * and a voice merge may store the integers 0 and 1 that the text parser
   * returns for its flags. `Undefined` is what reading an absent key gives.
   */
  datatype Value = Undefined | Str(s: string) | Bool(b: bool) | Num(n: int)

  /** JavaScript truthiness of a form value. */
  predicate Truthy(v: Value) {
    match v
    case Undefined => false
    case Str(s) => s != ""
    case Bool(b) => b
    case Num(n) => n != 0
  }

  /** A form record: the JavaScript object held in the form state, keyed by field name. */
  type Record = map<string, Value>

  /** Property read: an absent key reads as `undefined`. */
  function Get(r: Record, key: string): Value {
    if key in r then r[key] else Undefined
  }

  /** A JavaScript number: not-a-number, or a finite value (infinities are not modelled). */
  datatype JsNumber = NaN | Finite(value: real)

  /**
   * The two numeric primitives the form uses, kept abstract: `Number(string)`
   * and `toFixed(2)`.
   */
  datatype Numerics = Numerics(parse: string -> JsNumber, toFixed2: JsNumber -> string)

  /** `Number(v)` */
  function ToNumber(v: Value, js: Numerics): JsNumber {
    match v
    case Undefined => NaN
    case Str(s) => js.parse(s)
    case Bool(b) => Finite(if b then 1.0 else 0.0)
    case Num(n) => Finite(n as real)
  }

  /** `x / (h * h)` for a positive finite `h`, over the reals. */
  function DivideBySquare(x: JsNumber, h: real): (r: JsNumber)
    requires h > 0.0
    ensures r.NaN? <==> x.NaN?
    ensures r.Finite? ==> r.value * (h * h) == x.value
  {
    match x
    case NaN => NaN
    case Finite(v) =>
      SquarePositive(h);
      Finite(v / (h * h))
  }

  lemma SquarePositive(h: real)
    requires h > 0.0
    ensures h * h > 0.0
  {
  }

  /** The conditional `v ? 1 : 0`. */
  function Bit(v: Value): (n: JsNumber)
    ensures n == Finite(1.0) <==> Truthy(v)
    ensures n == Finite(0.0) <==> !Truthy(v)
  {
    if Truthy(v) then Finite(1.0) else Finite(0.0)
  }
}
