/**
 * The JavaScript values the front-end helpers handle: numbers with NaN and
 * the two infinities, `undefined`, `null`, booleans and strings, and objects
 * as string-keyed maps. Finite numbers are exact reals (no rounding, no
 * signed zero). The text-to-number conversion of `Number(s)` is the
 * parameter `parseNumber`.
 */
module JsValues {
  import opened Sorting

  datatype JsNum = NaN | NegInfinity | PosInfinity | Finite(r: real)

  datatype JsValue = Undefined | Null | Bool(b: bool) | Num(n: JsNum) | Str(s: string)

  /** A plain object; a missing property reads as `undefined`. */
  type JsObject = map<string, JsValue>

  function Get(o: JsObject, key: string): JsValue
  {
    if key in o then o[key] else Undefined
  }

  predicate IsNaN(n: JsNum)
  {
    n == NaN
  }

  /** Truthiness of a number: NaN and zero are falsy. */
  predicate NumTruthy(n: JsNum)
  {
    match n
    case NaN => false
    case Finite(x) => x != 0.0
    case _ => true
  }

  /** Truthiness: `undefined`, `null`, `false`, NaN, 0 and "" are falsy. */
  predicate Truthy(v: JsValue)
  {
    match v
    case Undefined => false
    case Null => false
    case Bool(b) => b
    case Num(n) => NumTruthy(n)
    case Str(s) => s != ""
  }

  /** `a || b`. */
  function Or(a: JsValue, b: JsValue): JsValue
  {
    if Truthy(a) then a else b
  }

  /** `Number(v)`. */
  function ToNumber(v: JsValue, parseNumber: string -> JsNum): JsNum
  {
    match v
    case Undefined => NaN
    case Null => Finite(0.0)
    case Bool(b) => Finite(if b then 1.0 else 0.0)
    case Num(n) => n
    case Str(s) => parseNumber(s)
  }

  /** The global `isNaN(v)`, which converts its argument first. */
  predicate ValueIsNaN(v: JsValue, parseNumber: string -> JsNum)
  {
    IsNaN(ToNumber(v, parseNumber))
  }

  /** IEEE division `a / b`, taking every zero to be +0. */
  function Div(a: JsNum, b: JsNum): (q: JsNum)
    ensures a.Finite? && b.Finite? && b.r != 0.0 ==> q == Finite(a.r / b.r)
    ensures a.NaN? || b.NaN? ==> q.NaN?
  {
    match (a, b)
    case (NaN, _) => NaN
    case (_, NaN) => NaN
    case (Finite(x), Finite(y)) =>
      if y != 0.0 then Finite(x / y)
      else if x == 0.0 then NaN
      else if x > 0.0 then PosInfinity
      else NegInfinity
    case (Finite(_), _) => Finite(0.0)
    case (_, Finite(y)) =>
      var s := (if a.PosInfinity? then 1 else -1) * (if y < 0.0 then -1 else 1);
      if s > 0 then PosInfinity else NegInfinity
    case _ => NaN
  }

  /** `Math.round(n)`: the nearest integer, halves rounded up. */
  function Round(n: JsNum): (m: JsNum)
    ensures n.Finite? <==> m.Finite?
    ensures !n.Finite? ==> m == n
    ensures n.Finite? ==> m.r == m.r.Floor as real && n.r - 0.5 < m.r <= n.r + 0.5
  {
    match n
    case Finite(x) => Finite((x + 0.5).Floor as real)
    case _ => n
  }

  /**
   * The relational comparison of two numbers seen as extended reals: NaN is
   * not ordered, and the helpers that sort replace it by minus infinity.
   */
  function NaNAsNegInf(n: JsNum): ExtReal
  {
    match n
    case NaN => NegInf
    case NegInfinity => NegInf
    case PosInfinity => PosInf
    case Finite(x) => Fin(x)
  }
}
