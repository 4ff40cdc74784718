/** The number helpers `safeNumber` and `safePriceSqft` of frontend/src/components/ListingDetailModal.jsx. */
module DetailModal {
  import opened JsValues

  /** `safeNumber(val)`: `Number(val)`, or 0 when that is NaN. */
  function SafeNumber(v: JsValue, parseNumber: string -> JsNum): (n: JsNum)
    ensures !IsNaN(n)
    ensures !ValueIsNaN(v, parseNumber) ==> n == ToNumber(v, parseNumber)
    ensures ValueIsNaN(v, parseNumber) ==> n == Finite(0.0)
  {
    var num := ToNumber(v, parseNumber);
    if IsNaN(num) then Finite(0.0) else num
  }

  /** `safePriceSqft(price, sqft)`: 0 unless both convert to non-zero numbers, else the rounded quotient. */
  function SafePriceSqft(price: JsValue, sqft: JsValue, parseNumber: string -> JsNum): (n: JsNum)
  {
    var p := ToNumber(price, parseNumber);
    var s := ToNumber(sqft, parseNumber);
    if !NumTruthy(p) || !NumTruthy(s) then Finite(0.0)
    else Round(Div(p, s))
  }

  /** A price or area that converts to 0 or NaN gives 0: the helper never divides by zero. */
  lemma SafePriceSqftZeroCases(price: JsValue, sqft: JsValue, parseNumber: string -> JsNum)
    ensures var p, s := ToNumber(price, parseNumber), ToNumber(sqft, parseNumber);
      (p == NaN || p == Finite(0.0) || s == NaN || s == Finite(0.0)) ==> SafePriceSqft(price, sqft, parseNumber) == Finite(0.0)
  {
  }

  /**
   * With a finite non-zero price and area the result is the integer nearest
   * to their quotient, halves rounded up.
   */
  lemma SafePriceSqftRounds(price: JsValue, sqft: JsValue, parseNumber: string -> JsNum)
    requires ToNumber(price, parseNumber).Finite? && ToNumber(price, parseNumber).r != 0.0
    requires ToNumber(sqft, parseNumber).Finite? && ToNumber(sqft, parseNumber).r != 0.0
    ensures var q := ToNumber(price, parseNumber).r / ToNumber(sqft, parseNumber).r;
      var n := SafePriceSqft(price, sqft, parseNumber);
      && n.Finite?
      && n.r == n.r.Floor as real
      && q - 0.5 < n.r <= q + 0.5
  {
  }

  /** The result is NaN only when price and area both convert to infinities. */
  lemma SafePriceSqftNaNOnlyForInfinities(price: JsValue, sqft: JsValue, parseNumber: string -> JsNum)
    ensures var p, s := ToNumber(price, parseNumber), ToNumber(sqft, parseNumber);
      IsNaN(SafePriceSqft(price, sqft, parseNumber)) <==>
        (p.PosInfinity? || p.NegInfinity?) && (s.PosInfinity? || s.NegInfinity?)
  {
  }
}
