/**
 * JavaScript `number` values as far as the dashboard uses them: finite
 * values (kept exact, as reals), `NaN` and the two infinities.
 */
module Numbers {
  import opened Strings

  datatype JsNumber = Finite(value: real) | NaN | Infinity | NegInfinity

  /** `x > 0` on a JavaScript number (`NaN` compares false). */
  predicate IsPositive(x: JsNumber) {
    (x.Finite? && x.value > 0.0) || x.Infinity?
  }

  /** `x * k` for a positive finite factor `k` (rounding is not modelled). */
  function Scale(x: JsNumber, k: real): (y: JsNumber)
    requires k > 0.0
    ensures y.Finite? <==> x.Finite?
    ensures y.NaN? <==> x.NaN?
    ensures x.Finite? ==> y.value == x.value * k
    ensures IsPositive(y) <==> IsPositive(x)
  {
    match x
    case Finite(v) => Finite(v * k)
    case _ => x
  }

  /**
   * `String(Math.floor(x))`: the decimal rendering of the floor of a
   * finite value, and "NaN", "Infinity" or "-Infinity" otherwise.
   */
  function FlooredString(x: JsNumber): (s: string)
    ensures IsIntLiteral(s) <==> x.Finite?
    ensures x.Finite? ==> ParseInt(s) == x.value.Floor
  {
    match x
    case Finite(v) => IntToDecimalRoundTrip(v.Floor); IntToDecimal(v.Floor)
    case NaN => "NaN"
    case Infinity => "Infinity"
    case NegInfinity => assert !IsDigit("-Infinity"[1]); "-Infinity"
  }
}
