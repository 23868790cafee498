/** `Bond::bisection_find`: the yield search. The present value as a function of the
    rate is a parameter `pv`; only its order properties are used. */
module Bisection {

  /** The stopping width of the bracket, `1e-9`. */
  const Tolerance: real := 0.000000001

  function Abs(x: real): real {
    if x < 0.0 then -x else x
  }

  function MinReal(a: real, b: real): real {
    if a <= b then a else b
  }

  function MaxReal(a: real, b: real): real {
    if a <= b then b else a
  }

  /** A higher rate gives a strictly lower present value. */
  ghost predicate StrictlyDecreasing(pv: real -> real) {
    forall a, b :: a < b ==> pv(b) < pv(a)
  }

  /** A higher rate never gives a higher present value. */
  ghost predicate NonIncreasing(pv: real -> real) {
    forall a, b :: a <= b ==> pv(b) <= pv(a)
  }

  /** The bracket the search keeps: the target price is below the value at `low` and
      at or above the value at `high`. */
  predicate Brackets(pv: real -> real, price: real, low: real, high: real) {
    price < pv(low) && pv(high) <= price
  }

  /** One halving: when the value at the midpoint is still above the price the yield
      must be higher, so keep [mid, high]; otherwise keep [low, mid]. The new bracket
      lies inside the old one, is half as wide, and still brackets the price. */
  function BisectStep(pv: real -> real, price: real, low: real, high: real): (b: (real, real))
    ensures Abs(b.1 - b.0) == Abs(high - low) / 2.0
    ensures MinReal(low, high) <= MinReal(b.0, b.1) && MaxReal(b.0, b.1) <= MaxReal(low, high)
    ensures low <= high ==> b.0 <= b.1
    ensures Brackets(pv, price, low, high) ==> Brackets(pv, price, b.0, b.1)
  {
    var mid := (high + low) / 2.0;
    if pv(mid) > price then (mid, high) else (low, mid)
  }

  /** Halving a width above the tolerance lowers the number of whole tolerances in it. */
  lemma HalvingShrinks(w: real)
    requires Tolerance < w
    ensures 0 <= ((w / 2.0) / Tolerance).Floor < (w / Tolerance).Floor
  {
    var x := w / Tolerance;
    assert (w / 2.0) / Tolerance == x / 2.0;
    assert 1.0 < x;
    var a := x.Floor;
    assert 1 <= a;
    assert (x / 2.0).Floor as real <= x / 2.0 < (a as real + 1.0) / 2.0;
  }

  /** `bisection_find`: halve the bracket until it is at most `1e-9` wide and return
      its midpoint. The result lies in the starting bracket. For a strictly decreasing
      `pv`, every rate in the bracket at which `pv` meets the price is within half the
      tolerance of the result. */
  function BisectionFind(pv: real -> real, price: real, low: real, high: real): (r: real)
    ensures MinReal(low, high) <= r <= MaxReal(low, high)
    ensures StrictlyDecreasing(pv) && low <= high ==>
              forall x :: low <= x <= high && pv(x) == price ==> Abs(r - x) <= Tolerance / 2.0
    decreases (Abs(high - low) / Tolerance).Floor
  {
    var mid := (high + low) / 2.0;
    if Abs(high - low) > Tolerance then
      var b := BisectStep(pv, price, low, high);
      HalvingShrinks(Abs(high - low));
      BisectionFind(pv, price, b.0, b.1)
    else
      mid
  }

  /** When the price is at or above the value at `low` there is no bracket, and for a
      non-increasing `pv` the search keeps the lower half every time and returns a rate
      within half the tolerance of `low`. */
  lemma {:induction false} NoBracketBelowStaysAtLow(pv: real -> real, price: real, low: real, high: real)
    requires NonIncreasing(pv) && low <= high
    requires pv(low) <= price
    ensures low <= BisectionFind(pv, price, low, high) <= low + Tolerance / 2.0
    decreases (Abs(high - low) / Tolerance).Floor
  {
    if Abs(high - low) > Tolerance {
      var b := BisectStep(pv, price, low, high);
      assert b.0 == low;
      HalvingShrinks(Abs(high - low));
      NoBracketBelowStaysAtLow(pv, price, b.0, b.1);
    }
  }

  /** When the price is below the value at `high` the search keeps the upper half every
      time and returns a rate within half the tolerance of `high`. */
  lemma {:induction false} NoBracketAboveStaysAtHigh(pv: real -> real, price: real, low: real, high: real)
    requires NonIncreasing(pv) && low <= high
    requires price < pv(high)
    ensures high - Tolerance / 2.0 <= BisectionFind(pv, price, low, high) <= high
    decreases (Abs(high - low) / Tolerance).Floor
  {
    if Abs(high - low) > Tolerance {
      var b := BisectStep(pv, price, low, high);
      assert b.1 == high;
      HalvingShrinks(Abs(high - low));
      NoBracketAboveStaysAtHigh(pv, price, b.0, b.1);
    }
  }

  /** `create_yield_to_maturity`: the search over rates 0 to 2 (0% to 200%). */
  function YieldToMaturity(pv: real -> real, price: real): (r: real)
    ensures 0.0 <= r <= 2.0
    ensures StrictlyDecreasing(pv) ==>
              forall x :: 0.0 <= x <= 2.0 && pv(x) == price ==> Abs(r - x) <= Tolerance / 2.0
  {
    BisectionFind(pv, price, 0.0, 2.0)
  }
}
