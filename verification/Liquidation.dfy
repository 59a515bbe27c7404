/** The final arithmetic of the liquidation price. */
module Liquidation {
  import opened Arithmetic

  const QUOTE_PRECISION: int := 1_000_000
  const BASE_PRECISION: int := 1_000_000_000
  const MARGIN_PRECISION: int := 10_000

  /**
    * What one unit of price is worth to the free collateral, per perp position: `base` is the
    * signed position, `worst` the worst-case position with open orders.
    */
  function PerpFreeCollateralDelta(base: int, worst: int, marginRatio: nat): int {
    var ratio := TruncDiv(marginRatio * QUOTE_PRECISION, MARGIN_PRECISION);
    if worst == 0 then 0
    else
      var fcd := if base > 0 then TruncDiv((QUOTE_PRECISION - ratio) * base, BASE_PRECISION)
                 else TruncDiv((-QUOTE_PRECISION - ratio) * Abs(base), BASE_PRECISION);
      var orders := worst - base;
      if orders != 0 then fcd - TruncDiv(ratio * Abs(orders), BASE_PRECISION) else fcd
  }

  function LiquidationPrice(freeCollateral: nat, delta: int, oraclePrice: int): int
    requires freeCollateral != 0 ==> delta != 0
  {
    if freeCollateral == 0 then -1
    else
      var price := oraclePrice - TruncDiv(freeCollateral * QUOTE_PRECISION, delta);
      if price < 0 then -1 else price
  }

  /** Free collateral, scaled, if the price moved from `oraclePrice` to `price`. */
  function ScaledCollateralAt(freeCollateral: nat, delta: int, oraclePrice: int, price: int): int {
    freeCollateral * 1_000_000 + delta * (price - oraclePrice)
  }

  /** What a division toward zero by `d` leaves over of a number with the sign of `sign`. */
  predicate LeftOver(rest: int, sign: int, d: int) {
    && (sign >= 0 ==> 0 <= rest < d)
    && (sign <= 0 ==> -d < rest <= 0)
  }

  /**
    * Without open orders the delta is the position, times one less the margin ratio for a long and minus one less
    * it for a short, in units of 10^-9 and rounded toward zero. The ratio is given in units of 10^-4.
    */
  lemma DeltaSize(base: int, marginRatio: nat)
    ensures var delta := PerpFreeCollateralDelta(base, base, marginRatio);
            var exact := if base > 0 then (1_000_000 - 100 * marginRatio) * base
                         else (-1_000_000 - 100 * marginRatio) * Abs(base);
            LeftOver(exact - delta * 1_000_000_000, exact, 1_000_000_000)
  {
    RatioIs(marginRatio);
    var exact := if base > 0 then (1_000_000 - 100 * marginRatio) * base
                 else (-1_000_000 - 100 * marginRatio) * Abs(base);
    TruncDivRemainder(exact, BASE_PRECISION);
    if base == 0 {
      assert exact == 0;
    }
  }

  lemma RatioIs(marginRatio: nat)
    ensures TruncDiv(marginRatio * QUOTE_PRECISION, MARGIN_PRECISION) == 100 * marginRatio
  {
    assert marginRatio * QUOTE_PRECISION == (100 * marginRatio) * MARGIN_PRECISION;
    TruncDivExact(100 * marginRatio, MARGIN_PRECISION);
  }

  /**
    * Open orders subtract the margin of the amount by which they make the position worse, rounded down; only if
    * the worst case is no position at all is the delta zero.
    */
  lemma OpenOrdersSubtract(base: int, worst: int, marginRatio: nat)
    ensures worst == 0 ==> PerpFreeCollateralDelta(base, worst, marginRatio) == 0
    ensures worst != 0 ==>
              var less := PerpFreeCollateralDelta(base, base, marginRatio)
                          - PerpFreeCollateralDelta(base, worst, marginRatio);
              0 <= 100 * marginRatio * Abs(worst - base) - less * 1_000_000_000 < 1_000_000_000
  {
    RatioIs(marginRatio);
    var more := 100 * marginRatio * Abs(worst - base);
    MulSign(100 * marginRatio, Abs(worst - base));
    TruncDivRemainder(more, BASE_PRECISION);
    if base == 0 {
      assert (-QUOTE_PRECISION - 100 * marginRatio) * Abs(base) == 0;
    }
  }

  /** The sign of the delta follows the side of the position. */
  lemma DeltaFollowsSide(base: int, marginRatio: nat)
    requires marginRatio <= MARGIN_PRECISION
    ensures base > 0 ==> PerpFreeCollateralDelta(base, base, marginRatio) >= 0
    ensures base < 0 ==> PerpFreeCollateralDelta(base, base, marginRatio) <= 0
    ensures base == 0 ==> PerpFreeCollateralDelta(base, base, marginRatio) == 0
  {
    var ratio := TruncDiv(marginRatio * QUOTE_PRECISION, MARGIN_PRECISION);
    assert 0 <= ratio <= QUOTE_PRECISION;
    MulSign(QUOTE_PRECISION - ratio, Abs(base));
    MulSign(QUOTE_PRECISION + ratio, Abs(base));
    NegateProduct(QUOTE_PRECISION + ratio, Abs(base));
    if base > 0 {
      TruncDivSign((QUOTE_PRECISION - ratio) * base, BASE_PRECISION);
    } else if base < 0 {
      TruncDivSign((-QUOTE_PRECISION - ratio) * Abs(base), BASE_PRECISION);
    }
  }

  lemma MulSign(a: int, b: int)
    requires a >= 0 && b >= 0
    ensures a * b >= 0
  {}

  lemma TruncDivSign(a: int, b: int)
    requires b > 0
    ensures a >= 0 ==> TruncDiv(a, b) >= 0
    ensures a <= 0 ==> TruncDiv(a, b) <= 0
  {
    QuotientSign(Abs(a), b);
  }

  lemma QuotientSign(a: nat, b: int)
    requires b > 0
    ensures a / b >= 0
  {}

  /**
    * The threshold property: the returned price is the last one, moving against the position,
    * at which the free collateral is still not negative.
    */
  lemma PriceIsThreshold(freeCollateral: nat, delta: int, oraclePrice: int, q: int)
    requires freeCollateral != 0 && delta != 0 && LiquidationPrice(freeCollateral, delta, oraclePrice) != -1
    ensures var p := LiquidationPrice(freeCollateral, delta, oraclePrice);
            ScaledCollateralAt(freeCollateral, delta, oraclePrice, q) >= 0 <==> if delta > 0 then q >= p else q <= p
  {
    var p := LiquidationPrice(freeCollateral, delta, oraclePrice);
    ResidualIsSmall(freeCollateral, delta, oraclePrice);
    var rest := ScaledCollateralAt(freeCollateral, delta, oraclePrice, p);
    assert ScaledCollateralAt(freeCollateral, delta, oraclePrice, q) == rest + delta * (q - p) by {
      Distribute(delta, q - p, p - oraclePrice);
    }
    StepSign(delta, q - p, rest);
  }

  lemma Distribute(d: int, x: int, y: int)
    ensures d * (x + y) == d * x + d * y
  {}

  lemma StepSign(delta: int, k: int, rest: int)
    requires delta != 0 && 0 <= rest < Abs(delta)
    ensures rest + delta * k >= 0 <==> if delta > 0 then k >= 0 else k <= 0
  {
    if delta > 0 {
      if k >= 0 {
        MulSign(delta, k);
      } else {
        MulSign(delta, -1 - k);
        Distribute(delta, -1 - k, 1 + k);
        Distribute(delta, -1, -k);
      }
    } else {
      if k <= 0 { MulSign(-delta, -k); } else { MulSign(-delta, k - 1); Distribute(delta, k - 1, 1); }
    }
  }

  /** At the returned price the scaled free collateral is below one price step, and never negative. */
  lemma ResidualIsSmall(freeCollateral: nat, delta: int, oraclePrice: int)
    requires freeCollateral != 0 && delta != 0 && LiquidationPrice(freeCollateral, delta, oraclePrice) != -1
    ensures var p := LiquidationPrice(freeCollateral, delta, oraclePrice);
            0 <= ScaledCollateralAt(freeCollateral, delta, oraclePrice, p) < Abs(delta)
  {
    var a := freeCollateral * QUOTE_PRECISION;
    TruncDivRemainder(a, delta);
    var q := TruncDiv(a, delta);
    assert delta * (-q) == -(q * delta) by { NegateProduct(q, delta); }
  }

  /** A long is liquidated at or below the oracle price, a short at or above it. */
  lemma PriceSide(freeCollateral: nat, delta: int, oraclePrice: int)
    requires freeCollateral != 0 ==> delta != 0
    ensures var p := LiquidationPrice(freeCollateral, delta, oraclePrice);
            p == -1 || (if delta > 0 then p <= oraclePrice else p >= oraclePrice)
  {
    if freeCollateral != 0 {
      SignedQuotient(freeCollateral * QUOTE_PRECISION, delta);
    }
  }

  lemma SignedQuotient(a: nat, b: int)
    requires b != 0
    ensures if b > 0 then TruncDiv(a, b) >= 0 else TruncDiv(a, b) <= 0
  {
    QuotientSign(a, Abs(b));
  }

  /** For a perp position without open orders that side is the position's own. */
  lemma PerpPriceSide(freeCollateral: nat, base: int, marginRatio: nat, oraclePrice: int)
    requires marginRatio <= MARGIN_PRECISION && base != 0
    requires var delta := PerpFreeCollateralDelta(base, base, marginRatio); delta != 0
    ensures var p := LiquidationPrice(freeCollateral, PerpFreeCollateralDelta(base, base, marginRatio), oraclePrice);
            p == -1 || (if base > 0 then p <= oraclePrice else p >= oraclePrice)
  {
    DeltaFollowsSide(base, marginRatio);
    PriceSide(freeCollateral, PerpFreeCollateralDelta(base, base, marginRatio), oraclePrice);
  }

  /** More free collateral moves the price away from the oracle; for a long it may move it out of range, to -1. */
  lemma PriceIsMonotone(less: nat, more: nat, delta: int, oraclePrice: int)
    requires 0 < less <= more && delta != 0
    ensures var p, q := LiquidationPrice(less, delta, oraclePrice), LiquidationPrice(more, delta, oraclePrice);
            if delta > 0 then q <= p else q >= p
  {
    QuotientIsMonotone(less * QUOTE_PRECISION, more * QUOTE_PRECISION, Abs(delta));
  }

  lemma QuotientIsMonotone(a: nat, b: nat, d: int)
    requires a <= b && d > 0
    ensures a / d <= b / d
  {
    EuclidStep(a, d);
    EuclidStep(b, d);
    if a / d > b / d {
      MulMono(b / d + 1, a / d, d);
      Distribute(d, b / d, 1);
    }
  }

  /**
    * -1 means that there is no price to be liquidated at: either nothing is free already, or the free
    * collateral would still not be negative at a price below zero. The second never happens to a short.
    */
  lemma NoPriceIff(freeCollateral: nat, delta: int, oraclePrice: nat)
    requires freeCollateral != 0 ==> delta != 0
    ensures LiquidationPrice(freeCollateral, delta, oraclePrice) == -1 <==>
            || freeCollateral == 0
            || (delta > 0 && ScaledCollateralAt(freeCollateral, delta, oraclePrice, -1) >= 0)
  {
    if freeCollateral != 0 {
      var a := freeCollateral * QUOTE_PRECISION;
      var q := TruncDiv(a, delta);
      SignedQuotient(a, delta);
      if delta > 0 {
        TruncDivRemainder(a, delta);
        var rest := a - q * delta;
        assert a + delta * (-1 - oraclePrice) == rest + delta * (q - 1 - oraclePrice) by {
          Distribute(delta, q, -1 - oraclePrice);
        }
        StepSign(delta, q - 1 - oraclePrice, rest);
      }
    }
  }
}
