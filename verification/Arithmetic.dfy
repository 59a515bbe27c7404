/** Integer division as the source's language defines it. */
module Arithmetic {

  function Min(a: int, b: int): int {
    if a <= b then a else b
  }

  function Abs(a: int): int {
    if a >= 0 then a else -a
  }

  /** Division that truncates toward zero. */
  function TruncDiv(a: int, b: int): int
    requires b != 0
  {
    if (a >= 0) == (b > 0) then Abs(a) / Abs(b) else -(Abs(a) / Abs(b))
  }

  /** Quotient and remainder: the remainder has the dividend's sign and is smaller than the divisor. */
  lemma TruncDivRemainder(a: int, b: int)
    requires b != 0
    ensures a >= 0 ==> 0 <= a - TruncDiv(a, b) * b < Abs(b)
    ensures a <= 0 ==> -Abs(b) < a - TruncDiv(a, b) * b <= 0
  {
    EuclidStep(Abs(a), Abs(b));
    var q := Abs(a) / Abs(b);
    if a >= 0 && b < 0 {
      NegateProduct(q, -b);
    } else if a < 0 && b > 0 {
      NegateProduct(q, b);
    }
  }

  lemma EuclidStep(a: nat, b: int)
    requires b > 0
    ensures 0 <= a - (a / b) * b < b
  {
    assert a == a / b * b + a % b;
  }

  lemma NegateProduct(q: int, b: int)
    ensures (-q) * b == -(q * b) == q * (-b)
  {}

  lemma TruncDivExact(a: int, d: int)
    requires d > 0
    ensures TruncDiv(a * d, d) == a
  {
    var q := TruncDiv(a * d, d);
    TruncDivRemainder(a * d, d);
    assert (a - q) * d == a * d - q * d;
    SmallMultiple(a - q, d);
  }

  lemma SmallMultiple(k: int, d: int)
    requires d > 0 && -d < k * d < d
    ensures k == 0
  {
    if k >= 1 {
      MulMono(1, k, d);
    } else if k <= -1 {
      MulMono(k, -1, d);
    }
  }

  lemma MulMono(a: int, b: int, d: int)
    requires a <= b && d >= 0
    ensures a * d <= b * d
  {}
}
