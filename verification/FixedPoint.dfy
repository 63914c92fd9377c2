/** Exact rounding division, as promised by `Math.mulDiv` and `Math.mulDivRoundingUp`. */
module FixedPoint {

  const MAX_UINT128: nat := 0xFFFF_FFFF_FFFF_FFFF_FFFF_FFFF_FFFF_FFFF

  /** The largest `q` with `q * d <= a * b`. */
  function MulDiv(a: nat, b: nat, d: nat): (q: nat)
    requires d > 0
    ensures q * d <= a * b < q * d + d
  {
    a * b / d
  }

  /** The smallest `q` with `a * b <= q * d`. */
  function MulDivUp(a: nat, b: nat, d: nat): (q: nat)
    requires d > 0
    ensures q * d - d < a * b <= q * d
  {
    var q := a * b / d;
    if a * b % d > 0 then q + 1 else q
  }

  function Min(a: nat, b: nat): nat {
    if a <= b then a else b
  }

  lemma MulLe(x: int, y: int, k: nat)
    requires x <= y
    ensures x * k <= y * k
  {
  }

  lemma Cancel(x: int, y: int, k: nat)
    requires k > 0 && x * k <= y * k
    ensures x <= y
  {
    if x > y {
      MulLe(y + 1, x, k);
    }
  }

  lemma CancelLess(x: int, y: int, k: nat)
    requires x * k < y * k
    ensures x < y
  {
    if x >= y {
      MulLe(y, x, k);
    }
  }

  function Pow(b: nat, k: nat): nat {
    if k == 0 then 1 else b * Pow(b, k - 1)
  }
}
