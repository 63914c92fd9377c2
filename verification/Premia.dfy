/** Premium per unit of liquidity: what sellers of a chunk earn and what its buyers owe, for fees collected. */
module Premia {
  import opened FixedPoint

  const Q64: nat := 0x1_0000_0000_0000_0000

  function Capped(x: nat): nat {
    if x > MAX_UINT128 then MAX_UINT128 else x
  }

  /** `net` stays in the AMM, `removed` was bought out of it; 1 / `vegoid` scales the spread. */
  datatype Chunk = Chunk(net: nat, removed: nat, vegoid: nat) {
    predicate Live() {
      net > 0 && vegoid > 0
    }

    function Liquidity(): nat {
      net + removed
    }
  }

  function PremiumBase(c: Chunk, collected: nat): nat
    requires c.Live()
  {
    MulDiv(collected, c.Liquidity() * Q64, c.net * c.net)
  }

  /** Before capping. */
  function OwedPerLiquidity(c: Chunk, collected: nat): nat
    requires c.Live()
  {
    MulDiv(PremiumBase(c, collected), c.net + c.removed / c.vegoid, c.Liquidity())
  }

  function GrossPerLiquidity(c: Chunk, collected: nat): nat
    requires c.Live()
  {
    var total := c.Liquidity();
    var spread := c.removed * c.removed / c.vegoid;
    MulDiv(PremiumBase(c, collected), SquareLess(total, c.removed) + spread, total * total)
  }

  /** total^2 - total * removed, never negative. */
  function SquareLess(total: nat, removed: nat): (r: nat)
    requires removed <= total
    ensures r == total * (total - removed)
  {
    total * (total - removed)
  }

  /** `_getPremiaDeltas` for one token: the owed and the gross premium to add. */
  function PremiaDeltas(c: Chunk, collected: nat): (nat, nat)
    requires c.Live()
  {
    (Capped(OwedPerLiquidity(c, collected)), Capped(GrossPerLiquidity(c, collected)))
  }

  // ---------- gross is net plus owed ----------

  /** The spread rounded before or after multiplying by the removed liquidity. */
  lemma SpreadRounding(removed: nat, vegoid: nat)
    requires vegoid > 0
    ensures removed * (removed / vegoid) <= removed * removed / vegoid
    ensures removed * removed / vegoid <= removed * (removed / vegoid) + removed
  {
    var q, r := removed / vegoid, removed % vegoid;
    var whole := removed * removed / vegoid;
    assert removed == q * vegoid + r;
    assert removed * removed == removed * q * vegoid + removed * r;
    assert (whole + 1) * vegoid == whole * vegoid + vegoid;
    CancelLess(removed * q, whole + 1, vegoid);
    MulLe(r, vegoid, removed);
    assert (removed * q + removed) * vegoid == removed * q * vegoid + removed * vegoid;
    Cancel(whole, removed * q + removed, vegoid);
  }

  /** Bounds of the three floors, with n net, r removed, t = n + r, c collected, q the fixed-point unit,
      b the base, f and g the two roundings of the spread, o owed and w gross per liquidity. */
  ghost predicate Floors(n: nat, r: nat, t: nat, c: nat, q: nat, b: nat, f: nat, g: nat, o: nat, w: nat) {
    && n > 0 && t == n + r
    && b * (n * n) <= c * (t * q) < b * (n * n) + n * n
    && o * t <= b * (n + f) < o * t + t
    && w * (t * t) <= b * (t * n + g) < w * (t * t) + t * t
    && r * f <= g <= r * f + r
  }

  lemma Spread(b: int, x: int, y: int, k: int)
    ensures b * (x + y) * k == b * x * k + b * y * k
  {
    assert b * (x + y) == b * x + b * y;
  }

  /** The owed premium of all removed liquidity, times t. */
  lemma OwedTimesTotal(n: nat, r: nat, t: nat, b: nat, f: nat, o: nat)
    requires o * t <= b * (n + f) < o * t + t
    ensures b * n * r + b * f * r - t * r <= o * r * t <= b * n * r + b * f * r
  {
    MulLe(o * t, b * (n + f), r);
    MulLe(b * (n + f), o * t + t, r);
    Spread(b, n, f, r);
    assert o * t * r == o * r * t;
    assert (o * t + t) * r == o * t * r + t * r;
  }

  /** The gross premium of all liquidity, times t. */
  lemma GrossTimesTotal(n: nat, r: nat, t: nat, b: nat, g: nat, w: nat)
    requires t == n + r && w * (t * t) <= b * (t * n + g) < w * (t * t) + t * t
    ensures w * t * t <= b * n * n + b * n * r + b * g < w * t * t + t * t
  {
    assert w * (t * t) == w * t * t;
    Expand(n, r, t * n, b, g);
  }

  lemma Expand(n: nat, r: nat, tn: nat, b: nat, g: nat)
    requires tn == (n + r) * n
    ensures b * (tn + g) == b * n * n + b * n * r + b * g
  {
    assert tn == n * n + r * n;
    Distribute(b, n * n + r * n, g);
    Distribute(b, n * n, r * n);
    assert b * (n * n) == b * n * n;
    assert b * (r * n) == b * n * r;
  }

  lemma Distribute(b: int, x: int, y: int)
    ensures b * (x + y) == b * x + b * y
  {
  }

  /** The collected amount, times t. */
  lemma CollectedTimesTotal(n: nat, t: nat, c: nat, q: nat, b: nat)
    requires b * (n * n) <= c * (t * q) < b * (n * n) + n * n
    ensures b * n * n <= c * q * t < b * n * n + n * n
  {
    assert c * (t * q) == c * q * t;
    assert b * (n * n) == b * n * n;
  }

  lemma SpreadTimesBase(r: nat, b: nat, f: nat, g: nat)
    requires r * f <= g <= r * f + r
    ensures b * f * r <= b * g <= b * f * r + b * r
  {
    MulLe(r * f, g, b);
    MulLe(g, r * f + r, b);
    assert b * (r * f + r) == b * (r * f) + b * r;
    assert b * (r * f) == b * f * r;
  }

  /** Gross never exceeds collected plus owed by more than the base and one unit per removed liquidity. */
  lemma GrossAtMost(n: nat, r: nat, t: nat, c: nat, q: nat, b: nat, f: nat, g: nat, o: nat, w: nat)
    requires Floors(n, r, t, c, q, b, f, g, o, w)
    ensures w * t <= c * q + o * r + b + r
  {
    OwedTimesTotal(n, r, t, b, f, o);
    GrossTimesTotal(n, r, t, b, g, w);
    CollectedTimesTotal(n, t, c, q, b);
    SpreadTimesBase(r, b, f, g);
    MulLe(r, t, b);
    SumUp(w * t, c * q, o * r, b, r, t, b * n * n, b * n * r, b * f * r, b * g, b * r);
  }

  lemma SumUp(wt: int, cq: int, ow: int, b: nat, r: nat, t: nat, bnn: int, bnr: int, bfr: int, bg: int, br: int)
    requires t > 0 && wt * t <= bnn + bnr + bg && bnn <= cq * t && bnr + bfr - t * r <= ow * t
    requires bg <= bfr + br && br <= t * b
    ensures wt <= cq + ow + b + r
  {
    assert (cq + ow + b + r) * t == cq * t + ow * t + b * t + r * t;
    Cancel(wt, cq + ow + b + r, t);
  }

  /** Collected plus owed never exceeds gross by more than two units per liquidity. */
  lemma GrossAtLeast(n: nat, r: nat, t: nat, c: nat, q: nat, b: nat, f: nat, g: nat, o: nat, w: nat)
    requires Floors(n, r, t, c, q, b, f, g, o, w)
    ensures c * q + o * r <= w * t + 2 * t
  {
    OwedTimesTotal(n, r, t, b, f, o);
    GrossTimesTotal(n, r, t, b, g, w);
    CollectedTimesTotal(n, t, c, q, b);
    SpreadTimesBase(r, b, f, g);
    MulLe(n, t, n);
    MulLe(n, t, t);
    SumDown(w * t, c * q, o * r, t, b * n * n, b * n * r, b * f * r, b * g, n * n);
  }

  lemma SumDown(wt: int, cq: int, ow: int, t: nat, bnn: int, bnr: int, bfr: int, bg: int, nn: int)
    requires t > 0 && bnn + bnr + bg < wt * t + t * t && cq * t < bnn + nn && ow * t <= bnr + bfr
    requires bfr <= bg && nn <= t * t
    ensures cq + ow <= wt + 2 * t
  {
    assert (wt + 2 * t) * t == wt * t + 2 * (t * t);
    assert (cq + ow) * t == cq * t + ow * t;
    Cancel(cq + ow, wt + 2 * t, t);
  }

  /** For any collected amount: gross premium on all liquidity is the fees collected plus the premium owed on
      the removed liquidity, within a bound, through five nested roundings. */
  lemma GrossIsNetPlusOwed(c: Chunk, collected: nat)
    requires c.Live()
    ensures var total, base := c.Liquidity(), PremiumBase(c, collected);
            var owed, gross := OwedPerLiquidity(c, collected), GrossPerLiquidity(c, collected);
            && gross * total <= collected * Q64 + owed * c.removed + base + c.removed
            && collected * Q64 + owed * c.removed <= gross * total + 2 * total
  {
    var n, r, t := c.net, c.removed, c.Liquidity();
    var f, g := r / c.vegoid, r * r / c.vegoid;
    var b := PremiumBase(c, collected);
    var o, w := OwedPerLiquidity(c, collected), GrossPerLiquidity(c, collected);
    SpreadRounding(r, c.vegoid);
    hide MulDiv;
    assert Floors(n, r, t, collected, Q64, b, f, g, o, w);
    GrossAtMost(n, r, t, collected, Q64, b, f, g, o, w);
    GrossAtLeast(n, r, t, collected, Q64, b, f, g, o, w);
  }

  // ---------- the spread ----------

  /** The owed premium on one unit of removed liquidity is the fees per unit of net liquidity, and one part in `vegoid`
      of the removed share on top, within two units of fixed point. */
  lemma OwedIsFeesAndSpread(c: Chunk, collected: nat)
    requires c.Live()
    ensures var owed, unit := OwedPerLiquidity(c, collected), c.net * c.net;
            var fees := collected * Q64 * (c.net + c.removed / c.vegoid);
            owed * unit <= fees < owed * unit + 2 * unit
  {
    hide PremiumBase, OwedPerLiquidity, MulDiv;
    FloorAtMost(c.removed, c.vegoid);
    BaseFloor(c, collected);
    OwedFloor(c, collected);
    BothFloors(c.net, c.removed, c.removed / c.vegoid, collected * Q64, PremiumBase(c, collected),
               OwedPerLiquidity(c, collected));
  }

  lemma BothFloors(n: nat, r: nat, f: nat, fees: nat, b: nat, o: nat)
    requires n > 0 && f <= r
    requires b * (n * n) <= fees * (n + r) < b * (n * n) + n * n
    requires o * (n + r) <= b * (n + f) < o * (n + r) + (n + r)
    ensures o * (n * n) <= fees * (n + f) < o * (n * n) + 2 * (n * n)
  {
    var unit, t, share := n * n, n + r, n + f;
    MulLe(1, n, n);
    SpreadAtMost(unit, t, share, fees, b, o);
    SpreadAtLeast(unit, t, share, fees, b, o);
  }

  lemma BaseFloor(c: Chunk, collected: nat)
    requires c.Live()
    ensures var b, unit := PremiumBase(c, collected), c.net * c.net;
            b * unit <= collected * Q64 * c.Liquidity() < b * unit + unit
  {
    hide MulDiv;
    Swap(collected, c.Liquidity(), Q64);
  }

  lemma OwedFloor(c: Chunk, collected: nat)
    requires c.Live()
    ensures var o, t := OwedPerLiquidity(c, collected), c.Liquidity();
            o * t <= PremiumBase(c, collected) * (c.net + c.removed / c.vegoid) < o * t + t
  {
    hide MulDiv, PremiumBase;
  }

  lemma FloorAtMost(x: nat, d: nat)
    requires d > 0
    ensures x / d <= x
  {
    var q := x / d;
    assert q * d <= x;
    MulLe(1, d, q);
  }

  lemma Swap(x: nat, y: nat, z: nat)
    ensures x * (y * z) == x * z * y && x * y * z == x * z * y
  {
  }

  lemma SpreadAtMost(unit: nat, t: nat, share: nat, fees: nat, b: nat, o: nat)
    requires t > 0 && b * unit <= fees * t && o * t <= b * share
    ensures o * unit <= fees * share
  {
    MulLe(o * t, b * share, unit);
    MulLe(b * unit, fees * t, share);
    Swap(o, unit, t);
    Swap(b, share, unit);
    Swap(b, unit, share);
    Swap(fees, t, share);
    assert o * unit * t == o * t * unit;
    Cancel(o * unit, fees * share, t);
  }

  lemma SpreadAtLeast(unit: nat, t: nat, share: nat, fees: nat, b: nat, o: nat)
    requires t > 0 && unit > 0 && share <= t && fees * t < b * unit + unit && b * share < o * t + t
    ensures fees * share < o * unit + 2 * unit
  {
    MulLe(fees * t, b * unit + unit, share);
    MulLess(b * share, o * t + t, unit);
    MulLe(share, t, unit);
    ShareOut(b, unit, share);
    ShareOut(o, t, unit);
    Swap(fees, t, share);
    Twice(o * unit, unit, t);
    Below(fees * share * t, b * share * unit, share * unit, o * unit * t, unit * t, t * unit);
    CancelLess(fees * share, o * unit + 2 * unit, t);
  }

  lemma ShareOut(x: nat, y: nat, z: nat)
    ensures (x * y + y) * z == x * z * y + z * y
  {
  }

  lemma Twice(x: nat, y: nat, z: nat)
    ensures (x + 2 * y) * z == x * z + 2 * (y * z) && y * z == z * y
  {
  }

  lemma Below(fees: int, base: int, share: int, owed: int, unit: int, sameUnit: int)
    requires fees <= base + share && base < owed + unit && share <= sameUnit && sameUnit == unit
    ensures fees < owed + 2 * unit
  {
  }

  lemma MulLess(x: int, y: int, k: nat)
    requires x < y && k > 0
    ensures x * k < y * k
  {
  }
}
