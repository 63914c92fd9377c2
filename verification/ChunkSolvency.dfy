/** Uniswap's single position per range pays for all chunks on it: whatever a chunk asks for is there, up
    to the roundings of earlier touches. */
module ChunkSolvency {
  import opened Results
  import opened FixedPoint
  import opened Sums
  import opened Chunks
  import opened ChunkLiquidity
  import opened ChunkFees

  /** Touches of any chunk on a range. */
  function TouchesIn(touches: seq<Touch>, range: Range): nat {
    if touches == [] then 0
    else TouchesIn(touches[..|touches| - 1], range) + if touches[|touches| - 1].leg.range == range then 1 else 0
  }

  function TouchesOf(touches: seq<Touch>, k: Key): nat {
    if touches == [] then 0
    else TouchesOf(touches[..|touches| - 1], k) + if touches[|touches| - 1].ChunkKey() == k then 1 else 0
  }

  /** What a chunk on `range` has earned and not been paid when fee growth is `growth`, times 2^128. */
  ghost function Unpaid(touches: seq<Touch>, range: Range, left: bool, growth: int): (Key, Liquidity) -> real {
    (k: Key, l: Liquidity) =>
      if k.range == range then Increment(l.net, LastGrowth(touches, k).At(left), growth) as real else 0.0
  }

  /** The tokens Uniswap owes, and one more for each touch, cover what all chunks have earned. */
  ghost predicate Funded(touches: seq<Touch>, m: Manager, range: Range, left: bool) {
    var p := PositionAt(m, range);
    Total(m.liquidity, Unpaid(touches, range, left, p.growth.At(left)))
      <= ((p.owed.At(left) + TouchesIn(touches, range)) * Q128) as real
  }

  lemma IncrementSplits(n: int, g0: int, g1: int, g2: int)
    ensures Increment(n, g0, g2) == Increment(n, g0, g1) + Increment(n, g1, g2)
    ensures Increment(n, g1, g2) as real == Scale((g2 - g1) as real, n as real)
    ensures Increment(n, g0, g0) == 0
  {
  }

  lemma EarningNonNegative(n: nat, g0: int, g1: int)
    requires g0 <= g1
    ensures Increment(n, g0, g1) >= 0
  {
    MulLe(0, g1 - g0, n);
  }

  /** While fee growth moves, all chunks of a range together earn what its whole liquidity earns. */
  lemma GrowthIsShared(touches: seq<Touch>, liquidity: map<Key, Liquidity>, range: Range, left: bool, g1: int, g2: int)
    ensures Total(liquidity, Unpaid(touches, range, left, g2))
         == Total(liquidity, Unpaid(touches, range, left, g1))
            + Scale((g2 - g1) as real, Total(liquidity, NetIn(range)))
  {
    var before, after := Unpaid(touches, range, left, g1), Unpaid(touches, range, left, g2);
    var more := Scaled((g2 - g1) as real, NetIn(range));
    forall k | k in liquidity
      ensures after(k, liquidity[k]) == Plus(before, more)(k, liquidity[k])
    {
      IncrementSplits(liquidity[k].net, LastGrowth(touches, k).At(left), g1, g2);
      assert Scale((g2 - g1) as real, 0.0) == 0.0;
    }
    TotalAgrees(liquidity, after, Plus(before, more));
    TotalPlus(liquidity, before, more);
    TotalScaled(liquidity, (g2 - g1) as real, NetIn(range));
  }

  /** A touch settles the touched chunk and leaves the others' claims alone. */
  lemma TouchSettles(touches: seq<Touch>, t: Touch, liquidity: map<Key, Liquidity>, next: Liquidity, left: bool)
    requires Get(liquidity, t.ChunkKey(), Liquidity(0, 0)).net == Net(touches, t.ChunkKey())
    ensures Total(liquidity[t.ChunkKey() := next], Unpaid(touches + [t], t.leg.range, left, t.market.growth.At(left)))
         == Total(liquidity, Unpaid(touches, t.leg.range, left, t.market.growth.At(left)))
            - Growth(touches, t, left) as real
  {
    var k, r, g := t.ChunkKey(), t.leg.range, t.market.growth.At(left);
    var before, after := Unpaid(touches, r, left, g), Unpaid(touches + [t], r, left, g);
    var others := liquidity - {k};
    assert (touches + [t])[..|touches|] == touches;
    assert liquidity[k := next] - {k} == others;
    TotalSplit(liquidity[k := next], after, k);
    IncrementSplits(next.net, g, g, g);
    assert LastGrowth(touches + [t], k) == t.market.growth;
    forall j | j in others
      ensures before(j, others[j]) == after(j, others[j])
    {
      assert LastGrowth(touches + [t], j) == LastGrowth(touches, j);
    }
    TotalAgrees(others, before, after);
    if k in liquidity {
      TotalSplit(liquidity, before, k);
    } else {
      assert others == liquidity;
      assert Growth(touches, t, left) == 0;
    }
  }

  /** Another range's chunks keep their claims. */
  lemma OtherRangeUnpaid(touches: seq<Touch>, t: Touch, liquidity: map<Key, Liquidity>, next: Liquidity, range: Range,
                         left: bool, growth: int)
    requires range != t.leg.range
    ensures Total(liquidity[t.ChunkKey() := next], Unpaid(touches + [t], range, left, growth))
         == Total(liquidity, Unpaid(touches, range, left, growth))
  {
    var k := t.ChunkKey();
    var before, after := Unpaid(touches, range, left, growth), Unpaid(touches + [t], range, left, growth);
    assert (touches + [t])[..|touches|] == touches;
    forall j | j in liquidity
      ensures before(j, liquidity[j]) == after(j, liquidity[j])
    {
      assert j.range == range ==> LastGrowth(touches + [t], j) == LastGrowth(touches, j);
    }
    TotalAgrees(liquidity, before, after);
    TotalUpdate(liquidity, after, k, next);
  }

  /** Uniswap rounds the fees of the whole position once per touch. */
  lemma AccruedWithinOneUnit(p: Position, market: Market, left: bool)
    requires p.liquidity == 0 || p.growth.At(left) <= market.growth.At(left)
    ensures Increment(p.liquidity, p.growth.At(left), market.growth.At(left)) <= (Accrued(p, market, left) + 1) * Q128
  {
    if p.liquidity > 0 {
      IncrementSplits(p.liquidity, p.growth.At(left), market.growth.At(left), market.growth.At(left));
    }
  }

  /** The claims on a range just before a touch is paid. */
  lemma ClaimsBeforePayment(touches: seq<Touch>, m: Manager, t: Touch, left: bool)
    requires Held(m) && TouchLeg(m, t).Ok? && Funded(touches, m, t.leg.range, left)
    ensures var p := PositionAt(m, t.leg.range);
            && (p.liquidity == 0 || p.growth.At(left) <= t.market.growth.At(left))
            && Total(m.liquidity, Unpaid(touches, t.leg.range, left, t.market.growth.At(left)))
                 <= ((p.owed.At(left) + Accrued(p, t.market, left)
                      + TouchesIn(touches, t.leg.range) + 1) * Q128) as real
  {
    var r := t.leg.range;
    var p := PositionAt(m, r);
    TouchMoney(m, t, left);
    hide TouchLeg, TouchesIn, Accrued, PositionAt, FeeAsked;
    GrowthIsShared(touches, m.liquidity, r, left, p.growth.At(left), t.market.growth.At(left));
    IncrementSplits(p.liquidity, p.growth.At(left), p.growth.At(left), t.market.growth.At(left));
    AccruedWithinOneUnit(p, t.market, left);
    assert p.liquidity as real == Total(m.liquidity, NetIn(r));
    hide Held, Unpaid, NetIn, Scale, Increment;
  }

  /** In every reachable state the tokens Uniswap owes the manager cover all that its chunks have earned,
      up to one unit for each touch of the range. */
  lemma {:induction false} EveryRangeIsFunded(touches: seq<Touch>, m: Manager, range: Range, left: bool)
    requires Run(Empty, touches) == Ok(m)
    ensures Funded(touches, m, range, left)
  {
    if touches == [] {
    } else {
      var t, rest := touches[|touches| - 1], touches[..|touches| - 1];
      assert touches == rest + [t];
      var before := Run(Empty, rest).value;
      EveryRangeIsFunded(rest, before, range, left);
      StepFunded(rest, before, t, range, left);
    }
  }

  lemma StepFunded(touches: seq<Touch>, m: Manager, t: Touch, range: Range, left: bool)
    requires Run(Empty, touches) == Ok(m) && TouchLeg(m, t).Ok? && Funded(touches, m, range, left)
    ensures Funded(touches + [t], TouchLeg(m, t).value.0, range, left)
  {
    var k, after := t.ChunkKey(), TouchLeg(m, t).value.0;
    TouchFrame(m, t);
    assert TouchesIn(touches + [t], range) == TouchesIn(touches, range) + if t.leg.range == range then 1 else 0 by {
      assert (touches + [t])[..|touches|] == touches;
    }
    if range != t.leg.range {
      OtherRangeUnpaid(touches, t, m.liquidity, LiquidityAt(after, k), range, left,
                       PositionAt(m, range).growth.At(left));
      hide Run, TouchLeg, LastGrowth, TouchesIn, Next, Increment, Unpaid, FeesBase;
    } else {
      LiquidityConserved(touches, m);
      TouchedSince(touches, m, t, left);
      ClaimsBeforePayment(touches, m, t, left);
      TouchSettles(touches, t, m.liquidity, LiquidityAt(after, k), left);
      AskedWithinTwoUnits(touches, m, t, left);
      TouchMoney(m, t, left);
      hide Run, TouchLeg, LastGrowth, TouchesIn, FeeAsked, Accrued, Net, Growth, Held, Open, Next, Increment;
      hide Unpaid, FeesBase;
    }
  }

  /** A chunk with liquidity was last touched at a growth the range has not fallen below. */
  lemma GrownSince(touches: seq<Touch>, m: Manager, t: Touch, left: bool, k: Key)
    requires Run(Empty, touches) == Ok(m) && TouchLeg(m, t).Ok?
    requires k.range == t.leg.range && k in m.liquidity && m.liquidity[k].net > 0
    ensures LastGrowth(touches, k).At(left) <= t.market.growth.At(left)
  {
    StoredBases(touches, m);
    NetIsHeld(touches, m, k);
    TouchMoney(m, t, left);
    hide Run, TouchLeg, FeesBase, Increment, LastGrowth, FeeAsked, Accrued;
    assert LiquidityAt(m, k).net == m.liquidity[k].net;
    assert LastGrowth(touches, k).At(left) <= PositionAt(m, k.range).growth.At(left);
  }

  lemma ClaimNonNegative(touches: seq<Touch>, m: Manager, t: Touch, left: bool, k: Key)
    requires Run(Empty, touches) == Ok(m) && TouchLeg(m, t).Ok? && k in m.liquidity
    ensures Unpaid(touches, t.leg.range, left, t.market.growth.At(left))(k, m.liquidity[k]) >= 0.0
  {
    var n, last, g := m.liquidity[k].net, LastGrowth(touches, k).At(left), t.market.growth.At(left);
    hide Run, TouchLeg, Increment, LastGrowth;
    if k.range == t.leg.range && n > 0 {
      GrownSince(touches, m, t, left, k);
      EarningNonNegative(n, last, g);
    } else {
      NothingEarned(last, g);
    }
  }

  /** The touched chunk's claim is one of the claims on its range. */
  lemma OwnClaim(touches: seq<Touch>, m: Manager, t: Touch, left: bool)
    requires Run(Empty, touches) == Ok(m) && TouchLeg(m, t).Ok?
    ensures Growth(touches, t, left) as real
            <= Total(m.liquidity, Unpaid(touches, t.leg.range, left, t.market.growth.At(left)))
  {
    var k, g := t.ChunkKey(), t.market.growth.At(left);
    var weight := Unpaid(touches, t.leg.range, left, g);
    hide Run, TouchLeg, Increment, LastGrowth;
    LiquidityConserved(touches, m);
    forall j | j in m.liquidity
      ensures weight(j, m.liquidity[j]) >= 0.0
    {
      ClaimNonNegative(touches, m, t, left, j);
    }
    TotalNonNegative(m.liquidity, weight);
    NothingEarned(LastGrowth(touches, k).At(left), g);
    assert k in m.liquidity ==> weight(k, m.liquidity[k]) <= Total(m.liquidity, weight);
  }

  lemma NothingEarned(g0: int, g1: int)
    ensures Increment(0, g0, g1) == 0
  {
  }

  /** Every touch collects what it asks for, short of it by at most one unit for each touch the range has seen. */
  lemma CollectedIsAlmostAsked(touches: seq<Touch>, m: Manager, t: Touch, left: bool)
    requires Run(Empty, touches) == Ok(m) && TouchLeg(m, t).Ok?
    ensures TouchLeg(m, t).value.1.At(left) <= FeeAsked(m, t, left)
    ensures FeeAsked(m, t, left) <= TouchLeg(m, t).value.1.At(left) + TouchesIn(touches, t.leg.range) + 1
  {
    LiquidityConserved(touches, m);
    EveryRangeIsFunded(touches, m, t.leg.range, left);
    ClaimsBeforePayment(touches, m, t, left);
    OwnClaim(touches, m, t, left);
    AskedWithinTwoUnits(touches, m, t, left);
    TouchMoney(m, t, left);
    hide Run, TouchLeg, Held, Funded, TouchesIn, FeeAsked, Accrued, Growth, Open;
  }

  /** What one touch loses: two units to rounding its own base, the rest to the roundings of Uniswap. */
  lemma LostByTouch(touches: seq<Touch>, m: Manager, t: Touch, left: bool)
    requires Run(Empty, touches) == Ok(m) && TouchLeg(m, t).Ok?
    ensures Growth(touches, t, left) <= (FeesOf(touches, t).At(left) + TouchesIn(touches, t.leg.range) + 3) * Q128
  {
    AskedWithinTwoUnits(touches, m, t, left);
    CollectedIsAlmostAsked(touches, m, t, left);
    hide TouchLeg, FeeAsked, Growth, Run, TouchesIn;
  }

  /** For `n` touches of a chunk whose range was touched `c` times. */
  function Lost(n: nat, c: nat): nat {
    n * (c + 2)
  }

  lemma LostGrows(n: nat, c: nat)
    ensures Lost(n, c) <= Lost(n, c + 1)
    ensures Lost(n, c) + c + 3 <= Lost(n + 1, c + 1)
  {
  }

  /** Over every run, a chunk collects all it earned, less at most `touches of the range + 2` units for each of
      its touches. With NeverOverCollects, the fees collected are pinned between two bounds. */
  lemma {:induction false} CollectsNearlyAll(touches: seq<Touch>, m: Manager, k: Key, left: bool)
    requires Run(Empty, touches) == Ok(m)
    ensures Earned(touches, k, left)
            <= (CollectedBy(touches, k, left) + Lost(TouchesOf(touches, k), TouchesIn(touches, k.range))) * Q128
  {
    if touches == [] {
    } else {
      var t, rest := touches[|touches| - 1], touches[..|touches| - 1];
      var before := Run(Empty, rest).value;
      CollectsNearlyAll(rest, before, k, left);
      LostByTouch(rest, before, t, left);
      LostGrows(TouchesOf(rest, k), TouchesIn(rest, k.range));
      hide TouchLeg, Growth, FeesOf, Lost, Run;
    }
  }
}
