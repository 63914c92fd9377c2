/** The premium accumulators of a chunk across the capped, linked update. */
module ChunkPremium {
  import opened Results
  import opened FixedPoint
  import opened Premia
  import opened Chunks

  function OwedAt(m: Manager, k: Key): Unsigned {
    Get(m.premiumOwed, k, Unsigned(0, 0))
  }

  function GrossAt(m: Manager, k: Key): Unsigned {
    Get(m.premiumGross, k, Unsigned(0, 0))
  }

  /** Gross on all liquidity is the collected fees plus what is owed on the removed part, within the roundings. */
  predicate Balanced(c: Chunk, fees: nat, owed: nat, gross: nat)
    requires c.Live()
  {
    && gross * c.Liquidity() <= fees * Q64 + owed * c.removed + PremiumBase(c, fees) + c.removed
    && fees * Q64 + owed * c.removed <= gross * c.Liquidity() + 2 * c.Liquidity()
  }

  predicate Frozen(c: Chunk, fees: nat, owed: nat, gross: nat)
    requires c.Live()
  {
    || owed + OwedPerLiquidity(c, fees) >= MAX_UINT128
    || gross + GrossPerLiquidity(c, fees) >= MAX_UINT128
  }

  /** For each token, either both accumulators stand still, exactly when one would reach its cap, or both
      move and their movements balance with the fees. Neither ever reaches the cap. */
  lemma AccumulatorsMoveTogether(owed: Unsigned, gross: Unsigned, c: Chunk, fees: Unsigned, left: bool)
    requires c.Live()
    ensures var (o, g) := Accumulate(owed, gross, c, fees);
            if Frozen(c, fees.At(left), owed.At(left), gross.At(left)) then
              o.At(left) == owed.At(left) && g.At(left) == gross.At(left)
            else
              && owed.At(left) <= o.At(left) < MAX_UINT128 && gross.At(left) <= g.At(left) < MAX_UINT128
              && Balanced(c, fees.At(left), o.At(left) - owed.At(left), g.At(left) - gross.At(left))
  {
    GrossIsNetPlusOwed(c, fees.At(left));
    hide OwedPerLiquidity, GrossPerLiquidity, PremiumBase;
  }

  /** In every reachable state no accumulator has reached its cap, so the next touch can still move it. */
  lemma {:induction false} NeverAtCap(touches: seq<Touch>, m: Manager, k: Key, left: bool)
    requires Run(Empty, touches) == Ok(m)
    ensures OwedAt(m, k).At(left) < MAX_UINT128 && GrossAt(m, k).At(left) < MAX_UINT128
  {
    if touches == [] {
    } else {
      var t, rest := touches[|touches| - 1], touches[..|touches| - 1];
      var before := Run(Empty, rest).value;
      NeverAtCap(rest, before, k, left);
      var l := LiquidityAt(before, t.ChunkKey());
      if l.net > 0 {
        AccumulatorsMoveTogether(OwedAt(before, t.ChunkKey()), GrossAt(before, t.ChunkKey()),
                                 Chunk(l.net, l.removed, t.vegoid), TouchLeg(before, t).value.1, left);
      }
      hide Accumulate, Balanced, Frozen, Asked, Received, Collected, FeesEarned, FeesBase, Next;
    }
  }

  lemma NothingCollected(c: Chunk)
    requires c.Live()
    ensures PremiumBase(c, 0) == 0 && OwedPerLiquidity(c, 0) == 0 && GrossPerLiquidity(c, 0) == 0
  {
    hide PremiumBase, OwedPerLiquidity, GrossPerLiquidity;
    NoBase(c);
    NoOwed(c);
    NoGross(c);
  }

  lemma NoBase(c: Chunk)
    requires c.Live()
    ensures PremiumBase(c, 0) == 0
  {
    hide MulDiv;
    ZeroDividend(c.Liquidity() * Q64, c.net * c.net);
  }

  lemma NoOwed(c: Chunk)
    requires c.Live() && PremiumBase(c, 0) == 0
    ensures OwedPerLiquidity(c, 0) == 0
  {
    hide MulDiv, PremiumBase;
    ZeroDividend(c.net + c.removed / c.vegoid, c.Liquidity());
  }

  lemma NoGross(c: Chunk)
    requires c.Live() && PremiumBase(c, 0) == 0
    ensures GrossPerLiquidity(c, 0) == 0
  {
    hide MulDiv, PremiumBase, SquareLess;
    var total := c.Liquidity();
    ZeroDividend(SquareLess(total, c.removed) + c.removed * c.removed / c.vegoid, total * total);
  }

  lemma NothingBalances(c: Chunk)
    requires c.Live() && PremiumBase(c, 0) == 0
    ensures Balanced(c, 0, 0, 0)
  {
    hide PremiumBase;
  }

  lemma ZeroDividend(b: nat, d: nat)
    requires d > 0
    ensures MulDiv(0, b, d) == 0
  {
  }

  /** What one touch makes of the accumulators of its chunk, for one token. */
  ghost predicate Booked(c: Chunk, fees: nat, owed: nat, gross: nat, owedAfter: nat, grossAfter: nat)
    requires c.Live()
  {
    if Frozen(c, fees, owed, gross) then owedAfter == owed && grossAfter == gross
    else owed <= owedAfter && gross <= grossAfter && Balanced(c, fees, owedAfter - owed, grossAfter - gross)
  }

  lemma CollectBooks(m: Manager, t: Touch, l: Liquidity, left: bool)
    requires t.vegoid > 0 && l.net > 0 && t.leg.range in m.pool && Collect(m, t, l).Ok?
    requires OwedAt(m, t.ChunkKey()).At(left) < MAX_UINT128 && GrossAt(m, t.ChunkKey()).At(left) < MAX_UINT128
    ensures var (after, fees), k := Collect(m, t, l).value, t.ChunkKey();
            && (forall other :: other != k ==>
                OwedAt(after, other) == OwedAt(m, other) && GrossAt(after, other) == GrossAt(m, other))
            && Booked(Chunk(l.net, l.removed, t.vegoid), fees.At(left), OwedAt(m, k).At(left), GrossAt(m, k).At(left),
                      OwedAt(after, k).At(left), GrossAt(after, k).At(left))
  {
    hide Accumulate, Balanced, Asked, Received, Collected, OwedPerLiquidity, GrossPerLiquidity, PremiumBase;
    var c := Chunk(l.net, l.removed, t.vegoid);
    AccumulatorsMoveTogether(OwedAt(m, t.ChunkKey()), GrossAt(m, t.ChunkKey()), c, Collect(m, t, l).value.1, left);
    NothingCollected(c);
    NothingBalances(c);
  }

  /** In every reachable state, a touch moves only the accumulators of its chunk. For each token they stand still
      when the chunk had no liquidity or one of the two would reach its cap; otherwise both advance, by amounts that
      balance with the fees collected. */
  lemma TouchBalances(touches: seq<Touch>, m: Manager, t: Touch, left: bool)
    requires Run(Empty, touches) == Ok(m) && TouchLeg(m, t).Ok?
    ensures var (after, fees), k := TouchLeg(m, t).value, t.ChunkKey();
            var l := LiquidityAt(m, k);
            && (forall other :: other != k ==>
                OwedAt(after, other) == OwedAt(m, other) && GrossAt(after, other) == GrossAt(m, other))
            && (if l.net == 0 then OwedAt(after, k) == OwedAt(m, k) && GrossAt(after, k) == GrossAt(m, k)
                else Booked(Chunk(l.net, l.removed, t.vegoid), fees.At(left), OwedAt(m, k).At(left),
                            GrossAt(m, k).At(left), OwedAt(after, k).At(left), GrossAt(after, k).At(left)))
  {
    var k, current := t.ChunkKey(), LiquidityAt(m, t.ChunkKey());
    NeverAtCap(touches, m, k, left);
    hide Run, Collect, Booked, FeesBase;
    var next, p := Next(current, t.leg, t.isBurn).value, Modify(PositionAt(m, t.leg.range), t.leg, t.market).value;
    hide Next, Modify;
    if current.net > 0 {
      CollectBooks(m.(liquidity := m.liquidity[k := next], pool := m.pool[t.leg.range := p]), t, current, left);
    }
  }
}
