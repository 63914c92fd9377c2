/** Liquidity is conserved: what Uniswap holds for a tick range is what all chunks record as net, and
    what a chunk records follows from the volumes minted and burned. */
module ChunkLiquidity {
  import opened Results
  import opened Sums
  import opened Chunks

  function NetIn(range: Range): (Key, Liquidity) -> real {
    (k: Key, l: Liquidity) => if k.range == range then l.net as real else 0.0
  }

  /** The liquidity of all touches of one chunk in one direction. */
  function Volume(touches: seq<Touch>, k: Key, long: bool, burn: bool): nat {
    if touches == [] then 0
    else
      var t := touches[|touches| - 1];
      Volume(touches[..|touches| - 1], k, long, burn)
        + if t.ChunkKey() == k && t.Long() == long && t.isBurn == burn then t.leg.liquidity else 0
  }

  /** Volume minted and not burned yet. */
  function Open(touches: seq<Touch>, k: Key, long: bool): int {
    Volume(touches, k, long, false) - Volume(touches, k, long, true)
  }

  /** Everything a touch writes besides premium: one chunk, and one Uniswap position. */
  lemma TouchFrame(m: Manager, t: Touch)
    requires TouchLeg(m, t).Ok?
    ensures var after, k, r := TouchLeg(m, t).value.0, t.ChunkKey(), t.leg.range;
            var next := Next(LiquidityAt(m, k), t.leg, t.isBurn);
            && next.Ok?
            && after.liquidity == m.liquidity[k := next.value]
            && after.feesBase == m.feesBase[k := FeesBase(t.market.growth, next.value.net)]
            && after.pool.Keys == m.pool.Keys + {r}
            && (forall other :: other != r ==> PositionAt(after, other) == PositionAt(m, other))
            && PositionAt(after, r).growth == t.market.growth
            && PositionAt(after, r).liquidity + LiquidityAt(m, k).net == PositionAt(m, r).liquidity + next.value.net
            && (PositionAt(m, r).liquidity > 0 ==>
                forall left :: PositionAt(m, r).growth.At(left) <= t.market.growth.At(left))
  {
    hide Asked, Received, Collected, Accumulate, FeesEarned, FeesBase;
  }

  ghost predicate Held(m: Manager) {
    forall r :: PositionAt(m, r).liquidity as real == Total(m.liquidity, NetIn(r))
  }

  lemma TouchKeepsHeld(m: Manager, t: Touch)
    requires Held(m) && TouchLeg(m, t).Ok?
    ensures Held(TouchLeg(m, t).value.0)
  {
    TouchFrame(m, t);
    hide TouchLeg, Next;
    var after, k := TouchLeg(m, t).value.0, t.ChunkKey();
    forall r
      ensures PositionAt(after, r).liquidity as real == Total(after.liquidity, NetIn(r))
    {
      TotalUpdate(m.liquidity, NetIn(r), k, LiquidityAt(after, k));
      assert WeightAt(m.liquidity, NetIn(r), k) == if k.range == r then LiquidityAt(m, k).net as real else 0.0;
      assert r != t.leg.range ==> PositionAt(after, r) == PositionAt(m, r);
    }
  }

  lemma TouchMovesVolume(m: Manager, t: Touch, k: Key)
    requires TouchLeg(m, t).Ok?
    ensures var l, next := LiquidityAt(m, k), LiquidityAt(TouchLeg(m, t).value.0, k);
            var signed := if t.ChunkKey() != k then 0 else if t.isBurn then 0 - t.leg.liquidity else t.leg.liquidity;
            && next.removed == l.removed + (if t.Long() then signed else 0)
            && next.net + next.removed == l.net + l.removed + (if t.Long() then 0 else signed)
  {
    TouchFrame(m, t);
  }

  /** In every state reachable from an empty manager, Uniswap's liquidity for a range is the sum of the
      net liquidity of all its owners and token types, and every chunk's two slots are exactly the open
      volumes: bought is removed, sold is net and removed together. */
  lemma {:induction false} LiquidityConserved(touches: seq<Touch>, m: Manager)
    requires Run(Empty, touches) == Ok(m)
    ensures Held(m)
    ensures forall k :: LiquidityAt(m, k).removed == Open(touches, k, true)
    ensures forall k :: LiquidityAt(m, k).net + LiquidityAt(m, k).removed == Open(touches, k, false)
  {
    if touches == [] {
    } else {
      var t, rest := touches[|touches| - 1], touches[..|touches| - 1];
      var before := Run(Empty, rest).value;
      LiquidityConserved(rest, before);
      TouchKeepsHeld(before, t);
      forall k
        ensures LiquidityAt(m, k).removed == Open(touches, k, true)
        ensures LiquidityAt(m, k).net + LiquidityAt(m, k).removed == Open(touches, k, false)
      {
        TouchMovesVolume(before, t, k);
        hide TouchLeg, LiquidityAt;
      }
    }
  }

  lemma PartOfTotal(liquidity: map<Key, Liquidity>, k: Key)
    ensures Get(liquidity, k, Liquidity(0, 0)).net as real <= Total(liquidity, NetIn(k.range))
  {
    var weight := NetIn(k.range);
    forall j | j in liquidity
      ensures weight(j, liquidity[j]) >= 0.0
    {
      assert weight(j, liquidity[j]) == if j.range == k.range then liquidity[j].net as real else 0.0;
    }
    TotalNonNegative(liquidity, weight);
    assert k in liquidity ==> weight(k, liquidity[k]) == liquidity[k].net as real;
  }

  /** A chunk's net liquidity is part of what Uniswap holds for its range. */
  lemma NetIsHeld(touches: seq<Touch>, m: Manager, k: Key)
    requires Run(Empty, touches) == Ok(m)
    ensures LiquidityAt(m, k).net <= PositionAt(m, k.range).liquidity
  {
    LiquidityConserved(touches, m);
    hide Run;
    PartOfTotal(m.liquidity, k);
  }

  /** A leg fits the record of its chunk: it has liquidity; liquidity taken out is there; no slot overflows; and a burn
      takes no more off the removed part than was bought. */
  predicate Permits(l: Liquidity, leg: Leg, isBurn: bool) {
    && leg.liquidity > 0
    && if leg.isLong then leg.liquidity <= l.net && (!isBurn ==> FitsSlot(l.removed + leg.liquidity))
       else FitsSlot(l.net + leg.liquidity) && (isBurn ==> leg.liquidity <= l.removed)
  }

  predicate FitsSlot(x: nat) {
    x < 0x1_0000_0000_0000_0000_0000_0000_0000_0000
  }

  /** Whenever the manager's own record permits a leg, Uniswap holds the liquidity for it: as long as fee
      growth has not fallen, a touch succeeds exactly when the record permits it and the amount to collect
      fits its word. */
  lemma UniswapNeverLacksLiquidity(touches: seq<Touch>, m: Manager, t: Touch)
    requires Run(Empty, touches) == Ok(m) && t.vegoid > 0
    requires forall left :: PositionAt(m, t.leg.range).growth.At(left) <= t.market.growth.At(left)
    ensures var l := LiquidityAt(m, t.ChunkKey());
            TouchLeg(m, t).Ok?
            <==> Permits(l, t.leg, t.isBurn)
                 && (l.net == 0 || Fits(Asked(l, BaseAt(m, t.ChunkKey()), t.leg, t.market)))
  {
    NetIsHeld(touches, m, t.ChunkKey());
    hide Run, Asked, Received, Collected, Accumulate, FeesEarned, FeesBase;
    var p := PositionAt(m, t.leg.range);
    assert p.growth.At(false) <= t.market.growth.At(false) && p.growth.At(true) <= t.market.growth.At(true);
  }
}
