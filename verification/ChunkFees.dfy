/** Fees: what a chunk collects compared with what its liquidity earned, over every run of touches. */
module ChunkFees {
  import opened Results
  import opened FixedPoint
  import opened Chunks
  import opened ChunkLiquidity

  /** The fee growth when a chunk was last touched. */
  function LastGrowth(touches: seq<Touch>, k: Key): Signed {
    if touches == [] then Signed(0, 0)
    else
      var t := touches[|touches| - 1];
      if t.ChunkKey() == k then t.market.growth else LastGrowth(touches[..|touches| - 1], k)
  }

  /** Net liquidity from the volumes alone. */
  function Net(touches: seq<Touch>, k: Key): int {
    Open(touches, k, false) - Open(touches, k, true)
  }

  /** Fees earned, times 2^128: the liquidity in place times every growth increment. No rounding. */
  function Earned(touches: seq<Touch>, k: Key, left: bool): int {
    if touches == [] then 0
    else
      var t, rest := touches[|touches| - 1], touches[..|touches| - 1];
      Earned(rest, k, left) + if t.ChunkKey() == k then Growth(rest, t, left) else 0
  }

  /** What the touched chunk earned since it was last touched, times 2^128. */
  function Growth(before: seq<Touch>, t: Touch, left: bool): int {
    Increment(Net(before, t.ChunkKey()), LastGrowth(before, t.ChunkKey()).At(left), t.market.growth.At(left))
  }

  function Increment(liquidity: int, g0: int, g1: int): int {
    liquidity * (g1 - g0)
  }

  /** Fees collected by one touch of the state that `before` leads to. */
  function FeesOf(before: seq<Touch>, t: Touch): Unsigned {
    match Run(Empty, before)
    case Revert(_) => Unsigned(0, 0)
    case Ok(m) =>
      match TouchLeg(m, t)
      case Revert(_) => Unsigned(0, 0)
      case Ok((_, fees)) => fees
  }

  function CollectedBy(touches: seq<Touch>, k: Key, left: bool): nat {
    if touches == [] then 0
    else
      var t, rest := touches[|touches| - 1], touches[..|touches| - 1];
      CollectedBy(rest, k, left) + if t.ChunkKey() == k then FeesOf(rest, t).At(left) else 0
  }

  // ---------- stored bases ----------

  /** What is stored for a chunk belongs to the liquidity it has now and the growth at its last touch. */
  ghost predicate Based(touches: seq<Touch>, m: Manager) {
    && (forall k :: BaseAt(m, k) == FeesBase(LastGrowth(touches, k), LiquidityAt(m, k).net))
    && (forall k :: LiquidityAt(m, k).net > 0 ==>
          forall left :: LastGrowth(touches, k).At(left) <= PositionAt(m, k.range).growth.At(left))
  }

  lemma {:induction false} StoredBases(touches: seq<Touch>, m: Manager)
    requires Run(Empty, touches) == Ok(m)
    ensures Based(touches, m)
  {
    if touches == [] {
    } else {
      var t, rest := touches[|touches| - 1], touches[..|touches| - 1];
      var before := Run(Empty, rest).value;
      StoredBases(rest, before);
      TouchFrame(before, t);
      hide TouchLeg, Next, FeesBase;
      forall k | LiquidityAt(m, k).net > 0 && k != t.ChunkKey() && k.range == t.leg.range
        ensures forall left :: LastGrowth(touches, k).At(left) <= PositionAt(m, k.range).growth.At(left)
      {
        NetIsHeld(rest, before, k);
        assert LiquidityAt(before, k) == LiquidityAt(m, k);
        assert forall left :: LastGrowth(rest, k).At(left) <= PositionAt(before, k.range).growth.At(left);
      }
    }
  }

  // ---------- one touch ----------

  /** The stored base rounds up and the current one down with the same liquidity: never more than what was
      earned, and less than two units less. */
  lemma FeeBounds(g0: int, g1: int, n: nat)
    requires n == 0 || g0 <= g1
    ensures var fee := Fee(g1, n, BaseUp(g0, n));
            fee * Q128 <= Increment(n, g0, g1) < fee * Q128 + 2 * Q128 && (n == 0 ==> fee == 0)
  {
    var now, stored := BaseDown(g1, n), BaseUp(g0, n);
    hide BaseDown, BaseUp;
    assert n * (g1 - g0) == g1 * n - g0 * n;
    if n > 0 {
      MulLe(0, g1 - g0, n);
    }
  }

  /** Tokens moved out come back with the fees, so the unchecked subtraction is exact. */
  lemma FeesAmongReceived(fee: nat, out: nat, owed: nat)
    requires out <= owed && fee + out <= MAX_INT128
    ensures (Min(fee + out, owed) - out) % (MAX_UINT128 + 1) == Min(fee, owed - out)
  {
  }

  function Accrued(p: Position, market: Market, left: bool): nat
    requires p.liquidity == 0 || p.growth.At(left) <= market.growth.At(left)
  {
    FeesEarned(p.liquidity, p.growth.At(left), market.growth.At(left))
  }

  function FeeAskedFor(l: Liquidity, stored: Signed, market: Market, left: bool): nat {
    if l.net == 0 then 0 else Fee(market.growth.At(left), l.net, stored.At(left))
  }

  function FeeAsked(m: Manager, t: Touch, left: bool): nat {
    FeeAskedFor(LiquidityAt(m, t.ChunkKey()), BaseAt(m, t.ChunkKey()), t.market, left)
  }

  function MovedOut(t: Touch): Unsigned {
    if t.leg.isLong then t.market.moved else Unsigned(0, 0)
  }

  lemma ReceivedMoney(l: Liquidity, stored: Signed, t: Touch, p: Position, left: bool)
    requires l.net > 0 && Fits(Asked(l, stored, t.leg, t.market))
    requires MovedOut(t).At(left) <= p.owed.At(left)
    ensures var received := Received(p, Asked(l, stored, t.leg, t.market));
            && received.At(left) <= p.owed.At(left)
            && Collected(received, t.leg, t.market).At(left)
            == Min(FeeAskedFor(l, stored, t.market, left), p.owed.At(left) - MovedOut(t).At(left))
            && Collected(received, t.leg, t.market).At(left) == received.At(left) - MovedOut(t).At(left)
  {
    hide Fee;
    FeesAmongReceived(FeeAskedFor(l, stored, t.market, left), MovedOut(t).At(left), p.owed.At(left));
  }

  lemma CollectMoney(m: Manager, t: Touch, l: Liquidity, left: bool)
    requires t.vegoid > 0 && l.net > 0 && t.leg.range in m.pool && Collect(m, t, l).Ok?
    requires MovedOut(t).At(left) <= m.pool[t.leg.range].owed.At(left)
    ensures var (after, fees) := Collect(m, t, l).value;
            var fee := FeeAskedFor(l, BaseAt(m, t.ChunkKey()), t.market, left);
            var available := m.pool[t.leg.range].owed.At(left) - MovedOut(t).At(left);
            && t.leg.range in after.pool
            && fees.At(left) == Min(fee, available)
            && after.pool[t.leg.range].owed.At(left) + fees.At(left) == available
  {
    var stored := BaseAt(m, t.ChunkKey());
    if Asked(l, stored, t.leg, t.market) != Unsigned(0, 0) {
      ReceivedMoney(l, stored, t, m.pool[t.leg.range], left);
      hide Accumulate, Fee, Received, Collected, BaseAt, FeeAskedFor;
    } else {
      hide Accumulate, Fee, Received, Collected, BaseAt;
    }
  }

  /** Collected is what was asked for, as far as Uniswap owes it; what was not collected stays owed. */
  lemma TouchMoney(m: Manager, t: Touch, left: bool)
    requires TouchLeg(m, t).Ok?
    ensures var p, (after, fees) := PositionAt(m, t.leg.range), TouchLeg(m, t).value;
            && (p.liquidity == 0 || p.growth.At(left) <= t.market.growth.At(left))
            && fees.At(left) == Min(FeeAsked(m, t, left), p.owed.At(left) + Accrued(p, t.market, left))
            && PositionAt(after, t.leg.range).owed.At(left) + fees.At(left)
               == p.owed.At(left) + Accrued(p, t.market, left)
  {
    var k, current := t.ChunkKey(), LiquidityAt(m, t.ChunkKey());
    var modified := Modify(PositionAt(m, t.leg.range), t.leg, t.market).value;
    var moved := m.(liquidity := m.liquidity[k := Next(current, t.leg, t.isBurn).value],
                    pool := m.pool[t.leg.range := modified]);
    if current.net > 0 {
      hide Collect, FeesEarned, FeesBase, FeeAskedFor;
      CollectMoney(moved, t, current, left);
    } else {
      hide Collect, FeesEarned, FeesBase, Fee;
    }
  }

  // ---------- over a run ----------

  lemma TouchedSince(touches: seq<Touch>, m: Manager, t: Touch, left: bool)
    requires Run(Empty, touches) == Ok(m) && TouchLeg(m, t).Ok?
    ensures var n, last := LiquidityAt(m, t.ChunkKey()).net, LastGrowth(touches, t.ChunkKey()).At(left);
            && Net(touches, t.ChunkKey()) == n
            && BaseAt(m, t.ChunkKey()).At(left) == BaseUp(last, n)
            && (n > 0 ==> last <= t.market.growth.At(left))
  {
    StoredBases(touches, m);
    LiquidityConserved(touches, m);
    NetIsHeld(touches, m, t.ChunkKey());
    TouchMoney(m, t, left);
    hide Run, TouchLeg, Open, LastGrowth, Fee, BaseUp, FeeAsked, Held;
  }

  /** In every reachable state, each touch asks for no more than the chunk earned since its last touch, and
      for less than two units less. */
  lemma AskedWithinTwoUnits(touches: seq<Touch>, m: Manager, t: Touch, left: bool)
    requires Run(Empty, touches) == Ok(m) && TouchLeg(m, t).Ok?
    ensures FeeAsked(m, t, left) * Q128 <= Growth(touches, t, left) < FeeAsked(m, t, left) * Q128 + 2 * Q128
  {
    TouchedSince(touches, m, t, left);
    hide Run, TouchLeg, Open, LastGrowth, Fee, BaseUp, LiquidityAt, BaseAt, Net, Increment;
    var n := LiquidityAt(m, t.ChunkKey()).net;
    FeeBounds(LastGrowth(touches, t.ChunkKey()).At(left), t.market.growth.At(left), n);
  }

  /** Over every run, the fees a chunk collected never exceed what its liquidity earned. */
  lemma {:induction false} NeverOverCollects(touches: seq<Touch>, m: Manager, k: Key, left: bool)
    requires Run(Empty, touches) == Ok(m)
    ensures CollectedBy(touches, k, left) * Q128 <= Earned(touches, k, left)
  {
    if touches == [] {
    } else {
      var t, rest := touches[|touches| - 1], touches[..|touches| - 1];
      var before := Run(Empty, rest).value;
      NeverOverCollects(rest, before, k, left);
      AskedWithinTwoUnits(rest, before, t, left);
      TouchMoney(before, t, left);
      hide TouchLeg, FeeAsked, Growth;
    }
  }
}
