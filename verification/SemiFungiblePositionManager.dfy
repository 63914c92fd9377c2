/** The position manager and its Uniswap pool as they are kept: mappings that each leg updates in place. */
module SemiFungiblePositionManager {
  import opened Results
  import opened Premia
  import opened Sums
  import opened Chunks
  import opened ChunkLiquidity
  import opened ChunkFees
  import opened ChunkPositions

  /** There is enough to take out, and fee growth has not fallen while the position held liquidity. */
  predicate MayMove(p: Position, leg: Leg, market: Market) {
    && (leg.isLong ==> leg.liquidity <= p.liquidity)
    && (p.liquidity > 0 ==> p.growth.right <= market.growth.right && p.growth.left <= market.growth.left)
  }

  lemma MovesWhenItMay(p: Position, leg: Leg, market: Market)
    ensures if MayMove(p, leg, market) then Modify(p, leg, market).Ok?
            else Modify(p, leg, market) == Revert(ExternalFailure)
  {
    hide FeesEarned;
  }

  /** The manager's positions in a Uniswap pool: one per tick range. */
  class UniswapPool {
    var positions: map<Range, Position>

    constructor ()
      ensures positions == map[]
    {
      positions := map[];
    }

    function Get(r: Range): Position
      reads this
    {
      Chunks.Get(positions, r, Position(0, Signed(0, 0), Unsigned(0, 0)))
    }

    /** Only the position of `range` differs from before. */
    ghost predicate OnlyMoved(before: map<Range, Position>, range: Range)
      reads this
    {
      && positions.Keys == before.Keys + {range}
      && forall other :: other in before && other != range ==> positions[other] == before[other]
    }

    /** `mint` for a short leg, `burn` for a long one. It fails exactly when more is to be taken out than there is, or
        the fee growth answered fell below the position's. Otherwise it moves the liquidity, and the fees earned since
        the last time, rounded down, and the tokens taken out become collectable. */
    method Move(leg: Leg, market: Market) returns (r: Result<()>)
      modifies this
      ensures var p := old(Get(leg.range));
              r.Ok? <==> MayMove(p, leg, market)
      ensures r.Revert? ==> r.error == ExternalFailure && positions == old(positions)
      ensures var p, q := old(Get(leg.range)), Get(leg.range);
              r.Ok? ==>
                && OnlyMoved(old(positions), leg.range) && q.growth == market.growth
                && (if leg.isLong then q.liquidity + leg.liquidity == p.liquidity
                    else q.liquidity == p.liquidity + leg.liquidity)
                && forall left :: q.owed.At(left) == p.owed.At(left)
                     + FeesEarned(p.liquidity, p.growth.At(left), market.growth.At(left))
                     + (if leg.isLong then market.moved.At(left) else 0)
    {
      var p :- Modify(Get(leg.range), leg, market);
      positions := positions[leg.range := p];
      return Ok(());
    }

    /** Pays out what is asked for or all that is owed, whichever is less, and owes that much less; the position is
        otherwise as it was. */
    method Collect(range: Range, asked: Unsigned) returns (received: Unsigned)
      requires range in positions
      modifies this
      ensures OnlyMoved(old(positions), range)
      ensures positions[range].liquidity == old(positions)[range].liquidity
              && positions[range].growth == old(positions)[range].growth
      ensures forall left :: var owed := old(positions)[range].owed.At(left);
                && received.At(left) <= asked.At(left) && received.At(left) <= owed
                && (received.At(left) == asked.At(left) || received.At(left) == owed)
                && positions[range].owed.At(left) + received.At(left) == owed
    {
      var p := positions[range];
      received := Received(p, asked);
      positions := positions[range := Pay(p, received)];
    }
  }

  lemma SameAmounts(a: Unsigned, b: Unsigned)
    requires forall left :: a.At(left) == b.At(left)
    ensures a == b
  {
    assert a.At(false) == b.At(false) && a.At(true) == b.At(true);
  }

  /** A move that keeps its contract leaves exactly the position the step computes. */
  lemma MovedIsModified(p: Position, q: Position, leg: Leg, market: Market)
    requires MayMove(p, leg, market) && q.growth == market.growth
    requires if leg.isLong then q.liquidity + leg.liquidity == p.liquidity
             else q.liquidity == p.liquidity + leg.liquidity
    requires forall left ::
      q.owed.At(left)
      == p.owed.At(left) + FeesEarned(p.liquidity, p.growth.At(left), market.growth.At(left))
                                                + (if leg.isLong then market.moved.At(left) else 0)
    ensures Modify(p, leg, market) == Ok(q)
  {
    hide FeesEarned;
    SameAmounts(q.owed, Modify(p, leg, market).value.owed);
  }

  /** A payment that keeps its contract is exactly the one the step computes. */
  lemma PaidIsReceived(p: Position, q: Position, asked: Unsigned, received: Unsigned)
    requires q.liquidity == p.liquidity && q.growth == p.growth
    requires forall left ::
               && received.At(left) <= asked.At(left) && received.At(left) <= p.owed.At(left)
               && (received.At(left) == asked.At(left) || received.At(left) == p.owed.At(left))
               && q.owed.At(left) + received.At(left) == p.owed.At(left)
    ensures received == Received(p, asked) && q == Pay(p, received)
  {
    SameAmounts(received, Received(p, asked));
    SameAmounts(q.owed, Pay(p, received).owed);
  }

  class SemiFungiblePositionManager {
    var accountLiquidity: map<Key, Liquidity>
    var accountFeesBase: map<Key, Signed>
    var accountPremiumOwed: map<Key, Unsigned>
    var accountPremiumGross: map<Key, Unsigned>
    const pool: UniswapPool

    ghost var touches: seq<Touch>
    ghost var calls: seq<Call>             // the mints and burns that took effect

    function View(): Manager
      reads this, pool
    {
      Manager(accountLiquidity, accountFeesBase, accountPremiumOwed, accountPremiumGross, pool.positions)
    }

    /** The state is the outcome of all positions minted and burned so far, and of their touches. */
    ghost predicate Valid()
      reads this, pool
    {
      && Run(Empty, touches) == Ok(View())
      && AllComplete(calls) && RunCalls(Empty, calls) == Ok(View())
    }

    constructor ()
      ensures Valid() && fresh(pool) && touches == [] && calls == []
    {
      accountLiquidity, accountFeesBase := map[], map[];
      accountPremiumOwed, accountPremiumGross := map[], map[];
      pool := new UniswapPool();
      touches, calls := [], [];
    }

    /** What every completed mint and burn leaves true: Uniswap holds the sum of the net liquidities, each chunk
        records its open volumes, and no chunk has collected more than it earned. */
    lemma Invariants(k: Key, left: bool)
      requires Valid()
      ensures pool.Get(k.range).liquidity as real == Total(accountLiquidity, NetIn(k.range))
      ensures LiquidityAt(View(), k).removed == OpenVolume(calls, k, true)
      ensures LiquidityAt(View(), k).net + LiquidityAt(View(), k).removed == OpenVolume(calls, k, false)
      ensures CollectedBy(touches, k, left) * Q128 <= Earned(touches, k, left)
    {
      LiquidityConserved(touches, View());
      ChunksFollowPositions(calls, k);
      NeverOverCollects(touches, View(), k, left);
      assert pool.Get(k.range) == PositionAt(View(), k.range);
      hide Run, RunCalls, Open, OpenVolume, LiquidityAt;
    }

    /** `_updateStoredPremia`. */
    method UpdateStoredPremia(k: Key, l: Liquidity, vegoid: nat, fees: Unsigned)
      requires l.net > 0 && vegoid > 0
      modifies `accountPremiumOwed, `accountPremiumGross
      ensures var (owed, gross) := Accumulate(old(Get(accountPremiumOwed, k, Unsigned(0, 0))),
                                              old(Get(accountPremiumGross, k, Unsigned(0, 0))),
                                              Chunk(l.net, l.removed, vegoid), fees);
              && accountPremiumOwed == old(accountPremiumOwed)[k := owed]
              && accountPremiumGross == old(accountPremiumGross)[k := gross]
    {
      hide PremiaDeltas, AddCapped;
      var chunk := Chunk(l.net, l.removed, vegoid);
      var (owed0, gross0) := PremiaDeltas(chunk, fees.right);
      var (owed1, gross1) := PremiaDeltas(chunk, fees.left);
      var owed, gross := Get(accountPremiumOwed, k, Unsigned(0, 0)), Get(accountPremiumGross, k, Unsigned(0, 0));
      var (o0, g0) := AddCapped(owed.right, owed0, gross.right, gross0);
      var (o1, g1) := AddCapped(owed.left, owed1, gross.left, gross1);
      accountPremiumOwed := accountPremiumOwed[k := Unsigned(o0, o1)];
      accountPremiumGross := accountPremiumGross[k := Unsigned(g0, g1)];
    }

    /** `_collectAndWritePositionData`, for a chunk that had liquidity before this leg. */
    method CollectAndWrite(t: Touch, l: Liquidity) returns (r: Result<Unsigned>)
      requires l.net > 0 && t.vegoid > 0 && t.leg.range in pool.positions
      modifies `accountPremiumOwed, `accountPremiumGross, pool
      ensures match Collect(old(View()), t, l)
              case Ok((after, fees)) => r == Ok(fees) && View() == after
              case Revert(e) => r == Revert(e)
    {
      hide PremiaDeltas, AddCapped, Accumulate, Fee, Received, Collected;
      var k := t.ChunkKey();
      var asked := Asked(l, Get(accountFeesBase, k, Signed(0, 0)), t.leg, t.market);
      var _ :- Need(Fits(asked), Panic);
      if asked == Unsigned(0, 0) {
        return Ok(Unsigned(0, 0));
      }
      ghost var positions := pool.positions;
      var received := pool.Collect(t.leg.range, asked);
      PaidIsReceived(positions[t.leg.range], pool.positions[t.leg.range], asked, received);
      assert pool.positions == positions[t.leg.range := Pay(positions[t.leg.range], received)];
      var fees := Collected(received, t.leg, t.market);
      UpdateStoredPremia(k, l, t.vegoid, fees);
      return Ok(fees);
    }

    /** `_createLegInAMM`: record the liquidity, move it, collect, store the new base. */
    method CreateLeg(t: Touch) returns (r: Result<Unsigned>)
      modifies `accountLiquidity, `accountFeesBase, `accountPremiumOwed, `accountPremiumGross, pool
      ensures match TouchLeg(old(View()), t)
              case Ok((after, fees)) => r == Ok(fees) && View() == after
              case Revert(e) => r == Revert(e)
    {
      hide Collect, Modify, FeesBase, Next;
      var _ :- Need(t.vegoid > 0, WrongUniswapPool);
      var k := t.ChunkKey();
      var current := Get(accountLiquidity, k, Liquidity(0, 0));
      var updated :- Next(current, t.leg, t.isBurn);
      accountLiquidity := accountLiquidity[k := updated];
      ghost var p, positions := pool.Get(t.leg.range), pool.positions;
      MovesWhenItMay(p, t.leg, t.market);
      var _ :- pool.Move(t.leg, t.market);
      MovedIsModified(p, pool.Get(t.leg.range), t.leg, t.market);
      assert pool.positions == positions[t.leg.range := Modify(p, t.leg, t.market).value];
      var fees := Unsigned(0, 0);
      if current.net > 0 {
        fees :- CollectAndWrite(t, current);
      }
      accountFeesBase := accountFeesBase[k := FeesBase(t.market.growth, updated.net)];
      return Ok(fees);
    }

    /** `_createPositionInAMM`: the legs in order. */
    method CreatePosition(c: Call) returns (r: Result<seq<Unsigned>>)
      requires c.Complete()
      modifies `accountLiquidity, `accountFeesBase, `accountPremiumOwed, `accountPremiumGross, pool
      ensures match AfterLegs(old(View()), c, |c.legs|)
              case Ok((after, collected)) => r == Ok(collected) && View() == after
              case Revert(e) => r == Revert(e)
    {
      hide TouchLeg;
      ghost var m := View();
      var collected: seq<Unsigned> := [];
      var i := 0;
      while i < |c.legs|
        invariant i <= |c.legs|
        invariant AfterLegs(m, c, i) == Ok((View(), collected))
      {
        if c.legs[i].width == 0 {
          collected := collected + [Unsigned(0, 0)];
        } else {
          var leg := CreateLeg(TouchOf(c, i));
          if leg.Revert? {
            StaysReverted(m, c, i + 1, |c.legs|);
            return Revert(leg.error);
          }
          collected := collected + [leg.value];
        }
        i := i + 1;
      }
      return Ok(collected);
    }

    /** `mintTokenizedPosition` and `burnTokenizedPosition`: all legs, or nothing. */
    method Execute(c: Call) returns (r: Result<seq<Unsigned>>)
      requires Valid() && c.Complete()
      modifies this, pool
      ensures Valid()
      ensures match AfterLegs(old(View()), c, |c.legs|)
              case Ok((after, collected)) => r == Ok(collected) && View() == after
              case Revert(e) => r == Revert(e) && View() == old(View())
      ensures touches == if r.Ok? then old(touches) + Touches(c, |c.legs|) else old(touches)
      ensures calls == if r.Ok? then old(calls) + [c] else old(calls)
    {
      hide AfterLegs, Touches;
      var liquidity, feesBase, owed, gross, positions := accountLiquidity, accountFeesBase, accountPremiumOwed,
        accountPremiumGross, pool.positions;
      r := CreatePosition(c);
      if r.Ok? {
        LegsAreTouches(old(View()), c, |c.legs|);
        RunConcat(Empty, touches, Touches(c, |c.legs|));
        touches := touches + Touches(c, |c.legs|);
        assert (calls + [c])[..|calls|] == calls;
        calls := calls + [c];
      } else {
        accountLiquidity, accountFeesBase, accountPremiumOwed, accountPremiumGross := liquidity, feesBase, owed, gross;
        pool.positions := positions;
      }
    }
  }
}
