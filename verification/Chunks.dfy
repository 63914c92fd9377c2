/** Liquidity chunks: what the position manager records for every owner, token type and tick range,
    on top of the one Uniswap position it holds per tick range. */
module Chunks {
  import opened Results
  import opened FixedPoint
  import opened Premia

  const Q128: nat := 0x1_0000_0000_0000_0000_0000_0000_0000_0000

  const MAX_INT128: nat := 0x7FFF_FFFF_FFFF_FFFF_FFFF_FFFF_FFFF_FFFF

  /** Two token amounts in one word: token0 in the right slot, token1 in the left. */
  datatype Signed = Signed(right: int, left: int) {
    function At(leftSlot: bool): int {
      if leftSlot then left else right
    }
  }

  datatype Unsigned = Unsigned(right: nat, left: nat) {
    function At(leftSlot: bool): nat {
      if leftSlot then left else right
    }
  }

  type Address = nat

  datatype Range = Range(lower: int, upper: int)

  datatype Key = Key(owner: Address, tokenType: nat, range: Range)

  /** `net` is in the AMM; `removed` was sold by the owner and bought out of the AMM again. */
  datatype Liquidity = Liquidity(net: nat, removed: nat)

  /** Uniswap's record of the manager's position in one range. */
  datatype Position = Position(liquidity: nat, growth: Signed, owed: Unsigned)

  datatype Manager = Manager(
    liquidity: map<Key, Liquidity>,
    feesBase: map<Key, Signed>,
    premiumOwed: map<Key, Unsigned>,
    premiumGross: map<Key, Unsigned>,
    pool: map<Range, Position>)

  datatype Leg = Leg(tokenType: nat, isLong: bool, range: Range, liquidity: nat, width: nat)

  /** What Uniswap answers while a leg is moved: the fee growth inside the range and the tokens moved. */
  datatype Market = Market(growth: Signed, moved: Unsigned)

  /** One leg of a position being minted or burned; a burned leg comes with its direction inverted. */
  datatype Touch = Touch(owner: Address, leg: Leg, isBurn: bool, vegoid: nat, market: Market) {
    function ChunkKey(): Key {
      Key(owner, leg.tokenType, leg.range)
    }

    /** The direction the position was sold or bought with. */
    predicate Long() {
      leg.isLong != isBurn
    }
  }

  const Empty := Manager(map[], map[], map[], map[], map[])

  function Get<K, V>(m: map<K, V>, k: K, default: V): V {
    if k in m then m[k] else default
  }

  function LiquidityAt(m: Manager, k: Key): Liquidity {
    Get(m.liquidity, k, Liquidity(0, 0))
  }

  function BaseAt(m: Manager, k: Key): Signed {
    Get(m.feesBase, k, Signed(0, 0))
  }

  function PositionAt(m: Manager, r: Range): Position {
    Get(m.pool, r, Position(0, Signed(0, 0), Unsigned(0, 0)))
  }

  // ---------- one leg ----------

  /** Short legs bring liquidity in, long legs take it out; the removed part follows long positions only. */
  function Next(l: Liquidity, leg: Leg, isBurn: bool): Result<Liquidity> {
    var _ :- Need(leg.liquidity > 0, ChunkHasZeroLiquidity);
    if !leg.isLong then
      var _ :- Need(l.net + leg.liquidity <= MAX_UINT128, Panic);
      var _ :- Need(!isBurn || l.removed >= leg.liquidity, Panic);
      Ok(Liquidity(l.net + leg.liquidity, if isBurn then l.removed - leg.liquidity else l.removed))
    else
      var _ :- Need(l.net >= leg.liquidity, NotEnoughLiquidityInChunk);
      var _ :- Need(isBurn || l.removed + leg.liquidity <= MAX_UINT128, Panic);
      Ok(Liquidity(l.net - leg.liquidity, if isBurn then l.removed else l.removed + leg.liquidity))
  }

  /** Fees on `liquidity` while the growth moves, rounded down. */
  function FeesEarned(liquidity: nat, before: int, now: int): (fees: nat)
    requires liquidity == 0 || before <= now
    ensures if liquidity == 0 then fees == 0 else fees * Q128 <= liquidity * (now - before) < fees * Q128 + Q128
  {
    if liquidity == 0 then 0 else liquidity * (now - before) / Q128
  }

  /** Uniswap's mint or burn: fees so far and, for a burn, the tokens taken out become collectable.
      Fee growth never decreases while the position holds liquidity. */
  function Modify(p: Position, leg: Leg, market: Market): Result<Position> {
    var _ :- Need(p.liquidity == 0
                  || (p.growth.right <= market.growth.right && p.growth.left <= market.growth.left), ExternalFailure);
    var _ :- Need(!leg.isLong || leg.liquidity <= p.liquidity, ExternalFailure);
    var out := if leg.isLong then market.moved else Unsigned(0, 0);
    Ok(Position(if leg.isLong then p.liquidity - leg.liquidity else p.liquidity + leg.liquidity,
                market.growth,
                Unsigned(p.owed.right + FeesEarned(p.liquidity, p.growth.right, market.growth.right) + out.right,
                         p.owed.left + FeesEarned(p.liquidity, p.growth.left, market.growth.left) + out.left)))
  }

  /** `growth * liquidity / 2^128`, rounded down or up; growth may be negative. */
  function BaseDown(growth: int, liquidity: nat): (b: int)
    ensures b * Q128 <= growth * liquidity < b * Q128 + Q128
  {
    growth * liquidity / Q128
  }

  function BaseUp(growth: int, liquidity: nat): (b: int)
    ensures b * Q128 - Q128 < growth * liquidity <= b * Q128
  {
    -(-(growth * liquidity) / Q128)
  }

  function FeesBase(growth: Signed, liquidity: nat): Signed {
    Signed(BaseUp(growth.right, liquidity), BaseUp(growth.left, liquidity))
  }

  /** The fees asked for: the base now, rounded down, less the base stored, but never less than nothing. */
  function Fee(growth: int, liquidity: nat, stored: int): nat {
    if BaseDown(growth, liquidity) > stored then BaseDown(growth, liquidity) - stored else 0
  }

  function Asked(l: Liquidity, stored: Signed, leg: Leg, market: Market): Unsigned {
    var out := if leg.isLong then market.moved else Unsigned(0, 0);
    Unsigned(Fee(market.growth.right, l.net, stored.right) + out.right,
             Fee(market.growth.left, l.net, stored.left) + out.left)
  }

  /** Uniswap hands out what is asked for, up to what it owes. */
  function Received(p: Position, asked: Unsigned): Unsigned {
    Unsigned(Min(asked.right, p.owed.right), Min(asked.left, p.owed.left))
  }

  /** Fees among the tokens received; an unchecked 128-bit subtraction. */
  function Collected(received: Unsigned, leg: Leg, market: Market): Unsigned {
    if leg.isLong then
      Unsigned((received.right - market.moved.right) % (MAX_UINT128 + 1),
               (received.left - market.moved.left) % (MAX_UINT128 + 1))
    else received
  }

  /** Add to two linked accumulators; when one of them would reach the cap, neither moves. */
  function AddCapped(x: nat, dx: nat, y: nat, dy: nat): (nat, nat) {
    if Capped(x + dx) == MAX_UINT128 || Capped(y + dy) == MAX_UINT128 then (x, y) else (x + dx, y + dy)
  }

  function Accumulate(owed: Unsigned, gross: Unsigned, c: Chunk, fees: Unsigned): (Unsigned, Unsigned)
    requires c.Live()
  {
    var (o0, g0) := PremiaDeltas(c, fees.right);
    var (o1, g1) := PremiaDeltas(c, fees.left);
    var (owed0, gross0) := AddCapped(owed.right, o0, gross.right, g0);
    var (owed1, gross1) := AddCapped(owed.left, o1, gross.left, g1);
    (Unsigned(owed0, owed1), Unsigned(gross0, gross1))
  }

  predicate Fits(asked: Unsigned) {
    asked.right <= MAX_INT128 && asked.left <= MAX_INT128
  }

  /** `_collectAndWritePositionData`, on a position Uniswap has already moved, for a chunk that had liquidity
      `l` before. */
  function Collect(m: Manager, t: Touch, l: Liquidity): Result<(Manager, Unsigned)>
    requires t.vegoid > 0 && l.net > 0 && t.leg.range in m.pool
  {
    var k, p := t.ChunkKey(), m.pool[t.leg.range];
    var asked := Asked(l, BaseAt(m, k), t.leg, t.market);
    var _ :- Need(Fits(asked), Panic);
    if asked == Unsigned(0, 0) then Ok((m, Unsigned(0, 0)))
    else
      var received := Received(p, asked);
      var fees := Collected(received, t.leg, t.market);
      var (owed, gross) := Accumulate(Get(m.premiumOwed, k, Unsigned(0, 0)), Get(m.premiumGross, k, Unsigned(0, 0)),
                                      Chunk(l.net, l.removed, t.vegoid), fees);
      Ok((m.(pool := m.pool[t.leg.range := Pay(p, received)], premiumOwed := m.premiumOwed[k := owed],
             premiumGross := m.premiumGross[k := gross]),
          fees))
  }

  function Pay(p: Position, received: Unsigned): Position
    requires received.right <= p.owed.right && received.left <= p.owed.left
  {
    p.(owed := Unsigned(p.owed.right - received.right, p.owed.left - received.left))
  }

  /** `_createLegInAMM`: the manager after one leg, and the fees collected. */
  function TouchLeg(m: Manager, t: Touch): Result<(Manager, Unsigned)> {
    var _ :- Need(t.vegoid > 0, WrongUniswapPool);
    var k := t.ChunkKey();
    var current := LiquidityAt(m, k);
    var next :- Next(current, t.leg, t.isBurn);
    var p :- Modify(PositionAt(m, t.leg.range), t.leg, t.market);
    var moved := m.(liquidity := m.liquidity[k := next], pool := m.pool[t.leg.range := p]);
    var (c, fees) :- if current.net > 0 then Collect(moved, t, current) else Ok((moved, Unsigned(0, 0)));
    Ok((c.(feesBase := c.feesBase[k := FeesBase(t.market.growth, next.net)]), fees))
  }

  // ---------- positions and runs ----------

  /** A burn creates the opposite position. */
  function Flip(leg: Leg): Leg {
    leg.(isLong := !leg.isLong)
  }

  /** A mint or burn of a position; `legs` are those of the position as it was minted. */
  datatype Call = Call(owner: Address, legs: seq<Leg>, isBurn: bool, vegoid: nat, markets: seq<Market>) {
    predicate Complete() {
      |markets| == |legs|
    }
  }

  function TouchOf(c: Call, i: nat): Touch
    requires c.Complete() && i < |c.legs|
  {
    Touch(c.owner, if c.isBurn then Flip(c.legs[i]) else c.legs[i], c.isBurn, c.vegoid, c.markets[i])
  }

  /** `_createPositionInAMM` after `n` legs, with the fees collected by each; legs of width zero are loans or
      credits and touch nothing. */
  function AfterLegs(m: Manager, c: Call, n: nat): Result<(Manager, seq<Unsigned>)>
    requires c.Complete() && n <= |c.legs|
  {
    if n == 0 then Ok((m, []))
    else
      var (before, collected) :- AfterLegs(m, c, n - 1);
      if c.legs[n - 1].width == 0 then Ok((before, collected + [Unsigned(0, 0)]))
      else
        var (after, fees) :- TouchLeg(before, TouchOf(c, n - 1));
        Ok((after, collected + [fees]))
  }

  /** The touches among the first `n` legs, in order. */
  function Touches(c: Call, n: nat): seq<Touch>
    requires c.Complete() && n <= |c.legs|
  {
    if n == 0 then []
    else Touches(c, n - 1) + if c.legs[n - 1].width == 0 then [] else [TouchOf(c, n - 1)]
  }

  function Run(m: Manager, touches: seq<Touch>): Result<Manager> {
    if touches == [] then Ok(m)
    else
      var before :- Run(m, touches[..|touches| - 1]);
      var after :- TouchLeg(before, touches[|touches| - 1]);
      Ok(after.0)
  }

  lemma RunAppend(m: Manager, touches: seq<Touch>, t: Touch)
    ensures Run(m, touches + [t]) == (var before :- Run(m, touches); var after :- TouchLeg(before, t); Ok(after.0))
  {
    assert (touches + [t])[..|touches|] == touches;
  }

  lemma {:induction false} RunConcat(m: Manager, first: seq<Touch>, second: seq<Touch>)
    ensures Run(m, first + second) == (var mid :- Run(m, first); Run(mid, second))
  {
    if second == [] {
      assert first + second == first;
    } else {
      var n := |second| - 1;
      assert first + second == (first + second[..n]) + [second[n]];
      RunConcat(m, first, second[..n]);
      RunAppend(m, first + second[..n], second[n]);
    }
  }

  /** A position is its touches, one after the other. */
  lemma {:induction false} LegsAreTouches(m: Manager, c: Call, n: nat)
    requires c.Complete() && n <= |c.legs|
    ensures Run(m, Touches(c, n)) == (var r :- AfterLegs(m, c, n); Ok(r.0))
  {
    hide TouchLeg;
    if n > 0 {
      LegsAreTouches(m, c, n - 1);
      if c.legs[n - 1].width == 0 {
        assert Touches(c, n) == Touches(c, n - 1);
      } else {
        RunAppend(m, Touches(c, n - 1), TouchOf(c, n - 1));
      }
    }
  }

  /** A position that reverts at one leg reverts. */
  lemma {:induction false} StaysReverted(m: Manager, c: Call, i: nat, n: nat)
    requires c.Complete() && i <= n <= |c.legs| && AfterLegs(m, c, i).Revert?
    ensures AfterLegs(m, c, n) == Revert(AfterLegs(m, c, i).error)
  {
    hide TouchLeg;
    if i < n {
      StaysReverted(m, c, i, n - 1);
    }
  }
}
