/** Whole positions: what minting and burning them does to every chunk, told from the legs as they were minted. */
module ChunkPositions {
  import opened Results
  import opened FixedPoint
  import opened Premia
  import opened Chunks
  import opened ChunkLiquidity
  import opened ChunkFees
  import opened ChunkPremium

  // ---------- volumes ----------

  /** The chunk that a leg of an owner's position lies in. */
  function ChunkOf(owner: Address, leg: Leg): Key {
    Key(owner, leg.tokenType, leg.range)
  }

  /** The liquidity of the first `n` legs of a position that lie in chunk `k` and were sold, or bought; loans and
      credits have no width and no chunk. */
  function LegVolume(owner: Address, legs: seq<Leg>, n: nat, k: Key, bought: bool): nat
    requires n <= |legs|
  {
    if n == 0 then 0
    else
      var leg := legs[n - 1];
      LegVolume(owner, legs, n - 1, k, bought)
        + if leg.width > 0 && ChunkOf(owner, leg) == k && leg.isLong == bought then leg.liquidity else 0
  }

  /** The volume of all positions minted, less that of the positions burned. */
  function OpenVolume(calls: seq<Call>, k: Key, bought: bool): int {
    if calls == [] then 0
    else
      var c := calls[|calls| - 1];
      var volume := LegVolume(c.owner, c.legs, |c.legs|, k, bought);
      OpenVolume(calls[..|calls| - 1], k, bought) + if c.isBurn then 0 - volume else volume
  }

  predicate AllComplete(calls: seq<Call>) {
    forall i :: 0 <= i < |calls| ==> calls[i].Complete()
  }

  /** Positions minted and burned one after the other. */
  function RunCalls(m: Manager, calls: seq<Call>): Result<Manager>
    requires AllComplete(calls)
  {
    if calls == [] then Ok(m)
    else
      var c := calls[|calls| - 1];
      var before :- RunCalls(m, calls[..|calls| - 1]);
      var after :- AfterLegs(before, c, |c.legs|);
      Ok(after.0)
  }

  /** The first `n` legs of a mint add their volume to their chunks, and those of a burn take it off again: what was
      bought to and from the removed part, what was sold to and from the whole. */
  lemma {:induction false} LegsMoveVolume(m: Manager, c: Call, n: nat, k: Key)
    requires c.Complete() && n <= |c.legs| && AfterLegs(m, c, n).Ok?
    ensures var l, after := LiquidityAt(m, k), LiquidityAt(AfterLegs(m, c, n).value.0, k);
            var sign := if c.isBurn then -1 else 1;
            && after.removed == l.removed + sign * LegVolume(c.owner, c.legs, n, k, true)
            && after.net + after.removed == l.net + l.removed + sign * LegVolume(c.owner, c.legs, n, k, false)
  {
    if n > 0 {
      LegsMoveVolume(m, c, n - 1, k);
      hide TouchLeg, LiquidityAt;
      if c.legs[n - 1].width > 0 {
        TouchMovesVolume(AfterLegs(m, c, n - 1).value.0, TouchOf(c, n - 1), k);
      }
    }
  }

  /** In every state reached by minting and burning positions, the removed liquidity of a chunk is the volume bought in
      it, and its whole liquidity the volume sold, by the legs of the positions still open. */
  lemma {:induction false} ChunksFollowPositions(calls: seq<Call>, k: Key)
    requires AllComplete(calls) && RunCalls(Empty, calls).Ok?
    ensures var l := LiquidityAt(RunCalls(Empty, calls).value, k);
            && l.removed == OpenVolume(calls, k, true)
            && l.net + l.removed == OpenVolume(calls, k, false)
  {
    if calls != [] {
      var n := |calls| - 1;
      ChunksFollowPositions(calls[..n], k);
      LegsMoveVolume(RunCalls(Empty, calls[..n]).value, calls[n], |calls[n].legs|, k);
      hide AfterLegs, LiquidityAt, LegVolume;
    }
  }

  /** Positions are runs of touches. */
  lemma {:induction false} CallsAreTouches(calls: seq<Call>) returns (touches: seq<Touch>)
    requires AllComplete(calls) && RunCalls(Empty, calls).Ok?
    ensures Run(Empty, touches) == RunCalls(Empty, calls)
  {
    touches := [];
    if calls != [] {
      var n := |calls| - 1;
      var before := CallsAreTouches(calls[..n]);
      var c := calls[n];
      LegsAreTouches(RunCalls(Empty, calls[..n]).value, c, |c.legs|);
      RunConcat(Empty, before, Touches(c, |c.legs|));
      touches := before + Touches(c, |c.legs|);
      hide AfterLegs, Run;
    }
  }

  // ---------- fees of the legs ----------

  /** What was collected by the first `n` legs in chunk `k`. */
  function LegFees(owner: Address, legs: seq<Leg>, collected: seq<Unsigned>, n: nat, k: Key, left: bool): nat
    requires n <= |legs| && n <= |collected|
  {
    if n == 0 then 0
    else
      LegFees(owner, legs, collected, n - 1, k, left)
        + if legs[n - 1].width > 0 && ChunkOf(owner, legs[n - 1]) == k then collected[n - 1].At(left) else 0
  }

  lemma {:induction false} LegFeesPrefix(owner: Address, legs: seq<Leg>, collected: seq<Unsigned>, more: Unsigned,
                                         n: nat, k: Key, left: bool)
    requires n <= |legs| && n <= |collected|
    ensures LegFees(owner, legs, collected + [more], n, k, left) == LegFees(owner, legs, collected, n, k, left)
  {
    if n > 0 {
      LegFeesPrefix(owner, legs, collected, more, n - 1, k, left);
    }
  }

  /** One amount for each leg: nothing for a loan or credit, and for the legs in a chunk together exactly what the chunk
      collected while they were touched. */
  ghost predicate FeesOfLegs(touches: seq<Touch>, c: Call, collected: seq<Unsigned>, n: nat, k: Key, left: bool)
    requires c.Complete() && n <= |c.legs|
  {
    && |collected| == n
    && (forall i :: 0 <= i < n && c.legs[i].width == 0 ==> collected[i] == Unsigned(0, 0))
    && CollectedBy(touches + Touches(c, n), k, left)
       == CollectedBy(touches, k, left) + LegFees(c.owner, c.legs, collected, n, k, left)
  }

  lemma OneMoreFee(touches: seq<Touch>, c: Call, collected: seq<Unsigned>, n: nat, more: Unsigned, k: Key, left: bool)
    requires c.Complete() && n < |c.legs| && FeesOfLegs(touches, c, collected, n, k, left)
    requires c.legs[n].width == 0 ==> more == Unsigned(0, 0)
    requires c.legs[n].width > 0 ==>
      CollectedBy(touches + Touches(c, n) + [TouchOf(c, n)], k, left)
      == CollectedBy(touches + Touches(c, n), k, left)
         + if ChunkOf(c.owner, c.legs[n]) == k then more.At(left) else 0
    ensures FeesOfLegs(touches, c, collected + [more], n + 1, k, left)
  {
    LegFeesPrefix(c.owner, c.legs, collected, more, n, k, left);
    hide CollectedBy;
    if c.legs[n].width == 0 {
      assert touches + Touches(c, n + 1) == touches + Touches(c, n);
    } else {
      assert touches + Touches(c, n + 1) == touches + Touches(c, n) + [TouchOf(c, n)];
    }
  }

  lemma {:induction false} LegsReturnTheirFees(touches: seq<Touch>, m: Manager, c: Call, n: nat, k: Key, left: bool)
    requires Run(Empty, touches) == Ok(m) && c.Complete() && n <= |c.legs| && AfterLegs(m, c, n).Ok?
    ensures FeesOfLegs(touches, c, AfterLegs(m, c, n).value.1, n, k, left)
  {
    hide TouchLeg, Run, CollectedBy;
    if n == 0 {
      assert touches + [] == touches;
    } else {
      LegsReturnTheirFees(touches, m, c, n - 1, k, left);
      var (before, collected) := AfterLegs(m, c, n - 1).value;
      hide FeesOfLegs;
      if c.legs[n - 1].width == 0 {
        OneMoreFee(touches, c, collected, n - 1, Unsigned(0, 0), k, left);
      } else {
        LegsAreTouches(m, c, n - 1);
        RunConcat(Empty, touches, Touches(c, n - 1));
        LastLeg(m, c, n);
        hide AfterLegs, Touches;
        OneMoreTouch(touches + Touches(c, n - 1), before, TouchOf(c, n - 1), k, left);
        OneMoreFee(touches, c, collected, n - 1, TouchLeg(before, TouchOf(c, n - 1)).value.1, k, left);
      }
    }
  }

  lemma LastLeg(m: Manager, c: Call, n: nat)
    requires c.Complete() && 0 < n <= |c.legs| && AfterLegs(m, c, n).Ok? && c.legs[n - 1].width > 0
    ensures AfterLegs(m, c, n - 1).Ok?
    ensures var (before, collected) := AfterLegs(m, c, n - 1).value;
            && TouchLeg(before, TouchOf(c, n - 1)).Ok?
            && AfterLegs(m, c, n).value.1 == collected + [TouchLeg(before, TouchOf(c, n - 1)).value.1]
  {
    hide TouchLeg;
  }

  lemma OneMoreTouch(touches: seq<Touch>, m: Manager, t: Touch, k: Key, left: bool)
    requires Run(Empty, touches) == Ok(m) && TouchLeg(m, t).Ok?
    ensures CollectedBy(touches + [t], k, left)
            == CollectedBy(touches, k, left) + if t.ChunkKey() == k then TouchLeg(m, t).value.1.At(left) else 0
  {
    assert (touches + [t])[..|touches|] == touches;
    hide TouchLeg, Run;
  }

  // ---------- minting and burning ----------

  /** No two legs lie in the same chunk, as is demanded of every position. */
  predicate Discrete(legs: seq<Leg>) {
    forall i, j :: 0 <= i < j < |legs| ==>
      legs[i].tokenType != legs[j].tokenType || legs[i].range != legs[j].range
  }

  /** At leg `i` of a burn, from `b`: fee growth has not fallen, and the fees of the chunk, with the tokens taken out
      of Uniswap for a leg that was sold, fit 127 bits. */
  predicate LegCanBurn(b: Manager, c: Call, i: nat)
    requires c.Complete() && i < |c.legs|
  {
    var leg, market := c.legs[i], c.markets[i];
    var l, base := LiquidityAt(b, ChunkOf(c.owner, leg)), BaseAt(b, ChunkOf(c.owner, leg));
    && (forall left :: PositionAt(b, leg.range).growth.At(left) <= market.growth.At(left))
    && (l.net > 0 ==>
          forall left ::
            FeeAskedFor(l, base, market, left) + (if leg.isLong then 0 else market.moved.At(left))
            <= 0x7FFF_FFFF_FFFF_FFFF_FFFF_FFFF_FFFF_FFFF)
  }

  predicate CanBurn(m: Manager, c: Call)
    requires c.Complete()
  {
    forall i :: 0 <= i < |c.legs| && c.legs[i].width > 0 && AfterLegs(m, c, i).Ok? ==>
      LegCanBurn(AfterLegs(m, c, i).value.0, c, i)
  }

  /** With discrete legs, the legs of one kind before leg `i` hold nothing in its chunk. */
  lemma {:induction false} OwnChunkOnly(owner: Address, legs: seq<Leg>, i: nat, n: nat, bought: bool)
    requires Discrete(legs) && i < |legs| && n <= |legs|
    ensures LegVolume(owner, legs, n, ChunkOf(owner, legs[i]), bought)
            == if i < n && legs[i].width > 0 && legs[i].isLong == bought then legs[i].liquidity else 0
  {
    if n > 0 {
      OwnChunkOnly(owner, legs, i, n - 1, bought);
      assert n - 1 != i ==> ChunkOf(owner, legs[n - 1]) != ChunkOf(owner, legs[i]);
    }
  }

  lemma {:induction false} LegsWereMinted(m: Manager, c: Call, i: nat, n: nat)
    requires c.Complete() && i < n <= |c.legs| && AfterLegs(m, c, n).Ok? && c.legs[i].width > 0
    ensures c.legs[i].liquidity > 0 && c.vegoid > 0
  {
    hide TouchLeg;
    if i < n - 1 {
      LegsWereMinted(m, c, i, n - 1);
    } else {
      TouchNeedsLiquidity(AfterLegs(m, c, i).value.0, TouchOf(c, i));
    }
  }

  lemma TouchNeedsLiquidity(m: Manager, t: Touch)
    requires TouchLeg(m, t).Ok?
    ensures t.leg.liquidity > 0 && t.vegoid > 0
  {
  }

  /** A burn of what was just minted. */
  ghost predicate Undoes(mint: Call, burn: Call) {
    && mint.Complete() && burn.Complete() && !mint.isBurn && burn.isBurn
    && burn.owner == mint.owner && burn.legs == mint.legs && burn.vegoid == mint.vegoid
  }

  /** Before a leg is burned its chunk is as the mint left it, and the leg can go. */
  lemma BurnLegFits(m: Manager, mint: Call, burn: Call, i: nat)
    requires Undoes(mint, burn) && Discrete(mint.legs) && i < |mint.legs| && mint.legs[i].width > 0
    requires AfterLegs(m, mint, |mint.legs|).Ok?
    requires LiquidityAt(m, ChunkOf(mint.owner, mint.legs[i])).net <= MAX_UINT128
    requires AfterLegs(AfterLegs(m, mint, |mint.legs|).value.0, burn, i).Ok?
    ensures var l := LiquidityAt(AfterLegs(AfterLegs(m, mint, |mint.legs|).value.0, burn, i).value.0,
                                 ChunkOf(mint.owner, mint.legs[i]));
            var leg := mint.legs[i];
            && leg.liquidity > 0 && mint.vegoid > 0
            && (leg.isLong ==> l.net + leg.liquidity <= MAX_UINT128 && l.removed >= leg.liquidity)
            && (!leg.isLong ==> l.net >= leg.liquidity)
  {
    var k, n := ChunkOf(mint.owner, mint.legs[i]), |mint.legs|;
    var minted := AfterLegs(m, mint, n).value.0;
    LegsWereMinted(m, mint, i, n);
    LegsMoveVolume(m, mint, n, k);
    LegsMoveVolume(minted, burn, i, k);
    OwnChunkOnly(mint.owner, mint.legs, i, n, true);
    OwnChunkOnly(mint.owner, mint.legs, i, n, false);
    OwnChunkOnly(mint.owner, mint.legs, i, i, true);
    OwnChunkOnly(mint.owner, mint.legs, i, i, false);
    hide AfterLegs, LiquidityAt, LegVolume;
  }

  /** No chunk's net liquidity exceeds its 128 bits. */
  lemma {:induction false} NetFits(touches: seq<Touch>, m: Manager, k: Key)
    requires Run(Empty, touches) == Ok(m)
    ensures LiquidityAt(m, k).net <= MAX_UINT128
  {
    if touches != [] {
      var t, rest := touches[|touches| - 1], touches[..|touches| - 1];
      var before := Run(Empty, rest).value;
      NetFits(rest, before, k);
      TouchFrame(before, t);
      hide TouchLeg, FeesBase;
    }
  }

  /** Burning a position right after minting it, with any market in which fee growth has not fallen and the amounts
      fit, succeeds leg by leg. */
  lemma {:induction false} BurnSucceeds(touches: seq<Touch>, m: Manager, mint: Call, burn: Call, n: nat)
    requires Run(Empty, touches) == Ok(m) && Undoes(mint, burn) && Discrete(mint.legs) && n <= |mint.legs|
    requires AfterLegs(m, mint, |mint.legs|).Ok? && CanBurn(AfterLegs(m, mint, |mint.legs|).value.0, burn)
    ensures AfterLegs(AfterLegs(m, mint, |mint.legs|).value.0, burn, n).Ok?
  {
    hide AfterLegs, Run, CanBurn, Discrete, TouchLeg;
    if n > 0 {
      BurnSucceeds(touches, m, mint, burn, n - 1);
      NextLegBurns(touches, m, mint, burn, n - 1);
    } else {
      NoLegs(AfterLegs(m, mint, |mint.legs|).value.0, burn);
    }
  }

  lemma NoLegs(m: Manager, c: Call)
    requires c.Complete()
    ensures AfterLegs(m, c, 0) == Ok((m, []))
  {
  }

  lemma NextLegBurns(touches: seq<Touch>, m: Manager, mint: Call, burn: Call, i: nat)
    requires Run(Empty, touches) == Ok(m) && Undoes(mint, burn) && Discrete(mint.legs) && i < |mint.legs|
    requires AfterLegs(m, mint, |mint.legs|).Ok? && CanBurn(AfterLegs(m, mint, |mint.legs|).value.0, burn)
    requires AfterLegs(AfterLegs(m, mint, |mint.legs|).value.0, burn, i).Ok?
    ensures AfterLegs(AfterLegs(m, mint, |mint.legs|).value.0, burn, i + 1).Ok?
  {
    var minted := AfterLegs(m, mint, |mint.legs|).value.0;
    var b := AfterLegs(minted, burn, i).value.0;
    if mint.legs[i].width > 0 {
      assert LegCanBurn(b, burn, i);
      NetFits(touches, m, ChunkOf(mint.owner, mint.legs[i]));
      BurnLegFits(m, mint, burn, i);
      var reached := MintedTouches(touches, m, mint, burn, i);
      hide AfterLegs, Run, LegCanBurn, CanBurn, Discrete;
      LegBurns(reached, b, burn, i);
    }
    hide TouchLeg;
    OneMoreLeg(minted, burn, i);
  }

  lemma OneMoreLeg(m: Manager, c: Call, i: nat)
    requires c.Complete() && i < |c.legs| && AfterLegs(m, c, i).Ok?
    requires c.legs[i].width > 0 ==> TouchLeg(AfterLegs(m, c, i).value.0, TouchOf(c, i)).Ok?
    ensures AfterLegs(m, c, i + 1).Ok?
  {
    hide TouchLeg;
  }

  lemma MintedTouches(touches: seq<Touch>, m: Manager, mint: Call, burn: Call, n: nat) returns (reached: seq<Touch>)
    requires Run(Empty, touches) == Ok(m) && Undoes(mint, burn) && n <= |mint.legs|
    requires AfterLegs(m, mint, |mint.legs|).Ok?
    requires AfterLegs(AfterLegs(m, mint, |mint.legs|).value.0, burn, n).Ok?
    ensures Run(Empty, reached) == Ok(AfterLegs(AfterLegs(m, mint, |mint.legs|).value.0, burn, n).value.0)
  {
    var minted := AfterLegs(m, mint, |mint.legs|).value.0;
    LegsAreTouches(m, mint, |mint.legs|);
    RunConcat(Empty, touches, Touches(mint, |mint.legs|));
    LegsAreTouches(minted, burn, n);
    RunConcat(Empty, touches + Touches(mint, |mint.legs|), Touches(burn, n));
    reached := touches + Touches(mint, |mint.legs|) + Touches(burn, n);
    hide AfterLegs, Run, Touches;
  }

  lemma LegBurns(touches: seq<Touch>, b: Manager, c: Call, i: nat)
    requires Run(Empty, touches) == Ok(b) && c.Complete() && c.isBurn && i < |c.legs| && LegCanBurn(b, c, i)
    requires var l, leg := LiquidityAt(b, ChunkOf(c.owner, c.legs[i])), c.legs[i];
      && leg.liquidity > 0 && c.vegoid > 0
      && (leg.isLong ==> l.net + leg.liquidity <= MAX_UINT128 && l.removed >= leg.liquidity)
      && (!leg.isLong ==> l.net >= leg.liquidity)
    ensures TouchLeg(b, TouchOf(c, i)).Ok?
  {
    UniswapNeverLacksLiquidity(touches, b, TouchOf(c, i));
    hide Run, TouchLeg, Fee, LiquidityAt, BaseAt, PositionAt;
    var leg, market := c.legs[i], c.markets[i];
    var l, base := LiquidityAt(b, ChunkOf(c.owner, leg)), BaseAt(b, ChunkOf(c.owner, leg));
    if l.net > 0 {
      FitsBoth(l, base, TouchOf(c, i).leg, market, leg.isLong);
    }
  }

  lemma FitsBoth(l: Liquidity, base: Signed, leg: Leg, market: Market, wasLong: bool)
    requires l.net > 0 && leg.isLong == !wasLong
    requires forall left ::
      FeeAskedFor(l, base, market, left) + (if wasLong then 0 else market.moved.At(left))
      <= 0x7FFF_FFFF_FFFF_FFFF_FFFF_FFFF_FFFF_FFFF
    ensures Fits(Asked(l, base, leg, market))
  {
    hide Fee;
    assert FeeAskedFor(l, base, market, false) == Fee(market.growth.right, l.net, base.right);
    assert FeeAskedFor(l, base, market, true) == Fee(market.growth.left, l.net, base.left);
    assert market.moved.At(false) == market.moved.right && market.moved.At(true) == market.moved.left;
  }

  /** Minting a position and burning it again restores the liquidity of every chunk, and the burn succeeds whenever fee
      growth has not fallen and the amounts fit. */
  lemma BurnUndoesMint(calls: seq<Call>, mint: Call, burn: Call)
    requires AllComplete(calls) && RunCalls(Empty, calls).Ok? && Undoes(mint, burn) && Discrete(mint.legs)
    requires AfterLegs(RunCalls(Empty, calls).value, mint, |mint.legs|).Ok?
    requires CanBurn(AfterLegs(RunCalls(Empty, calls).value, mint, |mint.legs|).value.0, burn)
    ensures var minted := AfterLegs(RunCalls(Empty, calls).value, mint, |mint.legs|).value.0;
            var burned := AfterLegs(minted, burn, |burn.legs|);
            && burned.Ok?
            && forall k :: LiquidityAt(burned.value.0, k) == LiquidityAt(RunCalls(Empty, calls).value, k)
  {
    var m, n := RunCalls(Empty, calls).value, |mint.legs|;
    var touches := CallsAreTouches(calls);
    BurnSucceeds(touches, m, mint, burn, n);
    var minted := AfterLegs(m, mint, n).value.0;
    forall k
      ensures LiquidityAt(AfterLegs(minted, burn, n).value.0, k) == LiquidityAt(m, k)
    {
      LegsMoveVolume(m, mint, n, k);
      LegsMoveVolume(minted, burn, n, k);
      hide AfterLegs, LiquidityAt, LegVolume;
    }
  }

  // ---------- premium of a position ----------

  /** Neither the liquidity nor the premium of chunk `k` moved from `m` to `after`. */
  ghost predicate SameChunk(m: Manager, after: Manager, k: Key) {
    LiquidityAt(after, k) == LiquidityAt(m, k) && OwedAt(after, k) == OwedAt(m, k) && GrossAt(after, k) == GrossAt(m, k)
  }

  lemma OtherTouch(touches: seq<Touch>, m: Manager, t: Touch, k: Key)
    requires Run(Empty, touches) == Ok(m) && TouchLeg(m, t).Ok? && t.ChunkKey() != k
    ensures SameChunk(m, TouchLeg(m, t).value.0, k)
  {
    TouchFrame(m, t);
    TouchBalances(touches, m, t, false);
    hide Run, TouchLeg;
  }

  lemma LegsReach(touches: seq<Touch>, m: Manager, c: Call, n: nat)
    requires Run(Empty, touches) == Ok(m) && c.Complete() && n <= |c.legs| && AfterLegs(m, c, n).Ok?
    ensures Run(Empty, touches + Touches(c, n)) == Ok(AfterLegs(m, c, n).value.0)
  {
    LegsAreTouches(m, c, n);
    RunConcat(Empty, touches, Touches(c, n));
    hide Run, AfterLegs, Touches;
  }

  /** Chunks that no leg lies in stay as they were. */
  lemma {:induction false} OtherChunksStay(touches: seq<Touch>, m: Manager, c: Call, n: nat, k: Key)
    requires Run(Empty, touches) == Ok(m) && c.Complete() && n <= |c.legs| && AfterLegs(m, c, n).Ok?
    requires forall j :: 0 <= j < n && c.legs[j].width > 0 ==> ChunkOf(c.owner, c.legs[j]) != k
    ensures SameChunk(m, AfterLegs(m, c, n).value.0, k)
  {
    hide TouchLeg, Run, Touches, LiquidityAt, OwedAt, GrossAt;
    if n > 0 {
      OtherChunksStay(touches, m, c, n - 1, k);
      if c.legs[n - 1].width > 0 {
        LastLeg(m, c, n);
        LegsReach(touches, m, c, n - 1);
        OtherTouch(touches + Touches(c, n - 1), AfterLegs(m, c, n - 1).value.0, TouchOf(c, n - 1), k);
      }
    }
  }

  /** What leg `i` of a position makes of the premium of its chunk, for one token: nothing without liquidity, and
      otherwise the fees of the leg are booked at the liquidity the chunk had before, with the position's spread. */
  ghost predicate LegIsBooked(m: Manager, after: Manager, c: Call, fees: Unsigned, i: nat, left: bool)
    requires i < |c.legs| && c.vegoid > 0
  {
    var k := ChunkOf(c.owner, c.legs[i]);
    var l := LiquidityAt(m, k);
    if l.net == 0 then OwedAt(after, k) == OwedAt(m, k) && GrossAt(after, k) == GrossAt(m, k)
    else Booked(Chunk(l.net, l.removed, c.vegoid), fees.At(left), OwedAt(m, k).At(left), GrossAt(m, k).At(left),
                OwedAt(after, k).At(left), GrossAt(after, k).At(left))
  }

  /** Leg `i` is booked in what the first `n` legs led to. */
  ghost predicate IsBooked(m: Manager, r: Result<(Manager, seq<Unsigned>)>, c: Call, n: nat, i: nat, left: bool)
    requires i < n <= |c.legs|
  {
    r.Ok? && c.vegoid > 0 && |r.value.1| == n && LegIsBooked(m, r.value.0, c, r.value.1[i], i, left)
  }

  /** A position books the fees of each of its legs, in whatever order the legs come. */
  lemma {:induction false} PositionBooksItsFees(touches: seq<Touch>, m: Manager, c: Call, n: nat, i: nat, left: bool)
    requires Run(Empty, touches) == Ok(m) && c.Complete() && Discrete(c.legs) && i < n <= |c.legs|
    requires AfterLegs(m, c, n).Ok? && c.legs[i].width > 0
    ensures IsBooked(m, AfterLegs(m, c, n), c, n, i, left)
  {
    hide Run, AfterLegs, IsBooked, Discrete;
    EarlierLegs(m, c, n);
    if i == n - 1 {
      LastLegIsBooked(touches, m, c, i, left);
    } else {
      PositionBooksItsFees(touches, m, c, n - 1, i, left);
      EarlierLegStaysBooked(touches, m, c, n, i, left);
    }
  }

  lemma EarlierLegs(m: Manager, c: Call, n: nat)
    requires c.Complete() && 0 < n <= |c.legs| && AfterLegs(m, c, n).Ok?
    ensures AfterLegs(m, c, n - 1).Ok?
  {
    hide TouchLeg;
  }

  lemma OneFeeEach(touches: seq<Touch>, m: Manager, c: Call, n: nat)
    requires Run(Empty, touches) == Ok(m) && c.Complete() && n <= |c.legs| && AfterLegs(m, c, n).Ok?
    ensures |AfterLegs(m, c, n).value.1| == n
  {
    LegsReturnTheirFees(touches, m, c, n, Key(0, 0, Range(0, 0)), false);
    hide Run, AfterLegs, Touches, CollectedBy, LegFees;
  }

  lemma LastLegIsBooked(touches: seq<Touch>, m: Manager, c: Call, i: nat, left: bool)
    requires Run(Empty, touches) == Ok(m) && c.Complete() && Discrete(c.legs) && i < |c.legs|
    requires AfterLegs(m, c, i + 1).Ok? && c.legs[i].width > 0
    ensures IsBooked(m, AfterLegs(m, c, i + 1), c, i + 1, i, left)
  {
    LegsWereMinted(m, c, i, i + 1);
    OneFeeEach(touches, m, c, i + 1);
    LastLeg(m, c, i + 1);
    ThatIsAfter(m, c, i);
    OneFeeEach(touches, m, c, i);
    LegsReach(touches, m, c, i);
    OtherChunksStay(touches, m, c, i, ChunkOf(c.owner, c.legs[i]));
    hide TouchLeg, Run, AfterLegs, LegIsBooked, Touches, SameChunk, Discrete;
    ThisLegBooks(touches + Touches(c, i), m, AfterLegs(m, c, i).value.0, c, i, left);
  }

  lemma ThatIsAfter(m: Manager, c: Call, i: nat)
    requires c.Complete() && i < |c.legs| && AfterLegs(m, c, i + 1).Ok? && c.legs[i].width > 0
    ensures AfterLegs(m, c, i).Ok? && TouchLeg(AfterLegs(m, c, i).value.0, TouchOf(c, i)).Ok?
    ensures AfterLegs(m, c, i + 1).value.0 == TouchLeg(AfterLegs(m, c, i).value.0, TouchOf(c, i)).value.0
  {
    hide TouchLeg;
  }

  lemma EarlierLegStaysBooked(touches: seq<Touch>, m: Manager, c: Call, n: nat, i: nat, left: bool)
    requires Run(Empty, touches) == Ok(m) && c.Complete() && Discrete(c.legs) && i < n - 1 < |c.legs|
    requires AfterLegs(m, c, n).Ok? && c.legs[i].width > 0 && IsBooked(m, AfterLegs(m, c, n - 1), c, n - 1, i, left)
    ensures IsBooked(m, AfterLegs(m, c, n), c, n, i, left)
  {
    assert ChunkOf(c.owner, c.legs[n - 1]) != ChunkOf(c.owner, c.legs[i]);
    hide Run, AfterLegs, Discrete, LegIsBooked, ChunkOf, SameChunk;
    OneFeeEach(touches, m, c, n);
    SameFeesBefore(m, c, n, i);
    LastLegKeeps(touches, m, c, n, ChunkOf(c.owner, c.legs[i]));
    StaysBooked(m, AfterLegs(m, c, n - 1).value.0, AfterLegs(m, c, n).value.0, c,
                AfterLegs(m, c, n).value.1[i], i, left);
  }

  lemma LastLegKeeps(touches: seq<Touch>, m: Manager, c: Call, n: nat, k: Key)
    requires Run(Empty, touches) == Ok(m) && c.Complete() && 0 < n <= |c.legs|
    requires AfterLegs(m, c, n).Ok? && AfterLegs(m, c, n - 1).Ok? && ChunkOf(c.owner, c.legs[n - 1]) != k
    ensures SameChunk(AfterLegs(m, c, n - 1).value.0, AfterLegs(m, c, n).value.0, k)
  {
    hide TouchLeg, Run, AfterLegs, Touches, SameChunk;
    if c.legs[n - 1].width > 0 {
      ThatIsAfter(m, c, n - 1);
      LegsReach(touches, m, c, n - 1);
      OtherTouch(touches + Touches(c, n - 1), AfterLegs(m, c, n - 1).value.0, TouchOf(c, n - 1), k);
    } else {
      LoanTouchesNothing(m, c, n, k);
    }
  }

  lemma LoanTouchesNothing(m: Manager, c: Call, n: nat, k: Key)
    requires c.Complete() && 0 < n <= |c.legs| && AfterLegs(m, c, n).Ok? && c.legs[n - 1].width == 0
    ensures AfterLegs(m, c, n - 1).Ok? && SameChunk(AfterLegs(m, c, n - 1).value.0, AfterLegs(m, c, n).value.0, k)
  {
    hide TouchLeg, LiquidityAt, OwedAt, GrossAt;
  }

  lemma SameFeesBefore(m: Manager, c: Call, n: nat, i: nat)
    requires c.Complete() && i < n - 1 < |c.legs| && AfterLegs(m, c, n).Ok? && AfterLegs(m, c, n - 1).Ok?
    requires |AfterLegs(m, c, n - 1).value.1| == n - 1 && |AfterLegs(m, c, n).value.1| == n
    ensures AfterLegs(m, c, n).value.1[i] == AfterLegs(m, c, n - 1).value.1[i]
  {
    hide TouchLeg;
  }

  lemma StaysBooked(m: Manager, b: Manager, after: Manager, c: Call, fees: Unsigned, i: nat, left: bool)
    requires i < |c.legs| && c.vegoid > 0 && LegIsBooked(m, b, c, fees, i, left)
    requires SameChunk(b, after, ChunkOf(c.owner, c.legs[i]))
    ensures LegIsBooked(m, after, c, fees, i, left)
  {
    hide Booked, LiquidityAt, OwedAt, GrossAt;
  }

  lemma ThisLegBooks(touches: seq<Touch>, m: Manager, b: Manager, c: Call, i: nat, left: bool)
    requires Run(Empty, touches) == Ok(b) && c.Complete() && i < |c.legs| && c.vegoid > 0
    requires SameChunk(m, b, ChunkOf(c.owner, c.legs[i])) && TouchLeg(b, TouchOf(c, i)).Ok?
    ensures LegIsBooked(m, TouchLeg(b, TouchOf(c, i)).value.0, c, TouchLeg(b, TouchOf(c, i)).value.1, i, left)
  {
    TouchBalances(touches, b, TouchOf(c, i), left);
    hide Run, TouchLeg, LiquidityAt, OwedAt, GrossAt, Booked;
  }
}
