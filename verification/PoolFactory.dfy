/** The on-chain miner of the pool factory, and how far it agrees with the off-chain one. */
module PoolFactory {
  import opened Results
  import opened HexZeros
  import opened Mining

  const TWO_96: nat := MAX_U96 + 1
  const TWO_256: nat := 0x1_0000_0000_0000_0000_0000_0000_0000_0000_0000_0000_0000_0000_0000_0000_0000_0000

  /** The loop bound, in unchecked 256-bit arithmetic. */
  function MaxSalt(salt: nat, loops: nat): nat {
    (salt + loops) % TWO_256
  }

  /** What a finished run over [start, end) returns: the first hit, or the highest rarity at its smallest salt;
      a rarity of zero is never recorded and leaves the salt at zero. */
  ghost predicate Mined(derive: Derive, start: nat, end: nat, target: nat, bestSalt: nat, highestRarity: nat) {
    if !NoHit(derive, start, end, target) then
      FirstHit(derive, start, end, target, bestSalt) && highestRarity == Rarity(derive, bestSalt)
    else if exists s :: start <= s < end && Rarity(derive, s) > 0 then
      Best(derive, start, end, bestSalt) && highestRarity == Rarity(derive, bestSalt)
    else
      bestSalt == 0 && highestRarity == 0
  }

  lemma MinedNext(derive: Derive, start: nat, salt: nat, target: nat, bestSalt: nat, highestRarity: nat)
    requires start <= salt && NoHit(derive, start, salt, target)
             && Mined(derive, start, salt, target, bestSalt, highestRarity)
    requires Rarity(derive, salt) < target
    ensures NoHit(derive, start, salt + 1, target)
    ensures var rarer := Rarity(derive, salt) > highestRarity;
            Mined(derive, start, salt + 1, target, if rarer then salt else bestSalt,
                  if rarer then Rarity(derive, salt) else highestRarity)
  {
    assert Rarity(derive, salt) > highestRarity ==> Rarity(derive, salt) > 0;
  }

  lemma MinedHit(derive: Derive, start: nat, salt: nat, target: nat)
    requires start <= salt && NoHit(derive, start, salt, target) && Rarity(derive, salt) >= target
    ensures forall end :: salt < end ==> Mined(derive, start, end, target, salt, Rarity(derive, salt))
    ensures forall end, h :: FirstHit(derive, start, end, target, h) ==> h == salt
  {
  }

  lemma NothingMined(derive: Derive, start: nat, end: nat, target: nat)
    requires end <= start
    ensures NoHit(derive, start, end, target) && Mined(derive, start, end, target, 0, 0)
  {
  }

  /** Salts tried before the loop would wrap its 96-bit counter. */
  function LastSalt(salt: nat, loops: nat): nat {
    if MaxSalt(salt, loops) <= MAX_U96 then MaxSalt(salt, loops) else TWO_96
  }

  /** The answer of a call when every salt tried costs one unit of gas: it is determined for every input. */
  ghost predicate Outcome(derive: Derive, start: nat, loops: nat, target: nat, gas: nat, r: Result<(nat, nat)>) {
    // The first hit before the bound, or before the counter wraps, if the gas lasts that long.
    && (forall h :: FirstHit(derive, start, LastSalt(start, loops), target, h) ==>
          r == if start + gas > h then Ok((h, Rarity(derive, h))) else Revert(OutOfGas))
    && (NoHit(derive, start, LastSalt(start, loops), target) ==>
          if MaxSalt(start, loops) <= MAX_U96 then
            // A run to the bound is a scan.
            if gas + start >= MaxSalt(start, loops) then
              r.Ok? && Mined(derive, start, MaxSalt(start, loops), target, r.value.0, r.value.1)
            else r == Revert(OutOfGas)
          else
            // The counter wraps: the first hit from zero on, and without one no end but lack of gas.
            && (forall h :: FirstHit(derive, 0, start, target, h) ==>
                  r == if gas > TWO_96 - start + h then Ok((h, Rarity(derive, h))) else Revert(OutOfGas))
            && (NoHit(derive, 0, start, target) ==> r == Revert(OutOfGas)))
  }

  /** The loop's variables until the counter wraps, on the way back to the start, and when there is no hit at all. */
  ghost predicate Running(derive: Derive, start: nat, loops: nat, target: nat, gas: nat,
                          salt: nat, left: nat, bestSalt: nat, highestRarity: nat, wrapped: bool) {
    && salt < TWO_96 && left <= gas && start < TWO_96
    && if wrapped then
         && MaxSalt(start, loops) > MAX_U96 && NoHit(derive, start, TWO_96, target)
         && (|| NoHit(derive, 0, TWO_96, target)
             || (salt <= start && NoHit(derive, 0, salt, target) && left == gas - (TWO_96 - start) - salt))
       else
         && start <= salt && left == gas - (salt - start) && (salt <= MaxSalt(start, loops) || salt == start)
         && NoHit(derive, start, salt, target) && Mined(derive, start, salt, target, bestSalt, highestRarity)
  }

  lemma StartsRunning(derive: Derive, start: nat, loops: nat, target: nat, gas: nat)
    requires start < TWO_96
    ensures Running(derive, start, loops, target, gas, start, gas, 0, 0, false)
  {
  }

  lemma GasGone(derive: Derive, start: nat, loops: nat, target: nat, gas: nat, salt: nat, bestSalt: nat,
                highestRarity: nat, wrapped: bool)
    requires Running(derive, start, loops, target, gas, salt, 0, bestSalt, highestRarity, wrapped)
             && salt < MaxSalt(start, loops)
    ensures Outcome(derive, start, loops, target, gas, Revert(OutOfGas))
  {
    hide LeadingZeros, MaxSalt;
  }

  lemma HitFound(derive: Derive, start: nat, loops: nat, target: nat, gas: nat,
                 salt: nat, left: nat, bestSalt: nat, highestRarity: nat, wrapped: bool)
    requires Running(derive, start, loops, target, gas, salt, left, bestSalt, highestRarity, wrapped)
             && salt < MaxSalt(start, loops)
    requires left > 0 && Rarity(derive, salt) >= target
    ensures Outcome(derive, start, loops, target, gas, Ok((salt, Rarity(derive, salt))))
  {
    if !wrapped {
      MinedHit(derive, start, salt, target);
    }
    hide LeadingZeros, MaxSalt, Mined;
  }

  lemma KeepsRunning(derive: Derive, start: nat, loops: nat, target: nat, gas: nat,
                     salt: nat, left: nat, bestSalt: nat, highestRarity: nat, wrapped: bool)
    requires Running(derive, start, loops, target, gas, salt, left, bestSalt, highestRarity, wrapped)
             && salt < MaxSalt(start, loops)
    requires left > 0 && Rarity(derive, salt) < target
    ensures var rarity := Rarity(derive, salt);
            Running(derive, start, loops, target, gas, (salt + 1) % TWO_96, left - 1,
                    if rarity > highestRarity then salt else bestSalt,
                    if rarity > highestRarity then rarity else highestRarity, wrapped || salt == MAX_U96)
  {
    hide LeadingZeros, MaxSalt, Mined, Rarity;
    NextSalt(salt);
    if !wrapped {
      MinedNext(derive, start, salt, target, bestSalt, highestRarity);
      NoneBeforeZero(derive, target);
    } else {
      OneMoreTried(derive, start, salt, target);
    }
  }

  lemma NextSalt(salt: nat)
    requires salt < TWO_96
    ensures (salt + 1) % TWO_96 == if salt == MAX_U96 then 0 else salt + 1
  {
  }

  lemma NoneBeforeZero(derive: Derive, target: nat)
    ensures NoHit(derive, 0, 0, target)
  {
  }

  /** Going round again: another salt without a hit, and with the start reached there is none at all. */
  lemma OneMoreTried(derive: Derive, start: nat, salt: nat, target: nat)
    requires Rarity(derive, salt) < target && NoHit(derive, start, TWO_96, target)
    ensures NoHit(derive, 0, salt, target) ==> NoHit(derive, 0, salt + 1, target)
    ensures NoHit(derive, 0, start, target) ==> NoHit(derive, 0, TWO_96, target)
  {
    hide Rarity;
  }

  lemma BoundReached(derive: Derive, start: nat, loops: nat, target: nat, gas: nat,
                     salt: nat, left: nat, bestSalt: nat, highestRarity: nat, wrapped: bool)
    requires Running(derive, start, loops, target, gas, salt, left, bestSalt, highestRarity, wrapped)
             && salt >= MaxSalt(start, loops)
    ensures Outcome(derive, start, loops, target, gas, Ok((bestSalt, highestRarity)))
  {
    if MaxSalt(start, loops) <= start {
      NothingMined(derive, start, MaxSalt(start, loops), target);
      assert Mined(derive, start, start, target, bestSalt, highestRarity) ==> bestSalt == 0 && highestRarity == 0;
    }
    hide LeadingZeros, MaxSalt, Mined;
  }

  /** `minePoolAddress`. */
  method MinePoolAddress(derive: Derive, salt0: nat, loops: nat, target: nat, gas: nat) returns (r: Result<(nat, nat)>)
    requires salt0 < TWO_96 && loops < TWO_256
    ensures Outcome(derive, salt0, loops, target, gas, r)
  {
    hide Outcome, Running, MaxSalt, LeadingZeros;
    var maxSalt := MaxSalt(salt0, loops);
    var salt: nat, bestSalt: nat, highestRarity: nat, left: nat := salt0, 0, 0, gas;
    ghost var wrapped := false;
    StartsRunning(derive, salt0, loops, target, gas);
    while salt < maxSalt
      invariant Running(derive, salt0, loops, target, gas, salt, left, bestSalt, highestRarity, wrapped)
      decreases left
    {
      if left == 0 {
        GasGone(derive, salt0, loops, target, gas, salt, bestSalt, highestRarity, wrapped);
        return Revert(OutOfGas);
      }
      var rarity := NumberOfLeadingHexZeros(derive(salt));
      if rarity >= target {
        HitFound(derive, salt0, loops, target, gas, salt, left, bestSalt, highestRarity, wrapped);
        return Ok((salt, rarity));
      }
      KeepsRunning(derive, salt0, loops, target, gas, salt, left, bestSalt, highestRarity, wrapped);
      if rarity > highestRarity {
        highestRarity := rarity;
        bestSalt := salt;
      }
      wrapped := wrapped || salt == MAX_U96;
      salt := (salt + 1) % TWO_96;
      left := left - 1;
    }
    BoundReached(derive, salt0, loops, target, gas, salt, left, bestSalt, highestRarity, wrapped);
    return Ok((bestSalt, highestRarity));
  }

  /** Some address of the range is rare at all. */
  ghost predicate AnyRare(derive: Derive, start: nat, end: nat) {
    exists s :: start <= s < end && Rarity(derive, s) > 0
  }

  /** On a range that does not touch the end of the counter, the on-chain loop finds the same rarity as the
      off-chain search, and the same salt exactly when the range holds a hit, or any rare address, or starts at
      zero. */
  lemma OnChainAgrees(derive: Derive, start: nat, end: nat, target: nat, bestSalt: nat, highestRarity: nat,
                      result: Candidate, hit: bool)
    requires Mined(derive, start, end, target, bestSalt, highestRarity)
             && Scanned(derive, start, end, target, result, hit)
    ensures highestRarity == result.rarity
    ensures bestSalt == result.salt <==> !NoHit(derive, start, end, target) || AnyRare(derive, start, end) || start == 0
  {
    hide LeadingZeros;
    if hit {
      assert Rarity(derive, result.salt) >= target;
    } else if s :| start <= s < end && Rarity(derive, s) > 0 {
      BestIsUnique(derive, start, end, bestSalt, result.salt);
      assert s != result.salt ==> IsBetter(CandidateAt(derive, result.salt), CandidateAt(derive, s));
    } else {
      assert Rarity(derive, result.salt) == 0;
      assert start != result.salt ==> IsBetter(CandidateAt(derive, result.salt), CandidateAt(derive, start));
    }
  }

  /** The two answers for an address that is never rare: the start of the range off chain, zero on chain. */
  lemma OnChainLosesTheSalt(start: nat, end: nat, target: nat)
    requires 0 < start < end && target > 0
    ensures var derive: Derive := salt => seq(20, i => 0xFF);
            && Scanned(derive, start, end, target, CandidateAt(derive, start), false)
            && Mined(derive, start, end, target, 0, 0)
  {
    var derive: Derive := salt => seq(20, i => 0xFF);
    forall s: nat
      ensures Rarity(derive, s) == 0
    {
      assert derive(s)[0] == 0xFF;
    }
    hide LeadingZeros, Rarity;
  }

  lemma BestIsUnique(derive: Derive, start: nat, end: nat, a: nat, b: nat)
    requires Best(derive, start, end, a) && Best(derive, start, end, b)
    ensures a == b
  {
    assert a != b ==> IsBetter(CandidateAt(derive, a), CandidateAt(derive, b));
  }
}
