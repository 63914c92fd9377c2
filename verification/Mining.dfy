/** What mining looks for: the first salt that meets a target, else the rarest address. */
module Mining {
  import opened HexZeros

  const MAX_U96: nat := 0xFFFF_FFFF_FFFF_FFFF_FFFF_FFFF

  /** The address a salt leads to; the hash behind it is left open. */
  type Derive = nat -> AccountAddress

  datatype Candidate = Candidate(salt: nat, rarity: nat, address: AccountAddress) {
    /** The last hex digit of the address. */
    function Kind(): (k: nat)
      ensures k < 16
    {
      address[19] as nat % 16
    }
  }

  function Rarity(derive: Derive, salt: nat): (r: nat)
    ensures r <= 40
  {
    LeadingZeros(derive(salt))
  }

  function CandidateAt(derive: Derive, salt: nat): Candidate {
    Candidate(salt, Rarity(derive, salt), derive(salt))
  }

  /** The digit that classes are told apart by is the last one of the address as a number. */
  lemma KindIsLastDigit(c: Candidate)
    ensures ValueOf(c.address) % 16 == c.Kind()
  {
    LastByte(c.address);
    LastDigit(ValueOf(c.address[..19]), c.address[19] as nat);
  }

  lemma LastDigit(high: nat, low: nat)
    ensures (256 * high + low) % 16 == low % 16
  {
    assert 256 * high + low == 16 * (16 * high) + low;
  }

  lemma {:induction false} LastByte(bytes: seq<Byte>)
    requires bytes != []
    ensures ValueOf(bytes) == 256 * ValueOf(bytes[..|bytes| - 1]) + bytes[|bytes| - 1] as nat
  {
    var n := |bytes| - 1;
    if n > 0 {
      LastByte(bytes[1..]);
      assert bytes[1..][..n - 1] == bytes[..n][1..];
      FrontByte(bytes, 2 * n);
      FrontByte(bytes[..n], 2 * n - 2);
      PowTwo(2 * n - 2);
      FrontAndBack(bytes[0] as nat, Pow16(2 * n), Pow16(2 * n - 2), ValueOf(bytes[..n][1..]), bytes[n] as nat);
      hide ValueOf, Pow16;
    } else {
      assert bytes[..0] == [] && bytes[1..] == [];
    }
  }

  lemma FrontAndBack(first: nat, p: nat, q: nat, middle: nat, last: nat)
    requires p == 256 * q
    ensures first * p + (256 * middle + last) == 256 * (first * q + middle) + last
  {
  }

  predicate IsBetter(candidate: Candidate, current: Candidate) {
    candidate.rarity > current.rarity || (candidate.rarity == current.rarity && candidate.salt < current.salt)
  }

  /** No salt in [start, end) meets the target. */
  ghost predicate NoHit(derive: Derive, start: nat, end: nat, target: nat) {
    forall s :: start <= s < end ==> Rarity(derive, s) < target
  }

  ghost predicate FirstHit(derive: Derive, start: nat, end: nat, target: nat, salt: nat) {
    start <= salt < end && Rarity(derive, salt) >= target && NoHit(derive, start, salt, target)
  }

  /** The highest rarity in [start, end), at its smallest salt. */
  ghost predicate Best(derive: Derive, start: nat, end: nat, salt: nat) {
    && start <= salt < end
    && forall s :: start <= s < end && s != salt ==>
         Rarity(derive, s) < Rarity(derive, salt) || (Rarity(derive, s) == Rarity(derive, salt) && salt < s)
  }

  /** What a plain scan of [start, end) that stops at the first hit answers. */
  ghost predicate Scanned(derive: Derive, start: nat, end: nat, target: nat, result: Candidate, hit: bool) {
    && result == CandidateAt(derive, result.salt)
    && if hit then FirstHit(derive, start, end, target, result.salt)
       else NoHit(derive, start, end, target) && Best(derive, start, end, result.salt)
  }

  /** A range has only one answer, so the answer cannot depend on how the range was cut up. */
  lemma ScanIsUnique(derive: Derive, start: nat, end: nat, target: nat, a: Candidate, aHit: bool, b: Candidate,
                     bHit: bool)
    requires Scanned(derive, start, end, target, a, aHit) && Scanned(derive, start, end, target, b, bHit)
    ensures a == b && aHit == bHit
  {
    assert aHit ==> Rarity(derive, a.salt) >= target;
    assert bHit ==> Rarity(derive, b.salt) >= target;
  }
}
