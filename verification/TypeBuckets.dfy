/** For every rarity and last hex digit, the smallest salt seen: a 41 by 16 table updated in place. */
module TypeBuckets {
  import opened Results
  import opened Mining

  /** A table being filled. */
  type Buckets = array2<Option<Candidate>>

  /** A finished table, by value. */
  type Table = t: seq<seq<Option<Candidate>>> | |t| == 41 && forall r :: 0 <= r < 41 ==> |t[r]| == 16
    witness seq(41, r => seq(16, k => None))

  /** The class of a salt: its row and column. */
  predicate InClass(derive: Derive, salt: nat, rarity: nat, kind: nat) {
    Rarity(derive, salt) == rarity && CandidateAt(derive, salt).Kind() == kind
  }

  ghost predicate Smallest(derive: Derive, seen: set<nat>, rarity: nat, kind: nat, slot: Option<Candidate>) {
    match slot
    case None => forall s :: s in seen ==> !InClass(derive, s, rarity, kind)
    case Some(c) =>
      && c == CandidateAt(derive, c.salt) && c.salt in seen && InClass(derive, c.salt, rarity, kind)
      && forall s :: s in seen && InClass(derive, s, rarity, kind) ==> c.salt <= s
  }

  predicate Shaped(b: Buckets) {
    b.Length0 == 41 && b.Length1 == 16
  }

  /** Every slot holds exactly the smallest seen salt of its class. */
  ghost predicate Records(b: Buckets, derive: Derive, seen: set<nat>)
    reads b
  {
    Shaped(b) && forall r, k :: 0 <= r < 41 && 0 <= k < 16 ==> Smallest(derive, seen, r, k, b[r, k])
  }

  ghost predicate Lists(t: Table, derive: Derive, seen: set<nat>) {
    forall r, k :: 0 <= r < 41 && 0 <= k < 16 ==> Smallest(derive, seen, r, k, t[r][k])
  }

  /** The table as it is now. */
  function Snapshot(b: Buckets): (t: Table)
    requires Shaped(b)
    reads b
    ensures forall r, k :: 0 <= r < 41 && 0 <= k < 16 ==> t[r][k] == b[r, k]
  {
    seq(41, r requires 0 <= r < 41 && Shaped(b) reads b => seq(16, k requires 0 <= k < 16 reads b => b[r, k]))
  }

  lemma SnapshotLists(b: Buckets, derive: Derive, seen: set<nat>)
    requires Records(b, derive, seen)
    ensures Lists(Snapshot(b), derive, seen)
  {
  }

  method EmptyTypeBuckets(ghost derive: Derive) returns (b: Buckets)
    ensures fresh(b) && Records(b, derive, {})
  {
    b := new Option<Candidate>[41, 16]((r, k) => None);
  }

  predicate Keeps(slot: Option<Candidate>, candidate: Candidate) {
    slot.Some? && slot.value.salt <= candidate.salt
  }

  method RecordTypeCandidate(b: Buckets, ghost derive: Derive, ghost seen: set<nat>, candidate: Candidate)
    requires Records(b, derive, seen) && candidate == CandidateAt(derive, candidate.salt)
    modifies b
    ensures Records(b, derive, seen + {candidate.salt})
  {
    var r, k := candidate.rarity, candidate.Kind();
    if !Keeps(b[r, k], candidate) {
      b[r, k] := Some(candidate);
    }
  }

  lemma JoinSlots(derive: Derive, s: set<nat>, t: set<nat>, rarity: nat, kind: nat, x: Option<Candidate>,
                  y: Option<Candidate>)
    requires Smallest(derive, s, rarity, kind, x) && Smallest(derive, t, rarity, kind, y)
    ensures Smallest(derive, s + t, rarity, kind, if y.Some? && !Keeps(x, y.value) then y else x)
  {
  }

  method MergeTypeBuckets(dst: Buckets, src: Table, ghost derive: Derive, ghost s: set<nat>, ghost t: set<nat>)
    requires Records(dst, derive, s) && Lists(src, derive, t)
    modifies dst
    ensures Records(dst, derive, s + t)
  {
    for rarity := 0 to 41
      invariant forall r, k :: 0 <= r < rarity && 0 <= k < 16 ==> Smallest(derive, s + t, r, k, dst[r, k])
      invariant forall r, k :: rarity <= r < 41 && 0 <= k < 16 ==> Smallest(derive, s, r, k, dst[r, k])
    {
      for kind := 0 to 16
        invariant forall r, k :: 0 <= r < 41 && 0 <= k < 16 && (r < rarity || (r == rarity && k < kind)) ==>
                    Smallest(derive, s + t, r, k, dst[r, k])
        invariant forall r, k :: 0 <= r < 41 && 0 <= k < 16 && (rarity < r || (r == rarity && kind <= k)) ==>
                    Smallest(derive, s, r, k, dst[r, k])
      {
        JoinSlots(derive, s, t, rarity, kind, dst[rarity, kind], src[rarity][kind]);
        if src[rarity][kind].Some? && !Keeps(dst[rarity, kind], src[rarity][kind].value) {
          dst[rarity, kind] := src[rarity][kind];
        }
      }
    }
  }

  /** The salts from `start` up to `stop`. */
  function Salts(start: nat, stop: nat): (salts: set<nat>)
    ensures forall s :: s in salts <==> start <= s < stop
  {
    if stop <= start then {} else Salts(start, stop - 1) + {stop - 1}
  }

  /** Salts seen by searches that all got as far as `stop`, and may have looked further. */
  ghost predicate SeenUpTo(seen: set<nat>, start: nat, stop: nat, end: nat) {
    Salts(start, stop) <= seen <= Salts(start, end)
  }

  /** A class that occurs before `stop` holds its smallest salt of the whole range; every entry is a real salt
      of its class in the range. When everything was seen, an empty slot means an empty class. */
  ghost predicate SlotIsRight(slot: Option<Candidate>, derive: Derive, start: nat, stop: nat, end: nat, rarity: nat,
                              kind: nat) {
    && ((exists s :: start <= s < stop && InClass(derive, s, rarity, kind)) ==>
        Smallest(derive, Salts(start, end), rarity, kind, slot))
    && (slot.Some? ==> start <= slot.value.salt < end && slot.value == CandidateAt(derive, slot.value.salt)
                       && InClass(derive, slot.value.salt, rarity, kind))
    && (stop == end ==> Smallest(derive, Salts(start, end), rarity, kind, slot))
  }

  lemma SmallestOfSeenIsRight(slot: Option<Candidate>, derive: Derive, seen: set<nat>, start: nat, stop: nat, end: nat,
                              rarity: nat, kind: nat)
    requires Smallest(derive, seen, rarity, kind, slot) && SeenUpTo(seen, start, stop, end)
    ensures SlotIsRight(slot, derive, start, stop, end, rarity, kind)
  {
    if s :| start <= s < stop && InClass(derive, s, rarity, kind) {
      assert s in Salts(start, stop);
    }
  }

  ghost predicate TableIsRight(t: Table, derive: Derive, start: nat, stop: nat, end: nat) {
    forall r, k :: 0 <= r < 41 && 0 <= k < 16 ==> SlotIsRight(t[r][k], derive, start, stop, end, r, k)
  }

  lemma SeenTableIsRight(t: Table, derive: Derive, seen: set<nat>, start: nat, stop: nat, end: nat)
    requires Lists(t, derive, seen) && SeenUpTo(seen, start, stop, end)
    ensures TableIsRight(t, derive, start, stop, end)
  {
    forall r, k | 0 <= r < 41 && 0 <= k < 16
      ensures SlotIsRight(t[r][k], derive, start, stop, end, r, k)
    {
      SmallestOfSeenIsRight(t[r][k], derive, seen, start, stop, end, r, k);
    }
  }

  /** There is one smallest salt of a class. */
  lemma SmallestIsUnique(derive: Derive, seen: set<nat>, rarity: nat, kind: nat, x: Option<Candidate>,
                         y: Option<Candidate>)
    requires Smallest(derive, seen, rarity, kind, x) && Smallest(derive, seen, rarity, kind, y)
    ensures x == y
  {
  }
}
