/** Splitting deployments into Safe transactions that fit a gas limit. */
module SafeBatcher {
  import opened Sequences

  const BASE_GAS_PER_CONTRACT: int := 80_000
  const GAS_PER_BYTE: int := 200

  datatype Contract = Contract(name: string, initcode: string)

  type Batch = seq<Contract>

  /** The init code is hex with its 0x: a fixed amount, and as much again for each byte. */
  function EstimateGas(c: Contract): (gas: int)
    ensures gas > 0
    ensures forall bytes: nat :: |c.initcode| == 2 + 2 * bytes ==> gas == 80_000 + 200 * bytes
  {
    BASE_GAS_PER_CONTRACT + (|c.initcode| / 2 - 1) * GAS_PER_BYTE
  }

  function GasOf(contracts: seq<Contract>): int {
    if contracts == [] then 0 else GasOf(contracts[..|contracts| - 1]) + EstimateGas(contracts[|contracts| - 1])
  }

  /** A batch within the limit, or a single contract. */
  predicate Allowed(batch: Batch, limit: int) {
    |batch| == 1 || (|batch| > 1 && GasOf(batch) <= limit)
  }

  /** The same contracts in the same order, cut into allowed batches. */
  ghost predicate Split(batches: seq<Batch>, entries: seq<Contract>, limit: int) {
    Concat(batches) == entries && forall i :: 0 <= i < |batches| ==> Allowed(batches[i], limit)
  }

  /** No batch could have taken the first contract of the next one. */
  ghost predicate Greedy(batches: seq<Batch>, limit: int)
    requires forall i :: 0 <= i < |batches| ==> |batches[i]| > 0
  {
    forall i :: 0 <= i < |batches| - 1 ==> GasOf(batches[i]) + EstimateGas(batches[i + 1][0]) > limit
  }

  lemma GasNext(contracts: seq<Contract>, c: Contract)
    ensures GasOf(contracts + [c]) == GasOf(contracts) + EstimateGas(c)
  {
    assert (contracts + [c])[..|contracts|] == contracts;
  }

  /** The loop's variables after the contracts in `done`. */
  ghost predicate Progress(batches: seq<Batch>, current: Batch, done: seq<Contract>, limit: int) {
    && Concat(batches) + current == done
    && (forall i :: 0 <= i < |batches| ==> Allowed(batches[i], limit))
    && Greedy(batches, limit)
    && (current == [] ==> batches == [])
    && (current != [] ==> Allowed(current, limit))
    && (batches != [] ==> GasOf(batches[|batches| - 1]) + EstimateGas(current[0]) > limit)
  }

  /** The current batch is full: it is closed, and the contract starts the next one. */
  lemma CloseBatch(batches: seq<Batch>, current: Batch, done: seq<Contract>, limit: int, c: Contract)
    requires Progress(batches, current, done, limit) && current != [] && GasOf(current) + EstimateGas(c) > limit
    ensures Progress(batches + [current], [c], done + [c], limit)
  {
    hide GasOf, EstimateGas, Concat;
    ConcatNext(batches, current);
    assert (batches + [current])[|batches|] == current;
  }

  lemma ExtendBatch(batches: seq<Batch>, current: Batch, done: seq<Contract>, limit: int, c: Contract)
    requires Progress(batches, current, done, limit) && (current == [] || GasOf(current) + EstimateGas(c) <= limit)
    ensures Progress(batches, current + [c], done + [c], limit)
  {
    GasNext(current, c);
    hide GasOf, EstimateGas, Concat;
    assert Concat(batches) + (current + [c]) == (Concat(batches) + current) + [c];
  }

  lemma LastBatch(batches: seq<Batch>, current: Batch, done: seq<Contract>, limit: int)
    requires Progress(batches, current, done, limit)
    ensures var all := if current == [] then batches else batches + [current];
            Split(all, done, limit) && Greedy(all, limit)
  {
    hide GasOf, EstimateGas, Concat;
    ConcatNext(batches, current);
  }

  /** The batch loop. */
  method SplitIntoBatches(entries: seq<Contract>, gasLimit: int) returns (batches: seq<Batch>)
    ensures Split(batches, entries, gasLimit)
    ensures Greedy(batches, gasLimit)
  {
    batches := [];
    var currentBatch: Batch, currentGas := [], 0;
    for i := 0 to |entries|
      invariant Progress(batches, currentBatch, entries[..i], gasLimit) && currentGas == GasOf(currentBatch)
    {
      hide Progress;
      var contract := entries[i];
      var gas := EstimateGas(contract);
      assert entries[..i + 1] == entries[..i] + [contract];
      if currentBatch != [] && currentGas + gas > gasLimit {
        CloseBatch(batches, currentBatch, entries[..i], gasLimit, contract);
        batches := batches + [currentBatch];
        currentBatch, currentGas := [], 0;
      } else {
        ExtendBatch(batches, currentBatch, entries[..i], gasLimit, contract);
      }
      GasNext(currentBatch, contract);
      assert [] + [contract] == [contract];
      currentBatch := currentBatch + [contract];
      currentGas := currentGas + gas;
    }
    assert entries[..|entries|] == entries;
    LastBatch(batches, currentBatch, entries, gasLimit);
    if currentBatch != [] {
      batches := batches + [currentBatch];
    }
  }

  // ---------- no split has fewer batches ----------

  /** How many contracts the first `k` batches hold. */
  function Reach(batches: seq<Batch>, k: nat): nat
    requires k <= |batches|
  {
    if k == 0 then 0 else Reach(batches, k - 1) + |batches[k - 1]|
  }

  lemma {:induction false} ReachIsLength(batches: seq<Batch>, k: nat)
    requires k <= |batches|
    ensures Reach(batches, k) == |Concat(batches[..k])|
  {
    if k > 0 {
      ReachIsLength(batches, k - 1);
      assert batches[..k] == batches[..k - 1] + [batches[k - 1]];
      ConcatNext(batches[..k - 1], batches[k - 1]);
    }
  }

  /** Batch `k` is the stretch of the entries between two reaches. */
  lemma {:induction false} BatchIsStretch(batches: seq<Batch>, n: nat, k: nat)
    requires k < n <= |batches|
    ensures Reach(batches, k + 1) <= |Concat(batches[..n])|
    ensures batches[k] == Concat(batches[..n])[Reach(batches, k)..Reach(batches, k + 1)]
  {
    assert batches[..n] == batches[..n - 1] + [batches[n - 1]];
    ConcatNext(batches[..n - 1], batches[n - 1]);
    ReachIsLength(batches, n - 1);
    if k < n - 1 {
      BatchIsStretch(batches, n - 1, k);
    }
  }

  lemma {:induction false} GasConcat(a: seq<Contract>, b: seq<Contract>)
    ensures GasOf(a + b) == GasOf(a) + GasOf(b)
  {
    if b == [] {
      assert a + b == a;
    } else {
      GasConcat(a, b[..|b| - 1]);
      assert (a + b)[..|a + b| - 1] == a + b[..|b| - 1];
    }
  }

  lemma {:induction false} GasNonNegative(contracts: seq<Contract>)
    ensures GasOf(contracts) >= 0
  {
    if contracts != [] {
      GasNonNegative(contracts[..|contracts| - 1]);
    }
  }

  /** A stretch inside another one needs no more gas. */
  lemma GasOfPart(entries: seq<Contract>, a: nat, b: nat, c: nat, d: nat)
    requires a <= b <= c <= d <= |entries|
    ensures GasOf(entries[b..c]) <= GasOf(entries[a..d])
  {
    assert entries[a..d] == entries[a..b] + entries[b..c] + entries[c..d];
    GasConcat(entries[a..b] + entries[b..c], entries[c..d]);
    GasConcat(entries[a..b], entries[b..c]);
    GasNonNegative(entries[a..b]);
    GasNonNegative(entries[c..d]);
  }

  /** Where a full batch ends, no allowed batch that started earlier can reach further. */
  lemma StretchEnds(entries: seq<Contract>, limit: int, g0: nat, g1: nat, o0: nat, o1: nat)
    requires o0 <= g0 < g1 < |entries| && o0 <= o1 <= |entries|
    requires GasOf(entries[g0..g1]) + EstimateGas(entries[g1]) > limit && Allowed(entries[o0..o1], limit)
    ensures o1 <= g1
  {
    if g1 < o1 {
      assert entries[g0..g1 + 1] == entries[g0..g1] + [entries[g1]];
      GasNext(entries[g0..g1], entries[g1]);
      hide GasOf, EstimateGas;
      GasOfPart(entries, o0, g0, g1 + 1, o1);
    }
  }

  lemma FullBatch(entries: seq<Contract>, limit: int, greedy: seq<Batch>, k: nat)
    requires Split(greedy, entries, limit) && Greedy(greedy, limit) && k + 1 < |greedy|
    ensures var g0, g1 := Reach(greedy, k), Reach(greedy, k + 1);
            g0 < g1 < |entries| && GasOf(entries[g0..g1]) + EstimateGas(entries[g1]) > limit
  {
    hide GasOf, EstimateGas, Concat;
    assert greedy[..|greedy|] == greedy;
    BatchIsStretch(greedy, |greedy|, k);
    BatchIsStretch(greedy, |greedy|, k + 1);
  }

  lemma OtherBatch(entries: seq<Contract>, limit: int, other: seq<Batch>, k: nat)
    requires Split(other, entries, limit) && k < |other|
    ensures Reach(other, k) <= Reach(other, k + 1) <= |entries|
            && Allowed(entries[Reach(other, k)..Reach(other, k + 1)], limit)
  {
    hide GasOf, EstimateGas, Concat;
    assert other[..|other|] == other;
    BatchIsStretch(other, |other|, k);
  }

  /** A greedy split is never behind another split. */
  lemma {:induction false} GreedyStaysAhead(entries: seq<Contract>, limit: int, greedy: seq<Batch>, other: seq<Batch>,
                                            k: nat)
    requires Split(greedy, entries, limit) && Greedy(greedy, limit) && Split(other, entries, limit)
    requires k < |greedy| && k <= |other|
    ensures Reach(other, k) <= Reach(greedy, k)
  {
    if k > 0 {
      GreedyStaysAhead(entries, limit, greedy, other, k - 1);
      FullBatch(entries, limit, greedy, k - 1);
      OtherBatch(entries, limit, other, k - 1);
      hide *;
      StretchEnds(entries, limit, Reach(greedy, k - 1), Reach(greedy, k), Reach(other, k - 1), Reach(other, k));
    }
  }

  /** No split into allowed batches that keeps the order has fewer batches than the one computed. */
  lemma FewestBatches(entries: seq<Contract>, limit: int, greedy: seq<Batch>, other: seq<Batch>)
    requires Split(greedy, entries, limit) && Greedy(greedy, limit) && Split(other, entries, limit)
    ensures |greedy| <= |other|
  {
    if |other| < |greedy| {
      var k := |other|;
      GreedyStaysAhead(entries, limit, greedy, other, k);
      ReachIsLength(other, k);
      assert other[..k] == other && greedy[..|greedy|] == greedy;
      BatchIsStretch(greedy, |greedy|, k);
    }
  }
}
