/** Machine words: fee growth is stored modulo 2^256 and bases as int128; neither loses a fee. */
module ChunkWords {
  import opened Chunks

  const HALF: nat := 0x8000_0000_0000_0000_0000_0000_0000_0000

  /** The word holding an accumulator that wraps around. */
  function Word256(x: int): (w: nat)
    ensures w < Q128 * Q128
  {
    x % (Q128 * Q128)
  }

  predicate FitsInt128(x: int) {
    0 - HALF <= x < HALF
  }

  /** Truncation to a signed 128-bit word. */
  function Int128(x: int): (w: int)
    ensures FitsInt128(w)
    ensures FitsInt128(x) ==> w == x
  {
    (x + HALF) % Q128 - HALF
  }

  lemma Int128Wraps(x: int) returns (k: int)
    ensures Int128(x) == x + k * Q128
  {
    k := 0 - (x + HALF) / Q128;
  }

  lemma FloorShift(x: int, k: int)
    ensures (x + k * Q128) / Q128 == x / Q128 + k
  {
  }

  /** Wrapping the growth shifts a base by a multiple of 2^128. */
  lemma BaseWraps(g: int, n: nat) returns (k: int)
    ensures BaseDown(Word256(g), n) == BaseDown(g, n) + k * Q128
    ensures BaseUp(Word256(g), n) == BaseUp(g, n) + k * Q128
  {
    var laps := g / (Q128 * Q128);
    k := 0 - laps * n;
    assert Word256(g) == g - laps * (Q128 * Q128);
    LapsTimes(g, laps, n);
    FloorShift(g * n, k * Q128);
    FloorShift(0 - g * n, 0 - k * Q128);
  }

  lemma LapsTimes(g: int, laps: int, n: int)
    ensures (g - laps * (Q128 * Q128)) * n == g * n + (0 - laps * n) * Q128 * Q128
  {
  }

  /** The difference of the stored words either does not fit int128, and the source reverts, or is exactly the
      difference of the true bases, whenever that one fits. */
  lemma WrappedBasesAgree(g0: int, g1: int, n: nat)
    requires FitsInt128(BaseDown(g1, n) - BaseUp(g0, n))
    ensures var wrapped := Int128(BaseDown(Word256(g1), n)) - Int128(BaseUp(Word256(g0), n));
            FitsInt128(wrapped) ==> wrapped == BaseDown(g1, n) - BaseUp(g0, n)
  {
    var k0 := BaseWraps(g0, n);
    var k1 := BaseWraps(g1, n);
    var j1 := Int128Wraps(BaseDown(Word256(g1), n));
    var j0 := Int128Wraps(BaseUp(Word256(g0), n));
    hide BaseDown, BaseUp, Int128, Word256;
    OneFits(BaseDown(g1, n) - BaseUp(g0, n), k1 + j1 - k0 - j0);
  }

  lemma OneFits(x: int, k: int)
    requires FitsInt128(x)
    ensures FitsInt128(x + k * Q128) <==> k == 0
  {
  }
}
