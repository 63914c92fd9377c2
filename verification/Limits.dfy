/** The widths and units of the sources, as powers. */
module Limits {
  import opened FixedPoint
  import opened Ledger
  import Premia
  import Chunks
  import Mining
  import PoolFactory

  lemma {:induction false} PowSum(b: nat, j: nat, k: nat)
    ensures Pow(b, j + k) == Pow(b, j) * Pow(b, k)
  {
    if j > 0 {
      PowSum(b, j - 1, k);
      Regroup(b, Pow(b, j - 1), Pow(b, k));
    }
  }

  lemma Regroup(x: nat, y: nat, z: nat)
    ensures x * (y * z) == x * y * z
  {
  }

  lemma Square(b: nat, k: nat, x: nat)
    requires Pow(b, k) == x
    ensures Pow(b, k + k) == x * x
  {
    PowSum(b, k, k);
  }

  lemma PowersOfTwo()
    ensures Pow(2, 8) == 0x100 && Pow(2, 32) == 0x1_0000_0000 && Pow(2, 64) == 0x1_0000_0000_0000_0000
    ensures Pow(2, 96) == 0x1_0000_0000_0000_0000_0000_0000
    ensures Pow(2, 104) == 0x100_0000_0000_0000_0000_0000_0000
    ensures Pow(2, 128) == 0x1_0000_0000_0000_0000_0000_0000_0000_0000
  {
    assert Pow(2, 4) == 16;
    hide Pow;
    Square(2, 4, 0x10);
    Square(2, 8, 0x100);
    Square(2, 16, 0x1_0000);
    Square(2, 32, 0x1_0000_0000);
    Square(2, 64, 0x1_0000_0000_0000_0000);
    PowSum(2, 64, 32);
    PowSum(2, 96, 8);
  }

  lemma WidePowersOfTwo()
    ensures Pow(2, 248) == 0x100_0000_0000_0000_0000_0000_0000_0000_0000_0000_0000_0000_0000_0000_0000_0000
    ensures Pow(2, 256) == 0x1_0000_0000_0000_0000_0000_0000_0000_0000_0000_0000_0000_0000_0000_0000_0000_0000
  {
    PowersOfTwo();
    hide Pow;
    Square(2, 128, 0x1_0000_0000_0000_0000_0000_0000_0000_0000);
    PowSum(2, 248, 8);
  }

  /** The vault: 256-bit shares, phantom shares of 2^248 - 1, deposits of 104 bits, fields of 128 bits, a million
      virtual shares, rates in units of 1e-18 and fees in hundredths of a percent. */
  lemma VaultUnits()
    ensures MAX_UINT256 == Pow(2, 256) - 1 && PHANTOM == Pow(2, 248) - 1 && MAX_UINT128 == Pow(2, 128) - 1
    ensures MAX_DEPOSIT == Pow(2, 104) - 1
    ensures VIRTUAL_SHARES == Pow(10, 6) && WAD == Pow(10, 18) && DECIMALS == Pow(10, 4)
  {
    PowersOfTwo();
    WidePowersOfTwo();
    assert Pow(10, 6) == 1_000_000;
    PowSum(10, 6, 6);
    PowSum(10, 12, 6);
  }

  /** Chunks: fee growth in units of 2^-128, premium in units of 2^-64, amounts of 127 bits. */
  lemma ChunkUnits()
    ensures Chunks.Q128 == Pow(2, 128) && Premia.Q64 == Pow(2, 64) && 2 * (Chunks.MAX_INT128 + 1) == Pow(2, 128)
  {
    PowersOfTwo();
  }

  /** Miners: salts of 96 bits, and the loop bound of the factory in 256 bits. */
  lemma MinerUnits()
    ensures Mining.MAX_U96 == Pow(2, 96) - 1
    ensures PoolFactory.TWO_96 == Pow(2, 96) && PoolFactory.TWO_256 == Pow(2, 256)
  {
    PowersOfTwo();
    WidePowersOfTwo();
  }
}
