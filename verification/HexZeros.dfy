/** Leading zero hex digits of a 20-byte address: counted byte by byte off chain, by halving on chain. */
module HexZeros {
  import opened FixedPoint

  newtype Byte = b: int | 0 <= b < 256

  type AccountAddress = s: seq<Byte> | |s| == 20 witness seq(20, i => 0)

  /** 16 to the power of `n`. */
  function Pow16(n: nat): (p: nat)
    ensures p >= 1
  {
    if n == 0 then 1 else 16 * Pow16(n - 1)
  }

  lemma PowTwo(n: nat)
    ensures Pow16(n + 2) == 256 * Pow16(n)
  {
    assert Pow16(n + 2) == 16 * Pow16(n + 1);
  }

  /** One more byte in front. */
  lemma BytePart(b: nat, p: nat, rest: nat)
    requires b < 256 && rest < p
    ensures b * p <= b * p + rest < 256 * p
    ensures b < 16 ==> b * p + rest < 16 * p
    ensures b >= 1 ==> p <= b * p + rest
    ensures b >= 16 ==> 16 * p <= b * p + rest
  {
    MulLe(b, 255, p);
    if b < 16 {
      MulLe(b, 15, p);
    } else {
      MulLe(16, b, p);
    }
    if b >= 1 {
      MulLe(1, b, p);
    }
  }

  /** The number the bytes spell, most significant first. */
  function ValueOf(s: seq<Byte>): (v: nat)
    ensures v < Pow16(2 * |s|)
  {
    if s == [] then 0
    else
      var n := 2 * |s| - 2;
      var rest := ValueOf(s[1..]);
      assert s[0] as int * Pow16(n) + rest < Pow16(n + 2) by {
        PowTwo(n);
        BytePart(s[0] as int, Pow16(n), rest);
      }
      s[0] as int * Pow16(n) + rest
  }

  function LeadingZeros(s: seq<Byte>): (z: nat)
    ensures z <= 2 * |s|
  {
    if s == [] then 0
    else if s[0] == 0 then 2 + LeadingZeros(s[1..])
    else if s[0] < 0x10 then 1
    else 0
  }

  /** `z` of `n` hex digits are leading zeros: the value fits the remaining digits and needs all of them. */
  predicate HasLeadingZeros(value: nat, n: nat, z: nat)
    requires z <= n
  {
    value < Pow16(n - z) && (z < n ==> Pow16(n - z - 1) <= value)
  }

  lemma {:induction false} CountIsLeadingZeros(s: seq<Byte>)
    ensures HasLeadingZeros(ValueOf(s), 2 * |s|, LeadingZeros(s))
  {
    if s != [] {
      var n := 2 * |s| - 2;
      CountIsLeadingZeros(s[1..]);
      PowTwo(n);
      assert Pow16(n + 1) == 16 * Pow16(n);
      BytePart(s[0] as int, Pow16(n), ValueOf(s[1..]));
      FrontByte(s, n);
      hide Pow16;
    }
  }

  lemma FrontByte(s: seq<Byte>, n: nat)
    requires |s| > 0 && n == 2 * |s| - 2
    ensures ValueOf(s) == s[0] as int * Pow16(n) + ValueOf(s[1..])
    ensures s[0] == 0 ==> ValueOf(s) == ValueOf(s[1..])
  {
  }

  lemma {:induction false} PowMonotone(a: nat, b: nat)
    requires a <= b
    ensures Pow16(a) <= Pow16(b)
  {
    if a < b {
      PowMonotone(a, b - 1);
    }
  }

  /** Only one count fits a value. */
  lemma LeadingZerosUnique(value: nat, n: nat, y: nat, z: nat)
    requires y <= n && z <= n && HasLeadingZeros(value, n, y) && HasLeadingZeros(value, n, z)
    ensures y == z
  {
    if y < z {
      PowMonotone(n - z, n - y - 1);
    } else if z < y {
      PowMonotone(n - y, n - z - 1);
    }
  }

  /** `leading_zero_hex_chars` and `leading_zero_nibbles`. */
  method LeadingZeroHexChars(address: AccountAddress) returns (total: nat)
    ensures total == LeadingZeros(address)
    ensures HasLeadingZeros(ValueOf(address), 40, total)
  {
    CountIsLeadingZeros(address);
    total := 0;
    for i := 0 to 20
      invariant total + LeadingZeros(address[i..]) == LeadingZeros(address)
    {
      assert address[i..][0] == address[i] && address[i..][1..] == address[i + 1..];
      if address[i] == 0 {
        total := total + 2;
      } else if address[i] < 0x10 {
        total := total + 1;
        break;
      } else {
        break;
      }
    }
  }

  // ---------- on chain ----------

  /** `x` is what `x0` begins with, `r` digits short. */
  predicate Prefix(x0: nat, x: nat, r: nat) {
    x * Pow16(r) <= x0 < x * Pow16(r) + Pow16(r)
  }

  lemma {:induction false} PowAdds(a: nat, b: nat)
    ensures Pow16(a + b) == Pow16(a) * Pow16(b)
  {
    if a > 0 {
      PowAdds(a - 1, b);
      TimesThree(Pow16(a - 1), Pow16(b));
    }
  }

  lemma TimesThree(x: nat, y: nat)
    ensures 16 * (x * y) == 16 * x * y
  {
  }

  /** Shifting out `d` more digits. */
  lemma Shift(x0: nat, x: nat, r: nat, d: nat, p: nat, q: nat)
    requires p >= 1 && q == x / p
    requires p == Pow16(d) && Prefix(x0, x, r)
    ensures Prefix(x0, q, r + d)
  {
    PowAdds(d, r);
    Quotient(x0, x, Pow16(r), p);
  }

  lemma Quotient(x0: nat, x: nat, p: nat, d: nat)
    requires d >= 1 && p >= 1 && x * p <= x0 < x * p + p
    ensures x / d * (d * p) <= x0 < x / d * (d * p) + d * p
  {
    SplitProduct(x, p, d, x / d, x % d);
  }

  lemma SplitProduct(x: nat, p: nat, d: nat, q: nat, m: nat)
    requires x == q * d + m && m < d
    ensures q * (d * p) <= x * p && x * p + p <= q * (d * p) + d * p
  {
    Distribute(q, d, m, p);
    MulLe(m + 1, d, p);
  }

  lemma Distribute(q: nat, d: nat, m: nat, p: nat)
    ensures (q * d + m) * p == q * (d * p) + m * p
    ensures (m + 1) * p == m * p + p && m * p >= 0
  {
  }

  lemma PowLiterals()
    ensures Pow16(0) == 1 && Pow16(1) == 0x10 && Pow16(2) == 0x100 && Pow16(4) == 0x1_0000 && Pow16(8) == 0x1_0000_0000
    ensures Pow16(16) == 0x1_0000_0000_0000_0000
    ensures Pow16(32) == 0x1_0000_0000_0000_0000_0000_0000_0000_0000
    ensures Pow16(40) == 0x1_0000_0000_0000_0000_0000_0000_0000_0000_0000_0000
  {
    PowTwo(0);
    PowTwo(2);
    PowAdds(4, 4);
    PowAdds(8, 8);
    PowAdds(16, 16);
    PowAdds(32, 8);
  }

  /** Drops the last `d` digits of `x` when it has more than that; `p` is 16 to the power of `d`. */
  method DropDigits(ghost x0: nat, x: nat, r: nat, d: nat, p: nat) returns (y: nat, s: nat)
    requires p >= 1 && p == Pow16(d) && 0 < x < p * p && Prefix(x0, x, r)
    ensures 0 < y < p && Prefix(x0, y, s)
  {
    y, s := x, r;
    if x >= p {
      Shift(x0, x, r, d, p, x / p);
      QuotientBounds(x, p);
      y, s := x / p, r + d;
    }
  }

  lemma QuotientBounds(x: nat, p: nat)
    requires 1 <= p <= x < p * p
    ensures 1 <= x / p < p
  {
    var q := x / p;
    assert q * p <= x < (q + 1) * p;
    CancelLess(q, p, p);
    CancelLess(1, q + 1, p);
  }

  /** `mostSignificantNibble`: the index of the highest nonzero hex digit, by halving. */
  method MostSignificantNibble(x0: nat) returns (r: nat)
    requires 0 < x0 < Pow16(40)
    ensures r < 40 && Pow16(r) <= x0 < Pow16(r + 1)
  {
    PowLiterals();
    var x := x0;
    r := 0;
    assert Prefix(x0, x, 0);
    hide Pow16, Prefix;
    x, r := DropDigits(x0, x, r, 32, 0x1_0000_0000_0000_0000_0000_0000_0000_0000);
    x, r := DropDigits(x0, x, r, 16, 0x1_0000_0000_0000_0000);
    x, r := DropDigits(x0, x, r, 8, 0x1_0000_0000);
    x, r := DropDigits(x0, x, r, 4, 0x1_0000);
    x, r := DropDigits(x0, x, r, 2, 0x100);
    x, r := DropDigits(x0, x, r, 1, 0x10);
    OneDigit(x0, x, r);
    PowMonotone(40, if r < 40 then 40 else r);
  }

  lemma OneDigit(x0: nat, x: nat, r: nat)
    requires 1 <= x < 16 && Prefix(x0, x, r)
    ensures Pow16(r) <= x0 < Pow16(r + 1)
  {
    var p := Pow16(r);
    assert Pow16(r + 1) == 16 * p;
    hide Pow16;
    DigitTimes(x, p);
  }

  lemma DigitTimes(x: nat, p: nat)
    requires 1 <= x < 16
    ensures p <= x * p && x * p + p <= 16 * p
  {
    assert x * p + p == (x + 1) * p;
  }

  /** `numberOfLeadingHexZeros`. */
  method NumberOfLeadingHexZeros(address: AccountAddress) returns (z: nat)
    ensures z == LeadingZeros(address)
  {
    var value := ValueOf(address);
    CountIsLeadingZeros(address);
    if value == 0 {
      z := 40;
    } else {
      var r := MostSignificantNibble(value);
      z := 39 - r;
    }
    LeadingZerosUnique(value, 40, z, LeadingZeros(address));
  }

  /** Eight leading zeros are what lets an address be stored in 128 bits. */
  lemma FitsUint128(address: AccountAddress)
    ensures LeadingZeros(address) >= 8 <==> ValueOf(address) < 0x1_0000_0000_0000_0000_0000_0000_0000_0000
  {
    PowLiterals();
    CountIsLeadingZeros(address);
    var z := LeadingZeros(address);
    if z >= 8 {
      PowMonotone(40 - z, 32);
    } else {
      PowMonotone(32, 39 - z);
    }
    hide Pow16;
  }
}
