/** Data contracts: hex strings of init code and data, and the machine that deploys them. */
module Bytecode {
  import opened Results
  import opened HexZeros

  type Digit = d: nat | d < 16

  type HexString = seq<Digit>

  // ---------- hex ----------

  function ToHex(bytes: seq<Byte>): (hex: HexString)
    ensures |hex| == 2 * |bytes|
  {
    if bytes == [] then []
    else ToHex(bytes[..|bytes| - 1]) + [bytes[|bytes| - 1] as nat / 16, bytes[|bytes| - 1] as nat % 16]
  }

  function ToBytes(hex: HexString): (bytes: seq<Byte>)
    requires |hex| % 2 == 0
    ensures 2 * |bytes| == |hex|
  {
    if hex == [] then []
    else
      var high: int, low: int := hex[|hex| - 2], hex[|hex| - 1];
      ToBytes(hex[..|hex| - 2]) + [(16 * high + low) as Byte]
  }

  lemma {:induction false} HexRoundTrip(bytes: seq<Byte>)
    ensures ToBytes(ToHex(bytes)) == bytes
  {
    if bytes != [] {
      HexRoundTrip(bytes[..|bytes| - 1]);
      assert ToHex(bytes)[..|ToHex(bytes)| - 2] == ToHex(bytes[..|bytes| - 1]);
    }
  }

  lemma {:induction false} HexConcat(a: seq<Byte>, b: seq<Byte>)
    ensures ToHex(a + b) == ToHex(a) + ToHex(b)
  {
    if b == [] {
      assert a + b == a;
    } else {
      HexConcat(a, b[..|b| - 1]);
      assert (a + b)[..|a + b| - 1] == a + b[..|b| - 1];
    }
  }

  // ---------- numbers in hex ----------

  /** `toString(16)`. */
  function HexOf(n: nat): (s: HexString)
    ensures |s| >= 1
  {
    if n < 16 then [n] else HexOf(n / 16) + [n % 16]
  }

  /** `padStart(width, '0')`. */
  function PadStart(s: HexString, width: nat): HexString
    decreases width - |s|
  {
    if |s| >= width then s else PadStart([0] + s, width)
  }

  /** The number a string of digits spells. */
  function Spells(s: HexString): nat {
    if s == [] then 0 else 16 * Spells(s[..|s| - 1]) + s[|s| - 1]
  }

  lemma {:induction false} HexOfSpells(n: nat, width: nat)
    requires n < Pow16(width) && width >= 1
    ensures Spells(HexOf(n)) == n && |HexOf(n)| <= width
  {
    if n < 16 {
      assert HexOf(n)[..0] == [];
    } else {
      assert Pow16(width) == 16 * Pow16(width - 1);
      HexOfSpells(n / 16, width - 1);
      assert HexOf(n)[..|HexOf(n)| - 1] == HexOf(n / 16);
    }
  }

  lemma {:induction false} LeadingZeroSpells(s: HexString)
    ensures Spells([0] + s) == Spells(s)
  {
    if s == [] {
      assert ([0] + s)[..0] == [];
    } else {
      LeadingZeroSpells(s[..|s| - 1]);
      assert ([0] + s)[..|s|] == [0] + s[..|s| - 1];
    }
  }

  lemma {:induction false} PadStartSpells(s: HexString, width: nat)
    requires |s| <= width
    ensures |PadStart(s, width)| == width && Spells(PadStart(s, width)) == Spells(s)
    decreases width - |s|
  {
    if |s| < width {
      LeadingZeroSpells(s);
      PadStartSpells([0] + s, width);
    }
  }

  lemma {:induction false} SpellingIsUnique(s: HexString, t: HexString)
    requires |s| == |t| && Spells(s) == Spells(t)
    ensures s == t
  {
    if s != [] {
      SpellingIsUnique(s[..|s| - 1], t[..|t| - 1]);
      assert s == s[..|s| - 1] + [s[|s| - 1]] && t == t[..|t| - 1] + [t[|t| - 1]];
    }
  }

  /** A number below 2^32 as four bytes. */
  function Size4(n: nat): seq<Byte>
    requires n < 0x1_0000_0000
  {
    [(n / 0x100_0000) as Byte, (n / 0x1_0000 % 0x100) as Byte, (n / 0x100 % 0x100) as Byte, (n % 0x100) as Byte]
  }

  lemma Size4Hex(n: nat)
    requires n < 0x1_0000_0000
    ensures PadStart(HexOf(n), 8) == ToHex(Size4(n))
  {
    hide Pow16, HexOf, PadStart, Spells, ToHex;
    PowLiterals();
    HexOfSpells(n, 8);
    PadStartSpells(HexOf(n), 8);
    FourBytes(n / 0x100_0000, n / 0x1_0000 % 0x100, n / 0x100 % 0x100, n % 0x100);
    FourParts(n);
    SpellingIsUnique(PadStart(HexOf(n), 8), ToHex(Size4(n)));
  }

  lemma FourParts(n: nat)
    ensures ((n / 0x100_0000 * 256 + n / 0x1_0000 % 0x100) * 256 + n / 0x100 % 0x100) * 256 + n % 0x100 == n
  {
  }

  lemma FourBytes(a: nat, b: nat, c: nat, d: nat)
    requires a < 256 && b < 256 && c < 256 && d < 256
    ensures Spells(ToHex([a as Byte, b as Byte, c as Byte, d as Byte])) == ((a * 256 + b) * 256 + c) * 256 + d
  {
    TwoDigits([], a);
    TwoDigits([a as Byte], b);
    TwoDigits([a as Byte, b as Byte], c);
    TwoDigits([a as Byte, b as Byte, c as Byte], d);
    assert [] + [a as Byte] == [a as Byte];
    assert [a as Byte] + [b as Byte] == [a as Byte, b as Byte];
    assert [a as Byte, b as Byte] + [c as Byte] == [a as Byte, b as Byte, c as Byte];
    assert [a as Byte, b as Byte, c as Byte] + [d as Byte] == [a as Byte, b as Byte, c as Byte, d as Byte];
  }

  lemma TwoDigits(s: seq<Byte>, b: nat)
    requires b < 256
    ensures Spells(ToHex(s + [b as Byte])) == 256 * Spells(ToHex(s)) + b
  {
    var hex := ToHex(s + [b as Byte]);
    assert (s + [b as Byte])[..|s|] == s;
    assert hex == ToHex(s) + [b / 16, b % 16];
    assert hex[..|hex| - 1] == ToHex(s) + [b / 16];
    assert hex[..|hex| - 1][..|hex| - 2] == ToHex(s);
  }

  // ---------- deployment ----------

  datatype Machine = Machine(pc: nat, stack: seq<nat>, memory: seq<Byte>)

  /** `size` bytes from `offset`, zero beyond the end. */
  function Slice(data: seq<Byte>, offset: nat, size: nat): (s: seq<Byte>)
    ensures |s| == size
  {
    seq(size, i requires 0 <= i < size => if offset + i < |data| then data[offset + i] else 0)
  }

  function Write(memory: seq<Byte>, dest: nat, bytes: seq<Byte>): seq<Byte> {
    if bytes == [] then memory
    else Slice(memory, 0, dest) + bytes + if dest + |bytes| < |memory| then memory[dest + |bytes|..] else []
  }

  /** The instructions that data contracts use; running anything else fails. The stack's top comes first. */
  function Execute(code: seq<Byte>, m: Machine): Option<seq<Byte>>
    decreases |code| - m.pc
  {
    if m.pc >= |code| then Some([])
    else
      var op := code[m.pc];
      if op == 0x60 then                              // PUSH1
        Execute(code, Machine(m.pc + 2, [ValueOf(Slice(code, m.pc + 1, 1))] + m.stack, m.memory))
      else if op == 0x63 then                         // PUSH4
        Execute(code, Machine(m.pc + 5, [ValueOf(Slice(code, m.pc + 1, 4))] + m.stack, m.memory))
      else if op == 0x80 && |m.stack| >= 1 then       // DUP1
        Execute(code, Machine(m.pc + 1, [m.stack[0]] + m.stack, m.memory))
      else if op == 0x39 && |m.stack| >= 3 then       // CODECOPY
        Execute(code, Machine(m.pc + 1, m.stack[3..], Write(m.memory, m.stack[0], Slice(code, m.stack[1], m.stack[2]))))
      else if op == 0xF3 && |m.stack| >= 2 then       // RETURN
        Some(Slice(m.memory, m.stack[0], m.stack[1]))
      else None
  }

  /** The code left at the address a piece of init code is deployed to. */
  function Deployed(initcode: seq<Byte>): Option<seq<Byte>> {
    Execute(initcode, Machine(0, [], []))
  }

  /** "80600E6000396000F3": DUP1 PUSH1(14) PUSH1(0) CODECOPY PUSH1(0) RETURN. */
  function CopyAndReturnHex(): HexString {
    [8, 0, 6, 0, 0, 0xE, 6, 0, 0, 0, 3, 9, 6, 0, 0, 0, 0xF, 3]
  }

  function CopyAndReturn(): (code: seq<Byte>)
    ensures |code| == 9
  {
    [0x80, 0x60, 0x0E, 0x60, 0x00, 0x39, 0x60, 0x00, 0xF3]
  }

  /** The hex string `prependInitcode` makes of a contract's data. */
  function Initcode(hex: HexString): HexString {
    [6, 3] + PadStart(HexOf(|hex| / 2), 8) + CopyAndReturnHex() + hex
  }

  function Header(size: nat): (code: seq<Byte>)
    requires size < 0x1_0000_0000
    ensures |code| == 14
  {
    [0x63] + Size4(size) + CopyAndReturn()
  }

  lemma HexNext(s: seq<Byte>, b: Byte)
    ensures ToHex(s + [b]) == ToHex(s) + [b as nat / 16, b as nat % 16]
  {
    assert (s + [b])[..|s|] == s;
  }

  lemma HexByte(b: Byte)
    ensures ToHex([b]) == [b as nat / 16, b as nat % 16]
  {
    HexNext([], b);
    assert [] + [b] == [b];
  }

  lemma CopyAndReturnInHex()
    ensures ToHex(CopyAndReturn()) == CopyAndReturnHex()
  {
    hide ToHex;
    HexByte(0x80);
    HexNext([0x80], 0x60);
    HexNext([0x80, 0x60], 0x0E);
    HexNext([0x80, 0x60, 0x0E], 0x60);
    HexNext([0x80, 0x60, 0x0E, 0x60], 0x00);
    HexNext([0x80, 0x60, 0x0E, 0x60, 0x00], 0x39);
    HexNext([0x80, 0x60, 0x0E, 0x60, 0x00, 0x39], 0x60);
    HexNext([0x80, 0x60, 0x0E, 0x60, 0x00, 0x39, 0x60], 0x00);
    HexNext([0x80, 0x60, 0x0E, 0x60, 0x00, 0x39, 0x60, 0x00], 0xF3);
    assert [0x80] + [0x60] == [0x80, 0x60];
    assert [0x80, 0x60] + [0x0E] == [0x80, 0x60, 0x0E];
    assert [0x80, 0x60, 0x0E] + [0x60] == [0x80, 0x60, 0x0E, 0x60];
    assert [0x80, 0x60, 0x0E, 0x60] + [0x00] == [0x80, 0x60, 0x0E, 0x60, 0x00];
    assert [0x80, 0x60, 0x0E, 0x60, 0x00] + [0x39] == [0x80, 0x60, 0x0E, 0x60, 0x00, 0x39];
    assert [0x80, 0x60, 0x0E, 0x60, 0x00, 0x39] + [0x60] == [0x80, 0x60, 0x0E, 0x60, 0x00, 0x39, 0x60];
    assert [0x80, 0x60, 0x0E, 0x60, 0x00, 0x39, 0x60] + [0x00] == [0x80, 0x60, 0x0E, 0x60, 0x00, 0x39, 0x60, 0x00];
    assert [0x80, 0x60, 0x0E, 0x60, 0x00, 0x39, 0x60, 0x00] + [0xF3] == CopyAndReturn();
  }

  lemma HeaderHex(size: nat)
    requires size < 0x1_0000_0000
    ensures ToHex(Header(size)) == [6, 3] + PadStart(HexOf(size), 8) + CopyAndReturnHex()
  {
    Size4Hex(size);
    CopyAndReturnInHex();
    HexByte(0x63);
    hide ToHex, Size4, PadStart, HexOf, CopyAndReturn, CopyAndReturnHex;
    HexConcat([0x63], Size4(size));
    HexConcat([0x63] + Size4(size), CopyAndReturn());
  }

  lemma InitcodeHex(data: seq<Byte>)
    requires |data| < 0x1_0000_0000
    ensures Initcode(ToHex(data)) == ToHex(Header(|data|)) + ToHex(data)
  {
    hide ToHex, Header, PadStart, HexOf, CopyAndReturnHex, Size4;
    HeaderHex(|data|);
    assert |ToHex(data)| / 2 == |data|;
    HeadOf(ToHex(data));
    hide Initcode;
  }

  lemma HeadOf(hex: HexString)
    ensures Initcode(hex) == [6, 3] + PadStart(HexOf(|hex| / 2), 8) + CopyAndReturnHex() + hex
  {
  }

  /** The hex string is the init code: read as bytes, it is the fourteen bytes of the header and the data. */
  lemma InitcodeIsBytes(data: seq<Byte>)
    requires |data| < 0x1_0000_0000
    ensures |Initcode(ToHex(data))| % 2 == 0 && ToBytes(Initcode(ToHex(data))) == Header(|data|) + data
  {
    hide ToHex, ToBytes, Header, Initcode;
    InitcodeHex(data);
    HexConcat(Header(|data|), data);
    HexRoundTrip(Header(|data|) + data);
  }

  /** Running the header of some data on its own deployment returns the data. */
  lemma HeaderReturns(data: seq<Byte>)
    requires |data| < 0x1_0000_0000
    ensures Deployed(Header(|data|) + data) == Some(data)
  {
    var n := |data|;
    var code := Header(n) + data;
    var copied := Write([], 0, Slice(code, 14, n));
    CodeAt(data);
    hide Header, ValueOf, Slice, Write;
    var s1: seq<nat> := [n] + [];
    var s2 := [s1[0]] + s1;
    var s3: seq<nat> := [14] + s2;
    var s4: seq<nat> := [0] + s3;
    var s5 := s4[3..];
    var s6: seq<nat> := [0] + s5;
    assert Execute(code, Machine(0, [], [])) == Execute(code, Machine(5, s1, []));
    assert Execute(code, Machine(5, s1, [])) == Execute(code, Machine(6, s2, []));
    assert Execute(code, Machine(6, s2, [])) == Execute(code, Machine(8, s3, []));
    assert Execute(code, Machine(8, s3, [])) == Execute(code, Machine(10, s4, []));
    assert Execute(code, Machine(10, s4, [])) == Execute(code, Machine(11, s5, copied));
    assert Execute(code, Machine(11, s5, copied)) == Execute(code, Machine(13, s6, copied));
    assert Execute(code, Machine(13, s6, copied)) == Some(Slice(copied, 0, n));
    CopiedIsData(data);
  }

  /** The bytes of the header, and the numbers its pushes spell. */
  lemma CodeAt(data: seq<Byte>)
    requires |data| < 0x1_0000_0000
    ensures var code := Header(|data|) + data;
            && |code| >= 14 && code[0] == 0x63 && code[5] == 0x80 && code[6] == 0x60 && code[8] == 0x60
            && code[10] == 0x39 && code[11] == 0x60 && code[13] == 0xF3
            && ValueOf(Slice(code, 1, 4)) == |data| && ValueOf(Slice(code, 7, 1)) == 14
            && ValueOf(Slice(code, 9, 1)) == 0 && ValueOf(Slice(code, 12, 1)) == 0
  {
    var code := Header(|data|) + data;
    assert Slice(code, 1, 4) == Size4(|data|);
    Size4Value(|data|);
    assert Slice(code, 7, 1) == [0x0E] && Slice(code, 9, 1) == [0] && Slice(code, 12, 1) == [0];
    ByteValue(0x0E);
    ByteValue(0);
  }

  lemma ByteValue(b: Byte)
    ensures ValueOf([b]) == b as nat
  {
    assert [b][1..] == [];
  }

  lemma Size4Value(n: nat)
    requires n < 0x1_0000_0000
    ensures ValueOf(Size4(n)) == n
  {
    var s := Size4(n);
    PowLiterals();
    ByteValue(s[3]);
    assert s[1..][1..][1..] == [s[3]];
    FrontByte(s, 6);
    FrontByte(s[1..], 4);
    FrontByte(s[1..][1..], 2);
    assert Pow16(6) == 0x100_0000 by {
      PowTwo(4);
    }
    FourParts(n);
    hide ValueOf, Pow16;
  }

  lemma CopiedIsData(data: seq<Byte>)
    requires |data| < 0x1_0000_0000
    ensures Slice(Write([], 0, Slice(Header(|data|) + data, 14, |data|)), 0, |data|) == data
  {
    hide Header;
    assert Slice(Header(|data|) + data, 14, |data|) == data;
  }

  /** A data contract deployed from its init code holds exactly the data. */
  lemma DeploysItsData(data: seq<Byte>)
    requires |data| < 0x1_0000_0000
    ensures |Initcode(ToHex(data))| % 2 == 0
    ensures Deployed(ToBytes(Initcode(ToHex(data)))) == Some(data)
  {
    InitcodeIsBytes(data);
    HeaderReturns(data);
    hide Initcode, ToHex, ToBytes, Deployed;
  }
}
