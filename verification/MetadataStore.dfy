/** Pointers in one word, the on-chain mapping they are stored in, and reading a value back. */
module MetadataStore {
  import opened Results
  import opened FixedPoint
  import opened HexZeros
  import opened Sequences
  import opened Bytecode
  import opened MetadataCompiler

  const TWO_48: nat := 0x1_0000_0000_0000
  const TWO_160: nat := 0x1_0000_0000_0000_0000_0000_0000_0000_0000_0000_0000

  // ---------- pointer words ----------

  /** (size << 208) + (start << 160) + address. */
  function PointerWord(p: Place, address: nat): nat {
    (p.size * TWO_48 + p.start) * TWO_160 + address
  }

  function Location(word: nat): nat {
    word % TWO_160
  }

  function Start(word: nat): nat {
    word / TWO_160 % TWO_48
  }

  function Size(word: nat): nat {
    word / TWO_160 / TWO_48 % TWO_48
  }

  /** A word whose fields fit gives its three fields back. */
  lemma PointerRoundTrip(p: Place, address: nat)
    requires p.size < TWO_48 && p.start < TWO_48 && address < TWO_160
    ensures var word := PointerWord(p, address);
            Location(word) == address && Start(word) == p.start && Size(word) == p.size
  {
    var high := p.size * TWO_48 + p.start;
    assert PointerWord(p, address) / TWO_160 == high;
    assert high / TWO_48 == p.size;
  }

  /** The words of all pointers; a contract without an address is an error. */
  function PointerWords(pointers: seq<seq<Place>>, addresses: seq<nat>): (r: Option<seq<seq<nat>>>)
    ensures r.Some? <==> forall i, j :: 0 <= i < |pointers| && 0 <= j < |pointers[i]| ==>
            pointers[i][j].codeIndex < |addresses|
  {
    if forall i, j :: 0 <= i < |pointers| && 0 <= j < |pointers[i]| ==> pointers[i][j].codeIndex < |addresses| then
      Some(seq(|pointers|, i requires 0 <= i < |pointers| =>
             seq(|pointers[i]|, j requires 0 <= j < |pointers[i]| && pointers[i][j].codeIndex < |addresses| =>
               PointerWord(pointers[i][j], addresses[pointers[i][j].codeIndex]))))
    else None
  }

  // ---------- storing ----------

  type Slots = map<(nat, nat), nat>

  /** What the constructor's loops need: a row of indices for each property and a pointer for each index. */
  predicate WellShaped(properties: seq<nat>, indices: seq<seq<nat>>, pointers: seq<seq<nat>>) {
    && |properties| <= |indices|
    && forall i :: 0 <= i < |properties| && |indices[i]| > 0 ==> i < |pointers| && |indices[i]| <= |pointers[i]|
  }

  /** The mapping after the first `j` entries of a row. */
  function RowStored(m: Slots, property: nat, indices: seq<nat>, pointers: seq<nat>, j: nat): Slots
    requires j <= |indices| && j <= |pointers|
  {
    if j == 0 then m
    else RowStored(m, property, indices, pointers, j - 1)[(property, indices[j - 1]) := pointers[j - 1]]
  }

  /** The mapping after the first `i` rows. */
  function RowsStored(properties: seq<nat>, indices: seq<seq<nat>>, pointers: seq<seq<nat>>, i: nat): Slots
    requires i <= |properties| && WellShaped(properties[..i], indices, pointers)
  {
    if i == 0 then map[]
    else
      assert WellShaped(properties[..i - 1], indices, pointers);
      var before := RowsStored(properties, indices, pointers, i - 1);
      if |indices[i - 1]| == 0 then before
      else RowStored(before, properties[i - 1], indices[i - 1], pointers[i - 1], |indices[i - 1]|)
  }

  class MetadataStore {
    var metadata: Slots

    constructor ()
      ensures metadata == map[]
    {
      metadata := map[];
    }

    /** The constructor's nested loops; they fail only on rows of different lengths. */
    method Store(properties: seq<nat>, indices: seq<seq<nat>>, pointers: seq<seq<nat>>) returns (r: Result<()>)
      requires metadata == map[]
      modifies this
      ensures r.Ok? <==> WellShaped(properties, indices, pointers)
      ensures r.Ok? ==> WellShaped(properties[..|properties|], indices, pointers)
                        && metadata == RowsStored(properties, indices, pointers, |properties|)
    {
      var i := 0;
      while i != |properties|
        invariant i <= |properties| && WellShaped(properties[..i], indices, pointers)
        invariant metadata == RowsStored(properties, indices, pointers, i)
        decreases |properties| - i
      {
        if i >= |indices| {
          return Revert(Panic);
        }
        ghost var before := metadata;
        var j := 0;
        while j != |indices[i]|
          invariant j <= |indices[i]| && (j > 0 ==> i < |pointers| && j <= |pointers[i]|)
          invariant if j == 0 then metadata == before
                    else metadata == RowStored(before, properties[i], indices[i], pointers[i], j)
          decreases |indices[i]| - j
        {
          if i >= |pointers| || j >= |pointers[i]| {
            return Revert(Panic);
          }
          metadata := metadata[(properties[i], indices[i][j]) := pointers[i][j]];
          j := j + 1;
        }
        i := i + 1;
      }
      assert properties[..i] == properties;
      return Ok(());
    }
  }

  /** No other entry comes after (i, j) under the same keys. */
  predicate LastUnder(properties: seq<nat>, indices: seq<seq<nat>>, i: nat, j: nat)
    requires |properties| <= |indices| && i < |properties| && j < |indices[i]|
  {
    && (forall b :: j < b < |indices[i]| ==> indices[i][b] != indices[i][j])
    && (forall a :: i < a < |properties| && properties[a] == properties[i] ==> indices[i][j] !in indices[a])
  }

  lemma {:induction false} RowKeeps(m: Slots, property: nat, indices: seq<nat>, pointers: seq<nat>, n: nat,
                                    k: (nat, nat))
    requires n <= |indices| && n <= |pointers| && (k.0 != property || k.1 !in indices[..n])
    ensures k in RowStored(m, property, indices, pointers, n) <==> k in m
    ensures k in m ==> RowStored(m, property, indices, pointers, n)[k] == m[k]
  {
    if n > 0 {
      assert indices[..n][..n - 1] == indices[..n - 1] && indices[n - 1] == indices[..n][n - 1];
      RowKeeps(m, property, indices, pointers, n - 1, k);
    }
  }

  lemma {:induction false} RowHolds(m: Slots, property: nat, indices: seq<nat>, pointers: seq<nat>, n: nat, j: nat)
    requires j < n <= |indices| && n <= |pointers| && forall b :: j < b < n ==> indices[b] != indices[j]
    ensures var after := RowStored(m, property, indices, pointers, n);
            (property, indices[j]) in after && after[(property, indices[j])] == pointers[j]
  {
    if j < n - 1 {
      RowHolds(m, property, indices, pointers, n - 1, j);
    }
  }

  /** Of all entries stored under the same keys, the last one is found. */
  lemma {:induction false} LastEntryIsFound(properties: seq<nat>, indices: seq<seq<nat>>, pointers: seq<seq<nat>>,
                                            n: nat, i: nat, j: nat)
    requires |properties| <= |indices| && i < n <= |properties| && WellShaped(properties[..n], indices, pointers)
    requires j < |indices[i]| && i < |pointers| && j < |pointers[i]| && LastUnder(properties[..n], indices, i, j)
    ensures var m := RowsStored(properties, indices, pointers, n);
            (properties[i], indices[i][j]) in m && m[(properties[i], indices[i][j])] == pointers[i][j]
  {
    assert properties[..n][i] == properties[i];
    assert WellShaped(properties[..n - 1], indices, pointers);
    var before := RowsStored(properties, indices, pointers, n - 1);
    if i < n - 1 {
      assert LastUnder(properties[..n - 1], indices, i, j);
      LastEntryIsFound(properties, indices, pointers, n - 1, i, j);
      if |indices[n - 1]| > 0 {
        assert properties[..n][n - 1] == properties[n - 1];
        assert indices[n - 1][..|indices[n - 1]|] == indices[n - 1];
        RowKeeps(before, properties[n - 1], indices[n - 1], pointers[n - 1], |indices[n - 1]|,
                 (properties[i], indices[i][j]));
      }
    } else {
      RowHolds(before, properties[i], indices[i], pointers[i], |indices[i]|, j);
    }
  }

  // ---------- keys ----------

  /** At most 32 bytes, not ending in a zero. */
  predicate ProperKey(key: Bytes) {
    |key| <= 32 && (key != [] ==> key[|key| - 1] != 0)
  }

  lemma {:induction false} ValueIsUnique(s: seq<Byte>, t: seq<Byte>)
    requires |s| == |t| && ValueOf(s) == ValueOf(t)
    ensures s == t
  {
    if s != [] {
      var n := 2 * |s| - 2;
      FrontByte(s, n);
      FrontByte(t, n);
      SameParts(s[0] as int, ValueOf(s[1..]), t[0] as int, ValueOf(t[1..]), Pow16(n));
      ValueIsUnique(s[1..], t[1..]);
      assert s == [s[0]] + s[1..] && t == [t[0]] + t[1..];
    }
  }

  lemma SameParts(a: nat, x: nat, b: nat, y: nat, p: nat)
    requires x < p && y < p && a * p + x == b * p + y
    ensures a == b && x == y
  {
    if a < b {
      MulLe(a + 1, b, p);
    } else if b < a {
      MulLe(b + 1, a, p);
    }
  }

  /** Distinct proper keys are distinct numbers. */
  lemma KeyWordIsUnique(a: Bytes, b: Bytes)
    requires ProperKey(a) && ProperKey(b)
    ensures KeyWord(a) == KeyWord(b) <==> a == b
  {
    var x, y := a + Zeros(32 - |a|), b + Zeros(32 - |b|);
    assert |a| < |b| ==> x[|b| - 1] == 0 && y[|b| - 1] != 0;
    assert |b| < |a| ==> y[|a| - 1] == 0 && x[|a| - 1] != 0;
    assert x[..|a|] == a && y[..|b|] == b;
    if KeyWord(a) == KeyWord(b) {
      ValueIsUnique(x, y);
    }
  }

  /** A key is the number of its bytes, followed by zeros up to 32 bytes. */
  lemma {:induction false} KeysAreLeftAligned(key: Bytes, padding: nat)
    requires |key| + padding == 32
    ensures KeyWord(key) == ValueOf(key) * Pow16(2 * padding)
  {
    ZerosAdded(key, padding);
  }

  lemma {:induction false} ZerosAdded(key: Bytes, n: nat)
    ensures ValueOf(key + Zeros(n)) == ValueOf(key) * Pow16(2 * n)
  {
    if key == [] {
      assert key + Zeros(n) == Zeros(n);
      ZerosAreZero(n);
    } else {
      ZerosAdded(key[1..], n);
      assert (key + Zeros(n))[1..] == key[1..] + Zeros(n);
      FrontByte(key + Zeros(n), 2 * |key| + 2 * n - 2);
      FrontByte(key, 2 * |key| - 2);
      PowAdds(2 * |key| - 2, 2 * n);
      Shifted(key[0] as nat, Pow16(2 * |key| - 2), Pow16(2 * n), ValueOf(key[1..]));
      hide ValueOf, Pow16;
    }
  }

  lemma Shifted(first: nat, p: nat, q: nat, rest: nat)
    ensures first * (p * q) + rest * q == (first * p + rest) * q
  {
  }

  lemma {:induction false} ZerosAreZero(n: nat)
    ensures ValueOf(Zeros(n)) == 0
  {
    if n > 0 {
      ZerosAreZero(n - 1);
      assert Zeros(n)[1..] == Zeros(n - 1);
      FrontByte(Zeros(n), 2 * n - 2);
    }
  }

  predicate WellNamed(entries: seq<Entry>) {
    && (forall r :: 0 <= r < |entries| ==> ProperKey(entries[r].name) && KeysDiffer(entries[r].property))
    && (forall r, s :: 0 <= r < s < |entries| ==> entries[r].name != entries[s].name)
  }

  predicate KeysDiffer(p: Property) {
    p.Dict? ==>
      && (forall i :: 0 <= i < |p.items| ==> ProperKey(p.items[i].0))
      && (forall i, j :: 0 <= i < j < |p.items| ==> p.items[i].0 != p.items[j].0)
  }

  lemma IndexIsUnique(p: Property, i: nat, j: nat)
    requires KeysDiffer(p) && i < j < |p.Values()|
    ensures p.Index(i) != p.Index(j)
  {
    if p.Dict? {
      KeyWordIsUnique(p.items[i].0, p.items[j].0);
    }
  }

  // ---------- the whole way ----------

  /** Property names as the 32-byte words the constructor is given. */
  function Names(entries: seq<Entry>): (names: seq<nat>)
    ensures |names| == |entries|
  {
    seq(|entries|, r requires 0 <= r < |entries| => KeyWord(entries[r].name))
  }

  type Chain = map<nat, Bytes>

  /** Each contract's code is what its init code deploys. */
  ghost predicate Holds(chain: Chain, bytecodes: seq<HexString>, addresses: seq<nat>) {
    && |bytecodes| <= |addresses|
    && forall i :: 0 <= i < |bytecodes| ==>
         && |bytecodes[i]| % 2 == 0 && addresses[i] in chain
         && Deployed(ToBytes(bytecodes[i])) == Some(chain[addresses[i]])
  }

  /** `extcodecopy` of the slice a word describes. */
  function Read(chain: Chain, word: nat): Bytes {
    Slice(if Location(word) in chain then chain[Location(word)] else [], Start(word), Size(word))
  }

  lemma SliceIs(data: Bytes, start: nat, size: nat)
    requires start + size <= |data|
    ensures Slice(data, start, size) == data[start..start + size]
  {
  }

  /** Reading the word of a pointer gives the value it was made for. */
  lemma ReadsBack(data: seq<Bytes>, bytecodes: seq<HexString>, addresses: seq<nat>, chain: Chain, p: Place, v: Bytes)
    requires |bytecodes| == |data| && Holds(chain, bytecodes, addresses) && PointsTo(data, p, v)
    requires forall i :: 0 <= i < |data| ==> bytecodes[i] == Initcode(ToHex(data[i])) && |data[i]| < 0x1_0000_0000
    requires addresses[p.codeIndex] < TWO_160
    ensures Read(chain, PointerWord(p, addresses[p.codeIndex])) == v
  {
    hide Deployed, Initcode, ToHex, ToBytes, PointerWord, Location, Start, Size, Slice;
    PointerRoundTrip(p, addresses[p.codeIndex]);
    DeploysItsData(data[p.codeIndex]);
    SliceIs(data[p.codeIndex], p.start, p.size);
  }

  lemma OnlyOneUnder(entries: seq<Entry>, indices: seq<seq<nat>>, r: nat, j: nat)
    requires WellNamed(entries) && |indices| == |entries| && r < |entries| && j < |entries[r].property.Values()|
    requires forall k :: 0 <= k < |entries| ==> indices[k] == Indices(entries[k].property)
    requires j < |indices[r]|
    ensures LastUnder(Names(entries), indices, r, j)
  {
    hide KeyWord;
    forall a | r < a < |entries|
      ensures Names(entries)[a] != Names(entries)[r]
    {
      KeyWordIsUnique(entries[r].name, entries[a].name);
    }
    forall b | j < b < |indices[r]|
      ensures indices[r][b] != indices[r][j]
    {
      IndexIsUnique(entries[r].property, j, b);
    }
  }

  /** Every value, from compilation through packing, deployment and storing to the lookup on chain, comes back
      unchanged. */
  lemma MetadataRoundTrip(entries: seq<Entry>, p: Package, data: seq<Bytes>, maxCodeSize: nat, addresses: seq<nat>,
                          chain: Chain, words: seq<seq<nat>>, r: nat, j: nat)
    requires Compiled(entries, p, data, maxCodeSize) && WellNamed(entries)
    requires forall i :: 0 <= i < |data| ==> |data[i]| < 0x1_0000_0000
    requires forall i :: 0 <= i < |addresses| ==> addresses[i] < TWO_160
    requires Holds(chain, p.bytecodes, addresses) && PointerWords(p.pointers, addresses) == Some(words)
    requires r < |entries| && j < |entries[r].property.Values()|
    ensures WellShaped(Names(entries)[..|entries|], p.indices, words)
    ensures var stored, property := RowsStored(Names(entries), p.indices, words, |entries|), entries[r].property;
            var key := (KeyWord(entries[r].name), if property.List? then j else KeyWord(property.items[j].0));
            key in stored && Read(chain, stored[key]) == entries[r].property.Values()[j]
  {
    hide KeyWord, Read, Holds, Packed, Concat, PointsTo;
    var names := Names(entries);
    assert names[..|entries|] == names;
    forall k | 0 <= k < |entries|
      ensures |p.indices[k]| == |words[k]|
    {
      assert RowPlaced(data, p.pointers[k], AllValues(entries)[k]);
    }
    OnlyOneUnder(entries, p.indices, r, j);
    LastEntryIsFound(names, p.indices, words, |entries|, r, j);
    assert RowPlaced(data, p.pointers[r], AllValues(entries)[r]);
    ReadsBack(data, p.bytecodes, addresses, chain, p.pointers[r][j], entries[r].property.Values()[j]);
  }

  /** No contract is larger than allowed when no single value is. */
  lemma NoneTooLarge(entries: seq<Entry>, p: Package, data: seq<Bytes>, maxCodeSize: nat)
    requires Compiled(entries, p, data, maxCodeSize)
    requires forall v :: v in Concat(AllValues(entries)) ==> |v| <= maxCodeSize
    ensures forall i :: 0 <= i < |data| ==> |data[i]| <= maxCodeSize
    ensures Concat(data) == Concat(Concat(AllValues(entries)))
  {
  }
}
