/** Packing a two-level object into data contracts, with a pointer to every value. */
module MetadataCompiler {
  import opened Bytecode
  import opened HexZeros
  import opened Sequences

  type Bytes = seq<Byte>

  /** A list of values, or values under keys; each value is already encoded, and compressed where asked for. */
  datatype Property = List(list: seq<Bytes>) | Dict(items: seq<(Bytes, Bytes)>) {
    function Values(): (v: seq<Bytes>)
      ensures |v| == if List? then |list| else |items|
    {
      if List? then list else seq(|items|, i requires 0 <= i < |items| => items[i].1)
    }

    /** A position in a list, or a key as a number. */
    function Index(i: nat): nat
      requires i < |Values()|
    {
      if List? then i else KeyWord(items[i].0)
    }
  }

  datatype Entry = Entry(name: Bytes, property: Property)

  datatype Place = Place(start: nat, size: nat, codeIndex: nat)

  datatype Package = Package(bytecodes: seq<HexString>, properties: seq<Bytes>, indices: seq<seq<nat>>,
                             pointers: seq<seq<Place>>)

  function Zeros(n: nat): (z: Bytes)
    ensures |z| == n
  {
    seq(n, i => 0)
  }

  /** `padEnd` to 64 hex digits, read as a number. */
  function KeyWord(key: Bytes): nat {
    ValueOf(key + Zeros(if |key| < 32 then 32 - |key| else 0))
  }

  /** `v` is the slice of one contract's data that `p` describes. */
  predicate PointsTo(contents: seq<Bytes>, p: Place, v: Bytes) {
    && p.codeIndex < |contents| && p.size == |v|
    && p.start + p.size <= |contents[p.codeIndex]|
    && contents[p.codeIndex][p.start..p.start + p.size] == v
  }

  predicate RowPlaced(contents: seq<Bytes>, row: seq<Place>, values: seq<Bytes>) {
    |row| == |values| && forall j :: 0 <= j < |row| ==> PointsTo(contents, row[j], values[j])
  }

  ghost predicate Placed(contents: seq<Bytes>, pointers: seq<seq<Place>>, values: seq<seq<Bytes>>) {
    |pointers| == |values| && forall r :: 0 <= r < |pointers| ==> RowPlaced(contents, pointers[r], values[r])
  }

  /** The contracts hold the values in order; one is too large only when it is a single large value; and one is only
      left for the next when the value that the next begins with did not fit any more. */
  ghost predicate Packed(contents: seq<Bytes>, values: seq<Bytes>, maxCodeSize: nat) {
    && Concat(contents) == Concat(values)
    && (forall i :: 0 <= i < |contents| ==> |contents[i]| <= maxCodeSize || contents[i] in values)
    && forall i :: 0 <= i < |contents| - 1 ==> IsFull(contents[i], contents[i + 1], values, maxCodeSize)
  }

  ghost predicate IsFull(contract: Bytes, next: Bytes, values: seq<Bytes>, maxCodeSize: nat) {
    exists v :: v in values && v <= next && |contract| + |v| > maxCodeSize
  }

  lemma StaysFull(contract: Bytes, next: Bytes, longer: Bytes, values: seq<Bytes>, v: Bytes, maxCodeSize: nat)
    requires IsFull(contract, next, values, maxCodeSize) && next <= longer
    ensures IsFull(contract, longer, values + [v], maxCodeSize)
  {
    var first :| first in values && first <= next && |contract| + |first| > maxCodeSize;
    assert first in values + [v] && first <= longer;
  }

  function Indices(property: Property): (s: seq<nat>)
    ensures |s| == |property.Values()|
  {
    seq(|property.Values()|, i requires 0 <= i < |property.Values()| => property.Index(i))
  }

  function AllValues(entries: seq<Entry>): seq<seq<Bytes>> {
    seq(|entries|, r requires 0 <= r < |entries| => entries[r].property.Values())
  }

  /** A package holds every value where its pointer says, and its contracts are complete. */
  ghost predicate Compiled(entries: seq<Entry>, p: Package, data: seq<Bytes>, maxCodeSize: nat) {
    && |p.bytecodes| == |data| && (forall i :: 0 <= i < |data| ==> p.bytecodes[i] == Initcode(ToHex(data[i])))
    && |p.properties| == |p.indices| == |p.pointers| == |entries|
    && (forall r :: 0 <= r < |entries| ==>
        p.properties[r] == entries[r].name && p.indices[r] == Indices(entries[r].property))
    && Placed(data, p.pointers, AllValues(entries))
    && Packed(data, Concat(AllValues(entries)), maxCodeSize)
  }

  lemma EmptyRow(contents: seq<Bytes>, pointers: seq<seq<Place>>, values: seq<seq<Bytes>>, maxCodeSize: nat)
    requires Placed(contents, pointers, values) && Packed(contents, Concat(values), maxCodeSize)
    ensures Placed(contents, pointers + [[]], values + [[]]) && Packed(contents, Concat(values + [[]]), maxCodeSize)
  {
    ConcatNext(values, []);
    assert Concat(values) + [] == Concat(values);
    forall r | 0 <= r < |pointers| + 1
      ensures RowPlaced(contents, (pointers + [[]])[r], (values + [[]])[r])
    {
      assert r < |pointers| ==> RowPlaced(contents, pointers[r], values[r]);
    }
  }

  // ---------- appending ----------

  /** Adding to the end of a contract, or a new contract, leaves every earlier slice where it was. */
  lemma StillPlaced(contents: seq<Bytes>, more: seq<Bytes>, pointers: seq<seq<Place>>, values: seq<seq<Bytes>>)
    requires Placed(contents, pointers, values) && |contents| <= |more|
    requires forall i :: 0 <= i < |contents| ==> contents[i] <= more[i]
    ensures Placed(more, pointers, values)
  {
    forall r, j | 0 <= r < |pointers| && 0 <= j < |pointers[r]|
      ensures PointsTo(more, pointers[r][j], values[r][j])
    {
      assert RowPlaced(contents, pointers[r], values[r]);
      var p := pointers[r][j];
      assert PointsTo(contents, p, values[r][j]);
      assert more[p.codeIndex][..|contents[p.codeIndex]|] == contents[p.codeIndex];
      assert more[p.codeIndex][p.start..p.start + p.size] == contents[p.codeIndex][p.start..p.start + p.size];
    }
  }

  /** One more pointer in the last row. */
  function AddTo<T>(rows: seq<seq<T>>, x: T): seq<seq<T>>
    requires |rows| > 0
  {
    rows[|rows| - 1 := rows[|rows| - 1] + [x]]
  }

  lemma AddPlace(contents: seq<Bytes>, pointers: seq<seq<Place>>, values: seq<seq<Bytes>>, p: Place, v: Bytes)
    requires |pointers| > 0 && Placed(contents, pointers, values) && PointsTo(contents, p, v)
    ensures Placed(contents, AddTo(pointers, p), AddTo(values, v))
  {
    hide PointsTo;
    forall r | 0 <= r < |pointers|
      ensures RowPlaced(contents, AddTo(pointers, p)[r], AddTo(values, v)[r])
    {
      assert RowPlaced(contents, pointers[r], values[r]);
    }
  }

  /** The value does not fit any more: it starts a new contract. */
  lemma NewContract(contents: seq<Bytes>, pointers: seq<seq<Place>>, values: seq<seq<Bytes>>, v: Bytes,
                    maxCodeSize: nat)
    requires |pointers| > 0 && Placed(contents, pointers, values) && Packed(contents, Concat(values), maxCodeSize)
    requires |contents| > 0 && |contents[|contents| - 1]| + |v| > maxCodeSize
    ensures Placed(contents + [v], AddTo(pointers, Place(0, |v|, |contents|)), AddTo(values, v))
    ensures Packed(contents + [v], Concat(AddTo(values, v)), maxCodeSize)
  {
    StillPlaced(contents, contents + [v], pointers, values);
    AddPlace(contents + [v], pointers, values, Place(0, |v|, |contents|), v);
    ConcatGrow(values, [v]);
    ConcatNext(contents, v);
    ConcatNext(Concat(values), v);
    forall i | 0 <= i < |contents|
      ensures IsFull((contents + [v])[i], (contents + [v])[i + 1], Concat(values) + [v], maxCodeSize)
    {
      if i < |contents| - 1 {
        StaysFull(contents[i], contents[i + 1], contents[i + 1], Concat(values), v, maxCodeSize);
      } else {
        assert v in Concat(values) + [v];
      }
    }
    hide Placed, Concat, IsFull;
  }

  /** The value fits: it goes to the end of the last contract. */
  lemma SameContract(contents: seq<Bytes>, pointers: seq<seq<Place>>, values: seq<seq<Bytes>>, v: Bytes,
                     maxCodeSize: nat)
    requires |pointers| > 0 && Placed(contents, pointers, values) && Packed(contents, Concat(values), maxCodeSize)
    requires |contents| > 0 && |contents[|contents| - 1]| + |v| <= maxCodeSize
    ensures var last := |contents| - 1;
            var more := contents[last := contents[last] + v];
            && Placed(more, AddTo(pointers, Place(|more[last]| - |v|, |v|, last)), AddTo(values, v))
            && Packed(more, Concat(AddTo(values, v)), maxCodeSize)
  {
    assert |values| > 0;
    hide Placed, Concat, Packed;
    PlacedAtEnd(contents, pointers, values, v);
    ConcatGrow(values, [v]);
    StillPacked(contents, Concat(values), v, maxCodeSize);
  }

  lemma PlacedAtEnd(contents: seq<Bytes>, pointers: seq<seq<Place>>, values: seq<seq<Bytes>>, v: Bytes)
    requires |pointers| > 0 && Placed(contents, pointers, values) && |contents| > 0
    ensures var last := |contents| - 1;
            var more := contents[last := contents[last] + v];
            Placed(more, AddTo(pointers, Place(|more[last]| - |v|, |v|, last)), AddTo(values, v))
  {
    var last := |contents| - 1;
    var more := contents[last := contents[last] + v];
    StillPlaced(contents, more, pointers, values);
    hide Placed;
    AddPlace(more, pointers, values, Place(|more[last]| - |v|, |v|, last), v);
  }

  lemma StillPacked(contents: seq<Bytes>, values: seq<Bytes>, v: Bytes, maxCodeSize: nat)
    requires Packed(contents, values, maxCodeSize)
    requires |contents| > 0 && |contents[|contents| - 1]| + |v| <= maxCodeSize
    ensures Packed(contents[|contents| - 1 := contents[|contents| - 1] + v], values + [v], maxCodeSize)
  {
    var last := |contents| - 1;
    var more := contents[last := contents[last] + v];
    ConcatGrow(contents, v);
    ConcatNext(values, v);
    forall i | 0 <= i < last
      ensures IsFull(more[i], more[i + 1], values + [v], maxCodeSize)
    {
      StaysFull(contents[i], contents[i + 1], more[i + 1], values, v, maxCodeSize);
    }
    hide Concat, IsFull;
  }

  class Compiler {
    const maxCodeSize: nat
    var bytecodes: seq<HexString>
    var properties: seq<Bytes>
    var indices: seq<seq<nat>>
    var pointers: seq<seq<Place>>

    ghost var contents: seq<Bytes>         // the data of each contract
    ghost var values: seq<seq<Bytes>>      // the values appended, property by property

    constructor (maxCodeSize: nat)
      ensures this.maxCodeSize == maxCodeSize && Valid() && properties == [] && indices == [] && values == []
    {
      this.maxCodeSize := maxCodeSize;
      bytecodes, properties, indices, pointers := [[]], [], [], [];
      contents, values := [[]], [];
    }

    /** All contracts but the last are complete. */
    ghost predicate Valid()
      reads this
    {
      && |bytecodes| == |contents| > 0
      && (forall i :: 0 <= i < |bytecodes| - 1 ==> bytecodes[i] == Initcode(ToHex(contents[i])))
      && bytecodes[|bytecodes| - 1] == ToHex(contents[|contents| - 1])
      && |indices| == |properties| == |pointers| == |values|
      && Placed(contents, pointers, values)
      && Packed(contents, Concat(values), maxCodeSize)
    }

    method PrependInitcode()
      requires |bytecodes| > 0
      modifies `bytecodes
      ensures bytecodes == old(bytecodes)[|old(bytecodes)| - 1 := Initcode(old(bytecodes)[|old(bytecodes)| - 1])]
    {
      var last := bytecodes[|bytecodes| - 1];
      bytecodes := bytecodes[|bytecodes| - 1 := [6, 3] + PadStart(HexOf(|last| / 2), 8) + CopyAndReturnHex() + last];
    }

    method AppendBytes(bytes: HexString, ghost v: Bytes)
      requires Valid() && bytes == ToHex(v) && |pointers| > 0
      modifies `bytecodes, `pointers, `contents, `values
      ensures Valid() && values == AddTo(old(values), v)
    {
      hide ToHex, Initcode, Placed, Packed;
      var last := |bytecodes| - 1;
      if |bytecodes[last]| + |bytes| > maxCodeSize * 2 {
        NewContract(contents, pointers, values, v, maxCodeSize);
        PrependInitcode();
        bytecodes := bytecodes + [bytes];
        pointers := AddTo(pointers, Place(0, |bytes| / 2, |bytecodes| - 1));
        contents := contents + [v];
      } else {
        SameContract(contents, pointers, values, v, maxCodeSize);
        HexConcat(contents[last], v);
        bytecodes := bytecodes[last := bytecodes[last] + bytes];
        pointers := AddTo(pointers, Place(|bytecodes[last]| / 2 - |bytes| / 2, |bytes| / 2, |bytecodes| - 1));
        contents := contents[last := contents[last] + v];
      }
      values := AddTo(values, v);
    }

    /** One property: its name, then its indices and values in order. */
    method AppendProperty(entry: Entry)
      requires Valid()
      modifies this
      ensures Valid() && values == old(values) + [entry.property.Values()]
      ensures properties == old(properties) + [entry.name] && indices == old(indices) + [Indices(entry.property)]
    {
      hide Placed, Packed, Concat, KeyWord, ToHex, Initcode;
      var property := entry.property;
      ghost var before := values;
      EmptyRow(contents, pointers, values, maxCodeSize);
      properties, indices, pointers := properties + [entry.name], indices + [[]], pointers + [[]];
      values := values + [[]];
      var n := |property.Values()|;
      assert property.Values()[..0] == [] && Indices(property)[..0] == [];
      for i := 0 to n
        invariant Valid() && values == before + [property.Values()[..i]]
        invariant properties == old(properties) + [entry.name] && indices == old(indices) + [Indices(property)[..i]]
      {
        indices := AddTo(indices, property.Index(i));
        var v := property.Values()[i];
        AppendBytes(ToHex(v), v);
        assert property.Values()[..i + 1] == property.Values()[..i] + [v];
        assert Indices(property)[..i + 1] == Indices(property)[..i] + [property.Index(i)];
      }
      assert property.Values()[..n] == property.Values() && Indices(property)[..n] == Indices(property);
    }

    /** The main loop, and the completion of the last contract. */
    method Compile(entries: seq<Entry>) returns (p: Package, ghost data: seq<Bytes>)
      requires Valid() && properties == [] && indices == [] && values == []
      modifies this
      ensures Compiled(entries, p, data, maxCodeSize)
    {
      hide Placed, Packed, Concat, KeyWord, ToHex, Initcode;
      for r := 0 to |entries|
        invariant Valid() && |values| == r == |indices| == |properties|
        invariant forall k :: 0 <= k < r ==>
                    values[k] == entries[k].property.Values() && properties[k] == entries[k].name
                      && indices[k] == Indices(entries[k].property)
      {
        AppendProperty(entries[r]);
      }
      PrependInitcode();
      p, data := Package(bytecodes, properties, indices, pointers), contents;
      assert values == AllValues(entries);
    }
  }
}
