/** The typed read and write primitives over one Ogawa group.

    The container is seen only as what these primitives use of it: a group is
    an append-only sequence of datasets, each an immutable byte string;
    `addData` appends one, `getData(idx)` / `getSize()` / `read` fetch one.
    A stored value is the byte image of a C++ object, so values are opaque
    byte strings of exactly `sizeof(T)` bytes. */
module OgData {

  import opened Optional
  import opened OgEnums
  import opened OgTraits

  /** One byte of a dataset. */
  type Byte = b: int | 0 <= b < 0x100

  type Dataset = seq<Byte>

  /** A group's datasets, in index order. */
  type Group = seq<Dataset>

  /** A positive byte count: every complete C++ type occupies at least one byte. */
  type PosNat = n: nat | n > 0 witness 1

  /** A C++ type `T` that `readData<T>` / `writeData<T>` can be instantiated
      with. Both are unconstrained templates, so besides the value types of the
      trait table and `OgDataType` (which `writeDataType` stores), any other
      complete type may be used; the primitives see only its name and size. */
  datatype CType = Value(vt: ValueType) | OgDataTypeT | Other(name: string, size: PosNat)

  /** `sizeof(OgDataType)`: a 32-bit enumeration on the targeted platforms. */
  const DataTypeSize: nat := 4

  /** `sizeof(T)`. */
  function CSize(t: CType): (n: nat)
    ensures n > 0
  {
    match t
    case Value(vt) => SizeOf(vt)
    case OgDataTypeT => DataTypeSize
    case Other(_, size) => size
  }

  /** An object of C++ type `ty`, as the `sizeof(ty)` bytes it occupies. */
  datatype Obj = Obj(ty: CType, bytes: seq<Byte>)

  type Object = o: Obj | |o.bytes| == CSize(o.ty)
    witness Obj(OgDataTypeT, [0, 0, 0, 0])

  // ---------------------------------------------------------------------------
  // The byte image of an OgDataType
  // ---------------------------------------------------------------------------

  const TwoTo32: nat := 0x1_0000_0000

  /** The little-endian image of an unsigned 32-bit enumeration value. */
  function EncodeU32(n: nat): (b: seq<Byte>)
    requires n < TwoTo32
    ensures |b| == DataTypeSize
  {
    [n % 0x100, n / 0x100 % 0x100, n / 0x1_0000 % 0x100, n / 0x100_0000]
  }

  /** The enumeration value held by a little-endian 32-bit image. */
  function DecodeU32(b: seq<Byte>): (n: nat)
    requires |b| == DataTypeSize
    ensures n < TwoTo32
  {
    b[0] as int + 0x100 * (b[1] as int) + 0x1_0000 * (b[2] as int) + 0x100_0000 * (b[3] as int)
  }

  lemma DecodeEncodeU32(n: nat)
    requires n < TwoTo32
    ensures DecodeU32(EncodeU32(n)) == n
  {
    var q1 := n / 0x100;
    var q2 := q1 / 0x100;
    assert n == n % 0x100 + 0x100 * q1;
    assert q1 == q1 % 0x100 + 0x100 * q2;
    assert q2 == n / 0x1_0000;
    assert q2 == q2 % 0x100 + 0x100 * (n / 0x100_0000);
  }

  /** Splitting x = lo + 0x100 * hi, with 0 <= lo < 0x100, by 0x100 recovers lo and hi. */
  lemma SplitByte(x: int, lo: int, hi: int)
    requires 0 <= lo < 0x100 && 0 <= hi
    requires x == lo + 0x100 * hi
    ensures x % 0x100 == lo && x / 0x100 == hi
  {
  }

  /** Splitting x = lo + 0x1_0000 * hi, with 0 <= lo < 0x1_0000, by 0x1_0000 recovers hi. */
  lemma SplitTwoBytes(x: int, lo: int, hi: int)
    requires 0 <= lo < 0x1_0000 && 0 <= hi
    requires x == lo + 0x1_0000 * hi
    ensures x / 0x1_0000 == hi
  {
  }

  /** Splitting x = lo + 0x100_0000 * hi, with 0 <= lo < 0x100_0000, by 0x100_0000 recovers hi. */
  lemma SplitThreeBytes(x: int, lo: int, hi: int)
    requires 0 <= lo < 0x100_0000 && 0 <= hi
    requires x == lo + 0x100_0000 * hi
    ensures x / 0x100_0000 == hi
  {
  }

  lemma EncodeDecodeU32(b: seq<Byte>)
    requires |b| == DataTypeSize
    ensures EncodeU32(DecodeU32(b)) == b
  {
    var n := DecodeU32(b);
    var b0: int, b1: int, b2: int, b3: int := b[0], b[1], b[2], b[3];
    var h1 := b1 + 0x100 * (b2 + 0x100 * b3);
    var h2 := b2 + 0x100 * b3;
    SplitByte(n, b0, h1);
    SplitByte(h1, b1, h2);
    SplitByte(h2, b2, b3);
    SplitTwoBytes(n, b0 + 0x100 * b1, h2);
    SplitThreeBytes(n, b0 + 0x100 * b1 + 0x1_0000 * b2, b3);
    var e := EncodeU32(n);
    assert e[0] == b[0] && e[1] == b[1] && e[2] == b[2] && e[3] == b[3];
  }

  /** Every enumerator's code fits the 32-bit image. */
  lemma CodeFitsU32(d: DataType)
    ensures 0 <= DataTypeCode(d) < TwoTo32
  {
    LiveRange(d);
    DataTypeCodesFixed();
  }

  /** An `OgDataType` object holding the enumerator `d`: the local `dataType`
      that `writeDataType` hands to `addData`. */
  function DataTypeObject(d: DataType): (o: Object)
    ensures o.ty == OgDataTypeT
    ensures TagValue(o) == DataTypeCode(d)
  {
    CodeFitsU32(d);
    DecodeEncodeU32(DataTypeCode(d));
    Obj(OgDataTypeT, EncodeU32(DataTypeCode(d)))
  }

  /** The enumeration value an `OgDataType` object holds. The bytes may carry
      any 32-bit number, not only one of the declared enumerators. */
  function TagValue(o: Object): nat
    requires o.ty == OgDataTypeT
  {
    DecodeU32(o.bytes)
  }

  // ---------------------------------------------------------------------------
  // readData / writeData / writeDataType
  // ---------------------------------------------------------------------------

  /** `readData<T>(group, idx, value)`: the success flag and the value the
      output parameter holds afterwards. The dataset's length must equal
      `sizeof(T)`; otherwise the read fails and the output is left as it was. */
  function ReadData(g: Group, idx: nat, value: Object): (r: (bool, Object))
    requires idx < |g|
    ensures r.0 <==> |g[idx]| == CSize(value.ty)
    ensures r.1.ty == value.ty
    ensures r.0 ==> r.1.bytes == g[idx]
    ensures !r.0 ==> r.1 == value
  {
    var data := g[idx];
    if |data| != CSize(value.ty) then (false, value)
    else (true, Obj(value.ty, data))
  }

  /** `writeData(group, value)`: appends one dataset of `sizeof(T)` bytes
      holding the value; the datasets already in the group are untouched. */
  function WriteData(g: Group, value: Object): (g': Group)
    ensures |g'| == |g| + 1
    ensures g'[..|g|] == g
    ensures |g'[|g|]| == CSize(value.ty)
    ensures g'[|g|] == value.bytes
  {
    g + [value.bytes]
  }

  /** `writeDataType<T>(group)`: appends one dataset of `sizeof(OgDataType)`
      bytes that holds T's type tag. */
  function WriteDataType(g: Group, t: ValueType): (g': Group)
    ensures |g'| == |g| + 1
    ensures g'[..|g|] == g
    ensures |g'[|g|]| == DataTypeSize
    ensures DecodeU32(g'[|g|]) == TypeCode(t)
  {
    TypeCodeLive(t);
    DataTypeCodesFixed();
    DecodeEncodeU32(TypeCode(t));
    WriteData(g, DataTypeObject(TypeEnum(t)))
  }

  /** A write session: `writeData` called once for each value, in order. */
  function WriteEach(g: Group, values: seq<Object>): (g': Group)
    ensures |g'| == |g| + |values|
    ensures g'[..|g|] == g
    ensures forall i :: 0 <= i < |values| ==> g'[|g| + i] == values[i].bytes
    decreases |values|
  {
    if |values| == 0 then g
    else
      var g1 := WriteData(g, values[0]);
      var rest := WriteEach(g1, values[1..]);
      assert rest[..|g|] == rest[..|g1|][..|g|];
      assert forall i :: 1 <= i < |values| ==> values[i] == values[1..][i - 1];
      rest
  }

  // ---------------------------------------------------------------------------
  // Properties
  // ---------------------------------------------------------------------------

  /** Reading back, with an output of the same type, the dataset a write just
      appended succeeds and yields the written value. */
  lemma WriteThenRead(g: Group, v: Object, slot: Object)
    requires slot.ty == v.ty
    ensures ReadData(WriteData(g, v), |g|, slot) == (true, v)
  {
  }

  /** Reading a freshly written dataset succeeds exactly when the output's type
      has the written type's size. A type of the same size but a different
      meaning (an unsigned value read into a signed slot) is not detected. */
  lemma ReadSizeCheck(g: Group, v: Object, slot: Object)
    ensures ReadData(WriteData(g, v), |g|, slot).0 <==> CSize(slot.ty) == CSize(v.ty)
    ensures !ReadData(WriteData(g, v), |g|, slot).0 ==> ReadData(WriteData(g, v), |g|, slot).1 == slot
  {
  }

  /** Reading back a type tag yields the writer's type code, and the reverse
      lookup of that code recovers the writer's value type. */
  lemma WriteDataTypeThenRead(g: Group, t: ValueType, slot: Object)
    requires slot.ty == OgDataTypeT
    ensures var r := ReadData(WriteDataType(g, t), |g|, slot);
      && r.0
      && r.1.ty == OgDataTypeT
      && TagValue(r.1) == TypeCode(t)
      && TypeOfCode(TagValue(r.1)) == Some(t)
  {
    TypeOfCodeInverts(TypeCode(t), t);
  }

  /** Appending never changes what an earlier index reads. */
  lemma WriteKeepsEarlierReads(g: Group, v: Object, idx: nat, slot: Object)
    requires idx < |g|
    ensures ReadData(WriteData(g, v), idx, slot) == ReadData(g, idx, slot)
  {
    assert WriteData(g, v)[idx] == WriteData(g, v)[..|g|][idx];
  }

  /** After a write session every value reads back at the index its write was
      assigned, |g| + i for the i-th value. */
  lemma ReadBackEach(g: Group, values: seq<Object>, i: nat, slot: Object)
    requires i < |values|
    requires slot.ty == values[i].ty
    ensures ReadData(WriteEach(g, values), |g| + i, slot) == (true, values[i])
  {
  }

  /** The self-describing protocol: a writer appends T's tag and then a value
      of type T; a reader reads the tag, dispatches on it, and reads the value
      into an output of the dispatched type, whatever that output held before.
      The dispatch finds T, the value reads back, and a read as any type of
      another size fails without touching its output. */
  lemma TaggedDispatch(g: Group, v: Object, tagSlot: Object, valueSlot: Object, other: Object)
    requires v.ty.Value?
    requires tagSlot.ty == OgDataTypeT
    requires valueSlot.ty.Value?
    requires CSize(other.ty) != CSize(v.ty)
    ensures var g' := WriteData(WriteDataType(g, v.ty.vt), v);
      var tag := ReadData(g', |g|, tagSlot);
      && tag.0
      && TypeOfCode(TagValue(tag.1)) == Some(v.ty.vt)
      && (TypeOfCode(TagValue(tag.1)) == Some(valueSlot.ty.vt) ==> ReadData(g', |g| + 1, valueSlot) == (true, v))
      && ReadData(g', |g| + 1, other) == (false, other)
  {
    var g1 := WriteDataType(g, v.ty.vt);
    var g' := WriteData(g1, v);
    WriteDataTypeThenRead(g, v.ty.vt, tagSlot);
    WriteKeepsEarlierReads(g1, v, |g|, tagSlot);
  }

  /** The tagged `uint32_t` value 42 (little-endian image) written after the
      existing datasets: the tag reads back as code 5, the value reads back as
      a `uint32_t`, and a read as `int64_t` fails on the size check. */
  lemma TaggedUint32Example(g: Group)
    ensures var v := Obj(Value(Uint32), [42, 0, 0, 0]);
      var g' := WriteData(WriteDataType(g, Uint32), v);
      var slot64 := Obj(Value(Int64), [0, 0, 0, 0, 0, 0, 0, 0]);
      && ReadData(g', |g|, Obj(OgDataTypeT, [0, 0, 0, 0])).0
      && TagValue(ReadData(g', |g|, Obj(OgDataTypeT, [0, 0, 0, 0])).1) == 5
      && ReadData(g', |g| + 1, Obj(Value(Uint32), [0, 0, 0, 0])) == (true, v)
      && ReadData(g', |g| + 1, slot64) == (false, slot64)
  {
    var v: Object := Obj(Value(Uint32), [42, 0, 0, 0]);
    var tagSlot: Object := Obj(OgDataTypeT, [0, 0, 0, 0]);
    var g1 := WriteDataType(g, Uint32);
    WriteDataTypeThenRead(g, Uint32, tagSlot);
    WriteKeepsEarlierReads(g1, v, |g|, tagSlot);
    assert TypeCode(Uint32) == 5 by { DataTypeCodesFixed(); }
  }
}
