/** The two enumerations whose numeric values Field3D persists in Ogawa files:
    the role of a group (`OgGroupType`) and the type tag of a dataset
    (`OgDataType`). Their values are part of the file format, so each code is
    derived here from the declaration exactly as C++ numbers it, and the fixed
    reference table is proved of it. */
module OgEnums {

  import opened Optional
  import opened CppEnum

  // ---------------------------------------------------------------------------
  // OgGroupType
  // ---------------------------------------------------------------------------

  datatype GroupType = F3DGroupType | F3DAttributeType | F3DDatasetType

  /** The declaration of `OgGroupType`, in source order. */
  const GroupTypeDecl: seq<Enumerator<GroupType>> := [
    Enumerator(F3DGroupType, Some(0)),
    Enumerator(F3DAttributeType, None),
    Enumerator(F3DDatasetType, None)
  ]

  /** Position of an enumerator in the `OgGroupType` declaration. */
  function GroupTypeOrdinal(g: GroupType): (i: nat)
    ensures i < |GroupTypeDecl| && GroupTypeDecl[i].name == g
  {
    match g
    case F3DGroupType => 0
    case F3DAttributeType => 1
    case F3DDatasetType => 2
  }

  /** The persisted numeric value of a group kind. */
  function GroupTypeCode(g: GroupType): int
  {
    ValueAt(GroupTypeDecl, GroupTypeOrdinal(g))
  }

  /** The reference table of group-kind codes. */
  lemma GroupTypeCodesFixed()
    ensures GroupTypeCode(F3DGroupType) == 0
    ensures GroupTypeCode(F3DAttributeType) == 1
    ensures GroupTypeCode(F3DDatasetType) == 2
  {
    Consecutive(GroupTypeDecl, 0, 2);
    Consecutive(GroupTypeDecl, 0, 1);
  }

  /** Distinct group kinds are persisted as distinct numbers. */
  lemma GroupTypeCodeInjective(a: GroupType, b: GroupType)
    ensures GroupTypeCode(a) == GroupTypeCode(b) ==> a == b
  {
    GroupTypeCodesFixed();
  }

  // ---------------------------------------------------------------------------
  // OgDataType
  // ---------------------------------------------------------------------------

  datatype DataType =
    | F3DInt8 | F3DUint8
    | F3DInt16 | F3DUint16
    | F3DInt32 | F3DUint32
    | F3DInt64 | F3DUint64
    | F3DFloat16 | F3DFloat32 | F3DFloat64
    | F3DVec16 | F3DVec32 | F3DVec64
    | F3DNumDataTypes
    | F3DInvalidDataType
  {
    /** An enumerator that names a stored value type, as opposed to the count
        `F3DNumDataTypes` or the sentinel `F3DInvalidDataType`. */
    predicate IsLive() {
      !F3DNumDataTypes? && !F3DInvalidDataType?
    }
  }

  /** The declaration of `OgDataType`, in source order. */
  const DataTypeDecl: seq<Enumerator<DataType>> := [
    Enumerator(F3DInt8, Some(0)),
    Enumerator(F3DUint8, None),
    Enumerator(F3DInt16, None),
    Enumerator(F3DUint16, None),
    Enumerator(F3DInt32, None),
    Enumerator(F3DUint32, None),
    Enumerator(F3DInt64, None),
    Enumerator(F3DUint64, None),
    Enumerator(F3DFloat16, None),
    Enumerator(F3DFloat32, None),
    Enumerator(F3DFloat64, None),
    Enumerator(F3DVec16, None),
    Enumerator(F3DVec32, None),
    Enumerator(F3DVec64, None),
    Enumerator(F3DNumDataTypes, None),
    Enumerator(F3DInvalidDataType, Some(127))
  ]

  /** Position of an enumerator in the `OgDataType` declaration. */
  function DataTypeOrdinal(d: DataType): (i: nat)
    ensures i < |DataTypeDecl| && DataTypeDecl[i].name == d
  {
    match d
    case F3DInt8 => 0
    case F3DUint8 => 1
    case F3DInt16 => 2
    case F3DUint16 => 3
    case F3DInt32 => 4
    case F3DUint32 => 5
    case F3DInt64 => 6
    case F3DUint64 => 7
    case F3DFloat16 => 8
    case F3DFloat32 => 9
    case F3DFloat64 => 10
    case F3DVec16 => 11
    case F3DVec32 => 12
    case F3DVec64 => 13
    case F3DNumDataTypes => 14
    case F3DInvalidDataType => 15
  }

  /** The persisted numeric value of a type tag. */
  function DataTypeCode(d: DataType): int
  {
    ValueAt(DataTypeDecl, DataTypeOrdinal(d))
  }

  /** Every enumerator up to and including `F3DNumDataTypes` is numbered by its
      position: `F3DInt8` = 0 through `F3DVec64` = 13 in declared order, then
      `F3DNumDataTypes` = 14. */
  lemma DataTypeCodeIsOrdinal(d: DataType)
    requires !d.F3DInvalidDataType?
    ensures DataTypeCode(d) == DataTypeOrdinal(d)
  {
    Consecutive(DataTypeDecl, 0, DataTypeOrdinal(d));
  }

  /** The reference table of type-tag codes. */
  lemma DataTypeCodesFixed()
    ensures DataTypeCode(F3DInt8) == 0 && DataTypeCode(F3DUint8) == 1
    ensures DataTypeCode(F3DInt16) == 2 && DataTypeCode(F3DUint16) == 3
    ensures DataTypeCode(F3DInt32) == 4 && DataTypeCode(F3DUint32) == 5
    ensures DataTypeCode(F3DInt64) == 6 && DataTypeCode(F3DUint64) == 7
    ensures DataTypeCode(F3DFloat16) == 8 && DataTypeCode(F3DFloat32) == 9
    ensures DataTypeCode(F3DFloat64) == 10
    ensures DataTypeCode(F3DVec16) == 11 && DataTypeCode(F3DVec32) == 12
    ensures DataTypeCode(F3DVec64) == 13
    ensures DataTypeCode(F3DNumDataTypes) == 14
    ensures DataTypeCode(F3DInvalidDataType) == 127
  {
    Consecutive(DataTypeDecl, 0, 14);
    Consecutive(DataTypeDecl, 0, 13);
    Consecutive(DataTypeDecl, 0, 12);
    Consecutive(DataTypeDecl, 0, 11);
    Consecutive(DataTypeDecl, 0, 10);
    Consecutive(DataTypeDecl, 0, 9);
    Consecutive(DataTypeDecl, 0, 8);
    Consecutive(DataTypeDecl, 0, 7);
    Consecutive(DataTypeDecl, 0, 6);
    Consecutive(DataTypeDecl, 0, 5);
    Consecutive(DataTypeDecl, 0, 4);
    Consecutive(DataTypeDecl, 0, 3);
    Consecutive(DataTypeDecl, 0, 2);
    Consecutive(DataTypeDecl, 0, 1);
  }

  /** The live codes fill [0, F3DNumDataTypes), the sentinel lies beyond that
      range and beyond the count itself, and no enumerator exceeds the sentinel. */
  lemma LiveRange(d: DataType)
    ensures d.IsLive() <==> 0 <= DataTypeCode(d) < DataTypeCode(F3DNumDataTypes)
    ensures DataTypeCode(F3DInvalidDataType) > DataTypeCode(F3DNumDataTypes)
    ensures 0 <= DataTypeCode(d) <= DataTypeCode(F3DInvalidDataType)
  {
    DataTypeCodesFixed();
  }

  /** Distinct type tags are persisted as distinct numbers. */
  lemma DataTypeCodeInjective(a: DataType, b: DataType)
    ensures DataTypeCode(a) == DataTypeCode(b) ==> a == b
  {
    DataTypeCodesFixed();
  }

  /** Adding a value type the way the declaration asks — a new enumerator
      without initializer after `F3DVec64`, so that `F3DNumDataTypes` still
      counts the value types — keeps every existing type code 0..13 and the
      sentinel 127, gives the new type code 14 and moves the count to 15.
      The new enumerator's name does not enter the numbering. */
  lemma {:induction false} AppendDataTypeKeepsCodes(e: Enumerator<DataType>)
    requires e.init.None?
    ensures var decl' := DataTypeDecl[..14] + [e] + DataTypeDecl[14..];
      && |decl'| == 17
      && (forall d: DataType :: d.IsLive() ==> ValueAt(decl', DataTypeOrdinal(d)) == DataTypeCode(d))
      && ValueAt(decl', 14) == 14
      && decl'[15].name == F3DNumDataTypes && ValueAt(decl', 15) == 15
      && decl'[16].name == F3DInvalidDataType && ValueAt(decl', 16) == DataTypeCode(F3DInvalidDataType)
  {
    var decl' := DataTypeDecl[..14] + [e] + DataTypeDecl[14..];
    InsertKeepsValues(DataTypeDecl, e, 14);
    assert decl'[15] == DataTypeDecl[14];
    assert decl'[16] == DataTypeDecl[15];
    forall d: DataType | d.IsLive()
      ensures ValueAt(decl', DataTypeOrdinal(d)) == DataTypeCode(d)
    {
    }
    assert ImplicitBetween(decl', 13, 15) by {
      assert decl'[14] == e;
    }
    Consecutive(decl', 13, 15);
    Consecutive(decl', 13, 14);
    DataTypeCodesFixed();
    assert ValueAt(decl', 13) == ValueAt(DataTypeDecl, DataTypeOrdinal(F3DVec64));
  }

  /** Placed one step too late — after `F3DNumDataTypes`, just before the
      sentinel — a new value type gets code 15 while the count stays 14, so the
      new tag falls outside the live range [0, F3DNumDataTypes). */
  lemma {:induction false} InsertAfterCountLeavesLiveRange(e: Enumerator<DataType>)
    requires e.init.None?
    ensures var decl' := DataTypeDecl[..15] + [e] + DataTypeDecl[15..];
      && decl'[14].name == F3DNumDataTypes && ValueAt(decl', 14) == 14
      && decl'[15] == e && ValueAt(decl', 15) == 15
  {
    var decl' := DataTypeDecl[..15] + [e] + DataTypeDecl[15..];
    InsertKeepsValues(DataTypeDecl, e, 15);
    assert decl'[14] == DataTypeDecl[14];
    assert decl'[15] == e;
    DataTypeCodesFixed();
    assert ValueAt(decl', 14) == ValueAt(DataTypeDecl, DataTypeOrdinal(F3DNumDataTypes));
  }
}
