# Field3D Ogawa typed serialization layer — a Dafny model

Field3D stores its fields in Ogawa files. An Ogawa group is a node holding an
ordered, append-only sequence of opaque byte blobs ("datasets"). On top of it,
`OgUtil.h` defines a small typed layer, and this project models that layer:

- the two enumerations whose numbers are persisted on disk: `OgGroupType`
  (the role of a group) and `OgDataType` (the type tag of a dataset, ending with
  the count `F3DNumDataTypes` and the sentinel `F3DInvalidDataType = 127`);
- the `OgawaTypeTraits` table, which gives each of the fourteen value types
  (8/16/32/64-bit signed and unsigned integers, half/float/double, and
  three-component vectors of those floats) a type tag and a name;
- the generic primitives `readData`, `writeData` and `writeDataType` over a
  group's datasets;
- the `OgIBase` reader handle, which holds a possibly-null group reference and a
  cached name.

Modules:

- `Optional` (optional.dfy): `Option`.
- `CppEnum` (cpp_enum.dfy): the C++ numbering rule for enumerators. An
  enumerator with an initializer takes its value. One without an initializer
  takes the previous value plus one, or 0 if it is first. The model derives both
  enumerations' codes from their declarations with this rule, instead of copying
  the numbers.
- `OgEnums` (og_enums.dfy): both enumerations, their declarations, and the
  proved reference tables.
- `OgTraits` (og_traits.dfy): the value types, the trait table (`TypeEnum`,
  `TypeName`), `sizeof`, and the reverse code-to-type lookup a reader uses to
  dispatch on a tag.
- `OgData` (og_data.dfy): a group as `seq<seq<Byte>>`, a stored object as its
  `sizeof(T)` bytes, and `ReadData`, `WriteData`, `WriteDataType`, plus a write
  session `WriteEach`.
- `OgBase` (og_base.dfy): the `OgIBase` handle.

The model is purely functional, so the group is an immutable value. A read takes
a group and returns a flag and a value without producing a new group. A read
therefore cannot change the group, by construction. `readData`'s output
parameter becomes an input object plus the returned object. "Left untouched on
failure" means the returned object equals the input one.

Platform layout choices. These are not part of the source, but the model needs
them to state the tag round-trip:

- `sizeof(OgDataType)` is 4.
- An `OgDataType` object is stored as a little-endian unsigned 32-bit number.
  GCC and Clang give an enumeration with no negative enumerators the underlying
  type `unsigned int`. Every enumerator lies in [0, 128), so signedness does not
  affect any of them.
- The value types are opaque byte strings with sizes 1, 1, 2, 2, 4, 4, 8, 8
  (integers), 2, 4, 8 (floats) and 6, 12, 24 (vectors).

`OgIBase(group)` (include/OgUtil.h:234-236) stores only the pointer. `m_name`
stays empty until a derived reader sets it, so `FromGroup` yields an empty name.

## Model

| member | source | states |
|---|---|---|
| CppEnum.ValueAt | include/OgUtil.h:71-111 | the C++ numbering rule step by step: an enumerator with an initializer takes it, one without takes the previous value plus one, the first one 0. Its closed form is `ValueAtClosedForm`; both enumerations' codes are defined through it |
| CppEnum.ValueAtClosedForm | include/OgUtil.h:71-111 | an enumerator's value is the last explicit initializer at or before it plus its distance from that enumerator, or its own position when none precedes it |
| CppEnum.Consecutive | include/OgUtil.h:82-107 | after an enumerator's value, every following enumerator that has no initializer is numbered one higher than the previous one, so a run of them is consecutive |
| CppEnum.ValueAtPrefix | include/OgUtil.h:79-81 | an enumerator's value depends only on the declaration up to it, so later declarations can never shift it |
| CppEnum.InsertKeepsValues | include/OgUtil.h:79-81 | inserting a new enumerator at any position k keeps every earlier value, and keeps the value of every later enumerator that has an explicit initializer (such as `F3DInvalidDataType = 127`) |
| CppEnum.InsertShiftsImplicit | include/OgUtil.h:79-81 | inserting a new enumerator without initializer at position k raises by exactly one the value of each later enumerator i, provided no enumerator from k to i has an initializer |
| OgEnums.GroupTypeCode | include/OgUtil.h:71-75 | a group kind's persisted number is the value the numbering rule gives its enumerator in the `OgGroupType` declaration; `GroupTypeCodesFixed` pins the three values |
| OgEnums.GroupTypeCodesFixed | include/OgUtil.h:71-75 | `F3DGroupType` = 0, `F3DAttributeType` = 1, `F3DDatasetType` = 2 |
| OgEnums.GroupTypeCodeInjective | include/OgUtil.h:71-75 | distinct group kinds have distinct persisted codes |
| OgEnums.DataTypeCode | include/OgUtil.h:82-111 | a type tag's persisted number is the value the numbering rule gives its enumerator in the `OgDataType` declaration; `DataTypeCodesFixed` pins all sixteen values and `DataTypeCodeIsOrdinal` the positional ones |
| OgEnums.DataTypeCodeIsOrdinal | include/OgUtil.h:82-107 | every `OgDataType` enumerator except the sentinel has its declaration position as its value: `F3DInt8` = 0 through `F3DVec64` = 13, then `F3DNumDataTypes` = 14 |
| OgEnums.DataTypeCodesFixed | include/OgUtil.h:82-111 | the full reference table of type-tag codes, 0 through 14 and the sentinel 127 |
| OgEnums.LiveRange | include/OgUtil.h:107-111 | a tag is one of the fourteen value-type tags exactly when its code is in [0, `F3DNumDataTypes`). The sentinel lies above the count, and no code exceeds the sentinel |
| OgEnums.AppendDataTypeKeepsCodes | include/OgUtil.h:79-111 | adding a type as a new enumerator without initializer just before `F3DNumDataTypes` keeps codes 0..13 and the sentinel 127, gives the new type 14 and moves the count to 15 |
| OgEnums.InsertAfterCountLeavesLiveRange | include/OgUtil.h:79-111 | a new type inserted without initializer after `F3DNumDataTypes`, just before the sentinel, gets code 15 while the count stays 14, so its tag is outside the live range |
| OgEnums.DataTypeCodeInjective | include/OgUtil.h:82-111 | distinct `OgDataType` enumerators have distinct codes |
| OgTraits.TypeEnum | include/OgUtil.h:123-147 | each declared trait maps its value type to a live tag, never to the count or the sentinel |
| OgTraits.TypeName | include/OgUtil.h:128-147 | each trait's name is the spelling of the `_t` typedef it is declared for; `TypeNameInjective` shows no two types share one |
| OgTraits.SizeOf | include/OgUtil.h:31-63 | every value type occupies at least one byte |
| OgTraits.TypeOfCode | include/OgUtil.h:82-111 | the reverse code-to-type lookup answers exactly for the codes in [0, `F3DNumDataTypes`) and fails for every other code, including the sentinel |
| OgTraits.TypeCodeLive | include/OgUtil.h:134-147 | every value type's tag code is in [0, `F3DNumDataTypes`) and is not `F3DInvalidDataType` |
| OgTraits.TypeOfCodeInverts | include/OgUtil.h:134-147 | the reverse lookup sends a code to t exactly when t's trait carries that code (both directions) |
| OgTraits.TypeEnumInjective | include/OgUtil.h:134-147 | no two value types share a type tag |
| OgTraits.TypeCodeBijective | include/OgUtil.h:134-147 | a code is some value type's tag exactly when it lies in [0, `F3DNumDataTypes`), so the table is a bijection onto the live range |
| OgTraits.TypeNameInjective | include/OgUtil.h:134-147 | no two value types share a name |
| OgData.CSize | include/OgUtil.h:172-209 | `sizeof(T)` as `readData` compares and `writeData`/`writeDataType` append it is at least one byte for every instantiation, including any type outside the trait table |
| OgData.EncodeU32 | include/OgUtil.h:208-209 | the byte image of an `OgDataType` value is exactly `sizeof(OgDataType)` (4) bytes |
| OgData.DecodeU32 | include/OgUtil.h:208-209 | the value held by a 4-byte image is an unsigned 32-bit number |
| OgData.DataTypeObject | include/OgUtil.h:208 | the `dataType` object that `writeDataType` stores has type `OgDataType` and holds the enumerator's code |
| OgData.DecodeEncodeU32 | include/OgUtil.h:208-209 | decoding the 4-byte image of any 32-bit tag value gives that value back |
| OgData.EncodeDecodeU32 | include/OgUtil.h:208-209 | every 4-byte image is the image of the value it decodes to, so the encoding is a bijection |
| OgData.ReadData | include/OgUtil.h:164-181 | the read succeeds exactly when the dataset's length equals `sizeof(T)`. On success the output holds the dataset's bytes. On failure the output is exactly what it was |
| OgData.WriteData | include/OgUtil.h:195-200 | the write appends exactly one dataset of `sizeof(T)` bytes holding the value. The count grows by one and every earlier dataset is unchanged |
| OgData.WriteDataType | include/OgUtil.h:204-210 | the write appends exactly one dataset of `sizeof(OgDataType)` bytes whose value is T's tag code, and every earlier dataset is unchanged |
| OgData.WriteEach | include/OgUtil.h:195-200 | a sequence of writes appends one dataset per value, in order. The i-th value is at index \|g\| + i, and the original datasets are unchanged |
| OgData.WriteThenRead | include/OgUtil.h:165-200 | reading, with an output of the same type, the index a write produced succeeds and yields the written value |
| OgData.ReadSizeCheck | include/OgUtil.h:172-176 | reading a freshly written dataset succeeds exactly when the two types have equal size, and a failed read leaves its output as it was. A type of the same size but a different meaning is not detected |
| OgData.WriteDataTypeThenRead | include/OgUtil.h:205-210 | reading an `OgDataType` at the index a tag write produced succeeds and yields T's code, and the reverse lookup of that code yields T |
| OgData.WriteKeepsEarlierReads | include/OgUtil.h:196-200 | a write never changes what any earlier index reads, for any output type |
| OgData.ReadBackEach | include/OgUtil.h:165-200 | after a write session, each value reads back at the index its write was assigned |
| OgData.TaggedDispatch | include/OgUtil.h:165-210 | after writing T's tag and then a T value: the tag read succeeds; dispatching on it finds T; reading the value into any output of the dispatched type, whatever it held, returns the value; reading it as a type of another size fails and leaves the output untouched |
| OgData.TaggedUint32Example | include/OgUtil.h:165-210 | concrete case: a `uint32_t` 42 written after its tag. The tag read succeeds and yields code 5, the value reads back as a `uint32_t`, and a read as `int64_t` fails the size check with its output unchanged |
| OgBase.OgIBase.IsValid | include/OgUtil.h:241-242 | `isValid()`: true exactly when the group reference is non-null; `Default` and `FromGroup` state it for both constructors |
| OgBase.OgIBase.Name | include/OgUtil.h:244-245 | `name()`: returns the cached `m_name`; `Default` and `FromGroup` show it is empty after either constructor |
| OgBase.Default | include/OgUtil.h:230-245 | a default-constructed handle is invalid and its name is empty |
| OgBase.FromGroup | include/OgUtil.h:233-245 | a handle built from a group reference holds that reference, is valid exactly when the reference is non-null, and has an empty name |
| OgBase.BindingIsObservable | include/OgUtil.h:230-242 | sanity check of the two constructors against each other: a handle built from a non-null group is valid, refers to that group and differs from a default handle. One built from null equals the default handle |

## Left out

- The Ogawa container itself (`IGroupPtr`/`OGroupPtr`, `getData`, `getSize`, `read`, `addData`, the `OGAWA_THREAD` channel): a foreign library, modelled only as an append-only sequence of byte strings. Compression, I/O failures and threading are not modelled.
- `readString`, `writeString`, `readDataType`, `getGroupName` and `ogGroupTypeToString` (include/OgUtil.h:154, 159-160, 186, 191, 216-217): only their declarations are in the header, and their bodies and the string encoding are not part of this model. The naming convention (dataset 0 holds the group's name) and the string round-trip are therefore not stated.
- OgData.ReadData: requires `idx < |g|`, because `readData` does not bounds-check `idx` (include/OgUtil.h:170), so an out-of-range index is outside the model. The group argument of `ReadData`, `WriteData` and `WriteDataType` is always a group: the source dereferences the group pointer without a null check (include/OgUtil.h:170, 199, 209), and a null group cannot be expressed here. Types outside the trait table appear only as `CType.Other`, seen through their name and size.
- OgData.CSize: states only that every size is positive. `sizeof(OgDataType)` = 4 is a platform choice (a 32-bit enumeration), not something the header fixes.
- OgData.EncodeU32: the little-endian unsigned 32-bit image of an `OgDataType` is a platform choice. The header copies the object's in-memory bytes, whatever that layout is.
- OgData.DecodeU32: the same platform choice as `EncodeU32`. Reading the tag back assumes the reader runs on the same layout as the writer.
- Floating-point and half-precision semantics, endianness of the value types and in-memory object layout: every value is an opaque byte string of its size. Only the `OgDataType` tag gets a concrete byte image (little-endian, 32-bit), because the tag round-trip needs one.
- OgTraits.SizeOf: states only that each size is positive. The concrete sizes in its body are the usual platform values of the C++ types (include/OgUtil.h:31-63), not something the header promises.
- The unused defines `OGAWA_START_ID`, `OGAWA_DATASET_BASEOFFSET` and `OGAWA_INVALID_DATASET_INDEX` (include/OgUtil.h:23-25): nothing in the header uses them.
- export/SpiMathLib.h: typedefs and macros that re-export OpenEXR/Imath math types, with no logic.
- The protected `m_name` of `OgIBase` is written by derived readers, which are not part of this model. The model has no operation that changes a handle's name.
