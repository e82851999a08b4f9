/** `OgawaTypeTraits`: the compile-time table that gives each storable value
    type its persisted type tag and its name, together with the in-memory size
    that `writeData` stores and `readData` checks. */
module OgTraits {

  import opened Optional
  import opened OgEnums

  /** The fourteen value types the trait table is declared for. */
  datatype ValueType =
    | Int8 | Uint8
    | Int16 | Uint16
    | Int32 | Uint32
    | Int64 | Uint64
    | Float16 | Float32 | Float64
    | Vec16 | Vec32 | Vec64

  /** `OgawaTypeTraits<T>::typeEnum()`. */
  function TypeEnum(t: ValueType): (d: DataType)
    ensures d.IsLive()
  {
    match t
    case Int8 => F3DInt8
    case Uint8 => F3DUint8
    case Int16 => F3DInt16
    case Uint16 => F3DUint16
    case Int32 => F3DInt32
    case Uint32 => F3DUint32
    case Int64 => F3DInt64
    case Uint64 => F3DUint64
    case Float16 => F3DFloat16
    case Float32 => F3DFloat32
    case Float64 => F3DFloat64
    case Vec16 => F3DVec16
    case Vec32 => F3DVec32
    case Vec64 => F3DVec64
  }

  /** `OgawaTypeTraits<T>::typeName()`: the spelling of the C++ type the trait
      is declared for, always one of the `_t` typedefs. */
  function TypeName(t: ValueType): (s: string)
    ensures |s| > 2 && s[|s| - 2..] == "_t"
  {
    match t
    case Int8 => "int8_t"
    case Uint8 => "uint8_t"
    case Int16 => "int16_t"
    case Uint16 => "uint16_t"
    case Int32 => "int32_t"
    case Uint32 => "uint32_t"
    case Int64 => "int64_t"
    case Uint64 => "uint64_t"
    case Float16 => "float16_t"
    case Float32 => "float32_t"
    case Float64 => "float64_t"
    case Vec16 => "vec16_t"
    case Vec32 => "vec32_t"
    case Vec64 => "vec64_t"
  }

  /** `sizeof(T)`: the fixed-width integers, IEEE half/float/double, and
      three-component vectors of those floats. */
  function SizeOf(t: ValueType): (n: nat)
    ensures n > 0
  {
    match t
    case Int8 => 1
    case Uint8 => 1
    case Int16 => 2
    case Uint16 => 2
    case Int32 => 4
    case Uint32 => 4
    case Int64 => 8
    case Uint64 => 8
    case Float16 => 2
    case Float32 => 4
    case Float64 => 8
    case Vec16 => 6
    case Vec32 => 12
    case Vec64 => 24
  }

  /** The persisted code of a value type's tag. */
  function TypeCode(t: ValueType): int
  {
    DataTypeCode(TypeEnum(t))
  }

  /** The reverse lookup a reader performs after reading a type tag: the value
      type whose tag carries `code`, if any. Written independently of the
      trait table, as a dispatch over the numeric codes. */
  function TypeOfCode(code: int): (r: Option<ValueType>)
    ensures r.Some? <==> 0 <= code < DataTypeCode(F3DNumDataTypes)
  {
    DataTypeCodesFixed();
    match code
    case 0 => Some(Int8)
    case 1 => Some(Uint8)
    case 2 => Some(Int16)
    case 3 => Some(Uint16)
    case 4 => Some(Int32)
    case 5 => Some(Uint32)
    case 6 => Some(Int64)
    case 7 => Some(Uint64)
    case 8 => Some(Float16)
    case 9 => Some(Float32)
    case 10 => Some(Float64)
    case 11 => Some(Vec16)
    case 12 => Some(Vec32)
    case 13 => Some(Vec64)
    case _ => None
  }

  /** Every value type's tag is a live code, never the count or the sentinel. */
  lemma TypeCodeLive(t: ValueType)
    ensures 0 <= TypeCode(t) < DataTypeCode(F3DNumDataTypes)
    ensures TypeEnum(t) != F3DInvalidDataType
    ensures TypeCode(t) != DataTypeCode(F3DInvalidDataType)
  {
    LiveRange(TypeEnum(t));
  }

  /** The reverse lookup inverts the trait table: a code resolves to t exactly
      when t's tag carries that code. */
  lemma TypeOfCodeInverts(code: int, t: ValueType)
    ensures TypeOfCode(code) == Some(t) <==> TypeCode(t) == code
  {
    DataTypeCodesFixed();
  }

  /** No two value types share a type tag. */
  lemma TypeEnumInjective(a: ValueType, b: ValueType)
    ensures TypeEnum(a) == TypeEnum(b) ==> a == b
  {
    TypeOfCodeInverts(TypeCode(a), a);
    TypeOfCodeInverts(TypeCode(b), b);
  }

  /** The trait table is a bijection between the value types and the live
      codes [0, F3DNumDataTypes). */
  lemma TypeCodeBijective(code: int)
    ensures 0 <= code < DataTypeCode(F3DNumDataTypes) <==> exists t :: TypeCode(t) == code
  {
    if 0 <= code < DataTypeCode(F3DNumDataTypes) {
      var t := TypeOfCode(code).value;
      TypeOfCodeInverts(code, t);
    } else {
      forall t ensures TypeCode(t) != code {
        TypeCodeLive(t);
      }
    }
  }

  /** No two value types share a name. */
  lemma TypeNameInjective(a: ValueType, b: ValueType)
    ensures TypeName(a) == TypeName(b) ==> a == b
  {
  }
}
