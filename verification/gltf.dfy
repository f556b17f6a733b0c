/** glTF accessors as the model loader sees them: the byte size of one
    element and the number of elements an accessor's data holds. Parsing
    the binary glTF container is done by an external library; only the
    accessor fields the loader reads are modelled. */
module Gltf {
  import opened Types

  /** The accessor component types of the glTF 2.0 specification, plus the
      library's `None` value for an accessor without one. */
  datatype ComponentType = NoComponent | Byte | UnsignedByte | Short | UnsignedShort | UnsignedInt | Float

  /** The accessor element types, plus the library's `None` value. */
  datatype AccessorType = NoType | Scalar | Vec2 | Vec3 | Vec4 | Mat2 | Mat3 | Mat4

  datatype Accessor = Accessor(componentType: ComponentType, accessorType: AccessorType, count: uint32)

  /** Width in bytes of one component, as the glTF 2.0 specification fixes it. */
  function ComponentWidth(c: ComponentType): nat
  {
    match c
    case Byte | UnsignedByte => 1
    case Short | UnsignedShort => 2
    case UnsignedInt | Float => 4
    case NoComponent => 0
  }

  /** Number of components in one element, as the glTF 2.0 specification fixes it. */
  function ComponentCount(t: AccessorType): nat
  {
    match t
    case Scalar => 1
    case Vec2 => 2
    case Vec3 => 3
    case Vec4 => 4
    case Mat2 => 4
    case Mat3 => 9
    case Mat4 => 16
    case NoType => 0
  }

  /** `CalculateDataTypeSize`: two switches, first on the component type,
      then on the element type. The result is the component width times
      the component count, and zero exactly when either is unknown. */
  function CalculateDataTypeSize(a: Accessor): (r: uint32)
    ensures r == ComponentWidth(a.componentType) * ComponentCount(a.accessorType)
    ensures r == 0 <==> a.componentType == NoComponent || a.accessorType == NoType
    ensures r <= 64
  {
    var elementSize: uint32 :=
      if a.componentType == Byte || a.componentType == UnsignedByte then 1
      else if a.componentType == Short || a.componentType == UnsignedShort then 2
      else if a.componentType == Float || a.componentType == UnsignedInt then 4
      else 0;
    match a.accessorType
    case Mat2 => 4 * elementSize
    case Mat3 => 9 * elementSize
    case Mat4 => 16 * elementSize
    case Scalar => elementSize
    case Vec2 => 2 * elementSize
    case Vec3 => 3 * elementSize
    case Vec4 => 4 * elementSize
    case NoType => 0
  }

  /** The loader's view of one accessor's data: element stride and total
      byte size, both 32-bit. */
  datatype BufferInfo = BufferInfo(accessor: Accessor, dataStride: uint32, totalSize: uint32)

  /** `GetData`: the stride is the element size and the total size is
      `count * stride`, computed in 32 bits. */
  function GetData(a: Accessor): (b: BufferInfo)
    ensures b.accessor == a
    ensures b.dataStride == CalculateDataTypeSize(a)
    ensures a.count * b.dataStride < 0x1_0000_0000 ==> b.totalSize == a.count * b.dataStride
  {
    var size := CalculateDataTypeSize(a);
    BufferInfo(a, size, ToUint32(a.count * size))
  }

  /** `BufferInfo::NumElements`: total size divided by the element size.
      The source divides by zero for an accessor of unknown type. */
  function NumElements(b: BufferInfo): (n: uint32)
    requires CalculateDataTypeSize(b.accessor) != 0
    ensures n * CalculateDataTypeSize(b.accessor) <= b.totalSize
  {
    SizeIsElementSize(b.accessor);
    DivBounds(b.totalSize, 0, CalculateDataTypeSize(b.accessor));
    b.totalSize / CalculateDataTypeSize(b.accessor)
  }

  /** The element count the loader computes is the accessor's `count`
      exactly when `count * size` fits in 32 bits; otherwise the wrapped
      total size yields fewer elements. */
  lemma NumElementsIsCount(a: Accessor)
    requires CalculateDataTypeSize(a) != 0
    ensures NumElements(GetData(a)) <= a.count
    ensures NumElements(GetData(a)) == a.count <==> a.count * CalculateDataTypeSize(a) < 0x1_0000_0000
  {
    var size := CalculateDataTypeSize(a);
    var full := a.count * size;
    var t := GetData(a).totalSize;
    var n := NumElements(GetData(a));
    SizeIsElementSize(a);
    DivBounds(t, a.count, size);
    if full >= 0x1_0000_0000 {
      MulLess(n, a.count, size);
    }
  }

  /** Every size `CalculateDataTypeSize` yields for a known accessor. */
  const ElementSizes: set<nat> := {1, 2, 3, 4, 6, 8, 9, 12, 16, 18, 32, 36, 64}

  lemma SizeIsElementSize(a: Accessor)
    requires CalculateDataTypeSize(a) != 0
    ensures CalculateDataTypeSize(a) in ElementSizes
  {
  }

  /** Division by an element size neither grows the dividend nor
      overshoots it once multiplied back, and undoes a multiplication.
      Each size is a literal in its own case, which keeps the arithmetic
      linear. */
  lemma DivBounds(t: nat, c: nat, s: nat)
    requires s in ElementSizes
    ensures t / s <= t && (t / s) * s <= t
    ensures (c * s) / s == c
  {
    if s == 1 { assert t / s == t / 1 && (c * s) / s == (c * 1) / 1; }
    else if s == 2 { assert t / s == t / 2 && (c * s) / s == (c * 2) / 2; }
    else if s == 3 { assert t / s == t / 3 && (c * s) / s == (c * 3) / 3; }
    else if s == 4 { assert t / s == t / 4 && (c * s) / s == (c * 4) / 4; }
    else if s == 6 { assert t / s == t / 6 && (c * s) / s == (c * 6) / 6; }
    else if s == 8 { assert t / s == t / 8 && (c * s) / s == (c * 8) / 8; }
    else if s == 9 { assert t / s == t / 9 && (c * s) / s == (c * 9) / 9; }
    else if s == 12 { assert t / s == t / 12 && (c * s) / s == (c * 12) / 12; }
    else if s == 16 { assert t / s == t / 16 && (c * s) / s == (c * 16) / 16; }
    else if s == 18 { assert t / s == t / 18 && (c * s) / s == (c * 18) / 18; }
    else if s == 32 { assert t / s == t / 32 && (c * s) / s == (c * 32) / 32; }
    else if s == 36 { assert t / s == t / 36 && (c * s) / s == (c * 36) / 36; }
    else { assert t / s == t / 64 && (c * s) / s == (c * 64) / 64; }
  }

  lemma MulLess(n: nat, c: nat, s: nat)
    requires s > 0
    requires n * s < c * s
    ensures n < c
  {
  }
}
