/** The dynamic values that reach a validator through Go's `any`, as a closed sum type. */
module Values {

  /** Go's integer types. `int` and `uint` are taken to be 64 bits wide. */
  datatype IntKind = Int | Int8 | Int16 | Int32 | Int64 | Uint | Uint8 | Uint16 | Uint32 | Uint64

  predicate IsUnsigned(k: IntKind)
  {
    k.Uint? || k.Uint8? || k.Uint16? || k.Uint32? || k.Uint64?
  }

  function Bits(k: IntKind): (b: nat)
    ensures b >= 8
  {
    match k
    case Int8 | Uint8 => 8
    case Int16 | Uint16 => 16
    case Int32 | Uint32 => 32
    case Int | Int64 | Uint | Uint64 => 64
  }

  function Pow2(n: nat): (p: nat)
    ensures p >= 1
  {
    if n == 0 then 1 else 2 * Pow2(n - 1)
  }

  /** The smallest value of the type. */
  function MinOf(k: IntKind): int
  {
    if IsUnsigned(k) then 0 else -(Pow2(Bits(k) - 1) as int)
  }

  /** The largest value of the type. */
  function MaxOf(k: IntKind): int
  {
    if IsUnsigned(k) then Pow2(Bits(k)) - 1 else Pow2(Bits(k) - 1) - 1
  }

  /** n is representable in the type k. */
  predicate InRange(k: IntKind, n: int)
  {
    MinOf(k) <= n <= MaxOf(k)
  }

  /** The name Go's %T verb prints for the type. */
  function TypeName(k: IntKind): string
  {
    match k
    case Int => "int"
    case Int8 => "int8"
    case Int16 => "int16"
    case Int32 => "int32"
    case Int64 => "int64"
    case Uint => "uint"
    case Uint8 => "uint8"
    case Uint16 => "uint16"
    case Uint32 => "uint32"
    case Uint64 => "uint64"
  }

  /** A dynamic value: the nil interface, a bool, an integer of a given type, a string, a struct
      (its fields with their `z` tags, "" for a field without one), a non-nil pointer, a nil
      pointer, or a value of any other type (floats, slices, maps, ...), named by its type. */
  datatype Value =
    | VNil
    | VBool(b: bool)
    | VInt(kind: IntKind, n: int)
    | VString(s: string)
    | VRecord(fields: seq<Field>)
    | VPtr(target: Value)
    | VNilPtr
    | VOther(typeName: string)

  datatype Field = Field(tag: string, value: Value)

  /** Go's type system keeps every integer inside its type's range. */
  predicate WellTyped(v: Value)
  {
    match v
    case VInt(k, n) => InRange(k, n)
    case VRecord(fields) => forall i :: 0 <= i < |fields| ==> WellTyped(fields[i].value)
    case VPtr(t) => WellTyped(t)
    case _ => true
  }
}
