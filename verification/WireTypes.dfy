/** The three worlds the type translation connects: C++ values that know their type (as
    rttr variants do), protobuf messages, and Python values. */
module WireTypes {
  import opened Bytes
  import opened Floats

  // ---- C++ side ----

  const UINT32_END := 0x1_0000_0000
  const INT64_END := 0x8000_0000_0000_0000
  const UINT64_END := 0x1_0000_0000_0000_0000

  datatype Integral = UChar | Char | UShort | Short | UInt | Int | ULong | Long

  function Width(k: Integral): nat {
    match k
    case UChar | Char => 1
    case UShort | Short => 2
    case UInt | Int => 4
    case ULong | Long => 8
  }

  predicate IsSigned(k: Integral) {
    k.Char? || k.Short? || k.Int? || k.Long?
  }

  /** An integral type holds the numbers from Lowest up to but not including End. */
  function Lowest(k: Integral): int {
    match k
    case Char => -0x80
    case Short => -0x8000
    case Int => -0x8000_0000
    case Long => -INT64_END
    case _ => 0
  }

  function End(k: Integral): int {
    match k
    case UChar => 0x100
    case Char => 0x80
    case UShort => 0x1_0000
    case Short => 0x8000
    case UInt => UINT32_END
    case Int => 0x8000_0000
    case ULong => UINT64_END
    case Long => INT64_END
  }

  /** Each integral type is all of its bytes, in two's complement if it is signed. */
  lemma RangesFillWidths(k: Integral)
    ensures End(k) - Lowest(k) == Pow256(Width(k))
    ensures Lowest(k) == if k.Char? || k.Short? || k.Int? || k.Long? then -End(k) else 0
    ensures Width(k) == match k
                        case UChar | Char => 1
                        case UShort | Short => 2
                        case UInt | Int => 4
                        case ULong | Long => 8
  {
    assert Pow256(2) == 0x1_0000;
    assert Pow256(4) == 0x1_0000 * Pow256(2);
    assert Pow256(8) == 0x1_0000 * Pow256(6) == 0x1_0000_0000 * Pow256(4);
  }

  datatype RawWhole = Whole(k: Integral, n: int)
  type Whole = w: RawWhole | Lowest(w.k) <= w.n < End(w.k) witness Whole(UChar, 0)

  datatype Scalar =
    | Num(w: Whole)
    | Flt(f: float32)
    | Dbl(d: float64)
    | Bool(b: bool)
    | Str(s: string)

  datatype ScalarType = NumT(k: Integral) | FltT | DblT | BoolT | StrT

  function ScalarTypeOf(s: Scalar): ScalarType {
    match s
    case Num(w) => NumT(w.k)
    case Flt(_) => FltT
    case Dbl(_) => DblT
    case Bool(_) => BoolT
    case Str(_) => StrT
  }

  /** sizeof, on the 64-bit platform the server is built for. */
  function SizeOf(t: ScalarType): nat {
    match t
    case NumT(k) => Width(k)
    case FltT => 4
    case DblT => 8
    case BoolT => 1
    case StrT => 32
  }

  datatype EnumType = EnumType(name: string, items: map<string, int>)

  datatype Type =
    | TVoid
    | TSimple(s: ScalarType)
    | TEnum(e: EnumType)
    | TStruct(name: string, props: map<string, Type>)
    | TTuple(elems: seq<Type>)
    | TUnion(alts: seq<Type>)
    | TArray(elem: Type)

  /** Element types whose arrays are packed into bytes, and those whose arrays are not. */
  predicate Packable(t: ScalarType) {
    !t.BoolT? && !t.StrT?
  }

  type ObjectType = t: Type | t.TSimple? ==> !Packable(t.s) witness TVoid

  datatype RawNumbers = Numbers(elem: ScalarType, items: seq<Scalar>)
  type Numbers = a: RawNumbers |
    Packable(a.elem) && forall i | 0 <= i < |a.items| :: ScalarTypeOf(a.items[i]) == a.elem
    witness Numbers(DblT, [])

  datatype Value =
    | VVoid
    | VSimple(s: Scalar)
    | VEnum(e: EnumType, n: int)
    | VStruct(name: string, fields: map<string, Value>)
    | VTuple(elems: seq<Value>)
    | VUnion(alts: seq<Type>, held: Value)
    | VNumbers(a: Numbers)
    | VObjects(elem: ObjectType, objects: seq<Value>)

  function TypeOf(v: Value): Type {
    match v
    case VVoid => TVoid
    case VSimple(s) => TSimple(ScalarTypeOf(s))
    case VEnum(e, _) => TEnum(e)
    case VStruct(name, fields) => TStruct(name, map k | k in fields :: TypeOf(fields[k]))
    case VTuple(elems) => TTuple(seq(|elems|, i requires 0 <= i < |elems| => TypeOf(elems[i])))
    case VUnion(alts, _) => TUnion(alts)
    case VNumbers(a) => TArray(TSimple(a.elem))
    case VObjects(elem, _) => TArray(elem)
  }

  // ---- the wire (core/proto/ft_types.proto) ----

  datatype SimpleKind = FloatKind | IntKind | UnsignedKind | BoolKind | StringKind | VoidKind

  datatype ByteType =
    | UCharB | CharB | UShortB | UIntB | ULongB | ShortB | IIntB | LongB | BFloatB | BDoubleB

  datatype EnumDesc = EnumDesc(name: string, values: map<string, nat>)

  datatype Desc =
    | DSimple(kind: SimpleKind, size: nat)
    | DEnum(desc: EnumDesc)
    | DStruct(name: string, fields: map<string, Desc>)
    | DTuple(elems: seq<Desc>)

  /** The `oneof value` of ft_simplevariant. */
  datatype Oneof =
    | NotSet
    | DblVal(bits: float64)
    | IntVal(i: int)
    | UIntVal(u: nat)
    | BoolVal(b: bool)
    | StringVal(s: string)

  datatype Wire =
    | SimpleVar(val: Oneof, size: nat, isVoid: bool)
    | StructVal(name: string, fields: map<string, Wire>)
    | EnumVal(desc: EnumDesc, value: nat)
    | TupleVal(vals: seq<Wire>)
    | Encoded(dtp: ByteType, data: seq<byte>)
    | Heavy(items: seq<Wire>)

  // ---- Python side ----

  datatype Py =
    | PNone
    | PBool(b: bool)
    | PInt(n: int)
    | PFloat(bits: float64)
    | PStr(s: string)
    | PList(items: seq<Py>)
    | PTuple(items: seq<Py>)
    | PDict(entries: map<string, Py>, onlyStrings: bool) // onlyStrings: no key of another type
}
