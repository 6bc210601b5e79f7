/** core/src/typeUtil.cpp, server to client: a C++ value becomes a wire message. */
module ServerEncode {
  import opened Results
  import opened Bytes
  import opened Floats
  import opened WireTypes

  /** bdt_map. Arrays of short carry the tag of unsigned short. */
  function ByteTag(t: ScalarType): Result<ByteType> {
    match t
    case NumT(UChar) => Ok(UCharB)
    case NumT(Char) => Ok(CharB)
    case NumT(UShort) | NumT(Short) => Ok(UShortB)
    case NumT(UInt) => Ok(UIntB)
    case NumT(ULong) => Ok(ULongB)
    case NumT(Int) => Ok(IIntB)
    case NumT(Long) => Ok(LongB)
    case FltT => Ok(BFloatB)
    case DblT => Ok(BDoubleB)
    case BoolT | StrT => Err(LogicError)
  }

  lemma PowersOf256()
    ensures Pow256(1) == 0x100 && Pow256(2) == 0x1_0000
    ensures Pow256(4) == UINT32_END && Pow256(8) == UINT64_END
  {
    assert Pow256(4) == 0x1_0000 * Pow256(2);
    assert Pow256(6) == 0x1_0000 * Pow256(4);
    assert Pow256(8) == 0x1_0000 * Pow256(6);
  }

  /** A number's representation in memory, read as one unsigned number. */
  function Image(s: Scalar): (m: nat)
    ensures m < Pow256(SizeOf(ScalarTypeOf(s)))
  {
    PowersOf256();
    match s
    case Num(w) => Twos(w.n, Width(w.k))
    case Flt(f) => f
    case Dbl(d) => d
    case Bool(_) | Str(_) => 0
  }

  function Images(items: seq<Scalar>): seq<nat> {
    seq(|items|, i requires 0 <= i < |items| => Image(items[i]))
  }

  function EncodeSimple(s: Scalar): Wire {
    var val := match s
      case Num(w) => if IsSigned(w.k) then IntVal(w.n) else UIntVal(w.n)
      case Flt(f) => DblVal(Widen(f))
      case Dbl(d) => DblVal(d)
      case Bool(b) => BoolVal(b)
      case Str(s) => StringVal(s);
    SimpleVar(val, SizeOf(ScalarTypeOf(s)), false)
  }

  /** variant::to_uint32 without its success flag: 0 when the number does not fit. */
  function ToUInt32(n: int): nat {
    if 0 <= n < UINT32_END then n else 0
  }

  function DescribeEnum(e: EnumType): EnumDesc {
    EnumDesc(e.name, map k | k in e.items :: ToUInt32(e.items[k]))
  }

  /** The name of the type of a reference to an array's item. */
  function Wrapper(name: string): string {
    "std::reference_wrapper<" + name + ">"
  }

  /** get_variant_wire_type and its helpers. */
  function Encode(v: Value): Result<Wire>
    decreases v, 0
  {
    match v
    case VVoid => Ok(SimpleVar(NotSet, 0, true))
    case VSimple(s) => Ok(EncodeSimple(s))
    case VEnum(e, n) =>
      if 0 <= n < UINT32_END then Ok(EnumVal(DescribeEnum(e), n)) else Err(ConversionError)
    case VStruct(name, fields) =>
      if forall k | k in fields :: Encode(fields[k]).Ok? then
        Ok(StructVal(name, map k | k in fields :: Encode(fields[k]).value))
      else Err(ConversionError)
    case VTuple(elems) =>
      if forall i | 0 <= i < |elems| :: Encode(elems[i]).Ok? then
        Ok(TupleVal(seq(|elems|, i requires 0 <= i < |elems| => Encode(elems[i]).value)))
      else Err(ConversionError)
    case VUnion(_, held) => Encode(held)
    case VNumbers(a) => Ok(Encoded(ByteTag(a.elem).value, Pack(SizeOf(a.elem), Images(a.items))))
    case VObjects(elem, objects) =>
      if elem.TArray? then Err(ConversionError)
      else if forall i | 0 <= i < |objects| :: EncodeItem(objects[i]).Ok? then
        Ok(Heavy(seq(|objects|, i requires 0 <= i < |objects| => EncodeItem(objects[i]).value)))
      else Err(ConversionError)
  }

  /** The same for an item of a heavy array, which comes as a reference wrapper. Simple values
      and tuples are unwrapped. Structs and enums are not: their encoders ask the wrapper's type
      for its properties and enumerators, and it has none. A union's wrapper has no method to
      get at the held value. */
  function EncodeItem(v: Value): Result<Wire>
    decreases v, 1
  {
    match v
    case VEnum(e, n) =>
      if 0 <= n < UINT32_END then Ok(EnumVal(EnumDesc(Wrapper(e.name), map[]), n)) else Err(ConversionError)
    case VStruct(name, _) => Ok(StructVal(Wrapper(name), map[]))
    case VUnion(_, _) | VNumbers(_) | VObjects(_, _) => Err(ConversionError)
    case VVoid | VSimple(_) | VTuple(_) => Encode(v)
  }

  // ---- the same translation as the server performs it, filling buffers and messages ----

  /** The items are collected first, then their memory is copied into the output buffer. */
  method VariantToBytes(a: Numbers) returns (out: array<byte>)
    ensures fresh(out) && out[..] == Pack(SizeOf(a.elem), Images(a.items))
  {
    var w := SizeOf(a.elem);
    var intermediate: seq<byte> := [];
    for i := 0 to |a.items|
      invariant intermediate == Pack(w, Images(a.items[..i]))
    {
      assert Images(a.items[..i + 1])[..i] == Images(a.items[..i]);
      intermediate := intermediate + ToLE(Image(a.items[i]), w);
    }
    assert a.items[..|a.items|] == a.items;
    out := new byte[|intermediate|];
    for k := 0 to |intermediate|
      invariant out[..k] == intermediate[..k]
    {
      out[k] := intermediate[k];
    }
  }

  method GetVariantWireType(v: Value, unwrap: bool) returns (r: Result<Wire>)
    ensures r == if unwrap then EncodeItem(v) else Encode(v)
    decreases v, 1
  {
    match v {
      case VVoid => r := Ok(SimpleVar(NotSet, 0, true));
      case VSimple(s) => r := Ok(EncodeSimple(s));
      case VEnum(e, n) =>
        var desc := if unwrap then EnumDesc(Wrapper(e.name), map[]) else DescribeEnum(e);
        r := if 0 <= n < UINT32_END then Ok(EnumVal(desc, n)) else Err(ConversionError);
      case VStruct(_, _) => r := GetStructWireType(v, unwrap);
      case VTuple(_) => r := GetTupleWireType(v);
      case VUnion(_, held) =>
        if unwrap {
          return Err(ConversionError);
        }
        r := GetVariantWireType(held, false);
      case VNumbers(a) =>
        if unwrap {
          return Err(ConversionError);
        }
        var bytes := VariantToBytes(a);
        r := Ok(Encoded(ByteTag(a.elem).value, bytes[..]));
      case VObjects(_, _) =>
        if unwrap {
          return Err(ConversionError);
        }
        r := GetHeavyArray(v);
    }
  }

  /** The loop runs over the properties of the variant's own type, wrapper or not. */
  method GetStructWireType(v: Value, wrapped: bool) returns (r: Result<Wire>)
    requires v.VStruct?
    ensures r == if wrapped then EncodeItem(v) else Encode(v)
    decreases v, 0
  {
    var props := if wrapped then map[] else v.fields;
    var fields: map<string, Wire> := map[];
    var names := props.Keys;
    while names != {}
      invariant names <= props.Keys && fields.Keys == props.Keys - names
      invariant forall k | k in fields :: Encode(v.fields[k]) == Ok(fields[k])
      decreases |names|
    {
      var name :| name in names;
      var field := GetVariantWireType(props[name], false);
      if field.Err? {
        return Err(ConversionError);
      }
      fields := fields[name := field.value];
      names := names - {name};
    }
    r := Ok(StructVal(if wrapped then Wrapper(v.name) else v.name, fields));
    assert !wrapped ==> fields == Encode(v).value.fields;
  }

  method GetTupleWireType(v: Value) returns (r: Result<Wire>)
    requires v.VTuple?
    ensures r == Encode(v)
    decreases v, 0
  {
    var vals: seq<Wire> := [];
    for i := 0 to |v.elems|
      invariant |vals| == i && forall j | 0 <= j < i :: Encode(v.elems[j]) == Ok(vals[j])
    {
      var elem := GetVariantWireType(v.elems[i], false);
      if elem.Err? {
        return Err(ConversionError);
      }
      vals := vals + [elem.value];
    }
    r := Ok(TupleVal(vals));
    assert vals == Encode(v).value.vals;
  }

  method GetHeavyArray(v: Value) returns (r: Result<Wire>)
    requires v.VObjects?
    ensures r == Encode(v)
    decreases v, 0
  {
    if v.elem.TArray? {
      return Err(ConversionError);
    }
    var items: seq<Wire> := [];
    for i := 0 to |v.objects|
      invariant |items| == i && forall j | 0 <= j < i :: EncodeItem(v.objects[j]) == Ok(items[j])
    {
      var item := GetVariantWireType(v.objects[i], true);
      if item.Err? {
        return Err(ConversionError);
      }
      items := items + [item.value];
    }
    r := Ok(Heavy(items));
    assert items == Encode(v).value.items;
  }
}
