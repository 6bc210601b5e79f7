/** Client to server: the server describes the type it wants, and the Python client builds a
    message from a value and that description. */
module ClientEncode {
  import opened Results
  import opened WireTypes
  import opened ServerEncode

  /** The argument types of this direction: built from simple types, enums, structs and tuples. */
  predicate Argument(t: Type) {
    match t
    case TVoid | TSimple(_) | TEnum(_) => true
    case TStruct(_, props) => forall k | k in props :: Argument(props[k])
    case TTuple(elems) => forall i | 0 <= i < |elems| :: Argument(elems[i])
    case TUnion(_) | TArray(_) => false
  }

  lemma ArgumentsNest(s: ScalarType, e: EnumType, name: string, props: map<string, Type>, elems: seq<Type>)
    ensures Argument(TVoid) && Argument(TSimple(s)) && Argument(TEnum(e))
    ensures Argument(TStruct(name, props)) <==> forall t | t in props.Values :: Argument(t)
    ensures Argument(TTuple(elems)) <==> forall i | 0 <= i < |elems| :: Argument(elems[i])
  {
    assert forall k | k in props :: props[k] in props.Values;
  }

  function KindOf(t: ScalarType): SimpleKind {
    match t
    case NumT(k) => if IsSigned(k) then IntKind else UnsignedKind
    case FltT | DblT => FloatKind
    case BoolT => BoolKind
    case StrT => StringKind
  }

  /** describe_type. Only arithmetic types get a size. */
  function Describe(t: Type): Desc
    requires Argument(t)
  {
    match t
    case TVoid => DSimple(VoidKind, 0)
    case TSimple(s) => DSimple(KindOf(s), if s.StrT? then 0 else SizeOf(s))
    case TEnum(e) => DEnum(DescribeEnum(e))
    case TStruct(name, props) => DStruct(name, map k | k in props :: Describe(props[k]))
    case TTuple(elems) => DTuple(seq(|elems|, i requires 0 <= i < |elems| => Describe(elems[i])))
  }

  /** isinstance(x, int): bool is a subclass of int. */
  function AsInt(x: Py): Result<int> {
    match x
    case PInt(n) => Ok(n)
    case PBool(b) => Ok(if b then 1 else 0)
    case _ => Err(ConversionError)
  }

  /** ft_simplevariant_from_value, with the range checks of the protobuf fields. */
  function SimpleFromValue(x: Py, kind: SimpleKind): Result<Oneof> {
    match kind
    case FloatKind => if x.PFloat? then Ok(DblVal(x.bits)) else Err(ConversionError)
    case IntKind =>
      var n :- AsInt(x);
      if -INT64_END <= n < INT64_END then Ok(IntVal(n)) else Err(ConversionError)
    case UnsignedKind =>
      var n :- AsInt(x);
      if 0 <= n < UINT64_END then Ok(UIntVal(n)) else Err(ConversionError)
    case BoolKind => if x.PBool? then Ok(BoolVal(x.b)) else Err(ConversionError)
    case StringKind => if x.PStr? then Ok(StringVal(x.s)) else Err(ConversionError)
    case VoidKind => Err(ConversionError)
  }

  /** ft_enum_from_value: a name is looked up, a number must be some enumerator's. */
  function EnumFromValue(x: Py, desc: EnumDesc): Result<Wire> {
    if x.PStr? then
      if x.s in desc.values then Ok(EnumVal(desc, desc.values[x.s])) else Err(ConversionError)
    else
      var n :- AsInt(x);
      if n in desc.values.Values then Ok(EnumVal(desc, n)) else Err(ConversionError)
  }

  /** What iterating over a value yields; a string yields its characters. */
  function Iterate(x: Py): Result<seq<Py>> {
    match x
    case PList(items) => Ok(items)
    case PTuple(items) => Ok(items)
    case PStr(s) => Ok(seq(|s|, i requires 0 <= i < |s| => PStr([s[i]])))
    case _ => Err(ConversionError)
  }

  /** ft_variant_from_value and its helpers. */
  function FromValue(x: Py, d: Desc): Result<Wire>
    decreases d
  {
    match d
    case DSimple(kind, size) =>
      var val :- SimpleFromValue(x, kind);
      Ok(SimpleVar(val, size, false))
    case DEnum(desc) => EnumFromValue(x, desc)
    case DStruct(name, fields) =>
      if x.PDict? && x.onlyStrings
         && forall k | k in fields :: k in x.entries && FromValue(x.entries[k], fields[k]).Ok? then
        Ok(StructVal(name, map k | k in fields :: FromValue(x.entries[k], fields[k]).value))
      else Err(ConversionError)
    case DTuple(elems) =>
      var items :- Iterate(x);
      if |items| == |elems| && forall i | 0 <= i < |elems| :: FromValue(items[i], elems[i]).Ok? then
        Ok(TupleVal(seq(|elems|, i requires 0 <= i < |elems| => FromValue(items[i], elems[i]).value)))
      else Err(ConversionError)
  }

  // ---- the same translation as the client performs it, filling a message ----

  method FtVariantFromValue(x: Py, d: Desc) returns (r: Result<Wire>)
    ensures r == FromValue(x, d)
    decreases d, 1
  {
    match d {
      case DSimple(kind, size) =>
        var val := SimpleFromValue(x, kind);
        r := if val.Err? then Err(val.error) else Ok(SimpleVar(val.value, size, false));
      case DEnum(desc) => r := EnumFromValue(x, desc);
      case DStruct(_, _) => r := FtStructFromValue(x, d);
      case DTuple(_) => r := FtTupleFromValue(x, d);
    }
  }

  method FtTupleFromValue(x: Py, d: Desc) returns (r: Result<Wire>)
    requires d.DTuple?
    ensures r == FromValue(x, d)
    decreases d, 0
  {
    var items := Iterate(x);
    if items.Err? || |items.value| != |d.elems| {
      return Err(ConversionError);
    }
    var out: seq<Wire> := [];
    for i := 0 to |d.elems|
      invariant |out| == i && forall j | 0 <= j < i :: FromValue(items.value[j], d.elems[j]) == Ok(out[j])
    {
      var elem := FtVariantFromValue(items.value[i], d.elems[i]);
      if elem.Err? {
        return Err(ConversionError);
      }
      out := out + [elem.value];
    }
    r := Ok(TupleVal(out));
    assert out == FromValue(x, d).value.vals;
  }

  method FtStructFromValue(x: Py, d: Desc) returns (r: Result<Wire>)
    requires d.DStruct?
    ensures r == FromValue(x, d)
    decreases d, 0
  {
    if !x.PDict? || !x.onlyStrings {
      return Err(ConversionError);
    }
    var out: map<string, Wire> := map[];
    var names := d.fields.Keys;
    while names != {}
      invariant names <= d.fields.Keys && out.Keys == d.fields.Keys - names
      invariant forall k | k in out :: k in x.entries && FromValue(x.entries[k], d.fields[k]) == Ok(out[k])
      decreases |names|
    {
      var name :| name in names;
      if name !in x.entries {
        return Err(ConversionError);
      }
      var field := FtVariantFromValue(x.entries[name], d.fields[name]);
      if field.Err? {
        return Err(ConversionError);
      }
      out := out[name := field.value];
      names := names - {name};
    }
    r := Ok(StructVal(d.name, out));
    assert out == FromValue(x, d).value.fields;
  }
}
