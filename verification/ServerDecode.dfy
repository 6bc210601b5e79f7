/** core/src/typeUtil.cpp, client to server: a wire message becomes a C++ value of the type
    the capability asks for. */
module ServerDecode {
  import opened Results
  import opened Floats
  import opened WireTypes

  /** rttr's variant::convert between a wire field and the simple type of its own kind:
      it succeeds exactly when the number fits. A double becomes the nearest float. */
  function Convert(val: Oneof, t: ScalarType): Result<Scalar> {
    match t
    case NumT(k) =>
      if val.IntVal? && Lowest(k) <= val.i < End(k) then Ok(Num(Whole(k, val.i)))
      else if val.UIntVal? && val.u < End(k) then Ok(Num(Whole(k, val.u)))
      else Err(ConversionError)
    case FltT =>
      if val.DblVal? then
        var f :- Narrow(val.bits);
        Ok(Flt(f))
      else Err(ConversionError)
    case DblT => if val.DblVal? then Ok(Dbl(val.bits)) else Err(ConversionError)
    case BoolT => if val.BoolVal? then Ok(Bool(val.b)) else Err(ConversionError)
    case StrT => if val.StringVal? then Ok(Str(val.s)) else Err(ConversionError)
  }

  /** wire_type_to_variant and its overloads. */
  function Decode(w: Wire, t: Type): Result<Value>
    decreases t
  {
    match t
    case TSimple(s) =>
      if w.SimpleVar? then
        var scalar :- Convert(w.val, s);
        Ok(VSimple(scalar))
      else Err(ConversionError)
    case TEnum(e) =>
      if w.EnumVal? && w.value in e.items.Values then Ok(VEnum(e, w.value)) else Err(ConversionError)
    case TStruct(name, props) =>
      if w.StructVal? && forall k | k in props :: k in w.fields && Decode(w.fields[k], props[k]).Ok? then
        Ok(VStruct(name, map k | k in props :: Decode(w.fields[k], props[k]).value))
      else Err(ConversionError)
    case TTuple(elems) =>
      if w.TupleVal? && |w.vals| == |elems|
         && forall i | 0 <= i < |elems| :: Decode(w.vals[i], elems[i]).Ok? then
        Ok(VTuple(seq(|elems|, i requires 0 <= i < |elems| => Decode(w.vals[i], elems[i]).value)))
      else Err(ConversionError)
    case TVoid | TUnion(_) | TArray(_) => Err(ConversionError)
  }

  // ---- what any message is decoded to ----

  /** A field of a message is the scalar: the number it holds, or the float it rounds to. */
  predicate Shows(val: Oneof, s: Scalar) {
    match s
    case Num(w) => (val.IntVal? && val.i == w.n) || (val.UIntVal? && val.u == w.n)
    case Flt(f) => val.DblVal? && Narrow(val.bits) == Ok(f)
    case Dbl(d) => val == DblVal(d)
    case Bool(b) => val == BoolVal(b)
    case Str(text) => val == StringVal(text)
  }

  /** A message spells a value: a struct's message has all its fields, and maybe others; a tuple's
      has its elements in order; an enum's has an enumerator's number. */
  predicate Spells(w: Wire, v: Value)
    decreases v
  {
    match v
    case VSimple(s) => w.SimpleVar? && Shows(w.val, s)
    case VEnum(e, n) => w.EnumVal? && w.value == n && n in e.items.Values
    case VStruct(_, fields) =>
      w.StructVal? && forall k | k in fields :: k in w.fields && Spells(w.fields[k], fields[k])
    case VTuple(elems) =>
      w.TupleVal? && |w.vals| == |elems| && forall i | 0 <= i < |elems| :: Spells(w.vals[i], elems[i])
    case VVoid | VUnion(_, _) | VNumbers(_) | VObjects(_, _) => false
  }

  lemma ConvertShows(val: Oneof, t: ScalarType, s: Scalar)
    ensures Convert(val, t) == Ok(s) <==> ScalarTypeOf(s) == t && Shows(val, s)
  {
  }

  lemma OtherKeys(w: Wire, t: Type, v: Value)
    requires v.VStruct? && !(t.TStruct? && w.StructVal? && t.props.Keys == v.fields.Keys)
    ensures Decode(w, t) != Ok(v) && !(TypeOf(v) == t && Spells(w, v))
  {
    assert TypeOf(v).props.Keys == v.fields.Keys;
    if Decode(w, t).Ok? && Decode(w, t).value.VStruct? {
      assert Decode(w, t).value.fields.Keys == t.props.Keys;
    }
  }

  lemma StructDecodes(w: Wire, t: Type, v: Value)
    requires v.VStruct? && t.TStruct? && w.StructVal? && t.props.Keys == v.fields.Keys
    requires forall k | k in v.fields && k in w.fields ::
               Decode(w.fields[k], t.props[k]) == Ok(v.fields[k])
               <==> TypeOf(v.fields[k]) == t.props[k] && Spells(w.fields[k], v.fields[k])
    ensures Decode(w, t) == Ok(v) <==> TypeOf(v) == t && Spells(w, v)
  {
    assert TypeOf(v).props == t.props <==> forall k | k in v.fields :: TypeOf(v.fields[k]) == t.props[k];
    if Decode(w, t).Ok? {
      var got := Decode(w, t).value.fields;
      assert got == v.fields <==> forall k | k in v.fields :: got[k] == v.fields[k];
      assert forall k | k in v.fields :: Decode(w.fields[k], t.props[k]) == Ok(got[k]);
    }
  }

  lemma TupleDecodes(w: Wire, t: Type, v: Value)
    requires v.VTuple? && t.TTuple? && w.TupleVal? && |t.elems| == |v.elems| == |w.vals|
    requires forall i | 0 <= i < |v.elems| ::
               Decode(w.vals[i], t.elems[i]) == Ok(v.elems[i])
               <==> TypeOf(v.elems[i]) == t.elems[i] && Spells(w.vals[i], v.elems[i])
    ensures Decode(w, t) == Ok(v) <==> TypeOf(v) == t && Spells(w, v)
  {
    assert TypeOf(v).elems == t.elems <==> forall i | 0 <= i < |v.elems| :: TypeOf(v.elems[i]) == t.elems[i];
    if Decode(w, t).Ok? {
      var got := Decode(w, t).value.elems;
      assert got == v.elems <==> forall i | 0 <= i < |v.elems| :: got[i] == v.elems[i];
      assert forall i | 0 <= i < |v.elems| :: Decode(w.vals[i], t.elems[i]) == Ok(got[i]);
    }
  }

  /** Whatever message arrives, well-formed or not: it is decoded to a value exactly if it spells it
      and the value has the type wanted. */
  lemma {:induction false} DecodesWhatIsSpelt(w: Wire, t: Type, v: Value)
    ensures Decode(w, t) == Ok(v) <==> TypeOf(v) == t && Spells(w, v)
    decreases v
  {
    match v
    case VVoid | VEnum(_, _) | VUnion(_, _) | VNumbers(_) | VObjects(_, _) =>
    case VSimple(s) => ConvertShows(if w.SimpleVar? then w.val else NotSet, ScalarTypeOf(s), s);
    case VStruct(_, fields) =>
      if t.TStruct? && w.StructVal? && t.props.Keys == fields.Keys {
        forall k | k in fields && k in w.fields
          ensures Decode(w.fields[k], t.props[k]) == Ok(fields[k])
                  <==> TypeOf(fields[k]) == t.props[k] && Spells(w.fields[k], fields[k])
        {
          DecodesWhatIsSpelt(w.fields[k], t.props[k], fields[k]);
        }
        StructDecodes(w, t, v);
      } else {
        OtherKeys(w, t, v);
      }
    case VTuple(elems) =>
      if t.TTuple? && w.TupleVal? && |t.elems| == |elems| == |w.vals| {
        forall i | 0 <= i < |elems|
          ensures Decode(w.vals[i], t.elems[i]) == Ok(elems[i])
                  <==> TypeOf(elems[i]) == t.elems[i] && Spells(w.vals[i], elems[i])
        {
          DecodesWhatIsSpelt(w.vals[i], t.elems[i], elems[i]);
        }
        TupleDecodes(w, t, v);
      }
  }
}
