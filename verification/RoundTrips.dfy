/** Values of argument types survive the way to the wire and back, whichever side reads the
    message, and every message conforms to the description of its type. */
module RoundTrips {
  import opened Results
  import opened Bytes
  import opened Floats
  import opened WireTypes
  import opened ServerEncode
  import opened ClientEncode
  import opened ServerDecode
  import opened ServerToClient
  import opened ClientToServer

  /** Holds no void, and every enum value is one of its type's enumerators. */
  predicate Registered(v: Value) {
    match v
    case VVoid => false
    case VSimple(_) => true
    case VEnum(e, n) => n in e.items.Values
    case VStruct(_, fields) => forall k | k in fields :: Registered(fields[k])
    case VTuple(elems) => forall i | 0 <= i < |elems| :: Registered(elems[i])
    case VUnion(_, _) | VNumbers(_) | VObjects(_, _) => false
  }

  /** Holds no float that changes on its way through a double: no infinity, no signalling NaN. */
  predicate FloatsReturn(v: Value) {
    match v
    case VSimple(s) => s.Flt? ==> Returns(s.f)
    case VStruct(_, fields) => forall k | k in fields :: FloatsReturn(fields[k])
    case VTuple(elems) => forall i | 0 <= i < |elems| :: FloatsReturn(elems[i])
    case _ => true
  }

  /** The values that come back as they were. */
  predicate Returnable(v: Value) {
    Registered(v) && FloatsReturn(v)
  }

  function ThroughCpp(v: Value): Result<Value> {
    var w :- Encode(v);
    Decode(w, TypeOf(v))
  }

  /** Sent to the client, decoded there, and sent back as an argument. */
  function Echo(v: Value): Result<Value>
    requires Argument(TypeOf(v))
  {
    var x :- Transport(v);
    Receive(x, TypeOf(v))
  }

  lemma ScalarThroughCpp(s: Scalar)
    ensures ThroughCpp(VSimple(s)) == Ok(VSimple(s)) <==> FloatsReturn(VSimple(s))
  {
    if s.Flt? { NarrowOfWiden(s.f); }
  }

  lemma StructOnWire(v: Value)
    requires v.VStruct?
    ensures var t := TypeOf(v);
            && t.TStruct? && t.name == v.name && t.props.Keys == v.fields.Keys
            && (Encode(v).Ok? <==> forall k | k in v.fields :: Encode(v.fields[k]).Ok?)
            && (Encode(v).Ok? ==> Encode(v).value.StructVal? && Encode(v).value.fields.Keys == v.fields.Keys)
            && forall k | k in v.fields ::
                 t.props[k] == TypeOf(v.fields[k])
                 && (Encode(v).Ok? ==> Encode(v.fields[k]) == Ok(Encode(v).value.fields[k]))
  {
  }

  lemma StructOffWire(w: Wire, t: Type)
    requires w.StructVal? && t.TStruct? && w.fields.Keys == t.props.Keys
    ensures Decode(w, t).Ok? <==> forall k | k in t.props :: Decode(w.fields[k], t.props[k]).Ok?
    ensures Decode(w, t).Ok? ==>
              Decode(w, t).value == VStruct(t.name, map k | k in t.props :: Decode(w.fields[k], t.props[k]).value)
  {
  }

  lemma StructThroughCpp(v: Value)
    requires v.VStruct?
    ensures ThroughCpp(v).Ok? <==> forall k | k in v.fields :: ThroughCpp(v.fields[k]).Ok?
    ensures ThroughCpp(v).Ok? ==>
              ThroughCpp(v).value
              == VStruct(v.name, map k | k in v.fields :: ThroughCpp(v.fields[k]).value)
  {
    hide Encode, Decode, TypeOf;
    StructOnWire(v);
    if Encode(v).Ok? {
      StructOffWire(Encode(v).value, TypeOf(v));
      forall k | k in v.fields
        ensures ThroughCpp(v.fields[k]) == Decode(Encode(v).value.fields[k], TypeOf(v).props[k])
      {
      }
      if ThroughCpp(v).Ok? {
        assert ThroughCpp(v).value.fields.Keys == v.fields.Keys;
      }
    }
  }

  lemma TupleThroughCpp(v: Value)
    requires v.VTuple?
    ensures ThroughCpp(v).Ok? <==> forall i | 0 <= i < |v.elems| :: ThroughCpp(v.elems[i]).Ok?
    ensures ThroughCpp(v).Ok? ==>
              ThroughCpp(v).value
              == VTuple(seq(|v.elems|, i requires 0 <= i < |v.elems| => ThroughCpp(v.elems[i]).value))
  {
    var t := TypeOf(v);
    if Encode(v).Ok? {
      var w := Encode(v).value;
      forall i | 0 <= i < |v.elems|
        ensures t.elems[i] == TypeOf(v.elems[i]) && Encode(v.elems[i]) == Ok(w.vals[i])
      {
      }
      assert ThroughCpp(v) == Decode(w, t);
    }
  }

  lemma FieldsReturn(v: Value)
    requires v.VStruct?
    ensures Returnable(v) && Carried(v) <==> forall k | k in v.fields :: Returnable(v.fields[k]) && Carried(v.fields[k])
  {
  }

  lemma StructComesBack(v: Value)
    requires v.VStruct?
    requires forall k | k in v.fields ::
               ThroughCpp(v.fields[k]) == Ok(v.fields[k]) <==> Returnable(v.fields[k]) && Carried(v.fields[k])
    ensures ThroughCpp(v) == Ok(v) <==> Returnable(v) && Carried(v)
  {
    hide ThroughCpp, Returnable, Carried;
    StructThroughCpp(v);
    FieldsReturn(v);
    if ThroughCpp(v).Ok? {
      var got := ThroughCpp(v).value.fields;
      assert got == v.fields <==> forall k | k in v.fields :: got[k] == v.fields[k];
    }
  }

  lemma TupleComesBack(v: Value)
    requires v.VTuple?
    requires forall i | 0 <= i < |v.elems| ::
               ThroughCpp(v.elems[i]) == Ok(v.elems[i]) <==> Returnable(v.elems[i]) && Carried(v.elems[i])
    ensures ThroughCpp(v) == Ok(v) <==> Returnable(v) && Carried(v)
  {
    TupleThroughCpp(v);
    assert Returnable(v) && Carried(v)
      <==> forall i | 0 <= i < |v.elems| :: Returnable(v.elems[i]) && Carried(v.elems[i]);
    hide ThroughCpp, Returnable, Carried;
    if ThroughCpp(v).Ok? {
      var got := ThroughCpp(v).value.elems;
      assert got == v.elems <==> forall i | 0 <= i < |v.elems| :: got[i] == v.elems[i];
    }
  }

  /** wire_type_to_variant undoes get_variant_wire_type exactly when every enum value is a
      registered enumerator within uint32, nothing is void and every float returns. */
  lemma {:induction false} CppRoundTrip(v: Value)
    requires Argument(TypeOf(v))
    ensures ThroughCpp(v) == Ok(v) <==> Returnable(v) && Carried(v)
  {
    match v
    case VVoid | VEnum(_, _) =>
    case VSimple(s) => ScalarThroughCpp(s);
    case VStruct(_, fields) =>
      forall k | k in fields
        ensures ThroughCpp(fields[k]) == Ok(fields[k]) <==> Returnable(fields[k]) && Carried(fields[k])
      {
        assert TypeOf(v).props[k] == TypeOf(fields[k]);
        CppRoundTrip(fields[k]);
      }
      hide ThroughCpp, Returnable, Carried;
      StructComesBack(v);
    case VTuple(elems) =>
      forall i | 0 <= i < |elems|
        ensures ThroughCpp(elems[i]) == Ok(elems[i]) <==> Returnable(elems[i]) && Carried(elems[i])
      {
        assert TypeOf(v).elems[i] == TypeOf(elems[i]);
        CppRoundTrip(elems[i]);
      }
      hide ThroughCpp, Returnable, Carried;
      TupleComesBack(v);
  }

  lemma StructMeans(v: Value)
    requires v.VStruct?
    ensures var x, t := Meaning(v), TypeOf(v);
            && x.PDict? && x.onlyStrings && t.TStruct? && t.name == v.name
            && t.props.Keys == x.entries.Keys == v.fields.Keys
            && forall k | k in v.fields :: x.entries[k] == Meaning(v.fields[k]) && t.props[k] == TypeOf(v.fields[k])
  {
  }

  lemma StructIsDenoted(v: Value)
    requires v.VStruct?
    ensures Denoted(Meaning(v), TypeOf(v)).Ok?
            <==> forall k | k in v.fields :: Denoted(Meaning(v.fields[k]), TypeOf(v.fields[k])).Ok?
    ensures Denoted(Meaning(v), TypeOf(v)).Ok? ==>
              Denoted(Meaning(v), TypeOf(v)).value
              == VStruct(v.name, map k | k in v.fields :: Denoted(Meaning(v.fields[k]), TypeOf(v.fields[k])).value)
  {
    hide Denoted, Meaning, TypeOf;
    var x, t := Meaning(v), TypeOf(v);
    StructMeans(v);
    StructOfEntries(x, t);
    if Denoted(x, t).Ok? {
      assert Denoted(x, t).value.fields.Keys == v.fields.Keys;
    }
  }

  lemma StructOfEntries(x: Py, t: Type)
    requires x.PDict? && x.onlyStrings && t.TStruct? && x.entries.Keys == t.props.Keys
    ensures Denoted(x, t).Ok? <==> forall k | k in t.props :: Denoted(x.entries[k], t.props[k]).Ok?
    ensures Denoted(x, t).Ok? ==>
              Denoted(x, t).value == VStruct(t.name, map k | k in t.props :: Denoted(x.entries[k], t.props[k]).value)
  {
  }

  lemma FieldsReturnable(v: Value)
    requires v.VStruct?
    ensures Returnable(v) <==> forall k | k in v.fields :: Returnable(v.fields[k])
  {
  }

  lemma StructDenotes(v: Value)
    requires v.VStruct?
    requires forall k | k in v.fields ::
               Denoted(Meaning(v.fields[k]), TypeOf(v.fields[k])) == Ok(v.fields[k]) <==> Returnable(v.fields[k])
    ensures Denoted(Meaning(v), TypeOf(v)) == Ok(v) <==> Returnable(v)
  {
    hide Denoted, Meaning, TypeOf, Returnable;
    StructIsDenoted(v);
    FieldsReturnable(v);
    if Denoted(Meaning(v), TypeOf(v)).Ok? {
      var got := Denoted(Meaning(v), TypeOf(v)).value.fields;
      assert got == v.fields <==> forall k | k in v.fields :: got[k] == v.fields[k];
    }
  }

  lemma TupleDenotes(v: Value)
    requires v.VTuple? && Argument(TypeOf(v))
    requires forall i | 0 <= i < |v.elems| ::
               Denoted(Meaning(v.elems[i]), TypeOf(v.elems[i])) == Ok(v.elems[i]) <==> Returnable(v.elems[i])
    ensures Denoted(Meaning(v), TypeOf(v)) == Ok(v) <==> Returnable(v)
  {
    var x, t := Meaning(v), TypeOf(v);
    assert forall i | 0 <= i < |v.elems| :: x.items[i] == Meaning(v.elems[i]) && t.elems[i] == TypeOf(v.elems[i]);
    assert Returnable(v) <==> forall i | 0 <= i < |v.elems| :: Returnable(v.elems[i]);
    if Denoted(x, t).Ok? {
      var got := Denoted(x, t).value.elems;
      assert got == v.elems <==> forall i | 0 <= i < |v.elems| :: got[i] == v.elems[i];
    }
  }

  /** What the client reads denotes the value again at the value's own type, exactly when the
      value is returnable. */
  lemma {:induction false} MeaningDenotes(v: Value)
    requires Argument(TypeOf(v))
    ensures Denoted(Meaning(v), TypeOf(v)) == Ok(v) <==> Returnable(v)
  {
    match v
    case VVoid | VEnum(_, _) =>
    case VSimple(s) =>
      if s.Flt? { NarrowOfWiden(s.f); }
    case VStruct(_, fields) =>
      forall k | k in fields
        ensures Denoted(Meaning(fields[k]), TypeOf(fields[k])) == Ok(fields[k]) <==> Returnable(fields[k])
      {
        assert TypeOf(v).props[k] == TypeOf(fields[k]) && Argument(TypeOf(v).props[k]);
        MeaningDenotes(fields[k]);
      }
      StructDenotes(v);
    case VTuple(elems) =>
      forall i | 0 <= i < |elems|
        ensures Denoted(Meaning(elems[i]), TypeOf(elems[i])) == Ok(elems[i]) <==> Returnable(elems[i])
      {
        assert TypeOf(v).elems[i] == TypeOf(elems[i]) && Argument(TypeOf(v).elems[i]);
        MeaningDenotes(elems[i]);
      }
      TupleDenotes(v);
  }

  lemma {:induction false} EncodedIsCarried(v: Value)
    requires Argument(TypeOf(v))
    ensures Encode(v).Ok? <==> Carried(v)
  {
    match v
    case VVoid | VSimple(_) | VEnum(_, _) =>
    case VStruct(_, fields) =>
      forall k | k in fields ensures Encode(fields[k]).Ok? <==> Carried(fields[k]) {
        assert TypeOf(v).props[k] == TypeOf(fields[k]);
        EncodedIsCarried(fields[k]);
      }
    case VTuple(elems) =>
      forall i | 0 <= i < |elems| ensures Encode(elems[i]).Ok? <==> Carried(elems[i]) {
        assert TypeOf(v).elems[i] == TypeOf(elems[i]);
        EncodedIsCarried(elems[i]);
      }
  }

  lemma {:induction false} DenotedIsCarried(v: Value)
    requires Argument(TypeOf(v)) && Carried(v)
    ensures var u := Denoted(Meaning(v), TypeOf(v)); u.Ok? ==> Carried(u.value)
  {
    var x, t := Meaning(v), TypeOf(v);
    match v
    case VVoid | VSimple(_) | VEnum(_, _) =>
    case VStruct(_, fields) =>
      if Denoted(x, t).Ok? {
        var got := Denoted(x, t).value.fields;
        assert got.Keys == fields.Keys;
        forall k | k in fields ensures Carried(got[k]) {
          assert t.props[k] == TypeOf(fields[k]) && x.entries[k] == Meaning(fields[k]) && Argument(t.props[k]);
          DenotedIsCarried(fields[k]);
        }
      }
    case VTuple(elems) =>
      if Denoted(x, t).Ok? {
        var got := Denoted(x, t).value.elems;
        forall i | 0 <= i < |elems| ensures Carried(got[i]) {
          assert t.elems[i] == TypeOf(elems[i]) && x.items[i] == Meaning(elems[i]) && Argument(t.elems[i]);
          DenotedIsCarried(elems[i]);
        }
      }
  }

  /** A device value handed to the client and passed back unchanged arrives as the same
      value: both languages agree on every carried, returnable value and on no other. */
  lemma EchoIsIdentity(v: Value)
    requires Argument(TypeOf(v))
    ensures Echo(v) == Ok(v) <==> Returnable(v) && Carried(v)
  {
    hide Carried, Encode, Meaning, Denoted, Receive, TypeOf, Returnable;
    EncodedIsCarried(v);
    if Carried(v) {
      ClientSeesMeaning(v);
      var x, t := Meaning(v), TypeOf(v);
      assert Echo(v) == Receive(x, t);
      MeaningDenotes(v);
      ServerReceivesDenoted(x, t);
      DenotedIsCarried(v);
    }
  }

  /** What a reader may rely on who holds a description and a message: the message has the
      described shape, its numbers fit their 64-bit fields, all struct fields are there and no
      others, and an enum number belongs to the described enum. */
  predicate Conforms(w: Wire, d: Desc)
    decreases d
  {
    match d
    case DSimple(kind, _) =>
      w.SimpleVar? && match kind {
        case FloatKind => w.val.DblVal? && !w.isVoid
        case IntKind => w.val.IntVal? && !w.isVoid && -0x8000_0000_0000_0000 <= w.val.i < 0x8000_0000_0000_0000
        case UnsignedKind => w.val.UIntVal? && !w.isVoid && w.val.u < 0x1_0000_0000_0000_0000
        case BoolKind => w.val.BoolVal? && !w.isVoid
        case StringKind => w.val.StringVal? && !w.isVoid
        case VoidKind => w.val.NotSet? && w.isVoid
      }
    case DEnum(desc) => w.EnumVal? && w.desc == desc && w.value in desc.values.Values
    case DStruct(name, fields) =>
      w.StructVal? && w.name == name && w.fields.Keys == fields.Keys
      && forall k | k in fields :: Conforms(w.fields[k], fields[k])
    case DTuple(elems) =>
      w.TupleVal? && |w.vals| == |elems| && forall i | 0 <= i < |elems| :: Conforms(w.vals[i], elems[i])
  }

  /** The values whose enum numbers their descriptions list: the enumerators, and 0 where the
      description has put it in place of an enumerator outside uint32. */
  predicate Listed(v: Value) {
    match v
    case VVoid | VSimple(_) => true
    case VEnum(e, n) => n in e.items.Values || (n == 0 && exists m | m in e.items.Values :: !(0 <= m < UINT32_END))
    case VStruct(_, fields) => forall k | k in fields :: Listed(fields[k])
    case VTuple(elems) => forall i | 0 <= i < |elems| :: Listed(elems[i])
    case VUnion(_, _) | VNumbers(_) | VObjects(_, _) => false
  }

  lemma EnumConforms(e: EnumType, n: int)
    requires 0 <= n < UINT32_END
    ensures n in DescribeEnum(e).values.Values <==> Listed(VEnum(e, n))
  {
    var values := DescribeEnum(e).values;
    if n in values.Values {
      var k :| k in values && values[k] == n;
      assert e.items[k] in e.items.Values;
    }
    if Listed(VEnum(e, n)) {
      var m :| m in e.items.Values && ToUInt32(m) == n;
      var k :| k in e.items && e.items[k] == m;
      assert values[k] == n;
    }
  }

  /** The server's message for a value it can send conforms to the description of the value's
      type exactly when the value is listed; a void does, though it does not come back. */
  lemma {:induction false} ServerMessagesConform(v: Value)
    requires Argument(TypeOf(v)) && Carried(v)
    ensures Encode(v).Ok? && (Conforms(Encode(v).value, Describe(TypeOf(v))) <==> Listed(v))
  {
    EncodedIsCarried(v);
    var w, t := Encode(v).value, TypeOf(v);
    var d := Describe(t);
    match v
    case VVoid | VSimple(_) =>
    case VEnum(e, n) => EnumConforms(e, n);
    case VStruct(_, fields) =>
      forall k | k in fields ensures Conforms(w.fields[k], d.fields[k]) <==> Listed(fields[k]) {
        assert t.props[k] == TypeOf(fields[k]) && Argument(t.props[k]);
        ServerMessagesConform(fields[k]);
      }
      assert d.fields.Keys == t.props.Keys == fields.Keys == w.fields.Keys;
    case VTuple(elems) =>
      forall i | 0 <= i < |elems| ensures Conforms(w.vals[i], d.elems[i]) <==> Listed(elems[i]) {
        assert t.elems[i] == TypeOf(elems[i]) && Argument(t.elems[i]);
        ServerMessagesConform(elems[i]);
      }
  }

  lemma {:induction false} ClientMessagesConform(x: Py, d: Desc)
    requires FromValue(x, d).Ok?
    ensures Conforms(FromValue(x, d).value, d)
    decreases d
  {
    match d
    case DSimple(_, _) | DEnum(_) =>
    case DStruct(_, fields) =>
      forall k | k in fields ensures Conforms(FromValue(x, d).value.fields[k], fields[k]) {
        ClientMessagesConform(x.entries[k], fields[k]);
      }
    case DTuple(elems) =>
      forall i | 0 <= i < |elems| ensures Conforms(FromValue(x, d).value.vals[i], elems[i]) {
        ClientMessagesConform(Iterate(x).value[i], elems[i]);
      }
  }

  /** The size field is the described size for every simple value but strings, where the
      server sends sizeof(std::string) and describes 0. */
  lemma SizesAgreeButForStrings(s: Scalar)
    ensures EncodeSimple(s).size == Describe(TSimple(ScalarTypeOf(s))).size <==> !s.Str?
    ensures s.Str? ==> EncodeSimple(s).size == 32 && Describe(TSimple(StrT)).size == 0
    ensures s.Bool? ==> EncodeSimple(s).size == 1
    ensures s.Flt? ==> EncodeSimple(s).size == 4
    ensures s.Dbl? ==> EncodeSimple(s).size == 8
    ensures s.Num? ==> Pow256(EncodeSimple(s).size) == End(s.w.k) - Lowest(s.w.k)
    ensures Encode(VVoid).value.size == Describe(TVoid).size == 0
  {
    if s.Num? {
      RangesFillWidths(s.w.k);
    }
  }
}
