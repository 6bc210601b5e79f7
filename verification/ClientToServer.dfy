/** What the server receives of a Python value: exactly the value of the wanted type that the
    Python value denotes. */
module ClientToServer {
  import opened Results
  import opened Floats
  import opened WireTypes
  import opened ServerEncode
  import opened ClientEncode
  import opened ServerDecode
  import opened ServerToClient

  function ScalarDenoted(x: Py, t: ScalarType): Result<Scalar> {
    match t
    case NumT(k) =>
      if x.PInt? && Lowest(k) <= x.n < End(k) then Ok(Num(Whole(k, x.n)))
      else if x.PBool? then Ok(Num(Whole(k, if x.b then 1 else 0)))
      else Err(ConversionError)
    case FltT =>
      if x.PFloat? then
        var f :- Narrow(x.bits);
        Ok(Flt(f))
      else Err(ConversionError)
    case DblT => if x.PFloat? then Ok(Dbl(x.bits)) else Err(ConversionError)
    case BoolT => if x.PBool? then Ok(Bool(x.b)) else Err(ConversionError)
    case StrT => if x.PStr? then Ok(Str(x.s)) else Err(ConversionError)
  }

  /** The elements of a Python value where a tuple is wanted: those of a list or a tuple, and the
      characters of a string. */
  function Elems(x: Py): seq<Py>
    requires x.PList? || x.PTuple? || x.PStr?
  {
    if x.PStr? then seq(|x.s|, i requires 0 <= i < |x.s| => PStr([x.s[i]])) else x.items
  }

  /** The value of type t that a Python value stands for, said without mentioning
      descriptors or messages: names stand for their enumerators, numbers must fit, and
      keys a struct does not have are ignored. */
  function Denoted(x: Py, t: Type): Result<Value>
    decreases t
  {
    match t
    case TSimple(s) =>
      var scalar :- ScalarDenoted(x, s);
      Ok(VSimple(scalar))
    case TEnum(e) =>
      if x.PStr? && x.s in e.items then Ok(VEnum(e, e.items[x.s]))
      else if x.PInt? && x.n in e.items.Values then Ok(VEnum(e, x.n))
      else if x.PBool? && x.b && 1 in e.items.Values then Ok(VEnum(e, 1))
      else if x.PBool? && !x.b && 0 in e.items.Values then Ok(VEnum(e, 0))
      else Err(ConversionError)
    case TStruct(name, props) =>
      if x.PDict? && x.onlyStrings
         && forall k | k in props :: k in x.entries && Denoted(x.entries[k], props[k]).Ok? then
        Ok(VStruct(name, map k | k in props :: Denoted(x.entries[k], props[k]).value))
      else Err(ConversionError)
    case TTuple(elems) =>
      if (x.PList? || x.PTuple? || x.PStr?) && |Elems(x)| == |elems|
         && forall i | 0 <= i < |elems| :: Denoted(Elems(x)[i], elems[i]).Ok? then
        Ok(VTuple(seq(|elems|, i requires 0 <= i < |elems| => Denoted(Elems(x)[i], elems[i]).value)))
      else Err(ConversionError)
    case TVoid | TUnion(_) | TArray(_) => Err(ConversionError)
  }

  /** A value's whole way from the client to the server. */
  function Receive(x: Py, t: Type): Result<Value>
    requires Argument(t)
  {
    var w :- FromValue(x, Describe(t));
    Decode(w, t)
  }

  /** Receive agrees with what x denotes at t, unless it meets an enumerator outside uint32. */
  ghost predicate Agrees(x: Py, t: Type)
    requires Argument(t)
  {
    && (Denoted(x, t).Err? ==> Receive(x, t).Err?)
    && (Denoted(x, t).Ok? ==> (Receive(x, t) == Denoted(x, t) <==> Carried(Denoted(x, t).value)))
  }

  lemma SimpleAgrees(x: Py, s: ScalarType)
    ensures Agrees(x, TSimple(s))
  {
  }

  lemma EnumAgrees(x: Py, e: EnumType)
    ensures Agrees(x, TEnum(e))
  {
    var desc := DescribeEnum(e);
    forall n | n in desc.values.Values && n !in e.items.Values ensures n == 0 {
      var k :| k in desc.values && desc.values[k] == n;
      assert e.items[k] in e.items.Values;
    }
    forall n | n in e.items.Values && 0 <= n < UINT32_END ensures n in desc.values.Values {
      var k :| k in e.items && e.items[k] == n;
      assert desc.values[k] == n;
    }
    assert forall n | n in desc.values.Values :: 0 <= n < UINT32_END;
  }

  /** A struct is sent field by field. */
  lemma StructSent(x: Py, t: Type)
    requires t.TStruct? && Argument(t)
    ensures FromValue(x, Describe(t)).Ok? <==>
              (x.PDict? && x.onlyStrings
               && forall k | k in t.props :: k in x.entries && FromValue(x.entries[k], Describe(t.props[k])).Ok?)
    ensures FromValue(x, Describe(t)).Ok? ==>
              FromValue(x, Describe(t)).value
              == StructVal(t.name, map k | k in t.props :: FromValue(x.entries[k], Describe(t.props[k])).value)
  {
    var d := Describe(t);
    assert d.fields.Keys == t.props.Keys;
    assert forall k | k in t.props :: d.fields[k] == Describe(t.props[k]);
    StructOfFields(x, d);
    hide FromValue, Describe;
    if FromValue(x, d).Ok? {
      assert FromValue(x, d).value.fields.Keys == t.props.Keys;
    }
  }

  lemma StructOfFields(x: Py, d: Desc)
    requires d.DStruct?
    ensures FromValue(x, d).Ok? <==>
              (x.PDict? && x.onlyStrings
               && forall k | k in d.fields :: k in x.entries && FromValue(x.entries[k], d.fields[k]).Ok?)
    ensures FromValue(x, d).Ok? ==>
              FromValue(x, d).value
              == StructVal(d.name, map k | k in d.fields :: FromValue(x.entries[k], d.fields[k]).value)
  {
  }

  /** And received field by field. */
  lemma StructReceived(x: Py, t: Type)
    requires t.TStruct? && Argument(t)
    ensures Receive(x, t).Ok? <==>
              (x.PDict? && x.onlyStrings
               && forall k | k in t.props :: k in x.entries && Receive(x.entries[k], t.props[k]).Ok?)
    ensures Receive(x, t).Ok? ==>
              Receive(x, t).value
              == VStruct(t.name, map k | k in t.props :: Receive(x.entries[k], t.props[k]).value)
  {
    hide FromValue, Describe;
    StructSent(x, t);
    if FromValue(x, Describe(t)).Ok? {
      var w := FromValue(x, Describe(t)).value;
      assert Receive(x, t) == Decode(w, t);
      assert forall k | k in t.props :: Receive(x.entries[k], t.props[k]) == Decode(w.fields[k], t.props[k]);
      hide Receive;
    }
  }

  lemma StructExact(x: Py, t: Type)
    requires t.TStruct? && Argument(t) && Denoted(x, t).Ok?
    requires forall k | k in t.props :: Agrees(x.entries[k], t.props[k])
    ensures Receive(x, t) == Denoted(x, t) <==> Carried(Denoted(x, t).value)
  {
    hide Receive, Describe, FromValue, ServerDecode.Decode;
    StructReceived(x, t);
    var want := Denoted(x, t).value;
    forall k | k in t.props
      ensures Denoted(x.entries[k], t.props[k]) == Ok(want.fields[k])
      ensures Receive(x.entries[k], t.props[k]) == Ok(want.fields[k]) <==> Carried(want.fields[k])
    {
      assert Agrees(x.entries[k], t.props[k]);
    }
    assert Carried(want) <==> forall k | k in t.props :: Carried(want.fields[k]);
    hide Carried, Denoted;
    if Receive(x, t).Ok? {
      var got := Receive(x, t).value.fields;
      assert got == want.fields <==> forall k | k in t.props :: got[k] == want.fields[k];
    }
  }

  lemma StructAgrees(x: Py, t: Type)
    requires t.TStruct? && Argument(t)
    requires x.PDict? ==> forall k | k in t.props && k in x.entries :: Agrees(x.entries[k], t.props[k])
    ensures Agrees(x, t)
  {
    if Denoted(x, t).Ok? {
      StructExact(x, t);
    } else {
      StructReceived(x, t);
    }
  }

  /** Iterating over a value yields its elements, if it has any. */
  lemma IterateYields(x: Py)
    ensures Iterate(x).Ok? <==> x.PList? || x.PTuple? || x.PStr?
    ensures Iterate(x).Ok? ==> Iterate(x).value == Elems(x)
  {
  }

  /** The items go through one by one. */
  lemma ItemsReceived(x: Py, t: Type)
    requires t.TTuple? && Argument(t)
    ensures Receive(x, t).Ok? <==>
              (Iterate(x).Ok? && |Iterate(x).value| == |t.elems|
               && forall i | 0 <= i < |t.elems| :: Receive(Iterate(x).value[i], t.elems[i]).Ok?)
    ensures Receive(x, t).Ok? ==>
              Receive(x, t).value
              == VTuple(seq(|t.elems|, i requires 0 <= i < |t.elems| =>
                              Receive(Iterate(x).value[i], t.elems[i]).value))
  {
    var d := Describe(t);
    if FromValue(x, d).Ok? {
      var w, items := FromValue(x, d).value, Iterate(x).value;
      forall i | 0 <= i < |t.elems|
        ensures FromValue(items[i], Describe(t.elems[i])) == Ok(w.vals[i])
      {
        assert d.elems[i] == Describe(t.elems[i]);
      }
      assert Receive(x, t) == Decode(w, t);
    } else if Iterate(x).Ok? && |Iterate(x).value| == |t.elems| {
      assert exists i | 0 <= i < |d.elems| :: FromValue(Iterate(x).value[i], d.elems[i]).Err?;
    }
  }

  /** A tuple is received element by element, from a list, a tuple or the characters of a string,
      and from nothing else. */
  lemma TupleReceived(x: Py, t: Type)
    requires t.TTuple? && Argument(t)
    ensures x.PList? || x.PTuple? ==>
              (Receive(x, t).Ok?
               <==> |x.items| == |t.elems| && forall i | 0 <= i < |t.elems| :: Receive(x.items[i], t.elems[i]).Ok?)
    ensures x.PStr? ==>
              (Receive(x, t).Ok?
               <==> |x.s| == |t.elems| && forall i | 0 <= i < |t.elems| :: Receive(PStr([x.s[i]]), t.elems[i]).Ok?)
    ensures Receive(x, t).Ok? ==>
              var r := Receive(x, t).value;
              && r.VTuple? && |r.elems| == |t.elems| && (x.PList? || x.PTuple? || x.PStr?)
              && forall i | 0 <= i < |t.elems| ::
                   Ok(r.elems[i]) == if x.PStr? then Receive(PStr([x.s[i]]), t.elems[i])
                                     else Receive(x.items[i], t.elems[i])
  {
    hide Receive;
    ItemsReceived(x, t);
    IterateYields(x);
  }

  lemma TupleExact(x: Py, t: Type)
    requires t.TTuple? && Argument(t) && Denoted(x, t).Ok?
    requires forall i | 0 <= i < |t.elems| :: Agrees(Elems(x)[i], t.elems[i])
    ensures Receive(x, t) == Denoted(x, t) <==> Carried(Denoted(x, t).value)
  {
    ItemsReceived(x, t);
    IterateYields(x);
    var items, want := Elems(x), Denoted(x, t).value;
    forall i | 0 <= i < |t.elems|
      ensures Denoted(items[i], t.elems[i]) == Ok(want.elems[i])
      ensures Receive(items[i], t.elems[i]) == Ok(want.elems[i]) <==> Carried(want.elems[i])
    {
      assert Agrees(items[i], t.elems[i]);
    }
    if Receive(x, t).Ok? {
      var got := Receive(x, t).value.elems;
      assert got == want.elems <==> forall i | 0 <= i < |t.elems| :: got[i] == want.elems[i];
    }
  }

  lemma TupleAgrees(x: Py, t: Type)
    requires t.TTuple? && Argument(t)
    requires (x.PList? || x.PTuple? || x.PStr?) && |Elems(x)| == |t.elems| ==>
               forall i | 0 <= i < |t.elems| :: Agrees(Elems(x)[i], t.elems[i])
    ensures Agrees(x, t)
  {
    IterateYields(x);
    if Denoted(x, t).Ok? {
      TupleExact(x, t);
    } else {
      ItemsReceived(x, t);
    }
  }

  /** A float argument is received as the nearest float; numbers beyond the floats' range, and
      infinities, are refused; a NaN stays one. */
  lemma FloatIsRounded(d: float64)
    ensures var r, mag := Receive(PFloat(d), TSimple(FltT)), d % SIGN64;
            && (mag <= MAX64 ==> r.Ok? && r.value.VSimple? && r.value.s.Flt?
                                 && r.value.s.f / SIGN32 == d / SIGN64
                                 && Nearest(r.value.s.f % SIGN32, Value64(mag)))
            && (MAX64 < mag <= INF64 ==> r.Err?)
            && (mag > INF64 ==> r.Ok? && r.value.VSimple? && r.value.s.Flt? && r.value.s.f % SIGN32 > INF32)
  {
    hide Nearest, RoundMagnitude, Value64;
    if d % SIGN64 <= MAX64 {
      NarrowIsNearest(d);
    }
  }

  /** Main result, client to server: for every Python value and every argument type, the
      server refuses what denotes nothing, and receives exactly what is denoted if and only
      if that is a value the translation carries. */
  lemma {:induction false} ServerReceivesDenoted(x: Py, t: Type)
    requires Argument(t)
    ensures Denoted(x, t).Err? ==> Receive(x, t).Err?
    ensures Denoted(x, t).Ok? ==> (Receive(x, t) == Denoted(x, t) <==> Carried(Denoted(x, t).value))
    decreases t
  {
    match t
    case TVoid =>
    case TSimple(s) => SimpleAgrees(x, s);
    case TEnum(e) => EnumAgrees(x, e);
    case TStruct(_, props) =>
      if x.PDict? {
        forall k | k in props && k in x.entries { ServerReceivesDenoted(x.entries[k], props[k]); }
      }
      StructAgrees(x, t);
    case TTuple(elems) =>
      if (x.PList? || x.PTuple? || x.PStr?) && |Elems(x)| == |elems| {
        forall i | 0 <= i < |elems| { ServerReceivesDenoted(Elems(x)[i], elems[i]); }
      }
      TupleAgrees(x, t);
  }
}
