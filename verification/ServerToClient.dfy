/** What a Python client sees of a C++ value: exactly its meaning, for exactly the values
    that every step of the translation can carry. */
module ServerToClient {
  import opened Results
  import opened Bytes
  import opened Floats
  import opened WireTypes
  import opened ServerEncode
  import ClientDecode

  function ScalarMeaning(s: Scalar): Py {
    match s
    case Num(w) => PInt(w.n)
    case Flt(f) => PFloat(Widen(f))
    case Dbl(d) => PFloat(d)
    case Bool(b) => PBool(b)
    case Str(s) => PStr(s)
  }

  function Meanings(items: seq<Scalar>): seq<Py> {
    seq(|items|, i requires 0 <= i < |items| => ScalarMeaning(items[i]))
  }

  /** The Python value a C++ value stands for, said without mentioning the wire. Arrays of
      numbers are tuples and all other arrays are lists. */
  function Meaning(v: Value): Py {
    match v
    case VVoid => PNone
    case VSimple(s) => ScalarMeaning(s)
    case VEnum(_, n) => PInt(n)
    case VStruct(_, fields) => PDict(map k | k in fields :: Meaning(fields[k]), true)
    case VTuple(elems) => PTuple(seq(|elems|, i requires 0 <= i < |elems| => Meaning(elems[i])))
    case VUnion(_, held) => Meaning(held)
    case VNumbers(a) => PTuple(Meanings(a.items))
    case VObjects(_, objects) =>
      PList(seq(|objects|, i requires 0 <= i < |objects| => Meaning(objects[i])))
  }

  /** The values the translation carries: no enumerator outside uint32, no array of arrays,
      no array of 64-bit integers, no negative number in an array of shorts, and neither a
      struct with fields nor a union as an item of an array. */
  predicate Carried(v: Value)
    decreases v, 0
  {
    match v
    case VVoid | VSimple(_) => true
    case VEnum(_, n) => 0 <= n < UINT32_END
    case VStruct(_, fields) => forall k | k in fields :: Carried(fields[k])
    case VTuple(elems) => forall i | 0 <= i < |elems| :: Carried(elems[i])
    case VUnion(_, held) => Carried(held)
    case VNumbers(a) =>
      && a.elem != NumT(ULong) && a.elem != NumT(Long)
      && forall i | 0 <= i < |a.items| :: Readable(a.items[i])
    case VObjects(elem, objects) =>
      !elem.TArray? && forall i | 0 <= i < |objects| :: CarriedItem(objects[i])
  }

  predicate CarriedItem(v: Value)
    decreases v, 1
  {
    match v
    case VStruct(_, fields) => fields == map[]
    case VUnion(_, _) | VNumbers(_) | VObjects(_, _) => false
    case VVoid | VSimple(_) | VEnum(_, _) | VTuple(_) => Carried(v)
  }

  /** A number that keeps its value when it is packed and unpacked. */
  predicate Readable(s: Scalar) {
    s.Num? && s.w.k.Short? ==> s.w.n >= 0
  }

  /** A value's whole way from the server to the client. */
  function Transport(v: Value): Result<Py> {
    var w :- Encode(v);
    ClientDecode.Decode(w)
  }

  /** Reading a two's complement image as a signed number undoes it. */
  lemma SignedOfTwos(w: Whole)
    ensures Signed(Image(Num(w)), Width(w.k)) == w.n <==> IsSigned(w.k) || 2 * w.n < Pow256(Width(w.k))
    ensures Image(Num(w)) == w.n <==> w.n >= 0
  {
    PowersOf256();
  }

  /** And an item's, in a heavy array. */
  function TransportItem(v: Value): Result<Py> {
    var w :- EncodeItem(v);
    ClientDecode.Decode(w)
  }

  /** The 64-bit tags are the only ones an array may carry that have no reader. */
  predicate HasReader(t: ScalarType) {
    t != NumT(ULong) && t != NumT(Long)
  }

  lemma ReaderWidth(t: ScalarType)
    requires Packable(t)
    ensures HasReader(t) ==> ClientDecode.ItemWidth(ByteTag(t).value) == Ok(SizeOf(t))
    ensures !HasReader(t) ==> ClientDecode.ItemWidth(ByteTag(t).value).Err?
  {
  }

  /** One packed item, read back with the tag the server attached to the array. */
  lemma ItemOfImage(s: Scalar, bs: seq<byte>)
    requires Packable(ScalarTypeOf(s)) && HasReader(ScalarTypeOf(s))
    requires |bs| == SizeOf(ScalarTypeOf(s)) && FromLE(bs) == Image(s)
    ensures ClientDecode.ItemWidth(ByteTag(ScalarTypeOf(s)).value) == Ok(|bs|)
    ensures ClientDecode.Item(ByteTag(ScalarTypeOf(s)).value, bs) == ScalarMeaning(s) <==> Readable(s)
  {
    ReaderWidth(ScalarTypeOf(s));
    if s.Num? {
      SignedOfTwos(s.w);
      hide Signed, Image, FromLE, Pow256;
    } else {
      hide FromLE, Pow256;
    }
  }

  lemma ItemOfPack(a: Numbers, k: nat)
    requires HasReader(a.elem) && k < |a.items|
    ensures var tag, w, data := ByteTag(a.elem).value, SizeOf(a.elem), Pack(SizeOf(a.elem), Images(a.items));
            && k * w + w <= |data| && ClientDecode.ItemWidth(tag) == Ok(|Slot(data, w, k)|)
            && (ClientDecode.Item(tag, Slot(data, w, k)) == ScalarMeaning(a.items[k]) <==> Readable(a.items[k]))
  {
    hide Pack, Slot, ClientDecode.Item, ScalarMeaning, Readable, Image, ToLE, FromLE, Pow256;
    SlotOfPack(SizeOf(a.elem), Images(a.items), k);
    FromLEOfToLE(Image(a.items[k]), SizeOf(a.elem));
    ItemOfImage(a.items[k], ToLE(Image(a.items[k]), SizeOf(a.elem)));
  }

  lemma UnpackOfPack(a: Numbers)
    requires HasReader(a.elem)
    ensures var r := ClientDecode.Unpack(ByteTag(a.elem).value, Pack(SizeOf(a.elem), Images(a.items)));
            r.Ok? && |r.value| == |a.items|
            && forall k | 0 <= k < |a.items| ::
                 r.value[k] == ScalarMeaning(a.items[k]) <==> Readable(a.items[k])
  {
    hide Pack, Slot, ClientDecode.Item, ScalarMeaning, Readable, Image;
    ReaderWidth(a.elem);
    WholeItems(|a.items|, SizeOf(a.elem));
    forall k: nat | k < |a.items|
      ensures var tag, w, data := ByteTag(a.elem).value, SizeOf(a.elem), Pack(SizeOf(a.elem), Images(a.items));
              && k * w + w <= |data| && ClientDecode.ItemWidth(tag) == Ok(|Slot(data, w, k)|)
              && (ClientDecode.Item(tag, Slot(data, w, k)) == ScalarMeaning(a.items[k]) <==> Readable(a.items[k]))
    {
      ItemOfPack(a, k);
    }
  }

  /** A packed array arrives as its items' meanings exactly when every item is readable. */
  lemma PackedItems(a: Numbers)
    requires a.elem != NumT(ULong) && a.elem != NumT(Long)
    ensures ClientDecode.Unpack(ByteTag(a.elem).value, Pack(SizeOf(a.elem), Images(a.items))).Ok?
    ensures ClientDecode.Unpack(ByteTag(a.elem).value, Pack(SizeOf(a.elem), Images(a.items))).value
            == Meanings(a.items)
            <==> forall i | 0 <= i < |a.items| :: Readable(a.items[i])
  {
    UnpackOfPack(a);
    var got := ClientDecode.Unpack(ByteTag(a.elem).value, Pack(SizeOf(a.elem), Images(a.items))).value;
    assert got == Meanings(a.items) <==> forall k | 0 <= k < |got| :: got[k] == Meanings(a.items)[k];
  }

  lemma TransportIsUnpack(a: Numbers)
    ensures Transport(VNumbers(a))
            == match ClientDecode.Unpack(ByteTag(a.elem).value, Pack(SizeOf(a.elem), Images(a.items)))
               case Ok(items) => Ok(PTuple(items))
               case Err(e) => Err(e)
    ensures a.elem == NumT(ULong) || a.elem == NumT(Long) ==> Transport(VNumbers(a)).Err?
  {
    hide Pack;
  }

  lemma PackedArray(a: Numbers)
    ensures Transport(VNumbers(a)) == Ok(Meaning(VNumbers(a))) <==> Carried(VNumbers(a))
  {
    hide Transport, ClientDecode.Unpack, Pack, Readable, Meanings;
    TransportIsUnpack(a);
    if a.elem != NumT(ULong) && a.elem != NumT(Long) {
      PackedItems(a);
    }
  }

  lemma StructFields(name: string, fields: map<string, Value>)
    requires forall k | k in fields :: Transport(fields[k]) == Ok(Meaning(fields[k])) <==> Carried(fields[k])
    ensures var v := VStruct(name, fields); Transport(v) == Ok(Meaning(v)) <==> Carried(v)
  {
    var v := VStruct(name, fields);
    if Transport(v).Ok? {
      var got, want := Transport(v).value.entries, Meaning(v).entries;
      forall k | k in fields ensures Transport(fields[k]) == Ok(got[k]) && want[k] == Meaning(fields[k]) {
        assert Encode(v).value.fields[k] == Encode(fields[k]).value;
      }
      assert got == want <==> forall k | k in fields :: got[k] == want[k];
    } else if Carried(v) {
      forall k | k in fields ensures Transport(fields[k]).Ok? {
      }
    }
  }

  lemma Elements(elems: seq<Value>)
    requires forall i | 0 <= i < |elems| :: Transport(elems[i]) == Ok(Meaning(elems[i])) <==> Carried(elems[i])
    ensures var v := VTuple(elems); Transport(v) == Ok(Meaning(v)) <==> Carried(v)
  {
    var v := VTuple(elems);
    if Transport(v).Ok? {
      var got, want := Transport(v).value.items, Meaning(v).items;
      forall i | 0 <= i < |elems| ensures Transport(elems[i]) == Ok(got[i]) && want[i] == Meaning(elems[i]) {
      }
      assert got == want <==> forall i | 0 <= i < |elems| :: got[i] == want[i];
    } else if Carried(v) {
      forall i | 0 <= i < |elems| ensures Transport(elems[i]).Ok? {
      }
    }
  }

  /** An item arrives exactly when it is carried: of a struct the client sees an empty
      dictionary. */
  lemma ItemIsSeen(v: Value)
    requires v.VTuple? ==> (Transport(v) == Ok(Meaning(v)) <==> Carried(v))
    ensures TransportItem(v) == Ok(Meaning(v)) <==> CarriedItem(v)
  {
    match v
    case VStruct(_, fields) =>
      assert TransportItem(v).value.entries == map[];
      assert Meaning(v).entries.Keys == fields.Keys;
      assert fields == map[] <==> fields.Keys == {};
      assert Meaning(v).entries == map[] <==> fields.Keys == {};
    case VVoid | VSimple(_) | VTuple(_) => assert TransportItem(v) == Transport(v);
    case VEnum(_, _) | VUnion(_, _) | VNumbers(_) | VObjects(_, _) =>
  }

  lemma Items(elem: ObjectType, objects: seq<Value>)
    requires forall i | 0 <= i < |objects| ::
               TransportItem(objects[i]) == Ok(Meaning(objects[i])) <==> CarriedItem(objects[i])
    ensures var v := VObjects(elem, objects); Transport(v) == Ok(Meaning(v)) <==> Carried(v)
  {
    var v := VObjects(elem, objects);
    if Transport(v).Ok? {
      var got, want := Transport(v).value.items, Meaning(v).items;
      forall i | 0 <= i < |objects|
        ensures TransportItem(objects[i]) == Ok(got[i]) && want[i] == Meaning(objects[i])
      {
      }
      assert got == want <==> forall i | 0 <= i < |objects| :: got[i] == want[i];
    } else if Carried(v) {
      forall i | 0 <= i < |objects| ensures TransportItem(objects[i]).Ok? {
      }
    }
  }

  /** Main result, server to client: the client reads a value's meaning if and only if the
      value is one the translation carries. */
  lemma {:induction false} ClientSeesMeaning(v: Value)
    ensures Transport(v) == Ok(Meaning(v)) <==> Carried(v)
  {
    match v
    case VVoid | VSimple(_) | VEnum(_, _) =>
    case VUnion(_, held) => ClientSeesMeaning(held);
    case VNumbers(a) => PackedArray(a);
    case VStruct(_, fields) =>
      forall k | k in fields { ClientSeesMeaning(fields[k]); }
      StructFields(v.name, fields);
    case VTuple(elems) =>
      forall i | 0 <= i < |elems| { ClientSeesMeaning(elems[i]); }
      Elements(elems);
    case VObjects(elem, objects) =>
      forall i | 0 <= i < |objects|
        ensures TransportItem(objects[i]) == Ok(Meaning(objects[i])) <==> CarriedItem(objects[i])
      {
        ClientSeesMeaning(objects[i]);
        ItemIsSeen(objects[i]);
      }
      Items(elem, objects);
  }
}
