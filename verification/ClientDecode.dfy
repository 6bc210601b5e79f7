/** python/pyfoxtrot/TypeConversion.py, server to client: a wire message becomes a Python
    value without any descriptor. */
module ClientDecode {
  import opened Results
  import opened Bytes
  import opened Floats
  import opened WireTypes

  /** get_struct_string: the item width of the tags the client can unpack. */
  function ItemWidth(dtp: ByteType): Result<nat> {
    match dtp
    case UCharB | CharB => Ok(1)
    case UShortB => Ok(2)
    case UIntB | IIntB | BFloatB => Ok(4)
    case BDoubleB => Ok(8)
    case ULongB | ShortB | LongB => Err(LogicError)
  }

  function Item(dtp: ByteType, bs: seq<byte>): Py
    requires ItemWidth(dtp) == Ok(|bs|)
  {
    match dtp
    case UCharB | UShortB | UIntB => PInt(FromLE(bs))
    case CharB | IIntB => PInt(Signed(FromLE(bs), |bs|))
    case BFloatB =>
      assert Pow256(4) == 0x1_0000 * Pow256(2) == UINT32_END;
      PFloat(Widen(FromLE(bs)))
    case BDoubleB =>
      assert Pow256(4) == 0x1_0000 * Pow256(2);
      assert Pow256(8) == 0x1_0000 * Pow256(6) == 0x1_0000_0000 * Pow256(4) == UINT64_END;
      PFloat(FromLE(bs))
    case _ => PNone
  }

  /** struct.unpack with the format built from the tag and the data's length. */
  function Unpack(dtp: ByteType, data: seq<byte>): Result<seq<Py>> {
    var w :- ItemWidth(dtp);
    if |data| % w != 0 then Err(ConversionError)
    else Ok(seq(|data| / w, k requires 0 <= k < |data| / w => SlotFits(|data| / w, w, k); Item(dtp, Slot(data, w, k))))
  }

  function DecodeSimple(val: Oneof): Py {
    match val
    case NotSet => PNone
    case DblVal(bits) => PFloat(bits)
    case IntVal(i) => PInt(i)
    case UIntVal(u) => PInt(u)
    case BoolVal(b) => PBool(b)
    case StringVal(s) => PStr(s)
  }

  /** value_from_ft_variant. */
  function Decode(w: Wire): Result<Py> {
    match w
    case SimpleVar(val, _, _) => Ok(DecodeSimple(val))
    case StructVal(_, fields) =>
      if forall k | k in fields :: Decode(fields[k]).Ok? then
        Ok(PDict(map k | k in fields :: Decode(fields[k]).value, true))
      else Err(ConversionError)
    case EnumVal(_, n) => Ok(PInt(n))
    case TupleVal(vals) =>
      if forall i | 0 <= i < |vals| :: Decode(vals[i]).Ok? then
        Ok(PTuple(seq(|vals|, i requires 0 <= i < |vals| => Decode(vals[i]).value)))
      else Err(ConversionError)
    case Encoded(dtp, data) =>
      var items :- Unpack(dtp, data);
      Ok(PTuple(items))
    case Heavy(items) =>
      if forall i | 0 <= i < |items| :: Decode(items[i]).Ok? then
        Ok(PList(seq(|items|, i requires 0 <= i < |items| => Decode(items[i]).value)))
      else Err(ConversionError)
  }
}
