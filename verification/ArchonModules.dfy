/** The bias and GPIO settings of the modules in an Archon chassis: every setting is one key of
    the configuration store, built from the module's position, a mnemonic and a channel. */
module ArchonModules {
  import opened Results
  import opened Text
  import opened ArchonLink
  import opened ArchonStore
  import opened ArchonRuns
  import opened ArchonScript

  datatype Kind = LVX | HVX | XV
  datatype Bank = LC | HC
  datatype Attr = Label | Order | V | Enable

  /** One setting of a module. */
  datatype Cell =
    | Bias(bank: Bank, attr: Attr, channel: int)
    | Limit(channel: int)
    | DioPower
    | DioDir(pair: int)
    | DioLabel(channel: int)
    | DioSource(channel: int)

  function Mnemonic(kind: Kind, bank: Bank): string {
    match (kind, bank)
    case (LVX, LC) => "LVLC"
    case (LVX, HC) => "LVHC"
    case (HVX, LC) => "HVLC"
    case (HVX, HC) => "HVHC"
    case (XV, LC) => "XVN"
    case (XV, HC) => "XVP"
  }

  function Channels(kind: Kind, bank: Bank): int {
    match (kind, bank)
    case (LVX, LC) => 24
    case (LVX, HC) => 6
    case (HVX, LC) => 24
    case (HVX, HC) => 5
    case (XV, _) => 4
  }

  function AttrName(attr: Attr): string {
    match attr
    case Label => "LABEL"
    case Order => "ORDER"
    case V => "V"
    case Enable => "ENABLE"
  }

  function PairName(pair: int): string {
    match pair
    case 1 => "12"
    case 2 => "34"
    case 3 => "56"
    case _ => "78"
  }

  /** The checks made before a key is built: out_of_range for channels a bank does not have
      and for pairs other than 1 to 4. GPIO labels and sources are not checked. */
  predicate Exists(kind: Kind, cell: Cell) {
    match cell
    case Bias(bank, _, channel) => 1 <= channel <= Channels(kind, bank)
    case Limit(channel) => 1 <= channel <= Channels(kind, HC)
    case DioDir(pair) => 1 <= pair <= 4
    case DioPower | DioLabel(_) | DioSource(_) => true
  }

  // A key inside a module is a group, an underscore, a name and a channel.

  function Group(kind: Kind, cell: Cell): string {
    match cell
    case Bias(bank, _, _) => Mnemonic(kind, bank)
    case Limit(_) => "LVHC"
    case _ => "DIO"
  }

  function Name(cell: Cell): string {
    match cell
    case Bias(_, attr, _) => AttrName(attr)
    case Limit(_) => "IL"
    case DioPower => "POWER"
    case DioDir(_) => "DIR"
    case DioLabel(_) => "LABEL"
    case DioSource(_) => "SOURCE"
  }

  function Number(cell: Cell): string {
    match cell
    case Bias(_, _, channel) => DecInt(channel)
    case Limit(channel) => DecInt(channel)
    case DioPower => ""
    case DioDir(pair) => PairName(pair)
    case DioLabel(channel) => DecInt(channel)
    case DioSource(channel) => DecInt(channel)
  }

  function SubKey(kind: Kind, cell: Cell): string {
    Group(kind, cell) + "_" + (Name(cell) + Number(cell))
  }

  function ModuleKey(pos: nat, subkey: string): string {
    "MOD" + Dec(pos + 1) + "/" + subkey
  }

  function CellKey(pos: nat, kind: Kind, cell: Cell): string {
    ModuleKey(pos, SubKey(kind, cell))
  }

  function SetCell(a: Archon, pos: nat, kind: Kind, cell: Cell, text: string): (r: (Archon, Result<()>))
    requires WellFormed(a)
    ensures WellFormed(r.0)
  {
    if !Exists(kind, cell) then (a, Err(RangeError)) else WriteKeyValue(a, CellKey(pos, kind, cell), text)
  }

  function GetCell(a: Archon, pos: nat, kind: Kind, cell: Cell): (r: (Archon, Result<string>))
    requires WellFormed(a)
    ensures WellFormed(r.0)
  {
    if !Exists(kind, cell) then (a, Err(RangeError)) else ReadKeyValue(a, CellKey(pos, kind, cell))
  }

  // ---- keys of distinct cells are distinct ----

  lemma ModuleKeyInjective(p: nat, s: string, q: nat, t: string)
    ensures ModuleKey(p, s) == ModuleKey(q, t) <==> p == q && s == t
  {
    if ModuleKey(p, s) == ModuleKey(q, t) {
      assert forall c | IsDigit(c, 10) :: c != '/';
      SplitUnique("MOD" + Dec(p + 1), s, "MOD" + Dec(q + 1), t, '/');
      assert ("MOD" + Dec(p + 1))[3..] == Dec(p + 1) && ("MOD" + Dec(q + 1))[3..] == Dec(q + 1);
      PrintInjective(p + 1, q + 1, 10);
    }
  }

  /** Settings that differ in their number at most. */
  predicate Alike(c: Cell, d: Cell) {
    match c
    case Bias(bank, attr, _) => d.Bias? && d.bank == bank && d.attr == attr
    case Limit(_) => d.Limit?
    case DioPower => d.DioPower?
    case DioDir(_) => d.DioDir?
    case DioLabel(_) => d.DioLabel?
    case DioSource(_) => d.DioSource?
  }

  /** Within one group, the first letter tells the names apart. */
  lemma NamesDiffer(kind: Kind, c: Cell, d: Cell)
    requires Group(kind, c) == Group(kind, d)
    ensures Name(c)[0] == Name(d)[0] ==> Alike(c, d)
  {
    GroupLetters(kind, c);
    GroupLetters(kind, d);
  }

  /** The first letter of a group, and in one module also its third, identify the group. */
  lemma GroupLetters(kind: Kind, c: Cell)
    ensures |Group(kind, c)| >= 3
    ensures Group(kind, c)[0] == (if c.Bias? then (match kind case LVX => 'L' case HVX => 'H' case XV => 'X')
                                  else if c.Limit? then 'L' else 'D')
    ensures Group(kind, c)[2] == (if c.Bias? then (if kind.XV? then if c.bank.LC? then 'N' else 'P'
                                                   else if c.bank.LC? then 'L' else 'H')
                                  else if c.Limit? then 'H' else 'O')
    ensures '_' !in Group(kind, c)
  {
  }

  lemma SubKeySplits(kind: Kind, c: Cell, d: Cell)
    requires SubKey(kind, c) == SubKey(kind, d)
    ensures Group(kind, c) == Group(kind, d) && Name(c) + Number(c) == Name(d) + Number(d)
  {
    GroupLetters(kind, c);
    GroupLetters(kind, d);
    hide Group, Name, Number;
    SplitUnique(Group(kind, c), Name(c) + Number(c), Group(kind, d), Name(d) + Number(d), '_');
  }

  lemma NumbersDiffer(kind: Kind, c: Cell, d: Cell)
    requires Exists(kind, c) && Exists(kind, d) && Alike(c, d) && Number(c) == Number(d)
    ensures c == d
  {
    match c
    case DioPower =>
    case DioDir(pair) => assert PairName(pair)[0] == PairName(d.pair)[0];
    case Bias(_, _, channel) => DecIntInjective(channel, d.channel);
    case Limit(channel) => DecIntInjective(channel, d.channel);
    case DioLabel(channel) => DecIntInjective(channel, d.channel);
    case DioSource(channel) => DecIntInjective(channel, d.channel);
  }

  lemma NameIsNotEmpty(c: Cell)
    ensures Name(c) != ""
  {
  }

  lemma SubKeyInjective(kind: Kind, c: Cell, d: Cell)
    requires Exists(kind, c) && Exists(kind, d)
    ensures SubKey(kind, c) == SubKey(kind, d) <==> c == d
  {
    if SubKey(kind, c) == SubKey(kind, d) {
      SubKeySplits(kind, c, d);
      NameIsNotEmpty(c);
      NameIsNotEmpty(d);
      var m := Name(c) + Number(c);
      assert m[0] == Name(c)[0] == Name(d)[0];
      NamesDiffer(kind, c, d);
      assert Name(c) == Name(d);
      assert m[|Name(c)|..] == Number(c) && (Name(d) + Number(d))[|Name(c)|..] == Number(d);
      NumbersDiffer(kind, c, d);
    }
  }

  /** Distinct settings of the modules in a chassis have distinct keys. A position holds one
      module, so one kind. */
  lemma CellKeysDistinct(p: nat, kind: Kind, c: Cell, q: nat, kind': Kind, d: Cell)
    requires Exists(kind, c) && Exists(kind', d) && (p == q ==> kind == kind')
    ensures CellKey(p, kind, c) == CellKey(q, kind', d) <==> p == q && c == d
  {
    ModuleKeyInjective(p, SubKey(kind, c), q, SubKey(kind', d));
    if p == q {
      SubKeyInjective(kind, c, d);
    }
  }

  /** The keys as the controller's configuration has them: a module's number from 1, and there a
      bank or a port, an underscore, the name of the setting and its channel or pair. */
  lemma BankKeysInText(pos: nat, kind: Kind, bank: Bank, attr: Attr, n: int)
    ensures CellKey(pos, kind, Bias(bank, attr, n))
            == "MOD" + Dec(pos + 1) + "/" + (Mnemonic(kind, bank) + "_" + (AttrName(attr) + DecInt(n)))
    ensures CellKey(pos, kind, Limit(n)) == "MOD" + Dec(pos + 1) + "/" + ("LVHC" + "_" + ("IL" + DecInt(n)))
    ensures Mnemonic(LVX, LC) == "LVLC" && Mnemonic(HVX, LC) == "HVLC" && Mnemonic(XV, LC) == "XVN"
    ensures Mnemonic(LVX, HC) == "LVHC" && Mnemonic(HVX, HC) == "HVHC" && Mnemonic(XV, HC) == "XVP"
    ensures AttrName(Label) == "LABEL" && AttrName(Order) == "ORDER" && AttrName(V) == "V"
    ensures AttrName(Enable) == "ENABLE"
  {
    hide Dec, DecInt;
  }

  lemma PortKeysInText(pos: nat, kind: Kind, n: int)
    ensures CellKey(pos, kind, DioPower) == "MOD" + Dec(pos + 1) + "/" + ("DIO" + "_" + ("POWER" + ""))
    ensures CellKey(pos, kind, DioLabel(n)) == "MOD" + Dec(pos + 1) + "/" + ("DIO" + "_" + ("LABEL" + DecInt(n)))
    ensures CellKey(pos, kind, DioSource(n)) == "MOD" + Dec(pos + 1) + "/" + ("DIO" + "_" + ("SOURCE" + DecInt(n)))
    ensures 1 <= n <= 4 ==>
              CellKey(pos, kind, DioDir(n))
              == "MOD" + Dec(pos + 1) + "/" + ("DIO" + "_" + ("DIR" + ["12", "34", "56", "78"][n - 1]))
  {
    hide Dec, DecInt;
  }

  /** The channels each module has. */
  lemma WhichExist(kind: Kind, bank: Bank, attr: Attr, n: int)
    ensures Exists(kind, Bias(bank, attr, n)) <==>
              1 <= n <= if kind.XV? then 4 else if bank.LC? then 24 else if kind.LVX? then 6 else 5
    ensures Exists(kind, Limit(n)) <==> 1 <= n <= if kind.XV? then 4 else if kind.LVX? then 6 else 5
    ensures Exists(kind, DioDir(n)) <==> n in {1, 2, 3, 4}
  {
  }

  // ---- settings do not interfere ----

  lemma CellKeyIsPlain(pos: nat, kind: Kind, cell: Cell)
    ensures var key := CellKey(pos, kind, cell); '=' !in key && OneLine(key)
  {
    assert forall c | IsDigit(c, 10) :: c != '=' && c != '\n';
    assert '=' !in Group(kind, cell) && OneLine(Group(kind, cell));
    assert '=' !in Name(cell) && OneLine(Name(cell));
    assert '=' !in Number(cell) && OneLine(Number(cell));
    assert '=' !in SubKey(kind, cell) && OneLine(SubKey(kind, cell));
  }

  /** Main result: a set changes its own get and no other. The setting reads back what was
      stored (less characters that are not printable), every other setting of every module
      reads as before, and a set that fails its checks changes nothing. */
  lemma SettingsAreIndependent(a: Archon, p: nat, kind: Kind, c: Cell, text: string,
                               q: nat, kind': Kind, d: Cell)
    requires Calm(a) && OneLine(text) && (p == q ==> kind == kind')
    ensures var (b, r) := SetCell(a, p, kind, c, text);
            && Calm(b) && (!Exists(kind, c) ==> b == a && r.Err?)
            && (r.Ok? ==> GetCell(b, p, kind, c).1 == Ok(Printable(text)))
            && (p != q || c != d ==> GetCell(b, q, kind', d).1 == GetCell(a, q, kind', d).1)
  {
    if Exists(kind, c) {
      CellKeyIsPlain(p, kind, c);
      if Exists(kind', d) {
        CellKeyIsPlain(q, kind', d);
        CellKeysDistinct(p, kind, c, q, kind', d);
        WriteIsPrivate(a, CellKey(p, kind, c), text, CellKey(q, kind', d));
      } else {
        WriteIsPrivate(a, CellKey(p, kind, c), text, "");
      }
    }
  }

  /** No setting is stored under a key of the timing script, of the parameter table or of the
      counters clear_config writes. */
  lemma SettingsApartFromTheRest(pos: nat, kind: Kind, cell: Cell, i: nat)
    ensures var key := CellKey(pos, kind, cell);
            key !in FRESH && key != LineKey(i) && !StartsWith(key, "PARAMETER")
  {
    var key := CellKey(pos, kind, cell);
    assert key[0] == 'M' && LineKey(i)[0] == 'L' && "PARAMETER"[0] == 'P';
    assert forall k | k in FRESH :: k[0] != 'M';
  }

  // ---- settings that are numbers ----

  function SetNumber(a: Archon, pos: nat, kind: Kind, cell: Cell, n: int): (r: (Archon, Result<()>))
    requires WellFormed(a)
    ensures WellFormed(r.0)
  {
    SetCell(a, pos, kind, cell, DecInt(n))
  }

  function GetNumber(a: Archon, pos: nat, kind: Kind, cell: Cell): (r: (Archon, Result<int>))
    requires WellFormed(a)
    ensures WellFormed(r.0)
  {
    var (b, text) := GetCell(a, pos, kind, cell);
    (b, if text.Err? then Err(text.error) else Stoi(text.value))
  }

  function SetOrder(a: Archon, pos: nat, kind: Kind, bank: Bank, channel: int, sequence: int)
    : (r: (Archon, Result<()>))
    requires WellFormed(a)
    ensures WellFormed(r.0)
  {
    var cell := Bias(bank, Order, channel);
    if !Exists(kind, cell) || sequence < 0 then (a, Err(RangeError)) else SetNumber(a, pos, kind, cell, sequence)
  }

  function SetLimit(a: Archon, pos: nat, kind: Kind, channel: int, milliamps: int)
    : (r: (Archon, Result<()>))
    requires WellFormed(a)
    ensures WellFormed(r.0)
  {
    if !Exists(kind, Limit(channel)) || milliamps < 0 || milliamps > 500 then (a, Err(RangeError))
    else SetNumber(a, pos, kind, Limit(channel), milliamps)
  }

  /** An order, a current limit or a flag that was set reads back as the number it was. */
  lemma NumberReadsBack(a: Archon, pos: nat, kind: Kind, cell: Cell, n: int)
    requires Calm(a) && SetNumber(a, pos, kind, cell, n).1.Ok?
    ensures GetNumber(SetNumber(a, pos, kind, cell, n).0, pos, kind, cell).1
            == if -0x8000_0000 <= n < 0x8000_0000 then Ok(n) else Err(RangeError)
  {
    assert forall c | IsDigit(c, 10) :: IsPrint(c);
    assert !IsPrint('\n');
    assert AllPrint(DecInt(n)) && OneLine(DecInt(n));
    SettingsAreIndependent(a, pos, kind, cell, DecInt(n), pos, kind, cell);
    StoiOfDec(n);
  }

  lemma ShortSetting(pos: nat, kind: Kind, cell: Cell, n: nat)
    requires pos < 12 && n < 0x8000_0000 && Exists(kind, cell)
    requires cell.Limit? || (cell.Bias? && cell.attr.Order?)
    ensures |CellKey(pos, kind, cell)| + 1 + |DecInt(n)| < MAX_LINES
  {
    assert Power(10, 5) == 100 * Power(10, 3) == 100_000;
    assert Power(10, 10) == 100_000 * Power(10, 5);
    PrintLength(pos + 1, 10, 10);
    PrintLength(n, 10, 10);
    PrintLength(cell.channel, 10, 10);
  }

  lemma NumberIsStored(a: Archon, pos: nat, kind: Kind, cell: Cell, n: nat)
    requires Calm(a) && |View(a)| < MAX_LINES
    requires pos < 12 && n < 0x8000_0000 && Exists(kind, cell)
    requires cell.Limit? || (cell.Bias? && cell.attr.Order?)
    ensures SetNumber(a, pos, kind, cell, n).1.Ok?
  {
    ShortSetting(pos, kind, cell, n);
    CellKeyIsPlain(pos, kind, cell);
    assert OneLine(DecInt(n)) by { assert !IsDigit('\n', 10); }
    CalmWrite(a, CellKey(pos, kind, cell), DecInt(n));
  }

  /** Orders and limits out of range are refused before anything is written; those in range
      are stored while the store has room. */
  lemma RangesAreChecked(a: Archon, pos: nat, kind: Kind, bank: Bank, channel: int, n: int)
    requires Calm(a) && pos < 12 && -0x8000_0000 <= n < 0x8000_0000 && |View(a)| < MAX_LINES
    ensures SetOrder(a, pos, kind, bank, channel, n).1.Ok? <==> 1 <= channel <= Channels(kind, bank) && n >= 0
    ensures SetLimit(a, pos, kind, channel, n).1.Ok? <==> 1 <= channel <= Channels(kind, HC) && 0 <= n <= 500
  {
    if n >= 0 {
      if 1 <= channel <= Channels(kind, bank) {
        NumberIsStored(a, pos, kind, Bias(bank, Order, channel), n);
      }
      if 1 <= channel <= Channels(kind, HC) {
        NumberIsStored(a, pos, kind, Limit(channel), n);
      }
    }
  }
}
