/** The module objects of the driver: they share one handle and write its configuration store. */
module ArchonModuleObjects {
  import opened Results
  import opened Text
  import Store = ArchonStore
  import opened ArchonRuns
  import opened ArchonHandle
  import opened ArchonModules

  /** ArchonModule: prefixes every key with the module's position. */
  class Module {
    const arch: Handle
    const pos: nat

    constructor (handle: Handle, position: nat)
      ensures arch == handle && pos == position
    {
      arch := handle;
      pos := position;
    }

    method ReadConfigKey(subkey: string) returns (r: Result<string>)
      requires arch.Valid()
      modifies arch, arch.port, arch.port.lines
      ensures arch.Valid()
      ensures (arch.State(), r) == Store.ReadKeyValue(old(arch.State()), ModuleKey(pos, subkey))
    {
      r := arch.ReadKeyValue("MOD" + Dec(pos + 1) + "/" + subkey);
    }

    method WriteConfigKey(subkey: string, val: string) returns (r: Result<()>)
      requires arch.Valid()
      modifies arch, arch.port, arch.port.lines
      ensures arch.Valid()
      ensures (arch.State(), r) == Store.WriteKeyValue(old(arch.State()), ModuleKey(pos, subkey), val)
    {
      r := arch.WriteKeyValue("MOD" + Dec(pos + 1) + "/" + subkey, val);
    }
  }

  /** ArchonGenericBias: one bank of channels under a mnemonic. */
  class GenericBias {
    const mod: Module
    var nmemonic: string
    var numchans: int

    constructor (m: Module, name: string, channels: int)
      ensures mod == m && nmemonic == name && numchans == channels
    {
      mod := m;
      nmemonic, numchans := name, channels;
    }

    method Reconfigure(name: string, channels: int)
      modifies this
      ensures nmemonic == name && numchans == channels
    {
      nmemonic, numchans := name, channels;
    }

    /** This bank serves the given bank of a module of the given kind. */
    ghost predicate Serves(kind: Kind, bank: Bank)
      reads this
    {
      nmemonic == Mnemonic(kind, bank) && numchans == Channels(kind, bank)
    }

    method SetLabel(ghost kind: Kind, ghost bank: Bank, channel: int, text: string) returns (r: Result<()>)
      requires mod.arch.Valid() && Serves(kind, bank)
      modifies mod.arch, mod.arch.port, mod.arch.port.lines
      ensures mod.arch.Valid()
      ensures (mod.arch.State(), r)
              == SetCell(old(mod.arch.State()), mod.pos, kind, Bias(bank, Label, channel), text)
    {
      if channel < 1 || channel > numchans {
        return Err(RangeError);
      }
      var key := nmemonic + "_LABEL" + DecInt(channel);
      assert key == SubKey(kind, Bias(bank, Label, channel));
      r := mod.WriteConfigKey(key, text);
    }

    method GetLabel(ghost kind: Kind, ghost bank: Bank, channel: int) returns (r: Result<string>)
      requires mod.arch.Valid() && Serves(kind, bank)
      modifies mod.arch, mod.arch.port, mod.arch.port.lines
      ensures mod.arch.Valid()
      ensures (mod.arch.State(), r)
              == GetCell(old(mod.arch.State()), mod.pos, kind, Bias(bank, Label, channel))
    {
      if channel < 1 || channel > numchans {
        return Err(RangeError);
      }
      var key := nmemonic + "_LABEL" + DecInt(channel);
      assert key == SubKey(kind, Bias(bank, Label, channel));
      r := mod.ReadConfigKey(key);
    }

    method SetOrder(ghost kind: Kind, ghost bank: Bank, channel: int, sequence: int) returns (r: Result<()>)
      requires mod.arch.Valid() && Serves(kind, bank)
      modifies mod.arch, mod.arch.port, mod.arch.port.lines
      ensures mod.arch.Valid()
      ensures (mod.arch.State(), r)
              == ArchonModules.SetOrder(old(mod.arch.State()), mod.pos, kind, bank, channel, sequence)
    {
      if channel < 1 || channel > numchans {
        return Err(RangeError);
      }
      var key := nmemonic + "_ORDER" + DecInt(channel);
      assert key == SubKey(kind, Bias(bank, Order, channel));
      if sequence < 0 {
        return Err(RangeError);
      }
      r := mod.WriteConfigKey(key, DecInt(sequence));
    }

    method GetOrder(ghost kind: Kind, ghost bank: Bank, channel: int) returns (r: Result<int>)
      requires mod.arch.Valid() && Serves(kind, bank)
      modifies mod.arch, mod.arch.port, mod.arch.port.lines
      ensures mod.arch.Valid()
      ensures (mod.arch.State(), r)
              == GetNumber(old(mod.arch.State()), mod.pos, kind, Bias(bank, Order, channel))
    {
      if channel < 1 || channel > numchans {
        return Err(RangeError);
      }
      var key := nmemonic + "_ORDER" + DecInt(channel);
      assert key == SubKey(kind, Bias(bank, Order, channel));
      var text := mod.ReadConfigKey(key);
      r := if text.Err? then Err(text.error) else Stoi(text.value);
    }

    method SetEnable(ghost kind: Kind, ghost bank: Bank, channel: int, onoff: bool) returns (r: Result<()>)
      requires mod.arch.Valid() && Serves(kind, bank)
      modifies mod.arch, mod.arch.port, mod.arch.port.lines
      ensures mod.arch.Valid()
      ensures (mod.arch.State(), r)
              == SetNumber(old(mod.arch.State()), mod.pos, kind, Bias(bank, Enable, channel), if onoff then 1 else 0)
    {
      if channel < 1 || channel > numchans {
        return Err(RangeError);
      }
      var key := nmemonic + "_ENABLE" + DecInt(channel);
      assert key == SubKey(kind, Bias(bank, Enable, channel));
      r := mod.WriteConfigKey(key, DecInt(if onoff then 1 else 0));
    }
  }

  /** ArchonLVX, and ArchonHVX and ArchonXV which reconfigure its two banks. */
  class BiasModule {
    const mod: Module
    const kind: Kind
    const lcbias: GenericBias
    const hcbias: GenericBias

    constructor (m: Module, k: Kind)
      ensures mod == m && kind == k && fresh(lcbias) && fresh(hcbias)
      ensures lcbias.mod == m && hcbias.mod == m
      ensures lcbias.Serves(k, LC) && hcbias.Serves(k, HC)
    {
      mod, kind := m, k;
      var lc := new GenericBias(m, "LVLC", 24);
      var hc := new GenericBias(m, "LVHC", 6);
      match k {
        case LVX =>
        case HVX =>
          lc.Reconfigure("HVLC", 24);
          hc.Reconfigure("HVHC", 5);
        case XV =>
          lc.Reconfigure("XVN", 4);
          hc.Reconfigure("XVP", 4);
      }
      lcbias, hcbias := lc, hc;
    }

    ghost predicate Valid()
      reads mod.arch, mod.arch.port, mod.arch.port.lines, lcbias, hcbias
    {
      && mod.arch.Valid() && lcbias.mod == mod && hcbias.mod == mod
      && lcbias.Serves(kind, LC) && hcbias.Serves(kind, HC)
    }

    method SetLabel(high: bool, channel: int, text: string) returns (r: Result<()>)
      requires Valid()
      modifies mod.arch, mod.arch.port, mod.arch.port.lines
      ensures Valid()
      ensures (mod.arch.State(), r)
              == SetCell(old(mod.arch.State()), mod.pos, kind, Bias(if high then HC else LC, Label, channel), text)
    {
      if high {
        r := hcbias.SetLabel(kind, HC, channel, text);
      } else {
        r := lcbias.SetLabel(kind, LC, channel, text);
      }
    }

    method GetLabel(high: bool, channel: int) returns (r: Result<string>)
      requires Valid()
      modifies mod.arch, mod.arch.port, mod.arch.port.lines
      ensures Valid()
      ensures (mod.arch.State(), r)
              == GetCell(old(mod.arch.State()), mod.pos, kind, Bias(if high then HC else LC, Label, channel))
    {
      if high {
        r := hcbias.GetLabel(kind, HC, channel);
      } else {
        r := lcbias.GetLabel(kind, LC, channel);
      }
    }

    method SetOrder(high: bool, channel: int, sequence: int) returns (r: Result<()>)
      requires Valid()
      modifies mod.arch, mod.arch.port, mod.arch.port.lines
      ensures Valid()
      ensures (mod.arch.State(), r)
              == ArchonModules.SetOrder(old(mod.arch.State()), mod.pos, kind, if high then HC else LC, channel, sequence)
    {
      if high {
        r := hcbias.SetOrder(kind, HC, channel, sequence);
      } else {
        r := lcbias.SetOrder(kind, LC, channel, sequence);
      }
    }

    method SetLimit(channel: int, milliamps: int) returns (r: Result<()>)
      requires Valid()
      modifies mod.arch, mod.arch.port, mod.arch.port.lines
      ensures Valid()
      ensures (mod.arch.State(), r)
              == ArchonModules.SetLimit(old(mod.arch.State()), mod.pos, kind, channel, milliamps)
    {
      if channel < 1 || channel > hcbias.numchans {
        return Err(RangeError);
      }
      if milliamps < 0 || milliamps > 500 {
        return Err(RangeError);
      }
      var key := "LVHC_IL" + DecInt(channel);
      assert key == SubKey(kind, Limit(channel));
      r := mod.WriteConfigKey(key, DecInt(milliamps));
    }

    method GetLimit(channel: int) returns (r: Result<int>)
      requires Valid()
      modifies mod.arch, mod.arch.port, mod.arch.port.lines
      ensures Valid()
      ensures (mod.arch.State(), r)
              == GetNumber(old(mod.arch.State()), mod.pos, kind, Limit(channel))
    {
      if channel < 1 || channel > hcbias.numchans {
        return Err(RangeError);
      }
      var key := "LVHC_IL" + DecInt(channel);
      assert key == SubKey(kind, Limit(channel));
      var text := mod.ReadConfigKey(key);
      r := if text.Err? then Err(text.error) else Stoi(text.value);
    }
  }

  /** archonGPIO: the digital lines of the same module, under its own prefix. */
  class Gpio {
    const mod: Module

    constructor (m: Module)
      ensures mod == m
    {
      mod := m;
    }

    method SetDirection(ghost kind: Kind, pair: int, inout: bool) returns (r: Result<()>)
      requires mod.arch.Valid()
      modifies mod.arch, mod.arch.port, mod.arch.port.lines
      ensures mod.arch.Valid()
      ensures (mod.arch.State(), r)
              == SetNumber(old(mod.arch.State()), mod.pos, kind, DioDir(pair), if inout then 1 else 0)
    {
      if pair < 1 || pair > 4 {
        return Err(RangeError);
      }
      var key := "DIO_DIR" + PairName(pair);
      assert key == SubKey(kind, DioDir(pair));
      r := mod.WriteConfigKey(key, DecInt(if inout then 1 else 0));
    }

    method SetPower(ghost kind: Kind, onoff: bool) returns (r: Result<()>)
      requires mod.arch.Valid()
      modifies mod.arch, mod.arch.port, mod.arch.port.lines
      ensures mod.arch.Valid()
      ensures (mod.arch.State(), r)
              == SetNumber(old(mod.arch.State()), mod.pos, kind, DioPower, if onoff then 1 else 0)
    {
      assert "DIO_POWER" == SubKey(kind, DioPower);
      r := mod.WriteConfigKey("DIO_POWER", DecInt(if onoff then 1 else 0));
    }

    method SetSource(ghost kind: Kind, channel: int, source: nat) returns (r: Result<()>)
      requires mod.arch.Valid()
      modifies mod.arch, mod.arch.port, mod.arch.port.lines
      ensures mod.arch.Valid()
      ensures (mod.arch.State(), r)
              == SetNumber(old(mod.arch.State()), mod.pos, kind, DioSource(channel), source)
    {
      var key := "DIO_SOURCE" + DecInt(channel);
      assert key == SubKey(kind, DioSource(channel));
      r := mod.WriteConfigKey(key, DecInt(source));
    }

    method SetLabel(ghost kind: Kind, channel: int, text: string) returns (r: Result<()>)
      requires mod.arch.Valid()
      modifies mod.arch, mod.arch.port, mod.arch.port.lines
      ensures mod.arch.Valid()
      ensures (mod.arch.State(), r)
              == SetCell(old(mod.arch.State()), mod.pos, kind, DioLabel(channel), text)
    {
      var key := "DIO_LABEL" + DecInt(channel);
      assert key == SubKey(kind, DioLabel(channel));
      r := mod.WriteConfigKey(key, text);
    }
  }

  /** What is set through one object is read through another object of the same module: both
      work on the one handle. */
  method SetHereReadThere(here: BiasModule, there: BiasModule, high: bool, channel: int, text: string)
    returns (done: Result<()>, got: Result<string>)
    requires here.Valid() && there.Valid()
    requires here.mod.arch == there.mod.arch && here.mod.pos == there.mod.pos && here.kind == there.kind
    requires Calm(here.mod.arch.State()) && Store.OneLine(text)
    modifies here.mod.arch, here.mod.arch.port, here.mod.arch.port.lines
    ensures here.Valid() && there.Valid()
    ensures done.Ok? ==> got == Ok(Printable(text))
  {
    ghost var cell := Bias(if high then HC else LC, Label, channel);
    SettingsAreIndependent(here.mod.arch.State(), here.mod.pos, here.kind, cell, text,
                           there.mod.pos, there.kind, cell);
    done := here.SetLabel(high, channel, text);
    got := there.GetLabel(high, channel);
  }

  /** And what is set through an object of one module leaves every label of another module as it
      was. */
  method SetHereElsewhereSame(here: BiasModule, there: BiasModule, high: bool, channel: int, text: string,
                              thereHigh: bool, thereChannel: int)
    returns (before: Result<string>, after: Result<string>)
    requires here.Valid() && there.Valid() && here.mod.arch == there.mod.arch && here.mod.pos != there.mod.pos
    requires Calm(here.mod.arch.State()) && Store.OneLine(text)
    modifies here.mod.arch, here.mod.arch.port, here.mod.arch.port.lines
    ensures here.Valid() && there.Valid()
    ensures before == after
  {
    ghost var cell := Bias(if high then HC else LC, Label, channel);
    ghost var other := Bias(if thereHigh then HC else LC, Label, thereChannel);
    ghost var start := here.mod.arch.State();
    GetKeepsAll(start, there.mod.pos, there.kind, other);
    before := there.GetLabel(thereHigh, thereChannel);
    ghost var read := here.mod.arch.State();
    SettingsAreIndependent(read, here.mod.pos, here.kind, cell, text, there.mod.pos, there.kind, other);
    GetAgain(start, read, there.mod.pos, there.kind, other);
    var _ := here.SetLabel(high, channel, text);
    after := there.GetLabel(thereHigh, thereChannel);
  }

  lemma GetKeepsAll(a: Store.Archon, pos: nat, kind: Kind, cell: Cell)
    requires Calm(a)
    ensures var b := GetCell(a, pos, kind, cell).0; Calm(b) && Store.View(b) == Store.View(a)
  {
    if Exists(kind, cell) {
      CellKeyIsPlain(pos, kind, cell);
      CalmRead(a, CellKey(pos, kind, cell));
    }
  }

  lemma GetAgain(a: Store.Archon, b: Store.Archon, pos: nat, kind: Kind, cell: Cell)
    requires Calm(a) && Calm(b) && Store.View(b) == Store.View(a)
    ensures GetCell(b, pos, kind, cell).1 == GetCell(a, pos, kind, cell).1
  {
    if Exists(kind, cell) {
      CellKeyIsPlain(pos, kind, cell);
      CalmRead(a, CellKey(pos, kind, cell));
      CalmRead(b, CellKey(pos, kind, cell));
    }
  }
}
