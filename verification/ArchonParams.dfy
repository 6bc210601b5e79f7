/** devices/archon/archon.cpp, the parameter table: parameter n is stored under the key
    PARAMETERn as a second `name=value` inside the value, and PARAMETERS counts them. What is
    proved holds whatever exchanges with the controller fail. */
module ArchonParams {
  import opened Results
  import opened Text
  import opened ArchonLink
  import opened ArchonStore
  import opened ArchonRuns

  const UINT_END := 0x1_0000_0000

  function SlotKey(n: int): string {
    "PARAMETER" + DecInt(n)
  }

  function ParamLine(name: string, val: nat): string {
    name + "=" + Dec(val)
  }

  function UpToQuote(s: string): string {
    if s == "" || s[0] == '\"' then "" else [s[0]] + UpToQuote(s[1..])
  }

  /** getParam's reading of a slot: after the first '=', up to a quote, as an unsigned int. */
  function ParamValue(line: string): Result<nat> {
    var text :- AfterEquals(line);
    var n :- Stoul(UpToQuote(text), 10);
    Ok(n % UINT_END)
  }

  function GetParameters(a: Archon): (r: (Archon, Result<int>))
    requires WellFormed(a)
    ensures WellFormed(r.0)
  {
    var (b, text) := ReadKeyValue(a, "PARAMETERS");
    (b, if text.Err? then Err(text.error) else Stoi(text.value))
  }

  function StoreNewParam(a: Archon, name: string, n: int, val: nat): (r: (Archon, Result<()>))
    requires WellFormed(a)
    ensures WellFormed(r.0)
  {
    var (b, w) := WriteKeyValue(a, "PARAMETERS", DecInt(n + 1));
    if w.Err? then (b, w) else WriteKeyValue(b, SlotKey(n), ParamLine(name, val))
  }

  /** A new name gets the next slot; the host records it before PARAMETERS is written. */
  function SetParam(a: Archon, name: string, val: nat): (r: (Archon, Result<()>))
    requires WellFormed(a)
    ensures WellFormed(r.0)
  {
    if name in a.params then WriteKeyValue(a, SlotKey(a.params[name]), ParamLine(name, val))
    else
      var (b, n) := GetParameters(a);
      if n.Err? then (b, Err(n.error))
      else StoreNewParam(b.(params := b.params[name := n.value]), name, n.value, val)
  }

  function GetParam(a: Archon, name: string): (r: (Archon, Result<nat>))
    requires WellFormed(a)
    ensures WellFormed(r.0)
  {
    if name !in a.params then (a, Err(DeviceError))
    else
      var (b, line) := ReadKeyValue(a, SlotKey(a.params[name]));
      (b, if line.Err? then Err(line.error) else ParamValue(line.value))
  }

  // ---- text ----

  /** A name is any text without '=' that fits on a line. */
  predicate ParamName(name: string) {
    '=' !in name && OneLine(name)
  }

  lemma DecIsPlain(n: int)
    ensures '=' !in DecInt(n) && OneLine(DecInt(n)) && AllPrint(DecInt(n)) && '\"' !in DecInt(n)
  {
    assert forall c | IsDigit(c, 10) :: IsPrint(c) && c != '=' && c != '\"';
    assert !IsPrint('\n');
  }

  lemma SlotKeyIsPlain(n: int)
    ensures '=' !in SlotKey(n) && OneLine(SlotKey(n)) && SlotKey(n) != "PARAMETERS"
    ensures StartsWith(SlotKey(n), "PARAMETER")
  {
    DecIsPlain(n);
    assert SlotKey(n)[9] == DecInt(n)[0];
    assert forall c | c in SlotKey(n) :: c in "PARAMETER" || c in DecInt(n);
  }

  lemma SlotKeyInjective(i: int, j: int)
    ensures SlotKey(i) == SlotKey(j) <==> i == j
  {
    DecIntInjective(i, j);
    assert SlotKey(i)[9..] == DecInt(i) && SlotKey(j)[9..] == DecInt(j);
  }

  lemma ParamLineIsOneLine(name: string, val: nat)
    requires ParamName(name)
    ensures OneLine(ParamLine(name, val))
  {
    DecIsPlain(val);
  }

  /** A parameter line reads as its value, also with the value in front of a quote; a number that is
      no unsigned int is cut to one. */
  lemma ParamLineReads(name: string, val: nat, quoted: string)
    requires '=' !in name && val < 0x1_0000_0000_0000_0000 && (quoted == "" || quoted[0] == '\"')
    ensures ParamValue(Printable(name + "=" + (Dec(val) + quoted))) == Ok(val % 0x1_0000_0000)
  {
    DecIsPlain(val);
    hide Print, AfterEquals, UpToQuote, Stoul;
    LineWithoutEquals(name, Dec(val) + quoted);
    PrintableConcat(Dec(val), quoted);
    UpToTheQuote(Dec(val), Printable(quoted));
    StoulOfPrint(val, 10);
  }

  lemma OwnLineReads(name: string, val: nat)
    requires '=' !in name && val < UINT_END
    ensures ParamValue(Printable(ParamLine(name, val))) == Ok(val)
  {
    ParamLineReads(name, val, "");
    assert Dec(val) + "" == Dec(val);
  }

  lemma {:induction false} UpToTheQuote(s: string, quoted: string)
    requires '\"' !in s && (quoted == "" || quoted[0] == '\"')
    ensures UpToQuote(s + quoted) == s
  {
    if s == "" {
      assert s + quoted == quoted;
    } else {
      UpToTheQuote(s[1..], quoted);
      assert (s + quoted)[1..] == s[1..] + quoted;
    }
  }

  // ---- what has been written to the slots ----

  /** A value that reached the controller: the slot it was written to, and under which name. */
  datatype Entry = Entry(name: string, slot: int, val: nat)

  function LastAt(w: seq<Entry>, slot: int): Option<Entry> {
    if w == [] then None
    else if w[|w| - 1].slot == slot then Some(w[|w| - 1])
    else LastAt(w[..|w| - 1], slot)
  }

  function LastOf(w: seq<Entry>, name: string): Option<Entry> {
    if w == [] then None
    else if w[|w| - 1].name == name then Some(w[|w| - 1])
    else LastOf(w[..|w| - 1], name)
  }

  lemma Appended(w: seq<Entry>, e: Entry)
    ensures forall i :: LastAt(w + [e], i) == if e.slot == i then Some(e) else LastAt(w, i)
    ensures forall name :: LastOf(w + [e], name) == if e.name == name then Some(e) else LastOf(w, name)
  {
    assert (w + [e])[..|w|] == w;
  }

  /** Every slot holds what was written to it last. */
  ghost predicate Slots(m: map<string, string>, w: seq<Entry>) {
    forall i: int :: SlotHolds(m, i, LastAt(w, i))
  }

  predicate SlotHolds(m: map<string, string>, i: int, last: Option<Entry>) {
    match last
    case None => SlotKey(i) !in m
    case Some(e) => SlotKey(i) in m && m[SlotKey(i)] == ParamLine(e.name, e.val)
  }

  /** Every value was written to the slot its name is recorded at. */
  ghost predicate Recorded(params: map<string, int>, w: seq<Entry>) {
    forall e | e in w :: ParamName(e.name) && e.val < UINT_END && e.name in params && params[e.name] == e.slot
  }

  ghost predicate ParamInv(a: Archon, w: seq<Entry>) {
    Inv(a) && Slots(View(a), w) && Recorded(a.params, w)
  }

  /** The key's line on the controller is this one. */
  predicate HasLine(a: Archon, key: string, val: string)
    requires WellFormed(a)
  {
    key in a.index && a.unit.lines[a.index[key]] == key + "=" + val
  }

  lemma HasLineMeans(a: Archon, key: string, val: string)
    requires Inv(a)
    ensures HasLine(a, key, val) <==> key in View(a) && View(a)[key] == val
  {
    if key in a.index {
      var line := a.unit.lines[a.index[key]];
      assert line == key + "=" + Held(key, line);
    }
  }

  /** After setParam, the name's slot holds the value, whatever setParam has reported. */
  predicate Written(b: Archon, name: string, val: nat)
    requires WellFormed(b)
  {
    name in b.params && HasLine(b, SlotKey(b.params[name]), ParamLine(name, val))
  }

  predicate SameAt(m: map<string, string>, m': map<string, string>, key: string) {
    (key in m <==> key in m') && (key in m ==> m[key] == m'[key])
  }

  // ---- one setParam ----

  lemma WithParams(a: Archon, params: map<string, int>)
    requires Inv(a)
    ensures var b := a.(params := params); Inv(b) && View(b) == View(a) && b.unit == a.unit
  {
  }

  lemma WriteSlot(a: Archon, name: string, val: nat)
    requires Inv(a) && ParamName(name) && name in a.params
    ensures var key := SlotKey(a.params[name]);
            var (b, r) := WriteKeyValue(a, key, ParamLine(name, val));
            && Inv(b) && b.params == a.params && (r.Ok? ==> Written(b, name, val))
            && (forall k | k != key :: SameAt(View(a), View(b), k))
            && (SameAt(View(a), View(b), key) || Written(b, name, val))
  {
    var key, line := SlotKey(a.params[name]), ParamLine(name, val);
    SlotKeyIsPlain(a.params[name]);
    ParamLineIsOneLine(name, val);
    WriteStep(a, key, line);
    WriteKeepsParams(a, key, line);
    HasLineMeans(WriteKeyValue(a, key, line).0, key, line);
  }

  /** What setParam does to a known name: at most its slot changes, and then to the value. */
  lemma SetKnown(a: Archon, name: string, val: nat)
    requires Inv(a) && ParamName(name) && name in a.params
    ensures var (b, r) := SetParam(a, name, val);
            && Inv(b) && b.params == a.params && (r.Ok? ==> Written(b, name, val))
            && (forall k | k != SlotKey(a.params[name]) :: SameAt(View(a), View(b), k))
            && (SameAt(View(a), View(b), SlotKey(a.params[name])) || Written(b, name, val))
  {
    WriteSlot(a, name, val);
  }

  lemma CountOne(a: Archon, n: int)
    requires Inv(a)
    ensures var (b, r) := WriteKeyValue(a, "PARAMETERS", DecInt(n + 1));
            && Inv(b) && b.params == a.params
            && (forall k | k != "PARAMETERS" :: SameAt(View(a), View(b), k))
            && (SameAt(View(a), View(b), "PARAMETERS") || HasLine(b, "PARAMETERS", DecInt(n + 1)))
  {
    hide WriteKeyValue, View, Refused, DecInt;
    DecIsPlain(n + 1);
    WriteStep(a, "PARAMETERS", DecInt(n + 1));
    WriteKeepsParams(a, "PARAMETERS", DecInt(n + 1));
    HasLineMeans(WriteKeyValue(a, "PARAMETERS", DecInt(n + 1)).0, "PARAMETERS", DecInt(n + 1));
  }

  /** And to a name that is recorded: PARAMETERS changes at most to count it, its slot at most
      to the value, and nothing else. */
  lemma StoreRecorded(a: Archon, name: string, val: nat)
    requires Inv(a) && ParamName(name) && name in a.params
    ensures var n := a.params[name];
            var (b, r) := StoreNewParam(a, name, n, val);
            && Inv(b) && b.params == a.params && (r.Ok? ==> Written(b, name, val))
            && (forall k | k != SlotKey(n) && k != "PARAMETERS" :: SameAt(View(a), View(b), k))
            && (SameAt(View(a), View(b), SlotKey(n)) || Written(b, name, val))
            && (SameAt(View(a), View(b), "PARAMETERS") || HasLine(b, "PARAMETERS", DecInt(n + 1)))
  {
    hide WriteKeyValue, HasLine, ParamLine, SlotKey, DecInt;
    var n := a.params[name];
    SlotKeyIsPlain(n);
    CountOne(a, n);
    var (b, w) := WriteKeyValue(a, "PARAMETERS", DecInt(n + 1));
    if w.Ok? {
      WriteSlot(b, name, val);
      var c := WriteKeyValue(b, SlotKey(n), ParamLine(name, val)).0;
      assert SameAt(View(b), View(c), "PARAMETERS");
      HasLineMeans(b, "PARAMETERS", DecInt(n + 1));
      HasLineMeans(c, "PARAMETERS", DecInt(n + 1));
      forall k | k != SlotKey(n) && k != "PARAMETERS" ensures SameAt(View(a), View(c), k) {
        assert SameAt(View(a), View(b), k) && SameAt(View(b), View(c), k);
      }
      assert SameAt(View(a), View(b), SlotKey(n));
    }
  }

  /** The number a new name would be recorded at. */
  lemma NumberIsRead(a: Archon)
    requires Inv(a)
    ensures var (b, n) := GetParameters(a);
            && Inv(b) && View(b) == View(a) && b.params == a.params
            && (n.Ok? ==> "PARAMETERS" in View(a))
  {
    ReadStep(a, "PARAMETERS");
  }

  lemma SetNew(a: Archon, name: string, val: nat)
    requires Inv(a) && ParamName(name) && name !in a.params
    ensures var n := GetParameters(a).1;
            var (b, r) := SetParam(a, name, val);
            && Inv(b) && (n.Err? ==> r.Err? && b.params == a.params && View(b) == View(a))
            && (n.Ok? ==>
                  && b.params == a.params[name := n.value] && (r.Ok? ==> Written(b, name, val))
                  && (forall k | k != SlotKey(n.value) && k != "PARAMETERS" :: SameAt(View(a), View(b), k))
                  && (SameAt(View(a), View(b), SlotKey(n.value)) || Written(b, name, val))
                  && (SameAt(View(a), View(b), "PARAMETERS") || HasLine(b, "PARAMETERS", DecInt(n.value + 1))))
  {
    hide StoreNewParam, GetParameters, HasLine, View, SlotKey, ParamLine, DecInt;
    NumberIsRead(a);
    var (b, n) := GetParameters(a);
    if n.Ok? {
      WithParams(b, b.params[name := n.value]);
      StoreRecorded(b.(params := b.params[name := n.value]), name, val);
    }
  }

  function Noted(w: seq<Entry>, b: Archon, name: string, val: nat): seq<Entry>
    requires WellFormed(b)
  {
    if Written(b, name, val) then w + [Entry(name, b.params[name], val)] else w
  }

  lemma SlotsNoted(m: map<string, string>, b: Archon, w: seq<Entry>, name: string, val: nat)
    requires Inv(b) && Slots(m, w) && name in b.params
    requires forall k | k != SlotKey(b.params[name]) && k != "PARAMETERS" :: SameAt(m, View(b), k)
    requires SameAt(m, View(b), SlotKey(b.params[name])) || Written(b, name, val)
    ensures Slots(View(b), Noted(w, b, name, val))
  {
    var p := b.params[name];
    HasLineMeans(b, SlotKey(p), ParamLine(name, val));
    Appended(w, Entry(name, p, val));
    forall i: int ensures SlotHolds(View(b), i, LastAt(Noted(w, b, name, val), i)) {
      SlotKeyIsPlain(i);
      SlotKeyInjective(i, p);
      assert SlotHolds(m, i, LastAt(w, i));
      assert i != p ==> SameAt(m, View(b), SlotKey(i));
    }
  }

  lemma SetStep(a: Archon, w: seq<Entry>, name: string, val: nat)
    requires ParamInv(a, w) && ParamName(name) && val < UINT_END
    ensures var (b, r) := SetParam(a, name, val);
            && ParamInv(b, Noted(w, b, name, val)) && (r.Ok? ==> Written(b, name, val))
  {
    hide SetParam, View;
    var b := SetParam(a, name, val).0;
    if name in a.params {
      SetKnown(a, name, val);
      SlotsNoted(View(a), b, w, name, val);
    } else {
      SetNew(a, name, val);
      if GetParameters(a).1.Ok? {
        SlotsNoted(View(a), b, w, name, val);
      }
    }
  }

  /** Where a value that setParam reports as set is on the controller. */
  lemma SetIsOnController(a: Archon, name: string, val: nat)
    requires Inv(a) && ParamName(name) && SetParam(a, name, val).1.Ok?
    ensures var b := SetParam(a, name, val).0;
            && Inv(b) && name in b.params && "PARAMETER" + DecInt(b.params[name]) in View(b)
            && View(b)["PARAMETER" + DecInt(b.params[name])] == name + "=" + Dec(val)
  {
    if name in a.params {
      SetKnown(a, name, val);
    } else {
      SetNew(a, name, val);
    }
    hide SetParam, View, Dec, DecInt;
    var b := SetParam(a, name, val).0;
    HasLineMeans(b, SlotKey(b.params[name]), ParamLine(name, val));
  }

  // ---- getParam ----

  /** What getParam should answer. */
  function Stored(params: map<string, int>, w: seq<Entry>, name: string): Result<nat> {
    if name !in params then Err(DeviceError)
    else
      match LastAt(w, params[name])
      case None => Err(NotRegistered)
      case Some(e) => Ok(e.val)
  }

  lemma LastAtIsEntry(w: seq<Entry>, slot: int)
    ensures var last := LastAt(w, slot); last.Some? ==> last.value in w && last.value.slot == slot
  {
  }

  /** getParam changes nothing, and when its own exchange succeeds answers with the value that
      was written last to the slot its name is recorded at. */
  lemma GetStep(a: Archon, w: seq<Entry>, name: string)
    requires ParamInv(a, w)
    ensures var (b, r) := GetParam(a, name);
            ParamInv(b, w) && (FaultOf(a.unit).Good? ==> r == Stored(a.params, w, name))
  {
    if name in a.params {
      var i := a.params[name];
      SlotKeyIsPlain(i);
      ReadStep(a, SlotKey(i));
      assert SlotHolds(View(a), i, LastAt(w, i));
      LastAtIsEntry(w, i);
      match LastAt(w, i)
      case None =>
      case Some(e) =>
        LineWithoutEquals(SlotKey(i), ParamLine(e.name, e.val));
        OwnLineReads(e.name, e.val);
    }
  }
}
