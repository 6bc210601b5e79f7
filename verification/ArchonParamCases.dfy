/** The parameter table: when setParam succeeds, and runs in which names come to share a slot. */
module ArchonParamCases {
  import opened Results
  import opened Text
  import opened ArchonLink
  import opened ArchonStore
  import opened ArchonRuns
  import opened ArchonParams
  import opened ArchonParamRuns
  import opened ArchonParamSlots

  // ---- when setParam succeeds ----

  /** The slot setParam would write. */
  function SlotOf(a: Archon, name: string): Result<int>
    requires WellFormed(a)
  {
    if name in a.params then Ok(a.params[name]) else GetParameters(a).1
  }

  predicate LineFits(slot: int, name: string, val: nat) {
    |SlotKey(slot)| + 1 + |ParamLine(name, val)| < MAX_LINES
  }

  /** A write none of whose exchanges fails. */
  lemma QuietWrite(a: Archon, key: string, val: string)
    requires Inv(a) && a.unit.faults == [] && OneLine(key) && OneLine(val)
    ensures var (b, r) := WriteKeyValue(a, key, val);
            && Inv(b) && b.unit.faults == [] && b.params == a.params
            && (if Refused(a, key, val) then b == a && r == Err(DeviceError)
                else r.Ok? && View(b) == View(a)[key := val]
                     && b.count == (if key in a.index then a.count else a.count + 1))
  {
    WriteStep(a, key, val);
    if !Refused(a, key, val) {
      WriteExchange(a, key, val);
    }
  }

  lemma QuietRead(a: Archon)
    requires Inv(a) && a.unit.faults == []
    ensures var (b, n) := GetParameters(a);
            && Inv(b) && View(b) == View(a) && b == a.(order := b.order)
            && (n.Ok? ==> "PARAMETERS" in a.index && -0x8000_0000 <= n.value < 0x8000_0000)
  {
    ReadStep(a, "PARAMETERS");
    if "PARAMETERS" in a.index {
      ReadRequest(a, a.index["PARAMETERS"]);
    }
  }

  lemma QuietStore(a: Archon, name: string, n: int, val: nat)
    requires Inv(a) && a.unit.faults == [] && ParamName(name) && "PARAMETERS" in a.index
    requires -0x8000_0000 <= n < 0x8000_0000
    ensures var (b, r) := StoreNewParam(a, name, n, val);
            && Inv(b) && b.unit.faults == [] && b.params == a.params
            && (r.Ok? <==> a.count < MAX_LINES && LineFits(n, name, val))
            && (r.Err? ==> r == Err(DeviceError)) && b.count <= a.count + 1
            && (a.count >= MAX_LINES ==> b == a)
            && (a.count < MAX_LINES && r.Err? ==> View(b) == View(a)["PARAMETERS" := DecInt(n + 1)])
            && (r.Ok? ==> View(b) == View(a)["PARAMETERS" := DecInt(n + 1)][SlotKey(n) := ParamLine(name, val)])
  {
    ShortNumber(n);
    DecIsPlain(n + 1);
    SlotKeyIsPlain(n);
    ParamLineIsOneLine(name, val);
    hide WriteKeyValue, ParamLine, SlotKey, DecInt;
    QuietWrite(a, "PARAMETERS", DecInt(n + 1));
    if a.count < MAX_LINES {
      QuietWrite(WriteKeyValue(a, "PARAMETERS", DecInt(n + 1)).0, SlotKey(n), ParamLine(name, val));
    }
  }

  /** While no exchange fails, setParam succeeds exactly when the store is not full, the slot's
      number can be had, and the line fits in a request. */
  lemma SetSucceeds(a: Archon, name: string, val: nat)
    requires Inv(a) && a.unit.faults == [] && ParamName(name)
    ensures SetParam(a, name, val).1.Ok?
            <==> a.count < MAX_LINES && SlotOf(a, name).Ok? && LineFits(SlotOf(a, name).value, name, val)
    ensures var b := SetParam(a, name, val).0; b.unit.faults == [] && b.count <= a.count + 1
  {
    if name in a.params {
      SlotKeyIsPlain(a.params[name]);
      ParamLineIsOneLine(name, val);
      QuietWrite(a, SlotKey(a.params[name]), ParamLine(name, val));
    } else {
      QuietRead(a);
      var (b, n) := GetParameters(a);
      if n.Ok? {
        var c := b.(params := b.params[name := n.value]);
        WithParams(b, c.params);
        QuietStore(c, name, n.value, val);
      }
    }
  }

  /** A name too long for its line is recorded and counted all the same. */
  lemma LongNameIsCounted(a: Archon, n: nat, name: string, val: nat)
    requires Inv(a) && a.unit.faults == [] && a.count < MAX_LINES && n < 0x8000_0000
    requires "PARAMETERS" in View(a) && View(a)["PARAMETERS"] == Dec(n)
    requires ParamName(name) && name !in a.params && |name| >= MAX_LINES
    ensures var (b, r) := SetParam(a, name, val);
            && r == Err(DeviceError) && Inv(b) && b.params == a.params[name := n]
            && View(b) == View(a)["PARAMETERS" := Dec(n + 1)]
  {
    QuietRead(a);
    CountIsRead(a, n);
    var b := GetParameters(a).0;
    var c := b.(params := b.params[name := n]);
    WithParams(b, c.params);
    assert !LineFits(n, name, val);
    assert DecInt(n + 1) == Dec(n + 1);
    QuietStore(c, name, n, val);
  }

  // ---- a run in which getParam returns another name's value ----

  /** A store just cleared, in which the second exchange from here on is lost. */
  ghost predicate SecondIsLost(a: Archon) {
    && Inv(a) && a.params == map[] && a.count == 5 && View(a) == FRESH_MAP
    && a.unit.faults == [Good, LostRequest]
  }

  /** setParam of a new name whose PARAMETERS write is lost. */
  lemma CountIsLost(a: Archon, name: string, val: nat)
    requires SecondIsLost(a) && ParamName(name)
    ensures var (b, r) := SetParam(a, name, val);
            && r == Err(LinkError) && Inv(b) && b.unit.faults == [] && b.count == 5
            && b.params == map[name := 0] && View(b) == FRESH_MAP
  {
    assert Dec(0) == "0";
    assert "PARAMETERS" in View(a) && View(a)["PARAMETERS"] == Dec(0);
    CountIsRead(a, 0);
    ReadUsesOne(a);
    NumberIsRead(a);
    var b := GetParameters(a).0;
    var c := b.(params := b.params[name := 0]);
    WithParams(b, c.params);
    ShortNumber(0);
    DecIsPlain(1);
    assert "PARAMETERS" in c.index;
    hide Dec, DecInt, GetParameters;
    LostWrite(c, "PARAMETERS", DecInt(1));
    WriteStep(c, "PARAMETERS", DecInt(1));
  }

  /** The next name is recorded at the same slot, and its value written. */
  lemma NextTakesSlot(a: Archon, name: string, val: nat)
    requires Inv(a) && a.unit.faults == [] && a.count == 5 && View(a) == FRESH_MAP
    requires ParamName(name) && name !in a.params && LineFits(0, name, val)
    ensures var (b, r) := SetParam(a, name, val);
            r.Ok? && b.params == a.params[name := 0] && b.unit.faults == [] && Inv(b) && b.count < MAX_LINES
  {
    assert Dec(0) == "0";
    hide SetParam, GetParameters, Dec, LineFits;
    CountIsRead(a, 0);
    SetSucceeds(a, name, val);
    SetNew(a, name, val);
  }

  lemma OneLetterFits(name: string, val: nat)
    requires |name| == 1 && val < 10
    ensures LineFits(0, name, val)
  {
    assert Print(val, 10) == [DigitChar(val)] && Print(0, 10) == [DigitChar(0)];
  }

  /** When the count of "A" is lost, "B" is recorded at the slot of "A"; both set it, and a
      getParam of "B" returns the value of "A", in a store with plenty of room. */
  lemma AnotherNamesValue(a: Archon)
    requires SecondIsLost(a)
    ensures var (b, r1) := SetParam(a, "A", 1);
            var (c, r2) := SetParam(b, "B", 2);
            var (d, r3) := SetParam(c, "A", 3);
            r1 == Err(LinkError) && r2.Ok? && r3.Ok? && GetParam(d, "B").1 == Ok(3)
  {
    hide SetParam, GetParam, Noted, LineFits, FRESH_MAP;
    var b := SetParam(a, "A", 1).0;
    CountIsLost(a, "A", 1);
    FreshHasNoSlots(b);
    OneLetterFits("B", 2);
    NextTakesSlot(b, "B", 2);
    var c := SetParam(b, "B", 2).0;
    SetStep(b, [], "B", 2);
    assert c.params == map["A" := 0, "B" := 0];
    AnotherNamesTurn(c, Noted([], c, "B", 2));
  }

  lemma FreshHasNoSlots(b: Archon)
    requires Inv(b) && View(b) == FRESH_MAP
    ensures ParamInv(b, [])
  {
    NoSlots(View(b));
  }

  lemma AnotherNamesTurn(c: Archon, w: seq<Entry>)
    requires ParamInv(c, w) && c.params == map["A" := 0, "B" := 0] && c.unit.faults == []
    requires c.count < MAX_LINES
    ensures var d := SetParam(c, "A", 3).0;
            SetParam(c, "A", 3).1.Ok? && GetParam(d, "B").1 == Ok(3)
  {
    OneLetterFits("A", 3);
    SetSucceeds(c, "A", 3);
    SetStep(c, w, "A", 3);
    SetKnown(c, "A", 3);
    var d := SetParam(c, "A", 3).0;
    Appended(w, Entry("A", 0, 3));
    GetStep(d, Noted(w, d, "A", 3), "B");
  }

  lemma FreshSize()
    ensures |FRESH_MAP| == 5
  {
    var s := {"LINES"};
    assert "STATES" !in s;
    s := s + {"STATES"};
    assert "PARAMETERS" !in s;
    s := s + {"PARAMETERS"};
    assert "CONSTANTS" !in s;
    s := s + {"CONSTANTS"};
    assert "TAPLINES" !in s;
    s := s + {"TAPLINES"};
    assert FRESH_MAP.Keys == s;
    assert |FRESH_MAP| == |FRESH_MAP.Keys|;
  }

  lemma ClearedSize(a: Archon)
    requires WellFormed(a) && a.unit.faults == []
    ensures var b := ClearConfig(a).0;
            Calm(b) && View(b) == FRESH_MAP && b.params == map[] && b.count == |View(b)| == 5
  {
    hide ClearConfig;
    CalmClear(a);
    ViewSize(ClearConfig(a).0);
    FreshSize();
  }

  /** Such a state is one exchange failure away from every clear_config that succeeds. */
  lemma SecondMayBeLost(a: Archon)
    requires WellFormed(a) && a.unit.faults == []
    ensures var b := ClearConfig(a).0; SecondIsLost(b.(unit := Unit(b.unit.lines, [Good, LostRequest])))
  {
    hide ClearConfig;
    ClearedSize(a);
    WithFaults(ClearConfig(a).0, [Good, LostRequest]);
  }

  lemma WithFaults(a: Archon, faults: seq<Fault>)
    requires Inv(a)
    ensures var b := a.(unit := Unit(a.unit.lines, faults)); Inv(b) && View(b) == View(a)
  {
  }

  // ---- a run that fills the store ----

  function FillKey(i: nat): string {
    "K" + Dec(i)
  }

  function FillOps(i: nat, n: nat): seq<ParamOp>
    requires i <= n
    decreases n - i
  {
    if i == n then [] else [Other(Write(FillKey(i), ""))] + FillOps(i + 1, n)
  }

  const ROOM: nat := 2042  // the lines clear_config leaves free

  lemma FillKeyIsNew(i: nat, j: nat)
    ensures OneLine(FillKey(i)) && !StartsWith(FillKey(i), "PARAMETER") && FillKey(i) != "PARAMETERS"
    ensures FillKey(i) == FillKey(j) <==> i == j
  {
    PrintInjective(i, j, 10);
    assert FillKey(i)[1..] == Dec(i) && FillKey(j)[1..] == Dec(j);
    assert forall c | IsDigit(c, 10) :: c != '\n';
    assert FillKey(i)[0] == 'K';
  }

  /** A cleared store with i more lines in use. */
  ghost predicate FilledTo(a: Archon, i: nat) {
    && Calm(a) && a.params == map[] && |View(a)| == 5 + i
    && "PARAMETERS" in View(a) && View(a)["PARAMETERS"] == "0"
    && (forall j | j >= i :: FillKey(j) !in View(a))
    && forall j: int :: SlotKey(j) !in View(a)
  }

  lemma FillStep(a: Archon, i: nat)
    requires FilledTo(a, i) && i < ROOM
    ensures FilledTo(WriteKeyValue(a, FillKey(i), "").0, i + 1)
  {
    FillKeyIsNew(i, i);
    PrintLength(i, 10, 4);
    assert Power(10, 4) == 10 * Power(10, 3) == 100 * Power(10, 2) == 10000;
    CalmWrite(a, FillKey(i), "");
    var m, m' := View(a), View(WriteKeyValue(a, FillKey(i), "").0);
    assert m'.Keys == m.Keys + {FillKey(i)};
    assert |m'| == |m'.Keys| && |m| == |m.Keys|;
    forall j | j >= i + 1 ensures FillKey(j) !in m' {
      FillKeyIsNew(i, j);
    }
    forall j: int ensures SlotKey(j) !in m' {
      SlotKeyIsPlain(j);
    }
  }

  lemma FillNext(a: Archon, i: nat, n: nat)
    requires WellFormed(a) && i < n
    ensures RunParams(a, FillOps(i, n)).0 == RunParams(WriteKeyValue(a, FillKey(i), "").0, FillOps(i + 1, n)).0
  {
    assert FillOps(i, n)[1..] == FillOps(i + 1, n);
    hide WriteKeyValue;
  }

  lemma {:induction false} Filling(a: Archon, i: nat, n: nat)
    requires FilledTo(a, i) && i <= n <= ROOM
    ensures FilledTo(RunParams(a, FillOps(i, n)).0, n)
    decreases n - i
  {
    if i == n {
    } else {
      hide WriteKeyValue, RunParams, FillOps;
      FillStep(a, i);
      FillNext(a, i, n);
      Filling(WriteKeyValue(a, FillKey(i), "").0, i + 1, n);
    }
  }

  lemma RefusedName(a: Archon, name: string, val: nat)
    requires Calm(a) && |View(a)| == MAX_LINES && ParamName(name) && name !in a.params
    requires "PARAMETERS" in View(a) && View(a)["PARAMETERS"] == "0"
    ensures var (b, r) := SetParam(a, name, val);
            r == Err(DeviceError) && Calm(b) && b.params == a.params[name := 0] && View(b) == View(a)
  {
    assert Dec(0) == "0";
    ViewSize(a);
    CountIsRead(a, 0);
    QuietRead(a);
    var b := GetParameters(a).0;
    var c := b.(params := b.params[name := 0]);
    WithParams(b, c.params);
    QuietStore(c, name, 0, val);
  }

  /** In a store that writes of other keys have filled, every new name is recorded at the first
      free slot, which is never written: the names share it, and getParam knows neither. */
  lemma FullStore(a: Archon)
    requires WellFormed(a) && a.unit.faults == []
    ensures var full := RunParams(ClearConfig(a).0, FillOps(0, ROOM)).0;
            var (b, r) := SetParam(full, "X", 1);
            var (c, s) := SetParam(b, "Y", 2);
            && full.params == map[] && r == s == Err(DeviceError) && c.params == map["X" := 0, "Y" := 0]
            && !Injective(c.params)
            && GetParam(c, "X").1 == GetParam(c, "Y").1 == Err(NotRegistered)
  {
    hide SetParam, FillOps, RunParams, ClearConfig;
    AfterFill(a);
    var full := RunParams(ClearConfig(a).0, FillOps(0, ROOM)).0;
    RefusedName(full, "X", 1);
    var b := SetParam(full, "X", 1).0;
    RefusedName(b, "Y", 2);
    NeitherIsKnown(SetParam(b, "Y", 2).0);
  }

  lemma NeitherIsKnown(c: Archon)
    requires Inv(c) && c.params == map["X" := 0, "Y" := 0] && SlotKey(0) !in View(c)
    ensures !Injective(c.params)
    ensures GetParam(c, "X").1 == GetParam(c, "Y").1 == Err(NotRegistered)
  {
    assert "X" in c.params && "Y" in c.params && c.params["X"] == c.params["Y"];
  }

  lemma AfterFill(a: Archon)
    requires WellFormed(a) && a.unit.faults == []
    ensures FilledTo(RunParams(ClearConfig(a).0, FillOps(0, ROOM)).0, ROOM)
  {
    hide ClearConfig, RunParams, FillOps;
    ClearedSize(a);
    NothingFilled();
    Filling(ClearConfig(a).0, 0, ROOM);
  }

  lemma NothingFilled()
    ensures forall j: nat :: FillKey(j) !in FRESH_MAP
    ensures forall j: int :: SlotKey(j) !in FRESH_MAP
  {
    forall j: nat ensures FillKey(j) !in FRESH_MAP {
      assert FillKey(j)[0] == 'K';
    }
    forall j: int ensures SlotKey(j) !in FRESH_MAP {
      SlotKeyIsPlain(j);
      assert SlotKey(j)[0] == 'P';
    }
  }
}
