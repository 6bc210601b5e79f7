/** The parameter table: which names PARAMETERS counts, and when names share a slot. */
module ArchonParamSlots {
  import opened Results
  import opened Text
  import opened ArchonLink
  import opened ArchonStore
  import opened ArchonRuns
  import opened ArchonFaults
  import opened ArchonParams
  import opened ArchonParamRuns

  // ---- which names share a slot ----

  ghost predicate SlotUsed(params: map<string, int>, i: int) {
    exists name | name in params :: params[name] == i
  }

  predicate Injective(params: map<string, int>) {
    forall x, y | x in params && y in params && x != y :: params[x] != params[y]
  }

  /** `_parammap` is a bijection onto 0..n-1. */
  ghost predicate Bijection(params: map<string, int>, n: nat) {
    && (forall name | name in params :: 0 <= params[name] < n)
    && Injective(params)
    && forall i | 0 <= i < n :: SlotUsed(params, i)
  }

  /** How the recorded names stand to PARAMETERS. */
  datatype Standing =
    | Tidy       // every name is counted
    | Uncounted  // the last name recorded is not
    | Shared     // a name was recorded after one that was not

  const INT_END := 0x8000_0000

  datatype Tally = Tally(n: nat, standing: Standing)

  function WithNewName(t: Tally, counted: bool): Tally {
    Tally(if counted then t.n + 1 else t.n,
          if t.standing != Tidy then Shared else if counted then Tidy else Uncounted)
  }

  /** The number for a new name can be had: the exchange that reads PARAMETERS succeeds, and what
      it yields is an int. */
  predicate NumberRead(a: Archon, n: nat) {
    "PARAMETERS" in a.index && FaultOf(a.unit).Good? && n < INT_END
  }

  /** The write of PARAMETERS, the second exchange from here on, reaches the controller. */
  predicate CountArrives(a: Archon) {
    a.count < MAX_LINES && !FaultOf(Unit(a.unit.lines, RestOf(a.unit))).LostRequest?
  }

  /** How a run changes the tally: a new name is recorded if its number is read, and counted if
      the count arrives. */
  function TallyAfter(a: Archon, op: ParamOp, t: Tally): Tally
    requires WellFormed(a)
  {
    if op.Set? && op.name !in a.params && NumberRead(a, t.n) then WithNewName(t, CountArrives(a))
    else if Cleared(a, op) then Tally(0, Tidy)
    else t
  }

  function Tallied(a: Archon, ops: seq<ParamOp>, t: Tally): Tally
    requires WellFormed(a)
    decreases |ops|
  {
    if ops == [] then t else Tallied(DoParam(a, ops[0]).0, ops[1..], TallyAfter(a, ops[0], t))
  }

  /** PARAMETERS, where there is one, is the tally's number. */
  ghost predicate Counts(a: Archon, t: Tally)
    requires Inv(a)
  {
    && (if "PARAMETERS" in View(a) then View(a)["PARAMETERS"] == Dec(t.n) else a.params == map[] && t == Tally(0, Tidy))
    && Stands(a.params, t)
  }

  ghost predicate Stands(params: map<string, int>, t: Tally) {
    match t.standing
    case Tidy => Bijection(params, t.n)
    case Uncounted => Bijection(params, t.n + 1)
    case Shared => !Injective(params)
  }

  /** No reply is some other text that may pass for the answer: an exchange succeeds or throws. */
  predicate Honest(a: Archon) {
    forall f | f in a.unit.faults :: !f.OtherReply?
  }

  // ---- one new name ----

  lemma CountIsRead(a: Archon, n: nat)
    requires Inv(a) && FaultOf(a.unit).Good?
    requires "PARAMETERS" in View(a) && View(a)["PARAMETERS"] == Dec(n)
    ensures GetParameters(a).1 == if n < INT_END then Ok(n) else Err(RangeError)
  {
    ReadStep(a, "PARAMETERS");
    DecIsPlain(n);
    LineWithoutEquals("PARAMETERS", Dec(n));
    StoiOfDec(n);
    assert DecInt(n) == Dec(n);
  }

  /** An exchange that throws leaves getParameters without a number. */
  lemma BadReadThrows(a: Archon)
    requires Inv(a) && Honest(a) && "PARAMETERS" in a.index && !FaultOf(a.unit).Good?
    ensures GetParameters(a).1.Err?
  {
    hide Respond, Accept, Message, Printable, Stoi, AfterEquals;
  }

  lemma NumberOfNewName(a: Archon, t: Tally)
    requires Inv(a) && Counts(a, t) && Honest(a)
    ensures var n := GetParameters(a).1; if NumberRead(a, t.n) then n == Ok(t.n) else n.Err?
  {
    hide GetParameters, Stands, Honest, Dec;
    NumberIsRead(a);
    if "PARAMETERS" in a.index {
      if FaultOf(a.unit).Good? {
        CountIsRead(a, t.n);
      } else {
        BadReadThrows(a);
      }
    }
  }

  lemma ReadUsesOne(a: Archon)
    requires Inv(a) && FaultOf(a.unit).Good? && "PARAMETERS" in a.index
    ensures var (b, n) := GetParameters(a);
            b == a.(order := b.order, unit := Unit(a.unit.lines, RestOf(a.unit)))
  {
    ReadRequest(a, a.index["PARAMETERS"]);
  }

  lemma ShortNumber(n: int)
    requires -INT_END <= n < INT_END
    ensures |DecInt(n + 1)| <= 11
  {
    assert Power(10, 5) == 100 * Power(10, 3) == 100_000;
    assert Power(10, 10) == 100_000 * Power(10, 5);
    PrintLength(if n + 1 < 0 then -(n + 1) else n + 1, 10, 10);
  }

  lemma LostWrite(a: Archon, key: string, val: string)
    requires WellFormed(a) && key in a.index && !Refused(a, key, val) && FaultOf(a.unit).LostRequest?
    ensures WriteKeyValue(a, key, val)
            == (a.(order := NextOrder(a.order), unit := Unit(a.unit.lines, RestOf(a.unit))), Err(LinkError))
  {
  }

  predicate WriteArrives(a: Archon) {
    a.count < MAX_LINES && !FaultOf(a.unit).LostRequest?
  }

  /** The write of PARAMETERS: the controller has the count exactly if it arrived. */
  lemma CountExchange(a: Archon, n: nat)
    requires Inv(a) && "PARAMETERS" in a.index && n < INT_END
    ensures var (b, r) := WriteKeyValue(a, "PARAMETERS", DecInt(n + 1));
            && Inv(b) && b.params == a.params && (r.Ok? ==> WriteArrives(a))
            && View(b) == if WriteArrives(a) then View(a)["PARAMETERS" := DecInt(n + 1)] else View(a)
  {
    var val := DecInt(n + 1);
    ShortNumber(n);
    DecIsPlain(n + 1);
    WriteStep(a, "PARAMETERS", val);
    WriteKeepsParams(a, "PARAMETERS", val);
    if a.count < MAX_LINES {
      if FaultOf(a.unit).LostRequest? {
        LostWrite(a, "PARAMETERS", val);
      } else {
        WriteRequest(a, a.index["PARAMETERS"], "PARAMETERS" + "=" + val);
        HasLineMeans(WriteKeyValue(a, "PARAMETERS", val).0, "PARAMETERS", val);
      }
    }
  }

  lemma StoreCounts(a: Archon, name: string, n: nat, val: nat)
    requires Inv(a) && ParamName(name) && name in a.params && a.params[name] == n
    requires "PARAMETERS" in a.index && n < INT_END
    ensures var (b, r) := StoreNewParam(a, name, n, val);
            && Inv(b) && b.params == a.params && (r.Ok? ==> WriteArrives(a)) && "PARAMETERS" in View(b)
            && View(b)["PARAMETERS"] == if WriteArrives(a) then DecInt(n + 1) else View(a)["PARAMETERS"]
  {
    hide WriteKeyValue, ParamLine, SlotKey, DecInt, Written;
    CountExchange(a, n);
    var (b, w) := WriteKeyValue(a, "PARAMETERS", DecInt(n + 1));
    if w.Ok? {
      SlotKeyIsPlain(n);
      WriteSlot(b, name, val);
      assert SameAt(View(b), View(WriteKeyValue(b, SlotKey(n), ParamLine(name, val)).0), "PARAMETERS");
    }
  }

  /** What setParam records for a new name: it is recorded exactly if the number is read, at that
      number, and counted exactly if the count arrives; if it reports success, it was both. */
  lemma RecordedAt(a: Archon, t: Tally, name: string, val: nat)
    requires Inv(a) && Counts(a, t) && Honest(a) && ParamName(name) && name !in a.params
    ensures var (b, r) := SetParam(a, name, val);
            && Inv(b) && (r.Ok? ==> NumberRead(a, t.n) && CountArrives(a))
            && if NumberRead(a, t.n) then
                 && b.params == a.params[name := t.n] && "PARAMETERS" in View(b)
                 && View(b)["PARAMETERS"] == Dec(if CountArrives(a) then t.n + 1 else t.n)
               else b.params == a.params && View(b) == View(a)
  {
    hide GetParameters, StoreNewParam, Stands, Honest, Dec, DecInt;
    NumberOfNewName(a, t);
    NumberIsRead(a);
    if NumberRead(a, t.n) {
      ReadUsesOne(a);
      var b := GetParameters(a).0;
      var c := b.(params := b.params[name := t.n]);
      WithParams(b, c.params);
      StoreCounts(c, name, t.n, val);
      NatText(t.n + 1);
    }
  }

  lemma NatText(n: nat)
    ensures DecInt(n) == Dec(n)
  {
  }

  lemma NewName(params: map<string, int>, n: nat, name: string)
    requires Bijection(params, n) && name !in params
    ensures Bijection(params[name := n], n + 1)
  {
    var params' := params[name := n];
    forall i | 0 <= i < n + 1 ensures SlotUsed(params', i) {
      if i < n {
        assert SlotUsed(params, i);
        var x :| x in params && params[x] == i;
        assert x in params' && params'[x] == i;
      } else {
        assert name in params' && params'[name] == i;
      }
    }
  }

  lemma SecondName(params: map<string, int>, n: nat, name: string)
    requires Bijection(params, n + 1) && name !in params
    ensures !Injective(params[name := n])
  {
    assert SlotUsed(params, n);
    var x :| x in params && params[x] == n;
    var params' := params[name := n];
    assert x in params' && name in params' && x != name && params'[x] == params'[name];
  }

  lemma StillShared(params: map<string, int>, name: string, n: int)
    requires !Injective(params) && name !in params
    ensures !Injective(params[name := n])
  {
    var x, y :| x in params && y in params && x != y && params[x] == params[y];
    var params' := params[name := n];
    assert x in params' && y in params' && params'[x] == params'[y];
  }

  lemma NewNameStands(params: map<string, int>, t: Tally, name: string, counted: bool)
    requires Stands(params, t) && name !in params
    ensures Stands(params[name := t.n], WithNewName(t, counted))
  {
    match t.standing
    case Tidy => NewName(params, t.n, name);
    case Uncounted => SecondName(params, t.n, name);
    case Shared => StillShared(params, name, t.n);
  }

  // ---- whole runs ----

  lemma StillHonest(a: Archon, request: string)
    requires WellFormed(a) && Honest(a)
    ensures Honest(Cmd(a, request).0)
  {
  }

  lemma WritesStayHonest(a: Archon, key: string, val: string)
    requires WellFormed(a) && Honest(a)
    ensures Honest(WriteKeyValue(a, key, val).0) && Honest(ReadKeyValue(a, key).0)
  {
    hide Cmd;
    var line := key + "=" + val;
    if key in a.index {
      StillHonest(a, "WCONFIG" + Hex(a.index[key], 4) + line);
      StillHonest(a, "RCONFIG" + Hex(a.index[key], 4));
    } else if a.count < MAX_LINES {
      StillHonest(a.(count := a.count + 1), "WCONFIG" + Hex(a.count, 4) + line);
    }
  }

  lemma {:induction false} ZerosStayHonest(a: Archon, keys: seq<string>)
    requires WellFormed(a) && Honest(a)
    ensures Honest(WriteZeros(a, keys).0)
    decreases |keys|
  {
    if keys == [] {
    } else {
      hide WriteKeyValue, Honest;
      WritesStayHonest(a, keys[0], "0");
      ZerosStayHonest(WriteKeyValue(a, keys[0], "0").0, keys[1..]);
    }
  }

  lemma ClearStaysHonest(a: Archon)
    requires WellFormed(a) && Honest(a)
    ensures Honest(ClearConfig(a).0)
  {
    hide Cmd, WriteZeros;
    StillHonest(a, "CLEARCONFIG");
    var b := Cmd(a, "CLEARCONFIG").0;
    ZerosStayHonest(b.(index := map[], count := 0, params := map[]), FRESH);
  }

  lemma SetStaysHonest(a: Archon, name: string, val: nat)
    requires WellFormed(a) && Honest(a)
    ensures Honest(SetParam(a, name, val).0)
  {
    hide WriteKeyValue, ReadKeyValue, Honest;
    if name in a.params {
      WritesStayHonest(a, SlotKey(a.params[name]), ParamLine(name, val));
    } else {
      WritesStayHonest(a, "PARAMETERS", "");
      var (b, n) := GetParameters(a);
      if n.Ok? {
        var c := b.(params := b.params[name := n.value]);
        assert Honest(c) by { SameFaults(b, c); }
        WritesStayHonest(c, "PARAMETERS", DecInt(n.value + 1));
        WritesStayHonest(WriteKeyValue(c, "PARAMETERS", DecInt(n.value + 1)).0, SlotKey(n.value), ParamLine(name, val));
      }
    }
  }

  lemma SameFaults(a: Archon, b: Archon)
    requires Honest(a) && b.unit == a.unit
    ensures Honest(b)
  {
  }

  lemma StepStaysHonest(a: Archon, op: ParamOp)
    requires WellFormed(a) && Honest(a)
    ensures Honest(DoParam(a, op).0)
  {
    hide WriteKeyValue, ReadKeyValue, SetParam, ClearConfig, Honest;
    match op
    case Set(name, val) => SetStaysHonest(a, name, val);
    case Get(name) => if name in a.params { WritesStayHonest(a, SlotKey(a.params[name]), ""); }
    case Other(Clear) => ClearStaysHonest(a);
    case Other(Write(key, val)) => WritesStayHonest(a, key, val);
    case Other(Read(key)) => WritesStayHonest(a, key, "");
  }

  /** setParam of a new name, by what can be told before the call: it is recorded exactly if the
      number is read and counted exactly if the count arrives, and if setParam reports success,
      both have happened. */
  lemma NewNameCounts(a: Archon, t: Tally, name: string, val: nat)
    requires Inv(a) && Counts(a, t) && Honest(a) && ParamName(name) && name !in a.params
    ensures var (b, r) := SetParam(a, name, val);
            && Inv(b) && Counts(b, TallyAfter(a, Set(name, val), t))
            && (name in b.params <==> NumberRead(a, t.n))
            && (r.Ok? ==> NumberRead(a, t.n) && CountArrives(a))
  {
    hide SetParam, View, Dec, Stands, Honest;
    RecordedAt(a, t, name, val);
    NewNameStands(a.params, t, name, CountArrives(a));
  }

  lemma KnownNameCounts(a: Archon, t: Tally, name: string, val: nat)
    requires Inv(a) && Counts(a, t) && ParamName(name) && name in a.params
    ensures var b := SetParam(a, name, val).0; Inv(b) && Counts(b, TallyAfter(a, Set(name, val), t))
  {
    SetKnown(a, name, val);
    SlotKeyIsPlain(a.params[name]);
    assert SameAt(View(a), View(SetParam(a, name, val).0), "PARAMETERS");
  }

  lemma ZeroIsCounted(b: Archon)
    requires Inv(b) && b.params == map[] && AllZero(View(b))
    ensures Counts(b, Tally(0, Tidy))
  {
    assert Dec(0) == "0";
  }

  lemma OtherCounts(a: Archon, t: Tally, op: Op)
    requires Inv(a) && Counts(a, t) && ParamRunOp(Other(op)) && ClearsHeard(a, [Other(op)])
    ensures var b := DoParam(a, Other(op)).0; Inv(b) && Counts(b, TallyAfter(a, Other(op), t))
  {
    hide FRESH_MAP, WriteKeyValue, ClearConfig, Stands, Refused, View;
    match op
    case Clear =>
      ClearStep(a);
      if Accepted(a) {
        ZeroIsCounted(ClearConfig(a).0);
      }
    case Write(key, val) =>
      WriteStep(a, key, val);
      WriteKeepsParams(a, key, val);
    case Read(key) => ReadStep(a, key);
  }

  lemma GetCounts(a: Archon, t: Tally, name: string)
    requires Inv(a) && Counts(a, t)
    ensures var b := GetParam(a, name).0; Inv(b) && Counts(b, t)
  {
    if name in a.params {
      ReadStep(a, SlotKey(a.params[name]));
    }
  }

  lemma StepCounts(a: Archon, t: Tally, op: ParamOp)
    requires Inv(a) && Counts(a, t) && Honest(a) && ParamRunOp(op) && ClearsHeard(a, [op])
    ensures var b := DoParam(a, op).0; Inv(b) && Counts(b, TallyAfter(a, op, t))
  {
    match op
    case Set(name, val) =>
      if name in a.params {
        KnownNameCounts(a, t, name, val);
      } else {
        NewNameCounts(a, t, name, val);
      }
    case Get(name) => GetCounts(a, t, name);
    case Other(o) => OtherCounts(a, t, o);
  }

  lemma {:induction false} RunCounts(a: Archon, t: Tally, ops: seq<ParamOp>)
    requires Inv(a) && Counts(a, t) && Honest(a)
    requires ClearsHeard(a, ops) && forall i | 0 <= i < |ops| :: ParamRunOp(ops[i])
    ensures var b := RunParams(a, ops).0; Inv(b) && Counts(b, Tallied(a, ops, t))
    decreases |ops|
  {
    if ops == [] {
    } else {
      StepCounts(a, t, ops[0]);
      StepStaysHonest(a, ops[0]);
      RunCounts(DoParam(a, ops[0]).0, TallyAfter(a, ops[0], t), ops[1..]);
    }
  }

  /** Main result: from a clear_config that the controller took up, over every run whose
      exchanges succeed or throw, `_parammap` is a bijection onto 0..PARAMETERS-1 exactly while
      PARAMETERS has come to count every name that was recorded; and two names share a slot
      exactly when a name was recorded after one that was not counted. */
  lemma NamesShareSlots(a: Archon, ops: seq<ParamOp>)
    requires WellFormed(a) && Honest(a) && Accepted(a)
    requires ClearsHeard(ClearConfig(a).0, ops) && forall i | 0 <= i < |ops| :: ParamRunOp(ops[i])
    ensures var start := ClearConfig(a).0;
            var b, t := RunParams(start, ops).0, Tallied(start, ops, Tally(0, Tidy));
            && Inv(b) && ("PARAMETERS" in View(b) ==> View(b)["PARAMETERS"] == Dec(t.n))
            && (Bijection(b.params, t.n) <==> t.standing == Tidy)
            && (Injective(b.params) <==> t.standing != Shared)
  {
    AfterClear(a);
    ClearStaysHonest(a);
    ZeroIsCounted(ClearConfig(a).0);
    RunCounts(ClearConfig(a).0, Tally(0, Tidy), ops);
    var b, t := RunParams(ClearConfig(a).0, ops).0, Tallied(ClearConfig(a).0, ops, Tally(0, Tidy));
    if t.standing == Uncounted {
      assert SlotUsed(b.params, t.n);
    }
  }
}
