/** The parameter table over the runs its callers count on: while every setParam of a new name
    succeeds, and while no exchange fails, it is a plain table from names to values. */
module ArchonParamTable {
  import opened Results
  import opened Text
  import opened ArchonLink
  import opened ArchonStore
  import opened ArchonRuns
  import opened ArchonFaults
  import opened ArchonParams
  import opened ArchonParamRuns
  import opened ArchonParamSlots
  import opened ArchonParamCases

  // ---- while new names succeed ----

  /** Every setParam of a name that is not in the table yet reports success. */
  predicate NewNamesSucceed(a: Archon, ops: seq<ParamOp>)
    requires WellFormed(a)
    decreases |ops|
  {
    if ops == [] then true
    else
      && (ops[0].Set? && ops[0].name !in a.params ==> DoParam(a, ops[0]).1.Ok?)
      && NewNamesSucceed(DoParam(a, ops[0]).0, ops[1..])
  }

  /** The values a name may have: the last one reported set, and those attempted since. */
  function MayHold(a: Archon, ops: seq<ParamOp>, name: string, held: set<nat>): set<nat>
    requires WellFormed(a)
    decreases |ops|
  {
    if ops == [] then held
    else MayHold(DoParam(a, ops[0]).0, ops[1..], name, MayHoldAfter(a, ops[0], name, held))
  }

  function MayHoldAfter(a: Archon, op: ParamOp, name: string, held: set<nat>): set<nat>
    requires WellFormed(a)
  {
    if op.Set? && op.name == name then
      if DoParam(a, op).1.Ok? then {op.val} else held + {op.val}
    else if Cleared(a, op) then {}
    else held
  }

  /** A value has reached the controller under the name, and it is one of these, exactly if the
      name is recorded. */
  ghost predicate Known(a: Archon, w: seq<Entry>, name: string, held: set<nat>) {
    && (name in a.params <==> held != {})
    && (name in a.params <==> LastOf(w, name).Some?)
    && (name in a.params ==> LastOf(w, name).value.val in held)
  }

  ghost predicate TidyInv(a: Archon, w: seq<Entry>, t: Tally) {
    ParamInv(a, w) && Counts(a, t) && Honest(a) && t.standing == Tidy
  }

  lemma TidyStep(a: Archon, w: seq<Entry>, t: Tally, op: ParamOp)
    requires TidyInv(a, w, t) && ParamRunOp(op) && ClearsHeard(a, [op]) && NewNamesSucceed(a, [op])
    ensures TidyInv(DoParam(a, op).0, EntriesAfter(a, op, w), TallyAfter(a, op, t))
  {
    hide DoParam, SetParam, ParamRunOp, Slots, Stands, Honest, View, Recorded, Noted;
    ParamStep(a, w, op);
    StepCounts(a, t, op);
    StepStaysHonest(a, op);
    if op.Set? && op.name !in a.params {
      NewNameSucceeds(a, t, op.name, op.val);
    }
  }

  lemma NewNameSucceeds(a: Archon, t: Tally, name: string, val: nat)
    requires Inv(a) && Counts(a, t) && Honest(a) && ParamRunOp(Set(name, val)) && name !in a.params
    requires DoParam(a, Set(name, val)).1.Ok?
    ensures NumberRead(a, t.n) && CountArrives(a)
  {
    NewNameCounts(a, t, name, val);
  }

  /** setParam records at most its own name. */
  lemma OnlyItsName(a: Archon, t: Tally, name: string, val: nat)
    requires Inv(a) && Counts(a, t) && Honest(a) && ParamName(name)
    ensures var (b, r) := SetParam(a, name, val);
            && (r.Ok? ==> name in b.params) && (name in a.params ==> name in b.params)
            && forall x | x != name :: x in b.params <==> x in a.params
  {
    if name in a.params {
      SetKnown(a, name, val);
    } else {
      RecordedAt(a, t, name, val);
    }
  }

  lemma SetKnows(a: Archon, w: seq<Entry>, t: Tally, name: string, val: nat, x: string, held: set<nat>)
    requires TidyInv(a, w, t) && ParamRunOp(Set(name, val)) && NewNamesSucceed(a, [Set(name, val)])
    requires Known(a, w, x, held)
    ensures var op := Set(name, val);
            Known(DoParam(a, op).0, EntriesAfter(a, op, w), x, MayHoldAfter(a, op, x, held))
  {
    hide SetParam, Slots, Counts, Honest, View, Recorded, HasLine;
    OnlyItsName(a, t, name, val);
    var (b, r) := SetParam(a, name, val);
    Appended(w, Entry(name, if name in b.params then b.params[name] else 0, val));
    SetStep(a, w, name, val);
    assert name !in a.params ==> DoParam(a, Set(name, val)).1.Ok?;
  }

  lemma OtherKnows(a: Archon, w: seq<Entry>, op: ParamOp, x: string, held: set<nat>)
    requires ParamInv(a, w) && ParamRunOp(op) && !op.Set? && ClearsHeard(a, [op]) && Known(a, w, x, held)
    ensures Known(DoParam(a, op).0, EntriesAfter(a, op, w), x, MayHoldAfter(a, op, x, held))
  {
    match op
    case Get(name) => if name in a.params { ReadStep(a, SlotKey(a.params[name])); }
    case Other(Clear) => ClearStep(a);
    case Other(Write(key, val)) => WriteKeepsParams(a, key, val);
    case Other(Read(key)) =>
  }

  lemma {:induction false} TidyRuns(a: Archon, w: seq<Entry>, t: Tally, ops: seq<ParamOp>, x: string, held: set<nat>)
    requires TidyInv(a, w, t) && Known(a, w, x, held) && NewNamesSucceed(a, ops)
    requires ClearsHeard(a, ops) && forall i | 0 <= i < |ops| :: ParamRunOp(ops[i])
    ensures var b, w' := RunParams(a, ops).0, Entries(a, ops, w);
            TidyInv(b, w', Tallied(a, ops, t)) && Known(b, w', x, MayHold(a, ops, x, held))
    decreases |ops|
  {
    if ops == [] {
    } else {
      hide TidyInv, Known, EntriesAfter, TallyAfter, MayHoldAfter, DoParam, ParamRunOp;
      OneMore(a, w, t, ops, x, held);
      var op := ops[0];
      TidyRuns(DoParam(a, op).0, EntriesAfter(a, op, w), TallyAfter(a, op, t), ops[1..], x,
               MayHoldAfter(a, op, x, held));
    }
  }

  lemma OneMore(a: Archon, w: seq<Entry>, t: Tally, ops: seq<ParamOp>, x: string, held: set<nat>)
    requires TidyInv(a, w, t) && Known(a, w, x, held) && NewNamesSucceed(a, ops)
    requires ops != [] && ParamRunOp(ops[0]) && ClearsHeard(a, ops)
    ensures var op := ops[0];
            var b := DoParam(a, op).0;
            && TidyInv(b, EntriesAfter(a, op, w), TallyAfter(a, op, t))
            && Known(b, EntriesAfter(a, op, w), x, MayHoldAfter(a, op, x, held))
  {
    hide Known, EntriesAfter, TallyAfter, MayHoldAfter, DoParam, ParamRunOp, Slots, Counts, Honest, Recorded;
    var op := ops[0];
    FirstAlone(a, ops);
    TidyStep(a, w, t, op);
    if op.Set? {
      SetKnows(a, w, t, op.name, op.val, x, held);
    } else {
      OtherKnows(a, w, op, x, held);
    }
  }

  lemma FirstAlone(a: Archon, ops: seq<ParamOp>)
    requires WellFormed(a) && ops != []
    ensures ClearsHeard(a, ops) ==> ClearsHeard(a, [ops[0]])
    ensures NewNamesSucceed(a, ops) ==> NewNamesSucceed(a, [ops[0]])
  {
    assert [ops[0]][1..] == [];
  }

  /** Main result: from a clear_config that the controller took up, over every run whose
      exchanges succeed or throw and in which every setParam of a new name reports success:
      `_parammap` is a bijection onto 0..PARAMETERS-1, and every name reads as the value last
      reported set or one attempted since, so as the last value set unless a later setParam of
      it has failed. */
  lemma LastSetComesBack(a: Archon, ops: seq<ParamOp>, name: string)
    requires WellFormed(a) && Honest(a) && Accepted(a)
    requires ClearsHeard(ClearConfig(a).0, ops) && forall i | 0 <= i < |ops| :: ParamRunOp(ops[i])
    requires NewNamesSucceed(ClearConfig(a).0, ops)
    ensures var start := ClearConfig(a).0;
            var b, n := RunParams(start, ops).0, Tallied(start, ops, Tally(0, Tidy)).n;
            var held := MayHold(start, ops, name, {});
            && Inv(b) && ("PARAMETERS" in View(b) ==> View(b)["PARAMETERS"] == Dec(n)) && Bijection(b.params, n)
            && (FaultOf(b.unit).Good? ==>
                  && (GetParam(b, name).1.Ok? <==> held != {})
                  && (held != {} ==> GetParam(b, name).1.value in held))
  {
    hide ClearConfig, RunParams, Entries, Tallied, MayHold, NewNamesSucceed, GetParam, Honest;
    AfterClear(a);
    ClearStaysHonest(a);
    var start := ClearConfig(a).0;
    ZeroIsCounted(start);
    TidyRuns(start, [], Tally(0, Tidy), ops, name, {});
    TidyAnswer(RunParams(start, ops).0, Entries(start, ops, []), Tallied(start, ops, Tally(0, Tidy)), name,
               MayHold(start, ops, name, {}));
  }

  lemma TidyAnswer(b: Archon, w: seq<Entry>, t: Tally, name: string, held: set<nat>)
    requires TidyInv(b, w, t) && Known(b, w, name, held)
    ensures Inv(b) && ("PARAMETERS" in View(b) ==> View(b)["PARAMETERS"] == Dec(t.n)) && Bijection(b.params, t.n)
    ensures FaultOf(b.unit).Good? ==>
              && (GetParam(b, name).1.Ok? <==> held != {})
              && (held != {} ==> GetParam(b, name).1.value in held)
  {
    if FaultOf(b.unit).Good? && held != {} {
      OwnValue(b, w, name);
    }
  }

  // ---- while no exchange fails ----

  function TableAfter(table: map<string, nat>, op: ParamOp, reply: Result<nat>): map<string, nat> {
    match op
    case Set(name, val) => if reply.Ok? then table[name := val] else table
    case Get(_) => table
    case Other(o) => if o == Clear then map[] else table
  }

  /** Every getParam answers with the value that setParam has last reported as set. */
  predicate AnswersLastSet(table: map<string, nat>, ops: seq<ParamOp>, replies: seq<Result<nat>>)
    requires |ops| == |replies|
    decreases |ops|
  {
    if ops == [] then true
    else
      && (ops[0].Get? ==>
            if ops[0].name in table then replies[0] == Ok(table[ops[0].name]) else replies[0].Err?)
      && AnswersLastSet(TableAfter(table, ops[0], replies[0]), ops[1..], replies[1..])
  }

  /** Slot i of a recorded name is written exactly if the name has a value in the table. */
  predicate SlotOfName(m: map<string, string>, i: int, name: string, table: map<string, nat>) {
    if name in table then
      && ParamName(name) && table[name] < UINT_END
      && SlotKey(i) in m && m[SlotKey(i)] == ParamLine(name, table[name])
    else SlotKey(i) !in m
  }

  ghost predicate Tabled(m: map<string, string>, params: map<string, int>, n: nat, table: map<string, nat>) {
    && table.Keys <= params.Keys
    && (forall x | x in params :: SlotOfName(m, params[x], x, table))
    && (forall i: int | i >= n :: SlotKey(i) !in m)
  }

  /** No free line, or no name uncounted. */
  ghost predicate QuietInv(a: Archon, t: Tally, table: map<string, nat>) {
    && Inv(a) && a.unit.faults == [] && Counts(a, t) && (a.count < MAX_LINES ==> t.standing == Tidy)
    && "PARAMETERS" in View(a) && Tabled(View(a), a.params, t.n, table)
  }

  lemma TabledSet(m: map<string, string>, m': map<string, string>, params: map<string, int>, n: nat,
                  table: map<string, nat>, name: string, val: nat)
    requires Tabled(m, params, n, table) && ParamName(name) && val < UINT_END
    requires name in params && 0 <= params[name] < n
    requires forall x | x in params && x != name :: params[x] != params[name]
    requires m' == m[SlotKey(params[name]) := ParamLine(name, val)]
    ensures Tabled(m', params, n, table[name := val])
  {
    forall x | x in params ensures SlotOfName(m', params[x], x, table[name := val]) {
      assert SlotOfName(m, params[x], x, table);
      SlotKeyInjective(params[x], params[name]);
    }
    forall i: int | i >= n ensures SlotKey(i) !in m' {
      SlotKeyInjective(i, params[name]);
    }
  }

  /** A key outside the slots may change, and PARAMETERS may come to count one more name. */
  lemma TabledApart(m: map<string, string>, m': map<string, string>, params: map<string, int>, n: nat, n': nat,
                    table: map<string, nat>)
    requires Tabled(m, params, n, table) && n <= n'
    requires forall i: int :: SameAt(m, m', SlotKey(i))
    ensures Tabled(m', params, n', table)
  {
    forall x | x in params ensures SlotOfName(m', params[x], x, table) {
      assert SlotOfName(m, params[x], x, table);
    }
    forall i: int | i >= n' ensures SlotKey(i) !in m' {
      assert SameAt(m, m', SlotKey(i));
    }
  }

  lemma TabledNew(m: map<string, string>, params: map<string, int>, n: nat, table: map<string, nat>, name: string)
    requires Tabled(m, params, n, table) && name !in params
    ensures Tabled(m, params[name := n], n, table)
  {
    var params' := params[name := n];
    forall x | x in params' ensures SlotOfName(m, params'[x], x, table) {
      assert x != name ==> SlotOfName(m, params[x], x, table);
    }
  }

  // ---- one operation, none of whose exchanges fails ----

  lemma CountGrows(a: Archon, key: string, val: string)
    requires WellFormed(a)
    ensures WriteKeyValue(a, key, val).0.count >= a.count && ReadKeyValue(a, key).0.count == a.count
  {
  }

  lemma QuietIsHonest(a: Archon)
    requires a.unit.faults == []
    ensures Honest(a)
  {
  }

  lemma QuietKnownName(a: Archon, t: Tally, table: map<string, nat>, name: string, val: nat)
    requires QuietInv(a, t, table) && ParamName(name) && val < UINT_END && name in a.params
    ensures var (b, r) := SetParam(a, name, val);
            QuietInv(b, t, if r.Ok? then table[name := val] else table)
  {
    hide Stands, Tabled;
    var key, line := SlotKey(a.params[name]), ParamLine(name, val);
    SlotKeyIsPlain(a.params[name]);
    ParamLineIsOneLine(name, val);
    QuietWrite(a, key, line);
    KnownNameCounts(a, t, name, val);
    if !Refused(a, key, line) {
      TidySlot(a.params, t, name);
      TabledSet(View(a), View(SetParam(a, name, val).0), a.params, t.n, table, name, val);
    }
  }

  lemma TidySlot(params: map<string, int>, t: Tally, name: string)
    requires Stands(params, t) && t.standing == Tidy && name in params
    ensures 0 <= params[name] < t.n && forall x | x in params && x != name :: params[x] != params[name]
  {
  }

  /** A new name: recorded if its number is read; counted if there is room; written if its line
      fits as well. */
  lemma QuietNewName(a: Archon, t: Tally, name: string, val: nat)
    requires Inv(a) && a.unit.faults == [] && Counts(a, t) && ParamName(name) && name !in a.params
    ensures var (b, r) := SetParam(a, name, val);
            && Inv(b) && b.unit.faults == [] && b.count >= a.count && (r.Ok? ==> a.count < MAX_LINES)
            && if !NumberRead(a, t.n) then r.Err? && b.params == a.params && View(b) == View(a)
               else
                 && b.params == a.params[name := t.n]
                 && View(b) == if a.count >= MAX_LINES then View(a)
                               else if r.Err? then View(a)["PARAMETERS" := Dec(t.n + 1)]
                               else View(a)["PARAMETERS" := Dec(t.n + 1)][SlotKey(t.n) := ParamLine(name, val)]
  {
    hide GetParameters, StoreNewParam, Stands, Honest, Dec, DecInt, LineFits;
    QuietIsHonest(a);
    NumberOfNewName(a, t);
    QuietRead(a);
    NumberIsRead(a);
    if NumberRead(a, t.n) {
      var b := GetParameters(a).0;
      var c := b.(params := b.params[name := t.n]);
      WithParams(b, c.params);
      QuietStore(c, name, t.n, val);
      NatText(t.n + 1);
      StoreGrows(c, name, t.n, val);
    }
  }

  lemma StoreGrows(a: Archon, name: string, n: nat, val: nat)
    requires WellFormed(a)
    ensures StoreNewParam(a, name, n, val).0.count >= a.count
  {
    hide WriteKeyValue, DecInt, SlotKey, ParamLine;
    CountGrows(a, "PARAMETERS", DecInt(n + 1));
    CountGrows(WriteKeyValue(a, "PARAMETERS", DecInt(n + 1)).0, SlotKey(n), ParamLine(name, val));
  }

  lemma OtherKeys(m: map<string, string>, key: string, val: string)
    requires !StartsWith(key, "PARAMETER") || key == "PARAMETERS"
    ensures forall i: int :: SameAt(m, m[key := val], SlotKey(i))
  {
    forall i: int ensures SameAt(m, m[key := val], SlotKey(i)) {
      SlotKeyIsPlain(i);
    }
  }

  lemma QuietSetNew(a: Archon, t: Tally, table: map<string, nat>, name: string, val: nat)
    requires QuietInv(a, t, table) && ParamName(name) && val < UINT_END && name !in a.params
    ensures var (b, r) := SetParam(a, name, val);
            QuietInv(b, TallyAfter(a, Set(name, val), t), if r.Ok? then table[name := val] else table)
  {
    hide SetParam, Stands, Tabled, View, Honest, SlotKey, ParamLine, Dec;
    QuietIsHonest(a);
    NewNameCounts(a, t, name, val);
    QuietNewName(a, t, name, val);
    var (b, r) := SetParam(a, name, val);
    if NumberRead(a, t.n) {
      TabledNew(View(a), a.params, t.n, table, name);
      if a.count < MAX_LINES {
        var m := View(a)["PARAMETERS" := Dec(t.n + 1)];
        OtherKeys(View(a), "PARAMETERS", Dec(t.n + 1));
        TabledApart(View(a), m, b.params, t.n, t.n + 1, table);
        if r.Ok? {
          TidySlot(b.params, TallyAfter(a, Set(name, val), t), name);
          TabledSet(m, View(b), b.params, t.n + 1, table, name, val);
        }
      }
    }
  }

  lemma QuietSet(a: Archon, t: Tally, table: map<string, nat>, name: string, val: nat)
    requires QuietInv(a, t, table) && ParamRunOp(Set(name, val))
    ensures var (b, r) := DoParam(a, Set(name, val));
            QuietInv(b, TallyAfter(a, Set(name, val), t), TableAfter(table, Set(name, val), r))
  {
    hide SetParam, QuietInv;
    if name in a.params {
      QuietKnownName(a, t, table, name, val);
    } else {
      QuietSetNew(a, t, table, name, val);
    }
  }

  /** getParam answers with the table's value. */
  lemma QuietGet(a: Archon, t: Tally, table: map<string, nat>, name: string)
    requires QuietInv(a, t, table)
    ensures var (b, r) := GetParam(a, name);
            QuietInv(b, t, table) && if name in table then r == Ok(table[name]) else r.Err?
  {
    GetCounts(a, t, name);
    if name in a.params {
      var i := a.params[name];
      SlotKeyIsPlain(i);
      ReadStep(a, SlotKey(i));
      assert SlotOfName(View(a), i, name, table);
      if name in table {
        LineWithoutEquals(SlotKey(i), ParamLine(name, table[name]));
        OwnLineReads(name, table[name]);
      }
    }
  }

  lemma QuietOtherWrite(a: Archon, t: Tally, table: map<string, nat>, key: string, val: string)
    requires QuietInv(a, t, table) && ParamRunOp(Other(Write(key, val)))
    ensures QuietInv(WriteKeyValue(a, key, val).0, t, table)
  {
    hide Stands, Tabled, Refused, FRESH_MAP;
    OtherCounts(a, t, Write(key, val));
    QuietWrite(a, key, val);
    hide WriteKeyValue;
    if !Refused(a, key, val) {
      OtherKeys(View(a), key, val);
      TabledApart(View(a), View(WriteKeyValue(a, key, val).0), a.params, t.n, t.n, table);
    }
  }

  lemma QuietOther(a: Archon, t: Tally, table: map<string, nat>, op: Op)
    requires QuietInv(a, t, table) && ParamRunOp(Other(op))
    ensures var (b, r) := DoParam(a, Other(op));
            QuietInv(b, TallyAfter(a, Other(op), t), TableAfter(table, Other(op), r))
  {
    hide QuietInv, WriteKeyValue, ReadKeyValue, ClearConfig;
    match op
    case Clear => QuietClear(a, t, table);
    case Write(key, val) => QuietOtherWrite(a, t, table, key, val);
    case Read(key) => QuietOtherRead(a, t, table, key);
  }

  lemma QuietOtherRead(a: Archon, t: Tally, table: map<string, nat>, key: string)
    requires QuietInv(a, t, table)
    ensures QuietInv(ReadKeyValue(a, key).0, t, table)
  {
    ReadStep(a, key);
    hide Stands, Tabled;
  }

  lemma FreshIsQuiet(a: Archon)
    requires Calm(a) && View(a) == FRESH_MAP && a.params == map[] && a.count == 5
    ensures QuietInv(a, Tally(0, Tidy), map[])
  {
    hide FRESH_MAP;
    NothingFilled();
    FreshCount();
  }

  lemma FreshCount()
    ensures "PARAMETERS" in FRESH_MAP && FRESH_MAP["PARAMETERS"] == Dec(0)
  {
  }

  lemma QuietCleared(a: Archon)
    requires WellFormed(a) && a.unit.faults == []
    ensures Accepted(a) && QuietInv(ClearConfig(a).0, Tally(0, Tidy), map[])
  {
    ClearRequest(a);
    hide ClearConfig, Cmd, QuietInv, FRESH_MAP;
    ClearedSize(a);
    FreshIsQuiet(ClearConfig(a).0);
  }

  lemma QuietClear(a: Archon, t: Tally, table: map<string, nat>)
    requires QuietInv(a, t, table)
    ensures Cleared(a, Other(Clear)) && QuietInv(ClearConfig(a).0, Tally(0, Tidy), map[])
  {
    QuietCleared(a);
  }

  lemma QuietStep(a: Archon, t: Tally, table: map<string, nat>, op: ParamOp)
    requires QuietInv(a, t, table) && ParamRunOp(op)
    ensures var (b, r) := DoParam(a, op);
            && QuietInv(b, TallyAfter(a, op, t), TableAfter(table, op, r))
            && (op.Get? ==> if op.name in table then r == Ok(table[op.name]) else r.Err?)
  {
    hide SetParam, GetParam, QuietInv;
    match op
    case Set(name, val) => QuietSet(a, t, table, name, val);
    case Get(name) => QuietGet(a, t, table, name);
    case Other(o) => QuietOther(a, t, table, o);
  }

  lemma {:induction false} QuietRun(a: Archon, t: Tally, table: map<string, nat>, ops: seq<ParamOp>)
    requires QuietInv(a, t, table) && forall i | 0 <= i < |ops| :: ParamRunOp(ops[i])
    ensures var (b, replies) := RunParams(a, ops);
            && |replies| == |ops| && AnswersLastSet(table, ops, replies)
            && Inv(b) && "PARAMETERS" in View(b) && Counts(b, Tallied(a, ops, t))
            && (b.count < MAX_LINES ==> Tallied(a, ops, t).standing == Tidy)
    decreases |ops|
  {
    if ops == [] {
    } else {
      hide QuietInv, DoParam, TallyAfter, TableAfter, Counts, ParamRunOp;
      var op := ops[0];
      assert WellFormed(a) by { QuietMeans(a, t, table); }
      QuietStep(a, t, table, op);
      var (b, r) := DoParam(a, op);
      QuietRun(b, TallyAfter(a, op, t), TableAfter(table, op, r), ops[1..]);
      var replies := RunParams(a, ops).1;
      assert replies[0] == r && replies[1..] == RunParams(b, ops[1..]).1;
    }
  }

  lemma QuietMeans(a: Archon, t: Tally, table: map<string, nat>)
    requires QuietInv(a, t, table)
    ensures WellFormed(a)
  {
  }

  /** Main result: from clear_config, over every run in which no exchange fails, with any names
      and whether or not the store fills up: every getParam answers with the value setParam last
      reported as set, and fails if there is none; and while the store has a free line,
      `_parammap` is a bijection onto 0..PARAMETERS-1. */
  lemma GetAnswersLastSet(a: Archon, ops: seq<ParamOp>)
    requires WellFormed(a) && a.unit.faults == [] && forall i | 0 <= i < |ops| :: ParamRunOp(ops[i])
    ensures var (b, replies) := RunParams(ClearConfig(a).0, ops);
            && |replies| == |ops| && AnswersLastSet(map[], ops, replies)
            && Inv(b) && "PARAMETERS" in View(b)
            && (b.count < MAX_LINES ==> exists n: nat :: Bijection(b.params, n) && View(b)["PARAMETERS"] == Dec(n))
  {
    hide ClearConfig, RunParams, AnswersLastSet, Tallied;
    QuietCleared(a);
    QuietRun(ClearConfig(a).0, Tally(0, Tidy), map[], ops);
  }
}
