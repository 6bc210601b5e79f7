/** The parameter table over whole runs: what getParam answers, and which names share a slot. */
module ArchonParamRuns {
  import opened Results
  import opened ArchonLink
  import opened ArchonStore
  import opened ArchonRuns
  import opened ArchonFaults
  import opened ArchonParams

  datatype ParamOp =
    | Set(name: string, val: nat)
    | Get(name: string)
    | Other(op: Op)  // clear_config, or access to a key outside the parameter table

  predicate ParamRunOp(op: ParamOp) {
    match op
    case Set(name, val) => ParamName(name) && val < UINT_END
    case Get(_) => true
    case Other(Clear) => true
    case Other(Write(key, val)) => OneLine(key) && OneLine(val) && !StartsWith(key, "PARAMETER")
    case Other(Read(_)) => true
  }

  function DoParam(a: Archon, op: ParamOp): (r: (Archon, Result<nat>))
    requires WellFormed(a)
    ensures WellFormed(r.0)
  {
    match op
    case Set(name, val) => var (b, r) := SetParam(a, name, val); (b, if r.Err? then Err(r.error) else Ok(0))
    case Get(name) => GetParam(a, name)
    case Other(op) => var (b, r) := Do(a, op); (b, if r.Err? then Err(r.error) else Ok(0))
  }

  function RunParams(a: Archon, ops: seq<ParamOp>): (r: (Archon, seq<Result<nat>>))
    requires WellFormed(a)
    ensures WellFormed(r.0)
    decreases |ops|
  {
    if ops == [] then (a, [])
    else
      var (b, reply) := DoParam(a, ops[0]);
      var (c, replies) := RunParams(b, ops[1..]);
      (c, [reply] + replies)
  }

  /** The controller takes up a clear_config and the handle hears of it. */
  predicate Cleared(a: Archon, op: ParamOp)
    requires WellFormed(a)
  {
    op == Other(Clear) && Accepted(a)
  }

  /** No clear_config is taken up by the controller without the handle hearing of it: the one
      failure that breaks the store (ClearUnderFaults). */
  predicate ClearsHeard(a: Archon, ops: seq<ParamOp>)
    requires WellFormed(a)
    decreases |ops|
  {
    if ops == [] then true
    else (ops[0] == Other(Clear) ==> ClearHeard(a)) && ClearsHeard(DoParam(a, ops[0]).0, ops[1..])
  }

  lemma NoSlots(m: map<string, string>)
    requires AllZero(m)
    ensures Slots(m, [])
  {
    forall i: int ensures SlotKey(i) !in m {
      SlotKeyIsPlain(i);
      assert "PARAMETER" <= SlotKey(i) && |SlotKey(i)| > 9;
      assert forall k | k in FRESH :: k == "PARAMETERS" || k[0] != 'P';
    }
  }

  // ---- what getParam answers ----

  /** The values written to the slots since the table was last cleared. */
  function Entries(a: Archon, ops: seq<ParamOp>, w: seq<Entry>): seq<Entry>
    requires WellFormed(a)
    decreases |ops|
  {
    if ops == [] then w
    else
      var b := DoParam(a, ops[0]).0;
      Entries(b, ops[1..], EntriesAfter(a, ops[0], w))
  }

  function EntriesAfter(a: Archon, op: ParamOp, w: seq<Entry>): seq<Entry>
    requires WellFormed(a)
  {
    if op.Set? then Noted(w, SetParam(a, op.name, op.val).0, op.name, op.val)
    else if Cleared(a, op) then []
    else w
  }

  lemma OtherStep(a: Archon, w: seq<Entry>, op: Op)
    requires ParamInv(a, w) && ParamRunOp(Other(op)) && ClearsHeard(a, [Other(op)])
    ensures ParamInv(DoParam(a, Other(op)).0, EntriesAfter(a, Other(op), w))
  {
    match op
    case Clear =>
      ClearStep(a);
      if Cleared(a, Other(Clear)) {
        NoSlots(View(ClearConfig(a).0));
      }
    case Write(key, val) =>
      WriteStep(a, key, val);
      WriteKeepsParams(a, key, val);
      var m := View(WriteKeyValue(a, key, val).0);
      forall i: int ensures SlotHolds(m, i, LastAt(w, i)) {
        SlotKeyIsPlain(i);
        assert SlotHolds(View(a), i, LastAt(w, i));
      }
    case Read(key) => ReadStep(a, key);
  }

  lemma ParamStep(a: Archon, w: seq<Entry>, op: ParamOp)
    requires ParamInv(a, w) && ParamRunOp(op) && ClearsHeard(a, [op])
    ensures ParamInv(DoParam(a, op).0, EntriesAfter(a, op, w))
  {
    match op
    case Set(name, val) => SetStep(a, w, name, val);
    case Get(name) => GetStep(a, w, name);
    case Other(o) => OtherStep(a, w, o);
  }

  lemma {:induction false} ParamRuns(a: Archon, w: seq<Entry>, ops: seq<ParamOp>)
    requires ParamInv(a, w) && ClearsHeard(a, ops) && forall i | 0 <= i < |ops| :: ParamRunOp(ops[i])
    ensures ParamInv(RunParams(a, ops).0, Entries(a, ops, w))
    decreases |ops|
  {
    if ops == [] {
    } else {
      ParamStep(a, w, ops[0]);
      ParamRuns(DoParam(a, ops[0]).0, EntriesAfter(a, ops[0], w), ops[1..]);
    }
  }

  lemma AfterClear(a: Archon)
    requires WellFormed(a) && Accepted(a)
    ensures var b := ClearConfig(a).0; Inv(b) && b.params == map[] && AllZero(View(b)) && ParamInv(b, [])
  {
    ClearFromAnywhere(a);
    NoSlots(View(ClearConfig(a).0));
  }

  /** Main result: from a clear_config that the controller took up, over every run of setParam,
      getParam, further clears and accesses outside the table, whichever of its exchanges fail:
      a getParam whose exchange succeeds answers with the value that was last written to the
      slot its name is recorded at, and fails if there is none. */
  lemma ParameterTable(a: Archon, ops: seq<ParamOp>, name: string)
    requires WellFormed(a) && Accepted(a)
    requires ClearsHeard(ClearConfig(a).0, ops) && forall i | 0 <= i < |ops| :: ParamRunOp(ops[i])
    ensures var start := ClearConfig(a).0;
            var b := RunParams(start, ops).0;
            FaultOf(b.unit).Good? ==> GetParam(b, name).1 == Stored(b.params, Entries(start, ops, []), name)
  {
    AfterClear(a);
    ParamRuns(ClearConfig(a).0, [], ops);
    GetStep(RunParams(ClearConfig(a).0, ops).0, Entries(ClearConfig(a).0, ops, []), name);
  }

  // ---- whose value that is ----

  predicate Unshared(params: map<string, int>, name: string) {
    forall x | x in params && x != name :: name in params ==> params[x] != params[name]
  }

  lemma {:induction false} UnsharedSlot(params: map<string, int>, w: seq<Entry>, name: string)
    requires Recorded(params, w) && name in params && Unshared(params, name)
    ensures LastAt(w, params[name]) == LastOf(w, name)
  {
    if w == [] {
    } else {
      var n := |w| - 1;
      assert w[n] in w && forall e | e in w[..n] :: e in w;
      UnsharedSlot(params, w[..n], name);
    }
  }

  lemma {:induction false} LastOfIsEntry(w: seq<Entry>, name: string)
    ensures LastOf(w, name).Some? ==> LastOf(w, name).value in w && LastOf(w, name).value.name == name
  {
    if w == [] {
    } else {
      LastOfIsEntry(w[..|w| - 1], name);
    }
  }

  lemma {:induction false} SlotOfEntry(w: seq<Entry>, e: Entry)
    requires e in w
    ensures LastAt(w, e.slot).Some?
  {
    var n := |w| - 1;
    if w[n].slot == e.slot {
    } else {
      assert w == w[..n] + [w[n]];
      SlotOfEntry(w[..n], e);
    }
  }

  /** Exactly when getParam answers with the last value written under its own name: when the
      last value written to the slot is the same, as it is if no other name is recorded there. */
  lemma OwnValue(a: Archon, w: seq<Entry>, name: string)
    requires ParamInv(a, w) && FaultOf(a.unit).Good? && LastOf(w, name).Some?
    ensures name in a.params && LastAt(w, a.params[name]).Some?
    ensures GetParam(a, name).1 == Ok(LastOf(w, name).value.val)
            <==> LastAt(w, a.params[name]).value.val == LastOf(w, name).value.val
    ensures Unshared(a.params, name) ==> GetParam(a, name).1 == Ok(LastOf(w, name).value.val)
  {
    LastOfIsEntry(w, name);
    SlotOfEntry(w, LastOf(w, name).value);
    GetStep(a, w, name);
    if Unshared(a.params, name) {
      UnsharedSlot(a.params, w, name);
    }
  }

  predicate LeavesAlone(op: ParamOp, name: string) {
    (op.Set? ==> op.name != name) && op != Other(Clear)
  }

  lemma {:induction false} OthersKeepLast(a: Archon, w: seq<Entry>, ops: seq<ParamOp>, name: string)
    requires WellFormed(a) && forall i | 0 <= i < |ops| :: LeavesAlone(ops[i], name)
    ensures LastOf(Entries(a, ops, w), name) == LastOf(w, name)
    decreases |ops|
  {
    if ops == [] {
    } else {
      var op := ops[0];
      assert LeavesAlone(op, name);
      if op.Set? && Written(SetParam(a, op.name, op.val).0, op.name, op.val) {
        Appended(w, Entry(op.name, SetParam(a, op.name, op.val).0.params[op.name], op.val));
      }
      OthersKeepLast(DoParam(a, op).0, EntriesAfter(a, op, w), ops[1..], name);
    }
  }

  lemma {:induction false} NoClearIsHeard(a: Archon, ops: seq<ParamOp>)
    requires WellFormed(a) && forall i | 0 <= i < |ops| :: ops[i] != Other(Clear)
    ensures ClearsHeard(a, ops)
    decreases |ops|
  {
    if ops == [] {
    } else {
      NoClearIsHeard(DoParam(a, ops[0]).0, ops[1..]);
    }
  }

  lemma SetIsNoted(a: Archon, w: seq<Entry>, name: string, val: nat)
    requires ParamInv(a, w) && ParamName(name) && val < UINT_END && SetParam(a, name, val).1.Ok?
    ensures var b := SetParam(a, name, val).0;
            var w' := Noted(w, b, name, val);
            ParamInv(b, w') && LastOf(w', name).Some? && LastOf(w', name).value.val == val
  {
    SetStep(a, w, name, val);
    var b := SetParam(a, name, val).0;
    Appended(w, Entry(name, b.params[name], val));
  }

  lemma LastIsReturned(b: Archon, w: seq<Entry>, name: string, later: seq<ParamOp>)
    requires ParamInv(b, w) && LastOf(w, name).Some?
    requires forall i | 0 <= i < |later| :: ParamRunOp(later[i]) && LeavesAlone(later[i], name)
    requires FaultOf(RunParams(b, later).0.unit).Good?
    ensures var c, w', val := RunParams(b, later).0, Entries(b, later, w), LastOf(w, name).value.val;
            && name in c.params && LastAt(w', c.params[name]).Some?
            && (GetParam(c, name).1 == Ok(val) <==> LastAt(w', c.params[name]).value.val == val)
            && (Unshared(c.params, name) ==> GetParam(c, name).1 == Ok(val))
  {
    hide RunParams, Entries, ClearsHeard, LastOf, LastAt, GetParam;
    NoClearIsHeard(b, later);
    ParamRuns(b, w, later);
    OthersKeepLast(b, w, later, name);
    OwnValue(RunParams(b, later).0, Entries(b, later, w), name);
  }

  /** Main result: exactly when getParam returns the last value that setParam has reported as
      set, whatever was done since to other names: when the last value written to the slot is
      the same, as it is if no other name is recorded there. */
  lemma LastSetIsReturned(a: Archon, w: seq<Entry>, name: string, val: nat, later: seq<ParamOp>)
    requires ParamInv(a, w) && ParamName(name) && val < UINT_END && SetParam(a, name, val).1.Ok?
    requires forall i | 0 <= i < |later| :: ParamRunOp(later[i]) && LeavesAlone(later[i], name)
    requires FaultOf(RunParams(SetParam(a, name, val).0, later).0.unit).Good?
    ensures var b := SetParam(a, name, val).0;
            var c, w' := RunParams(b, later).0, Entries(b, later, Noted(w, b, name, val));
            && name in c.params && LastAt(w', c.params[name]).Some?
            && (GetParam(c, name).1 == Ok(val) <==> LastAt(w', c.params[name]).value.val == val)
            && (Unshared(c.params, name) ==> GetParam(c, name).1 == Ok(val))
  {
    hide SetParam, Noted, LastOf, LastAt, GetParam, RunParams, Entries;
    SetIsNoted(a, w, name, val);
    var b := SetParam(a, name, val).0;
    LastIsReturned(b, Noted(w, b, name, val), name, later);
  }
}
