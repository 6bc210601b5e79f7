/** The configuration store when exchanges with the controller fail: a request may be lost
    before or after the controller acted on it, and any other text may arrive as its reply. */
module ArchonFaults {
  import opened Results
  import opened Text
  import opened ArchonLink
  import opened ArchonStore
  import opened ArchonRuns

  // ---- clearing ----

  predicate AllZero(m: map<string, string>) {
    forall k | k in m :: k in FRESH && m[k] == "0"
  }

  lemma OneZero(a: Archon, key: string)
    requires Inv(a) && AllZero(View(a)) && OneLine(key) && key in FRESH
    ensures var (b, r) := WriteKeyValue(a, key, "0");
            && Inv(b) && AllZero(View(b)) && b.params == a.params
            && forall k | k in View(a) || (r.Ok? && k == key) :: k in View(b)
  {
    WriteStep(a, key, "0");
    WriteKeepsParams(a, key, "0");
  }

  lemma {:induction false} ZerosAreAll(a: Archon, keys: seq<string>)
    requires Inv(a) && AllZero(View(a)) && ShortKeys(keys) && forall k | k in keys :: k in FRESH
    ensures var (b, r) := WriteZeros(a, keys);
            && Inv(b) && AllZero(View(b)) && b.params == a.params
            && forall k | k in View(a) || (r.Ok? && k in keys) :: k in View(b)
    decreases |keys|
  {
    if keys == [] {
    } else {
      OneZero(a, keys[0]);
      hide WriteKeyValue, AllZero, FRESH, View;
      ZerosAreAll(WriteKeyValue(a, keys[0], "0").0, keys[1..]);
    }
  }

  /** The handle learns that the controller took a clear_config up. */
  predicate Accepted(a: Archon)
    requires WellFormed(a)
  {
    Cmd(a, "CLEARCONFIG").1.Ok?
  }

  /** No clear_config is taken up by the controller without the handle hearing of it. */
  predicate ClearHeard(a: Archon)
    requires WellFormed(a)
  {
    Accepted(a) || FaultOf(a.unit).LostRequest? || a.index == map[]
  }

  lemma ZerosAreFresh(m: map<string, string>)
    requires AllZero(m) && forall k | k in FRESH :: k in m
    ensures m == FRESH_MAP
  {
    assert forall k :: k in FRESH_MAP <==> k in FRESH;
  }

  lemma ClearFromAnywhere(a: Archon)
    requires WellFormed(a) && Accepted(a)
    ensures var (b, r) := ClearConfig(a);
            && Inv(b) && b.params == map[] && AllZero(View(b)) && (r.Ok? ==> View(b) == FRESH_MAP)
  {
    ClearRequest(a);
    FreshKeys();
    var c := Cmd(a, "CLEARCONFIG").0.(index := map[], count := 0, params := map[]);
    hide Cmd, WriteZeros, FRESH, FRESH_MAP;
    ZerosAreAll(c, FRESH);
    var (b, r) := WriteZeros(c, FRESH);
    hide View, AllZero;
    if r.Ok? {
      ZerosAreFresh(View(b));
    }
  }

  lemma ClearStep(a: Archon)
    requires Inv(a) && ClearHeard(a)
    ensures var (b, r) := ClearConfig(a);
            && Inv(b)
            && if Accepted(a) then
                 b.params == map[] && AllZero(View(b)) && (r.Ok? ==> View(b) == FRESH_MAP)
               else r.Err? && b.params == a.params && View(b) == View(a)
  {
    ClearRequest(a);
    if Accepted(a) {
      ClearFromAnywhere(a);
    }
  }

  // ---- whole runs ----

  /** What a key may stand for after an operation, from what was attempted and what was reported:
      None if it may be unregistered. */
  function HeldAfter(held: set<Option<string>>, op: Op, reply: Result<string>, key: string): set<Option<string>> {
    match op
    case Clear =>
      var zero := if key in FRESH then Some("0") else None;
      if reply.Ok? then {zero} else held + {None, zero}
    case Write(k, val) =>
      if k != key then held
      else if reply.Ok? then {Some(val)}
      else if held == {None} then held
      else held + {Some(val)}
    case Read(_) => held
  }

  /** The last value reported stored, and those attempted on the registered key since. */
  function Candidates(held: set<Option<string>>, ops: seq<Op>, replies: seq<Result<string>>, key: string)
    : set<Option<string>>
    requires |ops| == |replies|
    decreases |ops|
  {
    if ops == [] then held
    else Candidates(HeldAfter(held, ops[0], replies[0], key), ops[1..], replies[1..], key)
  }

  function HeldNow(m: map<string, string>, key: string): Option<string> {
    if key in m then Some(m[key]) else None
  }

  /** What a read answers, if the key stands for `now`. */
  function Answer(key: string, now: Option<string>): Result<string> {
    match now
    case None => Err(NotRegistered)
    case Some(val) => AfterEquals(Printable(key + "=" + val))
  }

  predicate Answered(key: string, held: set<Option<string>>, reply: Result<string>) {
    exists now | now in held :: reply == Answer(key, now)
  }

  /** Every read of the key whose exchange succeeds answers with one of the candidates. */
  predicate ReadsAnswered(a: Archon, ops: seq<Op>, key: string, held: set<Option<string>>)
    requires WellFormed(a)
    decreases |ops|
  {
    if ops == [] then true
    else
      var (b, reply) := Do(a, ops[0]);
      && (ops[0] == Read(key) && FaultOf(a.unit).Good? ==> Answered(key, held, reply))
      && ReadsAnswered(b, ops[1..], key, HeldAfter(held, ops[0], reply, key))
  }

  predicate RunHeard(a: Archon, ops: seq<Op>)
    requires WellFormed(a)
    decreases |ops|
  {
    if ops == [] then true
    else (ops[0] == Clear ==> ClearHeard(a)) && RunHeard(Do(a, ops[0]).0, ops[1..])
  }

  lemma {:induction false} RunLength(a: Archon, ops: seq<Op>)
    requires WellFormed(a)
    ensures |Run(a, ops).1| == |ops|
    decreases |ops|
  {
    if ops == [] {
    } else {
      RunLength(Do(a, ops[0]).0, ops[1..]);
    }
  }

  predicate FaultyOp(op: Op) {
    op.Write? ==> OneLine(op.key) && OneLine(op.val)
  }

  lemma ClearIsCovered(a: Archon, key: string, held: set<Option<string>>)
    requires Inv(a) && HeldNow(View(a), key) in held && ClearHeard(a)
    ensures var (b, r) := Do(a, Clear); Inv(b) && HeldNow(View(b), key) in HeldAfter(held, Clear, r, key)
  {
    ClearStep(a);
    hide ClearConfig, FRESH, View;
  }

  lemma WriteIsCovered(a: Archon, k: string, val: string, key: string, held: set<Option<string>>)
    requires Inv(a) && HeldNow(View(a), key) in held && OneLine(k) && OneLine(val)
    ensures var (b, r) := Do(a, Write(k, val));
            Inv(b) && HeldNow(View(b), key) in HeldAfter(held, Write(k, val), r, key)
  {
    WriteStep(a, k, val);
    hide WriteKeyValue, View;
  }

  lemma ReadIsCovered(a: Archon, k: string, key: string, held: set<Option<string>>)
    requires Inv(a) && HeldNow(View(a), key) in held
    ensures var (b, r) := Do(a, Read(k));
            && Inv(b) && HeldNow(View(b), key) in held
            && (k == key && FaultOf(a.unit).Good? ==> Answered(key, held, r))
  {
    ReadStep(a, k);
    hide ReadKeyValue, View, AfterEquals, Printable;
    if k == key && FaultOf(a.unit).Good? {
      assert Do(a, Read(k)).1 == Answer(key, HeldNow(View(a), key));
    }
  }

  lemma StepIsCovered(a: Archon, op: Op, key: string, held: set<Option<string>>)
    requires Inv(a) && HeldNow(View(a), key) in held && FaultyOp(op) && (op == Clear ==> ClearHeard(a))
    ensures var (b, r) := Do(a, op);
            && Inv(b) && HeldNow(View(b), key) in HeldAfter(held, op, r, key)
            && (op == Read(key) && FaultOf(a.unit).Good? ==> Answered(key, held, r))
  {
    hide Do, Answered, HeldNow, View;
    match op
    case Clear => ClearIsCovered(a, key, held);
    case Write(k, val) => WriteIsCovered(a, k, val, key, held);
    case Read(k) => ReadIsCovered(a, k, key, held);
  }

  lemma {:induction false} RunIsCovered(a: Archon, ops: seq<Op>, key: string, held: set<Option<string>>)
    requires Inv(a) && HeldNow(View(a), key) in held
    requires RunHeard(a, ops) && forall i | 0 <= i < |ops| :: FaultyOp(ops[i])
    ensures var (b, replies) := Run(a, ops);
            && Inv(b) && |replies| == |ops| && HeldNow(View(b), key) in Candidates(held, ops, replies, key)
            && ReadsAnswered(a, ops, key, held)
    decreases |ops|
  {
    RunLength(a, ops);
    if ops == [] {
    } else {
      hide Do, HeldAfter, HeldNow, View, Answered, FaultyOp;
      var (b, reply) := Do(a, ops[0]);
      StepIsCovered(a, ops[0], key, held);
      RunIsCovered(b, ops[1..], key, HeldAfter(held, ops[0], reply, key));
      assert Run(a, ops).1[0] == reply && Run(a, ops).1[1..] == Run(b, ops[1..]).1;
    }
  }

  /** Main result: over every run of clears, writes and reads, whatever fails in it, as long as no
      clear_config is taken up unheard: the index stays injective with every line owned by its
      key; a key holds the last value reported stored or one attempted since, and is registered
      exactly when a write was reported stored, but for clears that report failure; attempts on
      one key never touch another; and a read whose exchange succeeds answers accordingly. */
  lemma FaultyRuns(a: Archon, ops: seq<Op>)
    requires Inv(a) && RunHeard(a, ops) && forall i | 0 <= i < |ops| :: FaultyOp(ops[i])
    ensures var (b, replies) := Run(a, ops);
            && Inv(b) && |replies| == |ops|
            && forall key ::
                 var held := {HeldNow(View(a), key)};
                 HeldNow(View(b), key) in Candidates(held, ops, replies, key) && ReadsAnswered(a, ops, key, held)
  {
    RunIsCovered(a, ops, "", {HeldNow(View(a), "")});
    forall key
      ensures var held := {HeldNow(View(a), key)};
              && HeldNow(View(Run(a, ops).0), key) in Candidates(held, ops, Run(a, ops).1, key)
              && ReadsAnswered(a, ops, key, held)
    {
      RunIsCovered(a, ops, key, {HeldNow(View(a), key)});
    }
  }

  /** A failing clear_config is the one command that can break the invariant: exactly when
      the controller cleared its lines but cmd did not accept the reply, while keys were
      registered. The handle then maps keys to empty lines. */
  lemma ClearUnderFaults(a: Archon)
    requires Inv(a)
    ensures Inv(ClearConfig(a).0) <==> ClearHeard(a)
  {
    if ClearHeard(a) {
      ClearStep(a);
    } else {
      ClearRequest(a);
      var b := Cmd(a, "CLEARCONFIG").0;
      var k :| k in a.index;
      assert !Owns(k, b.unit.lines[b.index[k]]);
    }
  }
}
