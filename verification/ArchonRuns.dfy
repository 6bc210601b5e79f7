/** Over every run the configuration store behaves as a plain map from keys to values. */
module ArchonRuns {
  import opened Results
  import opened Text
  import opened ArchonLink
  import opened ArchonStore

  /** What one write may do to the map, whatever happens to its exchange: a reported success
      has stored the value; a reported failure has stored it or changed nothing, and has
      registered no new key. No other key is touched. */
  predicate WriteAllowed(m: map<string, string>, m': map<string, string>,
                         key: string, val: string, ok: bool)
  {
    if ok then m' == m[key := val]
    else m' == m || (key in m && m' == m[key := val])
  }

  lemma StoredLineIsOwned(a: Archon, b: Archon, key: string, val: string, n: nat)
    requires Inv(a) && WellFormed(b) && n < LINES
    requires b.index == a.index[key := n] && b.unit.lines == a.unit.lines[n := key + "=" + val]
    requires forall k | k in a.index && k != key :: a.index[k] != n
    ensures Inv(b)
  {
  }

  /** Storing a line leaves every other key's line alone, because the index is injective. */
  lemma StoredLine(a: Archon, b: Archon, key: string, val: string, n: nat)
    requires Inv(a) && WellFormed(b) && n < LINES
    requires b.index == a.index[key := n] && b.unit.lines == a.unit.lines[n := key + "=" + val]
    requires forall k | k in a.index && k != key :: a.index[k] != n
    ensures Inv(b) && View(b) == View(a)[key := val]
  {
    StoredLineIsOwned(a, b, key, val, n);
    assert Held(key, key + "=" + val) == val;
  }

  /** A line no key uses may change without anyone noticing. */
  lemma UnusedLine(a: Archon, b: Archon, line: string)
    requires Inv(a) && WellFormed(b) && a.count < MAX_LINES && b.index == a.index
    requires b.unit.lines == a.unit.lines || b.unit.lines == a.unit.lines[a.count := line]
    ensures Inv(b) && View(b) == View(a)
  {
  }

  /** writeConfigLine refuses before it sends anything. */
  predicate Refused(a: Archon, key: string, val: string) {
    a.count >= 2047 || |key| + 1 + |val| >= 2047
  }

  lemma WriteExchange(a: Archon, key: string, val: string)
    requires Inv(a) && OneLine(key) && OneLine(val) && !Refused(a, key, val)
    ensures var (b, r) := WriteKeyValue(a, key, val);
            var n := if key in a.index then a.index[key] else a.count;
            && b.params == a.params && b.unit.faults == RestOf(a.unit)
            && b.count == (if key in a.index then a.count else a.count + 1)
            && b.index == (if r.Ok? then a.index[key := n] else a.index)
            && (b.unit.lines == a.unit.lines[n := key + "=" + val]
                || (r.Err? && b.unit.lines == a.unit.lines))
            && (FaultOf(a.unit).Good? ==> r.Ok?)
  {
    var line := key + "=" + val;
    if key in a.index {
      WriteRequest(a, a.index[key], line);
      assert a.index[key := a.index[key]] == a.index;
    } else {
      WriteRequest(a.(count := a.count + 1), a.count, line);
    }
  }

  lemma WriteStep(a: Archon, key: string, val: string)
    requires Inv(a) && OneLine(key) && OneLine(val)
    ensures var (b, r) := WriteKeyValue(a, key, val);
            && Inv(b) && WriteAllowed(View(a), View(b), key, val, r.Ok?)
            && (Refused(a, key, val) ==> b == a && r == Err(DeviceError))
  {
    if !Refused(a, key, val) {
      WriteExchange(a, key, val);
      var line := key + "=" + val;
      var (b, r) := WriteKeyValue(a, key, val);
      if key in a.index {
        assert a.index[key := a.index[key]] == a.index;
        if b.unit.lines == a.unit.lines[a.index[key] := line] {
          StoredLine(a, b, key, val, a.index[key]);
        }
      } else if r.Ok? {
        StoredLine(a, b, key, val, a.count);
      } else {
        UnusedLine(a, b, line);
      }
    }
  }

  lemma WriteKeepsParams(a: Archon, key: string, val: string)
    requires WellFormed(a)
    ensures WriteKeyValue(a, key, val).0.params == a.params
  {
  }

  lemma ReadStep(a: Archon, key: string)
    requires Inv(a)
    ensures var (b, r) := ReadKeyValue(a, key);
            && Inv(b) && View(b) == View(a)
            && (key !in View(a) ==> b == a && r == Err(NotRegistered))
            && (key in View(a) && FaultOf(a.unit).Good? ==>
                  r == AfterEquals(Printable(key + "=" + View(a)[key])))
  {
    if key in a.index {
      ReadRequest(a, a.index[key]);
      var line := a.unit.lines[a.index[key]];
      assert line == key + "=" + Held(key, line);
    }
  }

  // ---- runs in which every exchange succeeds ----

  /** Nothing has gone wrong and nothing will: every used line has its key. */
  ghost predicate Calm(a: Archon) {
    Inv(a) && a.unit.faults == [] && a.count == |a.index|
  }

  lemma ViewSize(a: Archon)
    requires Inv(a)
    ensures View(a).Keys == a.index.Keys && |View(a)| == |a.index|
  {
    assert View(a).Keys == a.index.Keys;
    assert |View(a)| == |View(a).Keys| && |a.index| == |a.index.Keys|;
  }

  /** The plain map's own write: refused when the map is full or the line too long. */
  function MapWrite(m: map<string, string>, key: string, val: string)
    : (map<string, string>, Result<()>)
  {
    if |m| >= 2047 || |key| + 1 + |val| >= 2047 then (m, Err(DeviceError))
    else (m[key := val], Ok(()))
  }

  lemma KeyCount(m: map<string, nat>, key: string, n: nat)
    ensures |m[key := n]| == if key in m then |m| else |m| + 1
  {
    assert m[key := n].Keys == m.Keys + {key};
    assert |m[key := n]| == |m[key := n].Keys| && |m| == |m.Keys|;
  }

  lemma CalmWriteCount(a: Archon, key: string, val: string)
    requires Calm(a) && OneLine(key) && OneLine(val)
    ensures var (b, r) := WriteKeyValue(a, key, val);
            b.unit.faults == [] && b.count == |b.index| && b.params == a.params
            && (r.Ok? <==> !Refused(a, key, val))
  {
    if !Refused(a, key, val) {
      WriteExchange(a, key, val);
      KeyCount(a.index, key, if key in a.index then a.index[key] else a.count);
    }
  }

  lemma CalmWrite(a: Archon, key: string, val: string)
    requires Calm(a) && OneLine(key) && OneLine(val)
    ensures var (b, r) := WriteKeyValue(a, key, val);
            Calm(b) && (View(b), r) == MapWrite(View(a), key, val) && b.params == a.params
  {
    ViewSize(a);
    WriteStep(a, key, val);
    CalmWriteCount(a, key, val);
  }

  /** The plain map's own read. A key without '=' reads back what was stored, less any
      character that is not printable. */
  function MapRead(m: map<string, string>, key: string): Result<string> {
    if key !in m then Err(NotRegistered) else Ok(Printable(m[key]))
  }

  lemma LineWithoutEquals(key: string, val: string)
    requires '=' !in key
    ensures AfterEquals(Printable(key + "=" + val)) == Ok(Printable(val))
  {
    PrintableConcat(key + "=", val);
    PrintableConcat(key, "=");
    PrintableKeepsOut(key, '=');
    AfterFirstEquals(Printable(key), Printable(val));
  }

  lemma CalmRead(a: Archon, key: string)
    requires Calm(a) && '=' !in key
    ensures var (b, r) := ReadKeyValue(a, key);
            Calm(b) && View(b) == View(a) && r == MapRead(View(a), key) && b.params == a.params
  {
    ReadStep(a, key);
    if key in a.index {
      ReadRequest(a, a.index[key]);
      LineWithoutEquals(key, View(a)[key]);
    }
  }

  lemma LineIsExact(key: string, val: string)
    ensures AfterEquals(Printable(key + "=" + val)) == Ok(val) <==> '=' !in key && AllPrint(val)
  {
    if '=' !in key {
      LineWithoutEquals(key, val);
    } else {
      PrintableConcat(key + "=", val);
      PrintableConcat(key, "=");
      PrintableKeepsIn(key, '=');
      AfterEarlierEquals(Printable(key), Printable(val));
      AfterPrintable(Printable(key) + "=" + Printable(val));
    }
  }

  lemma {:induction false} AfterPrintable(s: string)
    requires AllPrint(s) && AfterEquals(s).Ok?
    ensures AllPrint(AfterEquals(s).value)
  {
    if s[0] == '=' {
    } else {
      AfterPrintable(s[1..]);
    }
  }

  /** Writing a value and reading it back: it comes back exactly when the key has no '=' and
      the value is printable. */
  lemma ReadBack(a: Archon, key: string, val: string)
    requires Calm(a) && OneLine(key) && OneLine(val)
    requires WriteKeyValue(a, key, val).1.Ok?
    ensures ReadKeyValue(WriteKeyValue(a, key, val).0, key).1 == Ok(val)
            <==> '=' !in key && AllPrint(val)
  {
    CalmWrite(a, key, val);
    ReadStep(WriteKeyValue(a, key, val).0, key);
    LineIsExact(key, val);
  }

  /** A write changes what its own key reads and nothing else. */
  lemma WriteIsPrivate(a: Archon, key: string, val: string, other: string)
    requires Calm(a) && OneLine(key) && OneLine(val) && '=' !in key && '=' !in other
    ensures var (b, r) := WriteKeyValue(a, key, val);
            && Calm(b)
            && (r.Ok? ==> ReadKeyValue(b, key).1 == Ok(Printable(val)))
            && (other != key ==> ReadKeyValue(b, other).1 == ReadKeyValue(a, other).1)
  {
    CalmWrite(a, key, val);
    var b := WriteKeyValue(a, key, val).0;
    CalmRead(b, key);
    CalmRead(a, other);
    CalmRead(b, other);
  }

  // ---- clearing ----

  const FRESH_MAP: map<string, string> :=
    map["LINES" := "0", "STATES" := "0", "PARAMETERS" := "0", "CONSTANTS" := "0", "TAPLINES" := "0"]

  function MapZeros(m: map<string, string>, keys: seq<string>): map<string, string>
    decreases |keys|
  {
    if keys == [] then m else MapZeros(m[keys[0] := "0"], keys[1..])
  }

  lemma {:induction false} CalmZeros(a: Archon, keys: seq<string>)
    requires Calm(a) && |a.index| + |keys| < MAX_LINES
    requires ShortKeys(keys)
    ensures var (b, r) := WriteZeros(a, keys);
            Calm(b) && r.Ok? && View(b) == MapZeros(View(a), keys) && b.params == a.params
    decreases |keys|
  {
    if keys == [] {
    } else {
      ViewSize(a);
      CalmWrite(a, keys[0], "0");
      var b := WriteKeyValue(a, keys[0], "0").0;
      ViewSize(b);
      CalmZeros(b, keys[1..]);
    }
  }

  lemma FreshMap()
    ensures MapZeros(map[], FRESH) == FRESH_MAP
  {
    assert FRESH[1..] == ["STATES", "PARAMETERS", "CONSTANTS", "TAPLINES"];
    assert FRESH[1..][1..] == ["PARAMETERS", "CONSTANTS", "TAPLINES"];
    assert FRESH[1..][1..][1..] == ["CONSTANTS", "TAPLINES"];
    assert FRESH[1..][1..][1..][1..] == ["TAPLINES"];
  }

  predicate ShortKeys(keys: seq<string>) {
    forall i | 0 <= i < |keys| :: OneLine(keys[i]) && |keys[i]| < 100
  }

  lemma FreshKeys()
    ensures |FRESH| == 5 && ShortKeys(FRESH)
  {
  }

  lemma CalmClear(a: Archon)
    requires WellFormed(a) && a.unit.faults == []
    ensures var (b, r) := ClearConfig(a);
            Calm(b) && r.Ok? && View(b) == FRESH_MAP && b.params == map[]
  {
    ClearRequest(a);
    var b := Cmd(a, "CLEARCONFIG").0;
    var c := b.(index := map[], count := 0, params := map[]);
    assert Calm(c) && View(c) == map[];
    FreshKeys();
    FreshMap();
    CalmZeros(c, FRESH);
  }

  // ---- whole runs ----

  datatype Op = Clear | Write(key: string, val: string) | Read(key: string)

  predicate PlainOp(op: Op) {
    match op
    case Clear => true
    case Write(key, val) => '=' !in key && OneLine(key) && OneLine(val)
    case Read(key) => '=' !in key
  }

  function Done(r: Result<()>): Result<string> {
    if r.Err? then Err(r.error) else Ok("")
  }

  function Do(a: Archon, op: Op): (r: (Archon, Result<string>))
    requires WellFormed(a)
    ensures WellFormed(r.0)
  {
    match op
    case Clear => var (b, r) := ClearConfig(a); (b, Done(r))
    case Write(key, val) => var (b, r) := WriteKeyValue(a, key, val); (b, Done(r))
    case Read(key) => ReadKeyValue(a, key)
  }

  function Run(a: Archon, ops: seq<Op>): (r: (Archon, seq<Result<string>>))
    requires WellFormed(a)
    ensures WellFormed(r.0)
    decreases |ops|
  {
    if ops == [] then (a, [])
    else
      var (b, reply) := Do(a, ops[0]);
      var (c, replies) := Run(b, ops[1..]);
      (c, [reply] + replies)
  }

  function MapDo(m: map<string, string>, op: Op): (map<string, string>, Result<string>) {
    match op
    case Clear => (FRESH_MAP, Ok(""))
    case Write(key, val) => var (m', r) := MapWrite(m, key, val); (m', Done(r))
    case Read(key) => (m, MapRead(m, key))
  }

  function MapRun(m: map<string, string>, ops: seq<Op>)
    : (map<string, string>, seq<Result<string>>)
    decreases |ops|
  {
    if ops == [] then (m, [])
    else
      var (m', reply) := MapDo(m, ops[0]);
      var (m'', replies) := MapRun(m', ops[1..]);
      (m'', [reply] + replies)
  }

  /** Main result: over every run of clears, writes and reads with keys free of '=', the
      handle and its controller give the replies of a plain map, full store and overlong
      lines included. */
  lemma {:induction false} StoreRefinesMap(a: Archon, ops: seq<Op>)
    requires Calm(a) && forall op | op in ops :: PlainOp(op)
    ensures var (b, replies) := Run(a, ops);
            Calm(b) && (View(b), replies) == MapRun(View(a), ops)
    decreases |ops|
  {
    if ops == [] {
    } else {
      var op := ops[0];
      assert PlainOp(op);
      match op {
        case Clear => CalmClear(a);
        case Write(key, val) => CalmWrite(a, key, val);
        case Read(key) => CalmRead(a, key);
      }
      StoreRefinesMap(Do(a, op).0, ops[1..]);
    }
  }
}
