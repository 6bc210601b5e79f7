/** devices/archon/archon.cpp, the configuration store: a host-side index from keys to line
    numbers, kept over the controller's numbered line memory. */
module ArchonStore {
  import opened Results
  import opened Text
  import opened ArchonLink

  const MAX_LINES := 2047

  /** The fields of class archon this model uses, with the controller at the other end. */
  datatype Archon = Archon(
    order: nat,                // _order
    index: map<string, nat>,   // _configlinemap
    count: nat,                // _config_lines
    params: map<string, int>,  // _parammap
    unit: Unit)

  predicate WellFormed(a: Archon) {
    a.order <= WRAP && a.count <= MAX_LINES && |a.unit.lines| == LINES
    && forall k | k in a.index :: a.index[k] < a.count
  }

  function Cmd(a: Archon, request: string): (r: (Archon, Result<string>))
    requires WellFormed(a)
    ensures r.0 == a.(order := NextOrder(a.order), unit := r.0.unit) && WellFormed(r.0)
  {
    var (unit, reply) := Exchange(a.unit, Message(Sent(a.order), request));
    (a.(order := NextOrder(a.order), unit := unit),
     if reply.Err? then reply else Accept(reply.value, Sent(a.order)))
  }

  /** A negative number asks for a new line. */
  function WriteConfigLine(a: Archon, line: string, num: int): (r: (Archon, Result<nat>))
    requires WellFormed(a)
    ensures WellFormed(r.0)
  {
    if a.count >= MAX_LINES || |line| >= MAX_LINES then (a, Err(DeviceError))
    else if num > a.count then (a, Err(LogicError))
    else
      var (n, b) := if num < 0 then (a.count, a.(count := a.count + 1)) else (num, a);
      var (c, reply) := Cmd(b, "WCONFIG" + Hex(n, 4) + line);
      (c, if reply.Err? then Err(reply.error) else Ok(n))
  }

  function ReadConfigLine(a: Archon, num: nat, overrideExisting: bool): (r: (Archon, Result<string>))
    requires WellFormed(a)
    ensures WellFormed(r.0)
  {
    if num > a.count && !overrideExisting then (a, Err(LogicError)) else Cmd(a, "RCONFIG" + Hex(num, 4))
  }

  function ReadKeyValue(a: Archon, key: string): (r: (Archon, Result<string>))
    requires WellFormed(a)
    ensures WellFormed(r.0)
  {
    if key !in a.index then (a, Err(NotRegistered))
    else
      var (b, line) := ReadConfigLine(a, a.index[key], false);
      (b, if line.Err? then line else AfterEquals(line.value))
  }

  function WriteKeyValue(a: Archon, key: string, val: string): (r: (Archon, Result<()>))
    requires WellFormed(a)
    ensures WellFormed(r.0)
  {
    var line := key + "=" + val;
    if key !in a.index then
      var (b, n) := WriteConfigLine(a, line, -1);
      if n.Err? then (b, Err(n.error)) else (b.(index := b.index[key := n.value]), Ok(()))
    else
      var (b, n) := WriteConfigLine(a, line, a.index[key]);
      (b, if n.Err? then Err(n.error) else Ok(()))
  }

  /** The keys clear_config writes, in order, each with the value "0". */
  const FRESH: seq<string> := ["LINES", "STATES", "PARAMETERS", "CONSTANTS", "TAPLINES"]

  function WriteZeros(a: Archon, keys: seq<string>): (r: (Archon, Result<()>))
    requires WellFormed(a)
    ensures WellFormed(r.0)
    decreases |keys|
  {
    if keys == [] then (a, Ok(()))
    else
      var (b, w) := WriteKeyValue(a, keys[0], "0");
      if w.Err? then (b, w) else WriteZeros(b, keys[1..])
  }

  function ClearConfig(a: Archon): (r: (Archon, Result<()>))
    requires WellFormed(a)
    ensures WellFormed(r.0)
  {
    var (b, reply) := Cmd(a, "CLEARCONFIG");
    if reply.Err? then (b, Err(reply.error))
    else WriteZeros(b.(index := map[], count := 0, params := map[]), FRESH)
  }

  // ---- what the store means ----

  /** A line belongs to a key when it starts with the key and an equals sign. */
  predicate Owns(key: string, line: string) {
    key + "=" <= line
  }

  function Held(key: string, line: string): string
    requires Owns(key, line)
  {
    assert |line| >= |key| + 1;
    line[|key| + 1..]
  }

  /** The representation invariant: distinct keys have distinct lines, all in use, and every
      key's line belongs to it. */
  ghost predicate Inv(a: Archon) {
    && WellFormed(a)
    && (forall k | k in a.index :: Owns(k, a.unit.lines[a.index[k]]))
    && (forall j, k | j in a.index && k in a.index && j != k :: a.index[j] != a.index[k])
  }

  /** The plain map the store stands for. */
  function View(a: Archon): map<string, string>
    requires WellFormed(a) && forall k | k in a.index :: Owns(k, a.unit.lines[a.index[k]])
  {
    map k | k in a.index :: Held(k, a.unit.lines[a.index[k]])
  }

  /** Text that fits in one request: the controller stops reading at a newline. */
  predicate OneLine(s: string) {
    '\n' !in s
  }

  // ---- single commands ----

  lemma {:induction false} FirstNewline(s: string)
    requires OneLine(s)
    ensures LineLength(s + "\n") == |s|
  {
    if s == "" {
    } else {
      assert (s + "\n")[1..] == s[1..] + "\n";
      FirstNewline(s[1..]);
    }
  }

  /** What the controller sees of a message. */
  lemma MessageText(order: nat, request: string)
    requires order < 0x100 && OneLine(request)
    ensures var m := Message(order, request);
            var text := m[..LineLength(m)];
            |text| >= 3 && text[0] == '>' && text[1..3] == Hex(order, 2) && text[3..] == request
  {
    var body := ">" + Hex(order, 2) + request;
    HexRoundTrip(order, 2);
    FirstNewline(body);
    assert Message(order, request)[..|body|] == body;
  }

  lemma LineRequest(verb: string, n: nat, line: string)
    requires n < LINES && |verb| == 7
    ensures var request := verb + Hex(n, 4) + line;
            verb <= request && LineNumber(request) == Ok(n) && request[11..] == line
  {
    HexRoundTrip(n, 4);
    var request := verb + Hex(n, 4) + line;
    assert request[7..11] == Hex(n, 4);
  }

  lemma HexIsOneLine(n: nat)
    requires n < LINES
    ensures OneLine(Hex(n, 4))
  {
    HexRoundTrip(n, 4);
    assert !IsPrint('\n');
  }

  lemma RespondWrite(lines: seq<string>, order: nat, n: nat, line: string)
    requires |lines| == LINES && order < 0x100 && n < LINES && OneLine(line)
    ensures Respond(lines, Message(order, "WCONFIG" + Hex(n, 4) + line))
            == (lines[n := line], "<" + Hex(order, 2) + "" + "\n")
  {
    HexIsOneLine(n);
    MessageText(order, "WCONFIG" + Hex(n, 4) + line);
    LineRequest("WCONFIG", n, line);
    assert "<" + Hex(order, 2) + "" == "<" + Hex(order, 2);
  }

  lemma RespondRead(lines: seq<string>, order: nat, n: nat)
    requires |lines| == LINES && order < 0x100 && n < LINES
    ensures Respond(lines, Message(order, "RCONFIG" + Hex(n, 4)))
            == (lines, "<" + Hex(order, 2) + lines[n] + "\n")
  {
    var request := "RCONFIG" + Hex(n, 4);
    HexIsOneLine(n);
    MessageText(order, request);
    LineRequest("RCONFIG", n, "");
    assert request + "" == request;
    assert request[0] == 'R';
  }

  lemma RespondClear(lines: seq<string>, order: nat)
    requires |lines| == LINES && order < 0x100
    ensures Respond(lines, Message(order, "CLEARCONFIG"))
            == (Blank(LINES), "<" + Hex(order, 2) + "" + "\n")
  {
    var request := "CLEARCONFIG";
    MessageText(order, request);
    assert request[0] == 'C';
    assert "<" + Hex(order, 2) + "" == "<" + Hex(order, 2);
  }

  /** What remains of the schedule of faults after one exchange. */
  function RestOf(u: Unit): seq<Fault> {
    if u.faults == [] then [] else u.faults[1..]
  }

  /** The text that reaches the handle when it sends a request: what the controller answers, or
      what arrives in its place. */
  function Arrives(a: Archon, request: string): Result<string>
    requires WellFormed(a)
  {
    match FaultOf(a.unit)
    case Good => Ok(Respond(a.unit.lines, Message(Sent(a.order), request)).1)
    case LostRequest | LostReply => Err(LinkError)
    case OtherReply(text) => Ok(text)
  }

  /** A command succeeds only with a reply of its own number; one that the controller refuses, by a
      reply that starts with '?', always fails. */
  lemma OnlyOwnReplies(a: Archon, request: string)
    requires WellFormed(a)
    ensures var r, text := Cmd(a, request).1, Arrives(a, request);
            && (text.Err? ==> r.Err?)
            && (text.Ok? ==>
                  var t := Printable(text.value);
                  && (r.Ok? <==> |t| >= 3 && t[0] == '<' && Stoul(t[1..3], 16) == Ok(Sent(a.order)))
                  && (r.Ok? ==> t == "<" + t[1..3] + r.value)
                  && (t != "" && t[0] == '?' ==> r == Err(DeviceError)))
  {
    if Arrives(a, request).Ok? {
      AcceptsExactly(Arrives(a, request).value, Sent(a.order));
    }
    hide Respond, Message, Accept, Printable, Stoul;
  }

  lemma WriteRequest(a: Archon, n: nat, line: string)
    requires WellFormed(a) && n < LINES && OneLine(line)
    ensures var (b, r) := Cmd(a, "WCONFIG" + Hex(n, 4) + line);
            && b.unit == Unit(if FaultOf(a.unit).LostRequest? then a.unit.lines
                              else a.unit.lines[n := line], RestOf(a.unit))
            && (FaultOf(a.unit).Good? ==> r == Ok(""))
  {
    RespondWrite(a.unit.lines, Sent(a.order), n, line);
    ReplyTo(Sent(a.order), Sent(a.order), "");
  }

  lemma ReadRequest(a: Archon, n: nat)
    requires WellFormed(a) && n < LINES
    ensures var (b, r) := Cmd(a, "RCONFIG" + Hex(n, 4));
            && b.unit == Unit(a.unit.lines, RestOf(a.unit))
            && (FaultOf(a.unit).Good? ==> r == Ok(Printable(a.unit.lines[n])))
  {
    RespondRead(a.unit.lines, Sent(a.order), n);
    ReplyTo(Sent(a.order), Sent(a.order), a.unit.lines[n]);
  }

  lemma ClearRequest(a: Archon)
    requires WellFormed(a)
    ensures var (b, r) := Cmd(a, "CLEARCONFIG");
            && b.unit == Unit(if FaultOf(a.unit).LostRequest? then a.unit.lines
                              else Blank(LINES), RestOf(a.unit))
            && (FaultOf(a.unit).Good? ==> r == Ok(""))
  {
    RespondClear(a.unit.lines, Sent(a.order));
    ReplyTo(Sent(a.order), Sent(a.order), "");
  }
}
