/** devices/archon/archon.cpp, the command layer: numbered requests over TCP to a controller
    that keeps its configuration in numbered lines. */
module ArchonLink {
  import opened Results
  import opened Text

  const LINES := 2048          // configuration lines the controller holds
  const WRAP: nat := 0xFE      // sequence numbers run from 0 to WRAP - 1

  /** A cleared configuration memory of n lines. */
  function Blank(n: nat): (lines: seq<string>)
    ensures |lines| == n && forall i | 0 <= i < n :: lines[i] == ""
  {
    if n == 0 then [] else [""] + Blank(n - 1)
  }

  // ---- the controller and the way to it ----

  /** What can happen to one exchange. */
  datatype Fault =
    | Good
    | LostRequest              // never reached the controller; the caller gets an exception
    | LostReply                // the controller acted; the caller gets an exception
    | OtherReply(text: string) // the controller acted; the caller reads some other text

  datatype Unit = Unit(lines: seq<string>, faults: seq<Fault>)

  function Hex(n: nat, w: nat): string {
    Pad(Print(n, 16), w)
  }

  predicate StartsWith(s: string, prefix: string) {
    prefix <= s
  }

  /** The line number in a WCONFIG or RCONFIG request, if there is one. */
  function LineNumber(request: string): Result<nat> {
    if |request| >= 11 && AllDigits(request[7..11], 16) && Value(request[7..11], 16) < LINES then
      Ok(Value(request[7..11], 16))
    else Err(DeviceError)
  }

  /** The controller reads one request up to its newline, acts on its configuration memory
      and echoes the sequence number. Requests about anything else leave the memory alone. */
  function Respond(lines: seq<string>, message: string): (r: (seq<string>, string))
    requires |lines| == LINES
    ensures |r.0| == LINES
  {
    var text := message[..LineLength(message)];
    if |text| < 3 || text[0] != '>' then (lines, "?\n")
    else
      var order, request := text[1..3], text[3..];
      var n := LineNumber(request);
      if StartsWith(request, "WCONFIG") then
        if n.Ok? then (lines[n.value := request[11..]], "<" + order + "\n")
        else (lines, "?" + order + "\n")
      else if StartsWith(request, "RCONFIG") then
        if n.Ok? then (lines, "<" + order + lines[n.value] + "\n")
        else (lines, "?" + order + "\n")
      else if request == "CLEARCONFIG" then (Blank(LINES), "<" + order + "\n")
      else (lines, "<" + order + "\n")
  }

  function FaultOf(u: Unit): Fault {
    if u.faults == [] then Good else u.faults[0]
  }

  function Exchange(u: Unit, message: string): (Unit, Result<string>)
    requires |u.lines| == LINES
  {
    var rest := if u.faults == [] then [] else u.faults[1..];
    var (lines, reply) := Respond(u.lines, message);
    match FaultOf(u)
    case Good => (Unit(lines, rest), Ok(reply))
    case LostRequest => (Unit(u.lines, rest), Err(LinkError))
    case LostReply => (Unit(lines, rest), Err(LinkError))
    case OtherReply(text) => (Unit(lines, rest), Ok(text))
  }

  // ---- cmd ----

  /** The number the next request carries, and the counter afterwards. */
  function Sent(order: nat): nat {
    if order == WRAP then 0 else order
  }

  function NextOrder(order: nat): nat {
    Sent(order) + 1
  }

  function Message(order: nat, request: string): string {
    ">" + Hex(order, 2) + request + "\n"
  }

  /** What cmd makes of a reply to request number `order`. */
  function Accept(reply: string, order: nat): Result<string> {
    var ret := Printable(reply);
    if ret == "" || ret[0] != '<' then
      Err(if ret != "" && ret[0] == '?' then DeviceError else ProtocolError)
    else
      var number :- Stoul(ret[1..if |ret| < 3 then |ret| else 3], 16);
      if number != order then Err(ProtocolError)
      else if |ret| < 3 then Err(RangeError)
      else Ok(ret[3..])
  }

  // ---- what a reply means ----

  lemma HexRoundTrip(n: nat, w: nat)
    requires (w == 2 && n < 0x100) || (w == 4 && n < 0x1_0000)
    ensures |Hex(n, w)| == w && AllDigits(Hex(n, w), 16) && Value(Hex(n, w), 16) == n
    ensures Stoul(Hex(n, w), 16) == Ok(n)
    ensures AllPrint(Hex(n, w))
  {
    assert Power(16, 2) == 0x100 && Power(16, 4) == 0x100 * Power(16, 2);
    PaddedNumber(n, 16, w);
    ReadDigits(Hex(n, w), "", 16);
    assert Hex(n, w) + "" == Hex(n, w);
    assert forall c | IsDigit(c, 16) :: IsPrint(c);
  }

  lemma PrintableReply(order: nat, payload: string)
    requires order < 0x100
    ensures Printable("<" + Hex(order, 2) + payload + "\n") == "<" + Hex(order, 2) + Printable(payload)
  {
    var head := "<" + Hex(order, 2);
    HexRoundTrip(order, 2);
    PrintableConcat(head, payload + "\n");
    PrintableConcat(payload, "\n");
    assert head + payload + "\n" == head + (payload + "\n");
    assert "\n"[1..] == "" && Printable("\n") == "";
  }

  /** A reply to request number n passes for the reply to request number m exactly when the
      numbers are equal; its payload then arrives without its non-printable characters. */
  lemma ReplyTo(n: nat, m: nat, payload: string)
    requires n < 0x100
    ensures Accept("<" + Hex(n, 2) + payload + "\n", m)
            == if n == m then Ok(Printable(payload)) else Err(ProtocolError)
  {
    PrintableReply(n, payload);
    HexRoundTrip(n, 2);
    var ret := "<" + Hex(n, 2) + Printable(payload);
    assert ret[1..3] == Hex(n, 2) && ret[3..] == Printable(payload);
  }

  /** What cmd makes of any text: it passes exactly if its printable part starts with '<', has the
      two characters of the number, and these read as the number sent; what follows is returned. A
      refusal, which starts with '?', is an error of the device. */
  lemma AcceptsExactly(reply: string, order: nat)
    ensures var text, r := Printable(reply), Accept(reply, order);
            && (r.Ok? <==> |text| >= 3 && text[0] == '<' && Stoul(text[1..3], 16) == Ok(order))
            && (r.Ok? ==> text == "<" + text[1..3] + r.value)
            && (text != "" && text[0] == '?' ==> r == Err(DeviceError))
            && (text == "" || (text[0] != '<' && text[0] != '?') ==> r == Err(ProtocolError))
  {
    var text := Printable(reply);
    if |text| >= 3 && text[0] == '<' {
      assert text == "<" + text[1..3] + text[3..];
    }
  }

  // ---- sequence numbers over a run ----

  /** The counter after n commands. */
  function OrderAfter(order: nat, n: nat): nat {
    if n == 0 then order else NextOrder(OrderAfter(order, n - 1))
  }

  lemma NextRemainder(y: nat)
    ensures (y + 1) % WRAP == if y % WRAP + 1 == WRAP then 0 else y % WRAP + 1
  {
  }

  lemma {:induction false} NumbersWrap(order: nat, n: nat)
    requires order <= WRAP
    ensures OrderAfter(order, n) <= WRAP
    ensures Sent(OrderAfter(order, n)) == (Sent(order) + n) % 254 < 254
  {
    if n == 0 {
    } else {
      NumbersWrap(order, n - 1);
      NextRemainder(Sent(order) + n - 1);
    }
  }

  lemma SameRemainder(x: nat, y: nat)
    requires x <= y
    ensures x % WRAP == y % WRAP <==> (y - x) % WRAP == 0
  {
    var q, r := y / WRAP - x / WRAP, y % WRAP - x % WRAP;
    assert y - x == WRAP * q + r;
  }

  /** Any 254 consecutive commands carry distinct numbers. */
  lemma NumbersRepeat(order: nat, i: nat, j: nat)
    requires order <= WRAP && i <= j
    ensures Sent(OrderAfter(order, i)) == Sent(OrderAfter(order, j)) <==> (j - i) % 254 == 0
  {
    NumbersWrap(order, i);
    NumbersWrap(order, j);
    SameRemainder(Sent(order) + i, Sent(order) + j);
    assert (Sent(order) + j) - (Sent(order) + i) == j - i;
  }

  /** Over every run, a reply to command i passes for the reply to command j exactly when
      the two are a multiple of 254 commands apart: a stale reply to any of the previous 253
      commands is rejected. */
  lemma StaleReplies(order: nat, i: nat, j: nat, payload: string)
    requires order <= WRAP && i <= j
    ensures Accept("<" + Hex(Sent(OrderAfter(order, i)), 2) + payload + "\n", Sent(OrderAfter(order, j)))
            == if (j - i) % 254 == 0 then Ok(Printable(payload)) else Err(ProtocolError)
  {
    NumbersWrap(order, i);
    NumbersRepeat(order, i, j);
    ReplyTo(Sent(OrderAfter(order, i)), Sent(OrderAfter(order, j)), payload);
  }
}
