/** devices/Thorlabs_APT: messages as bytes on the serial line. */
module AptFraming {
  import opened Results
  import opened Bytes

  datatype Destination = Host | Rack | GenericUsb | Bay1 | Bay2 | Bay3

  function Address(d: Destination): byte {
    match d
    case Host => 0x01
    case Rack => 0x11
    case GenericUsb => 0x50
    case Bay1 => 0x21
    case Bay2 => 0x22
    case Bay3 => 0x23
  }

  type Opcode = n: nat | n < 0x1_0000

  /** A bare header, or a header and a data packet. */
  datatype Message =
    | Short(opcode: Opcode, p1: byte, p2: byte, dest: Destination, src: Destination)
    | Long(opcode: Opcode, data: seq<byte>, dest: Destination, src: Destination)

  const HEADER := 6

  /** What both forms of transmit_message write. Of the data's length the header holds the two
      low bytes. */
  function Frame(m: Message): (bs: seq<byte>)
    ensures |bs| >= HEADER
  {
    match m
    case Short(opcode, p1, p2, dest, src) => ToLE(opcode, 2) + [p1, p2, Address(dest), Address(src)]
    case Long(opcode, data, dest, src) =>
      ToLE(opcode, 2) + ToLE(|data|, 2) + [Address(dest) + 0x80, Address(src)] + data
  }

  /** apt_reply and the opcode that came with it. */
  datatype Reply = Reply(opcode: Opcode, p1: byte, p2: byte, data: Option<seq<byte>>)

  /** The length as the receiver puts it together from signed characters: the sign of the low
      one spreads over the high one. */
  function DataLength(low: byte, high: byte): nat {
    if low < 0x80 then 0x100 * high + low else 0xFF00 + low
  }

  /** receive_sync_common on the bytes that arrive in time: the reply or what is raised, and the
      bytes left. A header of zeros has a null destination, so no test for it is left to fail. */
  function Receive(input: seq<byte>, source: Destination): (r: (Result<Reply>, seq<byte>))
    ensures r.0.Ok? ==> |r.1| < |input|
    ensures r.0.Err? ==> r.1 == []
  {
    if |input| < HEADER then (Err(ProtocolError), [])
    else
      var opcode := FromLE(input[..2]);
      assert FromLE(input[..2]) < Pow256(2) == 0x1_0000;
      var low, high, rest := input[2], input[3], input[HEADER..];
      if input[4] == 0 || input[5] != Address(source) then (Err(DeviceError), [])
      else if input[4] < 0x80 then (Ok(Reply(opcode, low, high, None)), rest)
      else
        var n := DataLength(low, high);
        if |rest| < n then (Err(ProtocolError), [])
        else (Ok(Reply(opcode, low, high, Some(rest[..n]))), rest[n..])
  }

  /** What a receiver should learn of a message. */
  function Told(m: Message): Reply {
    match m
    case Short(opcode, p1, p2, _, _) => Reply(opcode, p1, p2, None)
    case Long(opcode, data, _, _) => Reply(opcode, |data| % 256, |data| / 256 % 256, Some(data))
  }

  /** The messages whose header tells the receiver their length. */
  predicate Framed(m: Message) {
    m.Long? ==> |m.data| < 0x1_0000 && (|m.data| % 256 < 0x80 || |m.data| / 256 == 0xFF)
  }

  lemma LengthIsTold(n: nat)
    ensures DataLength(n % 256, n / 256 % 256) == n
            <==> n < 0x1_0000 && (n % 256 < 0x80 || n / 256 == 0xFF)
  {
    assert n == 256 * (n / 256) + n % 256;
  }

  lemma HeaderOf(m: Message, rest: seq<byte>)
    ensures var bs := Frame(m) + rest;
            && FromLE(bs[..2]) == m.opcode && bs[5] == Address(m.src)
            && (m.Short? ==> bs[2] == m.p1 && bs[3] == m.p2 && bs[4] == Address(m.dest) && bs[HEADER..] == rest)
            && (m.Long? ==> bs[2] == |m.data| % 256 && bs[3] == |m.data| / 256 % 256
                            && bs[4] == Address(m.dest) + 0x80 && bs[HEADER..] == m.data + rest)
  {
    assert Pow256(2) == 0x1_0000;
    FromLEOfToLE(m.opcode, 2);
    if m.Long? {
      TwoLowBytes(|m.data|);
    }
    hide ToLE, FromLE;
    assert (Frame(m) + rest)[..2] == ToLE(m.opcode, 2);
  }

  lemma TwoLowBytes(n: nat)
    ensures ToLE(n, 2) == [n % 256, n / 256 % 256]
  {
    assert ToLE(n / 256, 1) == [n / 256 % 256] + ToLE(n / 256 / 256, 0);
  }

  /** A message is received as it was sent if and only if it is framed; then nothing of what
      follows it is lost. */
  lemma FrameIsReceived(m: Message, rest: seq<byte>)
    ensures Receive(Frame(m) + rest, m.src).0 == Ok(Told(m)) <==> Framed(m)
    ensures Framed(m) ==> Receive(Frame(m) + rest, m.src).1 == rest
  {
    HeaderOf(m, rest);
    if m.Long? {
      LengthIsTold(|m.data|);
      if Framed(m) {
        assert (m.data + rest)[..|m.data|] == m.data && (m.data + rest)[|m.data|..] == rest;
      }
    }
  }

  /** Different destinations have different addresses, all of seven bits and not null. */
  lemma AddressesDiffer(d: Destination, e: Destination)
    ensures 0 < Address(d) < 0x80 && (Address(d) == Address(e) <==> d == e)
  {
  }

  /** The addresses of the protocol. */
  lemma AddressBytes()
    ensures Address(Host) == 0x01 && Address(Rack) == 0x11 && Address(GenericUsb) == 0x50
    ensures Address(Bay1) == 0x21 && Address(Bay2) == 0x22 && Address(Bay3) == 0x23
  {
  }

  /** A message of another source is refused, and what has arrived with it is flushed. */
  lemma OthersAreRefused(m: Message, rest: seq<byte>, source: Destination)
    requires m.src != source
    ensures Receive(Frame(m) + rest, source) == (Err(DeviceError), [])
  {
    HeaderOf(m, rest);
    AddressesDiffer(m.src, source);
    AddressesDiffer(m.dest, m.dest);
    hide ToLE, FromLE;
  }

  // ---- streams of messages ----

  function Frames(ms: seq<Message>): seq<byte> {
    if ms == [] then [] else Frame(ms[0]) + Frames(ms[1..])
  }

  /** Receiving until an error, or until all is read. */
  function ReceiveAll(input: seq<byte>, source: Destination): seq<Result<Reply>>
    decreases |input|
  {
    if input == [] then []
    else
      var (r, rest) := Receive(input, source);
      [r] + if r.Ok? then ReceiveAll(rest, source) else []
  }

  function AllTold(ms: seq<Message>): seq<Result<Reply>> {
    seq(|ms|, i requires 0 <= i < |ms| => Ok(Told(ms[i])))
  }

  /** Main result: a stream of messages from one source is received message by message, as it
      was sent, if and only if every message of it is framed. */
  lemma {:induction false} StreamIsReceived(ms: seq<Message>, source: Destination)
    requires forall i | 0 <= i < |ms| :: ms[i].src == source
    ensures ReceiveAll(Frames(ms), source) == AllTold(ms) <==> forall i | 0 <= i < |ms| :: Framed(ms[i])
    decreases |ms|
  {
    if ms == [] {
    } else {
      var m, later := ms[0], ms[1..];
      FrameIsReceived(m, Frames(later));
      assert AllTold(ms) == [Ok(Told(m))] + AllTold(later);
      if Framed(m) {
        StreamIsReceived(later, source);
        assert (forall i | 0 <= i < |later| :: Framed(later[i]))
            <==> (forall i | 1 <= i < |ms| :: Framed(ms[i])) by {
          assert forall i | 1 <= i < |ms| :: ms[i] == later[i - 1];
        }
        assert ReceiveAll(Frames(ms), source)[1..] == ReceiveAll(Frames(later), source);
        assert AllTold(ms)[1..] == AllTold(later);
      } else {
        assert ReceiveAll(Frames(ms), source)[0] != AllTold(ms)[0];
      }
    }
  }

  /** What becomes of a packet that is not framed, alone on the line: below 65536 bytes, as for
      128, the receiver waits for data that were never sent; above, it takes the packet's
      beginning for all of it and leaves the rest on the line. */
  lemma UnframedIsMisread(m: Message)
    requires !Framed(m)
    ensures var n, told := |m.data|, DataLength(|m.data| % 256, |m.data| / 256 % 256);
            if n < 0x1_0000 then n < told && Receive(Frame(m), m.src) == (Err(ProtocolError), [])
            else told < n && Receive(Frame(m), m.src)
                             == (Ok(Told(m).(data := Some(m.data[..told]))), m.data[told..])
  {
    HeaderOf(m, []);
    assert Frame(m) + [] == Frame(m) && m.data + [] == m.data;
    LengthIsTold(|m.data|);
    assert |m.data| < 0x1_0000 ==> |m.data| / 256 < 0xFF && |m.data| / 256 % 256 == |m.data| / 256;
  }
}
