/** devices/Thorlabs_APT: the motor controller and its update-message guard as objects. */
module AptMotor {
  import opened Results
  import opened Bytes
  import opened AptFraming
  import opened AptWait

  const START_UPDATES: Opcode := 0x0011
  const STOP_UPDATES: Opcode := 0x0012
  const MOVE_STOP: Opcode := 0x0465

  function StartUpdates(dest: Destination): Message {
    Short(START_UPDATES, 0x0A, 0, dest, Host)
  }

  function StopUpdates(dest: Destination): Message {
    Short(STOP_UPDATES, 0, 0, dest, Host)
  }

  function StopMove(dest: Destination, channel: byte, immediate: bool): Message {
    Short(MOVE_STOP, channel, if immediate then 1 else 2, dest, Host)
  }

  /** The messages around a wait, byte by byte. */
  lemma MessageBytes(dest: Destination, channel: byte)
    ensures Frame(StartUpdates(dest)) == [0x11, 0x00, 0x0A, 0x00, Address(dest), 0x01]
    ensures Frame(StopUpdates(dest)) == [0x12, 0x00, 0x00, 0x00, Address(dest), 0x01]
    ensures Frame(StopMove(dest, channel, true)) == [0x65, 0x04, channel, 0x01, Address(dest), 0x01]
    ensures Frame(StopMove(dest, channel, false)) == [0x65, 0x04, channel, 0x02, Address(dest), 0x01]
  {
    TwoLowBytes(START_UPDATES);
    TwoLowBytes(STOP_UPDATES);
    TwoLowBytes(MOVE_STOP);
  }

  class Apt {
    const statusCode: Opcode
    const tolerated: int
    var input: seq<byte>    // what arrives in time
    var sent: seq<byte>

    constructor (statusCode: Opcode, tolerated: int, input: seq<byte>)
      ensures this.statusCode == statusCode && this.tolerated == tolerated
      ensures this.input == input && sent == []
    {
      this.statusCode, this.tolerated, this.input, sent := statusCode, tolerated, input, [];
    }

    method Transmit(m: Message)
      modifies this`sent
      ensures sent == old(sent) + Frame(m)
    {
      sent := sent + Frame(m);
    }

    method Flush()
      modifies this`input
      ensures input == []
    {
      input := [];
    }

    /** n bytes, or a timeout after which those that came are gone. */
    method ReadDefinite(n: nat) returns (r: Result<seq<byte>>)
      modifies this`input
      ensures if |old(input)| < n then r == Err(ProtocolError) && input == []
              else r == Ok(old(input)[..n]) && input == old(input)[n..]
    {
      if |input| < n {
        input := [];
        return Err(ProtocolError);
      }
      r := Ok(input[..n]);
      input := input[n..];
    }

    method ReceiveSync(source: Destination) returns (r: Result<Reply>)
      modifies this`input
      ensures (r, input) == Receive(old(input), source)
    {
      var header := ReadDefinite(HEADER);
      if header.Err? {
        return Err(header.error);
      }
      var h := header.value;
      assert h[..2] == old(input)[..2] && Pow256(2) == 0x1_0000;
      var opcode := FromLE(h[..2]);
      if h[4] == 0 {
        Flush();
        return Err(DeviceError);
      }
      if h[5] != Address(source) {
        Flush();
        return Err(DeviceError);
      }
      if h[4] < 0x80 {
        return Ok(Reply(opcode, h[2], h[3], None));
      }
      var data := ReadDefinite(DataLength(h[2], h[3]));
      if data.Err? {
        return Err(data.error);
      }
      r := Ok(Reply(opcode, h[2], h[3], Some(data.value)));
    }

    /** The loop of wait_blocking_move; a return stands for an exception too. */
    method Follow(completion: Opcode, dest: Destination, channel: byte, initLimitState: bool)
      returns (outcome: Outcome)
      modifies this
      ensures var w := Wait(Move(statusCode, completion, tolerated, dest), old(input), 0, initLimitState);
              && outcome == w.outcome && input == w.input
              && sent == old(sent) + if w.stopped then Frame(StopMove(dest, channel, true)) else []
    {
      var failStatusRetries := 0;
      var limitState := initLimitState;
      var m := Move(statusCode, completion, tolerated, dest);
      while true
        invariant sent == old(sent)
        invariant Wait(m, input, failStatusRetries, limitState) == Wait(m, old(input), 0, initLimitState)
        decreases |input|
      {
        var r := ReceiveSync(dest);
        match Classify(m, r) {
          case Fine =>
          case StillHoming =>
            if failStatusRetries >= tolerated {
              Transmit(StopMove(dest, channel, true));
              return Failed(DeviceError);
            }
            failStatusRetries := failStatusRetries + 1;
          case AtLimit =>
            if !limitState {
              Flush();
              return Failed(MotorError);
            }
            limitState := false;
          case Stalled =>
            Flush();
            return Failed(MotorError);
          case Done =>
            Flush();
            return Completed;
          case Unexpected => return Failed(MotorError);
          case Broken(e) => return Failed(e);
          case Garbled => return Undefined;
        }
      }
    }

    /** On every way out the update messages are started once and stopped once, around at most
        one emergency stop. */
    method WaitBlockingMove(completion: Opcode, dest: Destination, channel: byte, initLimitState: bool)
      returns (outcome: Outcome)
      modifies this
      ensures var w := Wait(Move(statusCode, completion, tolerated, dest), old(input), 0, initLimitState);
              && outcome == w.outcome && input == w.input
              && sent == old(sent) + Frame(StartUpdates(dest))
                         + (if w.stopped then Frame(StopMove(dest, channel, true)) else [])
                         + Frame(StopUpdates(dest))
    {
      var guard := new UpdateGuard(this, dest, true);
      outcome := Follow(completion, dest, channel, initLimitState);
      guard.Release();
    }
  }

  /** AptUpdateMessageScopeGuard. */
  class UpdateGuard {
    const apt: Apt
    const dest: Destination
    var started: bool

    constructor (apt: Apt, dest: Destination, immediate: bool)
      modifies apt`sent
      ensures this.apt == apt && this.dest == dest && started == immediate
      ensures apt.sent == old(apt.sent) + if immediate then Frame(StartUpdates(dest)) else []
    {
      this.apt, this.dest, started := apt, dest, false;
      new;
      if immediate {
        Start();
      }
    }

    method Start()
      modifies this`started, apt`sent
      ensures started && apt.sent == old(apt.sent) + Frame(StartUpdates(dest))
    {
      apt.Transmit(StartUpdates(dest));
      started := true;
    }

    /** The destructor: stops what was started, once. */
    method Release()
      modifies this`started, apt`sent
      ensures !started
      ensures apt.sent == old(apt.sent) + if old(started) then Frame(StopUpdates(dest)) else []
    {
      if started {
        apt.Transmit(StopUpdates(dest));
        started := false;
      }
    }
  }
}
