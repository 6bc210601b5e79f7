/** devices/Thorlabs_APT/APT.cpp, wait_blocking_move: following a motor through its messages
    until its move has ended. */
module AptWait {
  import opened Results
  import opened Bytes
  import opened AptFraming

  // ---- status bits ----

  predicate Bit(bits: nat, i: nat) {
    if i == 0 then bits % 2 == 1 else Bit(bits / 2, i - 1)
  }

  predicate AnyLimitSwitch(bits: nat) {
    Bit(bits, 0) || Bit(bits, 1) || Bit(bits, 2) || Bit(bits, 3)
  }

  predicate AnyMotion(bits: nat) {
    Bit(bits, 4) || Bit(bits, 5) || Bit(bits, 6) || Bit(bits, 7)
  }

  const IS_HOMING := 9

  predicate CheckStatusBits(bits: nat, checkLimitSwitch: bool, requireMoving: bool) {
    !(checkLimitSwitch && AnyLimitSwitch(bits)) && !(requireMoving && !AnyMotion(bits))
  }

  /** The status bits are the last four bytes of both status structures. */
  const STATUS_SIZE := 14
  const STATUS_BITS_AT := 10

  function StatusBits(data: seq<byte>): nat
    requires |data| == STATUS_SIZE
  {
    FromLE(data[STATUS_BITS_AT..])
  }

  // ---- what one message means to the loop ----

  /** A move being waited for. `tolerated` is n_ignore_failed_motor_msgs. */
  datatype Move = Move(
    statusCode: Opcode,
    completion: Opcode,
    tolerated: int,
    dest: Destination)

  datatype Kind =
    | Fine         // a status that passes the checks
    | StillHoming  // one that does not, from a motor that says it is homing
    | AtLimit      // one that does not, from another motor, with a limit switch engaged
    | Stalled      // any other that does not
    | Done         // the completion message
    | Unexpected   // a message of another type
    | Broken(error: Error)
    | Garbled      // a status without its 14 bytes: the source's behaviour is undefined

  function Classify(m: Move, r: Result<Reply>): Kind {
    match r
    case Err(e) => Broken(e)
    case Ok(reply) =>
      if reply.opcode == m.statusCode then
        if reply.data.None? || |reply.data.value| != STATUS_SIZE then Garbled
        else
          var bits := StatusBits(reply.data.value);
          if CheckStatusBits(bits, true, true) then Fine
          else if Bit(bits, IS_HOMING) then StillHoming
          else if AnyLimitSwitch(bits) then AtLimit
          else Stalled
      else if reply.opcode == m.completion then Done
      else Unexpected
  }

  datatype Outcome = Completed | Failed(error: Error) | Undefined

  /** How a wait ended, whether the emergency stop was sent, and the input left. */
  datatype Waited = Waited(outcome: Outcome, stopped: bool, input: seq<byte>)

  /** The loop, from `fails` failed statuses on; a flush leaves no input. */
  function Wait(m: Move, input: seq<byte>, fails: nat, initLimitState: bool): Waited
    decreases |input|
  {
    var (r, rest) := Receive(input, m.dest);
    match Classify(m, r)
    case Fine => Wait(m, rest, fails, initLimitState)
    case StillHoming =>
      if fails >= m.tolerated then Waited(Failed(DeviceError), true, rest)
      else Wait(m, rest, fails + 1, initLimitState)
    case AtLimit =>
      if initLimitState then Wait(m, rest, fails, false) else Waited(Failed(MotorError), false, [])
    case Stalled => Waited(Failed(MotorError), false, [])
    case Done => Waited(Completed, false, [])
    case Unexpected => Waited(Failed(MotorError), false, rest)
    case Broken(e) => Waited(Failed(e), false, rest)
    case Garbled => Waited(Undefined, false, rest)
  }

  // ---- what the loop decides, said without a loop ----

  /** The number in the last four bytes of a status. */
  function StatusNumber(data: seq<byte>): nat
    requires |data| == 14
  {
    data[10] as int + 0x100 * (data[11] as int) + 0x1_0000 * (data[12] as int) + 0x100_0000 * (data[13] as int)
  }

  /** What a message means, by its opcode and that number: the lowest four bits are the limit
      switches, the next four motion, and bit 9 homing. */
  function Meant(m: Move, r: Result<Reply>): Kind {
    if r.Err? then Broken(r.error)
    else if r.value.opcode != m.statusCode then
      if r.value.opcode == m.completion then Done else Unexpected
    else if r.value.data.None? || |r.value.data.value| != 14 then Garbled
    else
      var b := StatusNumber(r.value.data.value);
      if b % 16 == 0 && b / 16 % 16 != 0 then Fine
      else if b / 512 % 2 == 1 then StillHoming
      else if b % 16 != 0 then AtLimit
      else Stalled
  }

  /** The loop's tests of single bits find this meaning. */
  lemma ClassifyIsMeant(m: Move, r: Result<Reply>)
    ensures Classify(m, r) == Meant(m, r)
  {
    if r.Ok? && r.value.opcode == m.statusCode && r.value.data.Some? && |r.value.data.value| == STATUS_SIZE {
      var data := r.value.data.value;
      FourBytes(data[10..]);
      StatusBitsMean(StatusBits(data));
      hide Bit, AnyLimitSwitch, CheckStatusBits, FromLE;
    }
  }

  lemma FourBytes(bs: seq<byte>)
    requires |bs| == 4
    ensures FromLE(bs)
            == bs[0] as int + 0x100 * (bs[1] as int) + 0x1_0000 * (bs[2] as int) + 0x100_0000 * (bs[3] as int)
  {
    var b1 := bs[1..];
    var b2 := b1[1..];
    var b3 := b2[1..];
    assert b1[0] == bs[1] && b2[0] == bs[2] && b3[0] == bs[3] && b3[1..] == [];
    assert FromLE(b3) == bs[3];
    assert FromLE(b2) == bs[2] as int + 0x100 * (bs[3] as int);
    assert FromLE(b1) == bs[1] as int + 0x100 * FromLE(b2);
    assert FromLE(bs) == bs[0] as int + 0x100 * FromLE(b1);
  }

  function Kinds(m: Move, input: seq<byte>): seq<Kind> {
    var all := ReceiveAll(input, m.dest);
    seq(|all|, i requires 0 <= i < |all| => Meant(m, all[i]))
  }

  /** How many failing statuses of a homing motor are ignored. */
  function Ignored(tolerated: int): nat {
    if tolerated < 0 then 0 else tolerated
  }

  /** The loop waits on after these messages: every one is a status, and the failing ones are
      few enough. */
  predicate Passed(ks: seq<Kind>, ignored: nat, initLimitState: bool) {
    && (forall i | 0 <= i < |ks| :: ks[i].Fine? || ks[i].StillHoming? || ks[i].AtLimit?)
    && multiset(ks)[StillHoming] <= ignored
    && multiset(ks)[AtLimit] <= if initLimitState then 1 else 0
  }

  lemma PassedNext(k: Kind, ks: seq<Kind>, ignored: nat, limit: bool)
    ensures Passed([k] + ks, ignored, limit)
            <==> match k
                 case Fine => Passed(ks, ignored, limit)
                 case StillHoming => ignored > 0 && Passed(ks, ignored - 1, limit)
                 case AtLimit => limit && Passed(ks, ignored, false)
                 case _ => false
  {
    var all := [k] + ks;
    assert multiset(all) == multiset{k} + multiset(ks);
    assert all[0] == k;
    assert forall i | 0 <= i < |ks| :: ks[i] == all[i + 1];
    assert (forall i | 0 <= i < |all| :: all[i].Fine? || all[i].StillHoming? || all[i].AtLimit?)
        <==> ((k.Fine? || k.StillHoming? || k.AtLimit?)
              && forall i | 0 <= i < |ks| :: ks[i].Fine? || ks[i].StillHoming? || ks[i].AtLimit?);
  }

  /** The loop waits past a message, given whether it may ignore another failing status of a
      homing motor, and whether it began at a limit switch and has not been told so yet. */
  predicate WaitsPast(k: Kind, mayIgnore: bool, limit: bool) {
    k.Fine? || (k.StillHoming? && mayIgnore) || (k.AtLimit? && limit)
  }

  function FirstToFail(ks: seq<Kind>, ignored: nat, limit: bool): (p: nat)
    ensures p <= |ks|
  {
    if ks == [] || !WaitsPast(ks[0], ignored > 0, limit) then 0
    else 1 + FirstToFail(ks[1..], if ks[0].StillHoming? then ignored - 1 else ignored, limit && !ks[0].AtLimit?)
  }

  lemma {:induction false} FirstToFailIsFirst(ks: seq<Kind>, p: nat, ignored: nat, limit: bool)
    requires p <= |ks|
    ensures Passed(ks[..p], ignored, limit) <==> p <= FirstToFail(ks, ignored, limit)
    decreases |ks|
  {
    if p == 0 {
    } else {
      var k, later := ks[0], ks[1..];
      assert ks[..p] == [k] + later[..p - 1];
      PassedNext(k, later[..p - 1], ignored, limit);
      if WaitsPast(k, ignored > 0, limit) {
        FirstToFailIsFirst(later, p - 1, if k.StillHoming? then ignored - 1 else ignored, limit && !k.AtLimit?);
      }
    }
  }

  /** How a message that does not pass ends the wait. */
  function Verdict(k: Kind): (Outcome, bool) {
    match k
    case Done => (Completed, false)
    case StillHoming => (Failed(DeviceError), true)
    case AtLimit | Stalled | Unexpected => (Failed(MotorError), false)
    case Broken(e) => (Failed(e), false)
    case Garbled | Fine => (Undefined, false)
  }

  /** What a series of messages comes to: the first the loop does not wait past decides,
      whatever follows it, and without one the wait times out. */
  function Decision(ks: seq<Kind>, ignored: nat, limit: bool): (Outcome, bool) {
    var p := FirstToFail(ks, ignored, limit);
    if p < |ks| then Verdict(ks[p]) else (Failed(ProtocolError), false)
  }

  lemma DecisionNext(k: Kind, later: seq<Kind>, ignored: nat, limit: bool)
    ensures Decision([k] + later, ignored, limit)
            == if WaitsPast(k, ignored > 0, limit) then
                 Decision(later, if k.StillHoming? then ignored - 1 else ignored, limit && !k.AtLimit?)
               else Verdict(k)
  {
    assert ([k] + later)[1..] == later;
  }

  lemma KindsNext(m: Move, input: seq<byte>)
    requires input != []
    ensures var (r, rest) := Receive(input, m.dest);
            Kinds(m, input) == [Classify(m, r)] + if r.Ok? then Kinds(m, rest) else []
    ensures Classify(m, Receive(input, m.dest).0).Broken? <==> Receive(input, m.dest).0.Err?
  {
    hide Meant, Classify;
    ClassifyIsMeant(m, Receive(input, m.dest).0);
    BrokenIsError(m, Receive(input, m.dest).0);
  }

  lemma BrokenIsError(m: Move, r: Result<Reply>)
    ensures Meant(m, r).Broken? <==> r.Err?
  {
  }

  lemma WaitOn(m: Move, input: seq<byte>, fails: nat, limit: bool)
    ensures var (r, rest) := Receive(input, m.dest);
            var k, w := Classify(m, r), Wait(m, input, fails, limit);
            if WaitsPast(k, fails < m.tolerated, limit) then
              w == Wait(m, rest, if k.StillHoming? then fails + 1 else fails, limit && !k.AtLimit?)
            else (w.outcome, w.stopped) == Verdict(k)
  {
  }

  lemma DecisionOn(m: Move, input: seq<byte>, ignored: nat, limit: bool)
    requires input != []
    ensures var (r, rest) := Receive(input, m.dest);
            var k := Classify(m, r);
            Decision(Kinds(m, input), ignored, limit)
            == if WaitsPast(k, ignored > 0, limit) then
                 Decision(Kinds(m, rest), if k.StillHoming? then ignored - 1 else ignored, limit && !k.AtLimit?)
               else Verdict(k)
  {
    hide Receive, Kinds, Decision, Classify, Meant, Verdict;
    KindsNext(m, input);
    var (r, rest) := Receive(input, m.dest);
    DecisionNext(Classify(m, r), if r.Ok? then Kinds(m, rest) else [], ignored, limit);
  }

  lemma WithoutInput(m: Move, fails: nat, ignored: nat, limit: bool)
    ensures var w := Wait(m, [], fails, limit);
            (w.outcome, w.stopped) == Decision(Kinds(m, []), ignored, limit)
  {
    assert Kinds(m, []) == [];
  }

  lemma {:induction false} WaitIsDecision(m: Move, input: seq<byte>, fails: nat, limit: bool)
    ensures var w := Wait(m, input, fails, limit);
            (w.outcome, w.stopped) == Decision(Kinds(m, input), Ignored(m.tolerated - fails), limit)
    decreases |input|
  {
    hide Receive, Kinds, Wait, Classify, Meant, Decision, Verdict;
    if input == [] {
      WithoutInput(m, fails, Ignored(m.tolerated - fails), limit);
    } else {
      WaitOn(m, input, fails, limit);
      DecisionOn(m, input, Ignored(m.tolerated - fails), limit);
      var (r, rest) := Receive(input, m.dest);
      var k := Classify(m, r);
      if WaitsPast(k, fails < m.tolerated, limit) {
        WaitIsDecision(m, rest, if k.StillHoming? then fails + 1 else fails, limit && !k.AtLimit?);
      }
    }
  }

  lemma PassedBefore(ks: seq<Kind>, ignored: nat, limit: bool)
    ensures var p := FirstToFail(ks, ignored, limit);
            && Passed(ks[..p], ignored, limit)
            && (p < |ks| ==> !WaitsPast(ks[p], Left(ks[..p], ignored) > 0, LimitLeft(ks[..p], limit)))
  {
    var p := FirstToFail(ks, ignored, limit);
    FirstToFailIsFirst(ks, p, ignored, limit);
    if p < |ks| {
      FirstToFailIsFirst(ks, p + 1, ignored, limit);
      assert ks[..p + 1] == ks[..p] + [ks[p]];
      PassedLast(ks[..p], ks[p], ignored, limit);
    }
  }

  /** How many failing statuses of a homing motor may still be ignored after some messages. */
  function Left(ks: seq<Kind>, ignored: nat): int {
    ignored - multiset(ks)[StillHoming]
  }

  predicate LimitLeft(ks: seq<Kind>, limit: bool) {
    limit && multiset(ks)[AtLimit] == 0
  }

  lemma PassedLast(ks: seq<Kind>, k: Kind, ignored: nat, limit: bool)
    ensures Passed(ks + [k], ignored, limit)
            <==> Passed(ks, ignored, limit) && WaitsPast(k, Left(ks, ignored) > 0, LimitLeft(ks, limit))
  {
    var all := ks + [k];
    assert all[|ks|] == k;
    assert forall i | 0 <= i < |ks| :: ks[i] == all[i];
    assert multiset(all) == multiset(ks) + multiset{k};
  }

  /** Some message follows only messages the loop waits past, and the loop does not wait past it. */
  predicate EndsAt(ks: seq<Kind>, p: nat, ignored: nat, limit: bool) {
    && p < |ks| && Passed(ks[..p], ignored, limit)
    && !WaitsPast(ks[p], Left(ks[..p], ignored) > 0, LimitLeft(ks[..p], limit))
  }

  lemma EndsOnce(ks: seq<Kind>, p: nat, ignored: nat, limit: bool)
    ensures EndsAt(ks, p, ignored, limit) <==> p < |ks| && p == FirstToFail(ks, ignored, limit)
  {
    PassedBefore(ks, ignored, limit);
    if EndsAt(ks, p, ignored, limit) {
      FirstToFailIsFirst(ks, p, ignored, limit);
      FirstToFailIsFirst(ks, p + 1, ignored, limit);
      assert ks[..p + 1] == ks[..p] + [ks[p]];
      PassedLast(ks[..p], ks[p], ignored, limit);
    }
  }

  /** Main result, for every input, by what its messages mean: a move completes exactly when the
      completion message comes after nothing but statuses that pass, at most the tolerated number
      of failing ones from a homing motor, and at most one at a limit switch if the move began at
      one. The emergency stop is sent exactly when one more such status of a homing motor comes
      instead. While messages pass, the wait goes on until it times out. */
  lemma HowMovesEnd(m: Move, input: seq<byte>, initLimitState: bool)
    ensures var w, ks, n := Wait(m, input, 0, initLimitState), Kinds(m, input), Ignored(m.tolerated);
            && (w.outcome == Completed
                <==> exists p | 0 <= p < |ks| :: ks[p] == Done && Passed(ks[..p], n, initLimitState))
            && (w.stopped
                <==> exists p | 0 <= p < |ks| :: ks[p] == StillHoming && Passed(ks[..p], n, initLimitState)
                                                 && multiset(ks[..p])[StillHoming] == n)
            && (w.stopped ==> w.outcome == Failed(DeviceError))
            && (Passed(ks, n, initLimitState) ==> w.outcome == Failed(ProtocolError))
  {
    var ks, n := Kinds(m, input), Ignored(m.tolerated);
    hide Wait, Kinds;
    WaitIsDecision(m, input, 0, initLimitState);
    var p := FirstToFail(ks, n, initLimitState);
    EndsOnce(ks, p, n, initLimitState);
    PassedBefore(ks, n, initLimitState);
    forall q: nat | q < |ks| && ks[q] == Done && Passed(ks[..q], n, initLimitState) ensures q == p {
      EndsOnce(ks, q, n, initLimitState);
    }
    forall q: nat | q < |ks| && ks[q] == StillHoming && Passed(ks[..q], n, initLimitState)
                    && multiset(ks[..q])[StillHoming] == n
      ensures q == p
    {
      EndsOnce(ks, q, n, initLimitState);
    }
    FirstToFailIsFirst(ks, |ks|, n, initLimitState);
    assert ks[..|ks|] == ks;
  }

  /** Which status passes: no limit switch is engaged (the lowest four bits), and the motor is
      moving (one of the next four bits is set). */
  lemma StatusBitsMean(bits: nat)
    ensures CheckStatusBits(bits, true, true) <==> bits % 16 == 0 && bits / 16 % 16 != 0
    ensures AnyLimitSwitch(bits) <==> bits % 16 != 0
    ensures Bit(bits, IS_HOMING) <==> bits / 512 % 2 == 1
  {
    LowestFour(bits);
    LowestFour(bits / 16);
    SkipFour(bits, 0);
    SkipFour(bits, 1);
    SkipFour(bits, 2);
    SkipFour(bits, 3);
    SkipFour(bits, 5);
    SkipFour(bits / 16, 1);
    assert Bit(bits / 16 / 16, 1) == Bit(bits / 16 / 16 / 2, 0);
    assert bits / 16 / 16 / 2 == bits / 512;
  }

  lemma LowestFour(n: nat)
    ensures Bit(n, 0) || Bit(n, 1) || Bit(n, 2) || Bit(n, 3) <==> n % 16 != 0
  {
    var a := n / 2;
    var b := a / 2;
    var c := b / 2;
    assert Bit(n, 1) == Bit(a, 0) && Bit(n, 2) == Bit(a, 1) == Bit(b, 0);
    assert Bit(n, 3) == Bit(a, 2) == Bit(b, 1) == Bit(c, 0);
    LowNibble(c / 2, c % 2, b % 2, a % 2, n % 2);
  }

  lemma LowNibble(high: nat, d: nat, c: nat, b: nat, a: nat)
    requires d < 2 && c < 2 && b < 2 && a < 2
    ensures (2 * (2 * (2 * (2 * high + d) + c) + b) + a) % 16 == 8 * d + 4 * c + 2 * b + a
  {
    assert 2 * (2 * (2 * (2 * high + d) + c) + b) + a == 16 * high + (8 * d + 4 * c + 2 * b + a);
  }

  lemma SkipFour(n: nat, i: nat)
    ensures Bit(n, i + 4) == Bit(n / 16, i)
  {
    assert Bit(n, i + 4) == Bit(n / 2, i + 3) == Bit(n / 2 / 2, i + 2);
    assert Bit(n / 2 / 2, i + 2) == Bit(n / 2 / 2 / 2, i + 1) == Bit(n / 2 / 2 / 2 / 2, i);
    assert n / 2 / 2 / 2 / 2 == n / 16;
  }
}
