/** devices/archon/archon.cpp, reading an image buffer back: the controller streams blocks of
    1028 bytes, "<xx:" and 1024 bytes of samples, and the driver polls for each of them. */
module ArchonReadback {
  import opened Results
  import opened Bytes

  const BLOCK := 1024
  const REPLY := 1028
  const RETRIES := 100

  // ---- block arithmetic ----

  function BytesOf(pixels: nat, is32: bool): nat {
    if is32 then pixels * 4 else pixels * 2
  }

  function BlocksFor(bytes: nat): nat {
    bytes / BLOCK + if bytes % BLOCK != 0 then 1 else 0
  }

  /** The block count is the least that covers all bytes. */
  lemma BlocksAreLeast(bytes: nat, n: nat)
    ensures n * 1024 >= bytes <==> n >= BlocksFor(bytes)
  {
    var q, r := bytes / BLOCK, bytes % BLOCK;
    assert bytes == q * BLOCK + r;
  }

  // ---- one block ----

  /** parse_binary_response. */
  function Payload(block: seq<byte>): (r: Result<seq<byte>>)
    requires |block| == REPLY
    ensures r.Ok? <==> block[0] == 60 && block[3] == 58
    ensures r.Ok? ==> |r.value| == BLOCK && block == [60, block[1], block[2], 58] + r.value
    ensures r.Err? ==> r.error == if block[0] == 63 then DeviceError else ProtocolError
  {
    if block[0] != 60 then Err(if block[0] == 63 then DeviceError else ProtocolError)  // '<', '?'
    else if block[3] != 58 then Err(ProtocolError)                                     // ':'
    else Ok(block[4..])
  }

  /** The whole w-byte little-endian samples in a stretch of bytes. */
  function Samples(w: nat, bytes: seq<byte>): (ns: seq<nat>)
    requires w > 0
    ensures |ns| == |bytes| / w
  {
    seq(|bytes| / w, k requires 0 <= k < |bytes| / w => SlotFits(|bytes| / w, w, k); FromLE(Slot(bytes, w, k)))
  }

  /** Polling for one block: the poll counter afterwards, and whether the block is there.
      With no retries at all the block is read without waiting. */
  function Wait(avail: nat -> nat, polls: nat, left: nat): (r: (nat, bool))
    ensures polls <= r.0 <= polls + left
    decreases left
  {
    if left == 0 then (polls, true)
    else if avail(polls) >= REPLY then (polls + 1, true)
    else if left == 1 then (polls + 1, false)
    else Wait(avail, polls + 1, left - 1)
  }

  /** A socket read of one block; nothing but zeros once the stream has ended. */
  function NextBlock(blocks: seq<seq<byte>>): seq<byte> {
    if blocks == [] then seq(REPLY, _ => 0) else blocks[0]
  }

  predicate WholeBlocks(blocks: seq<seq<byte>>) {
    forall i | 0 <= i < |blocks| :: |blocks[i]| == REPLY
  }

  /** read_back_buffer, with what it has collected so far. */
  function ReadBack(avail: nat -> nat, polls: nat, blocks: seq<seq<byte>>, n: nat, retries: nat, w: nat, out: seq<nat>)
    : (r: (nat, Result<seq<nat>>))
    requires WholeBlocks(blocks) && w > 0
    decreases n
  {
    if n == 0 then (polls, Ok(out))
    else
      var (polls', ready) := Wait(avail, polls, retries);
      if !ready then (polls', Err(DeviceError))
      else
        var payload := Payload(NextBlock(blocks));
        if payload.Err? then (polls', Err(payload.error))
        else
          ReadBack(avail, polls', if blocks == [] then [] else blocks[1..], n - 1, retries, w,
                   out + Samples(w, payload.value))
  }

  lemma AllBlocksRead(avail: nat -> nat, polls: nat, blocks: seq<seq<byte>>, retries: nat, w: nat, out: seq<nat>)
    requires WholeBlocks(blocks) && w > 0
    ensures ReadBack(avail, polls, blocks, 0, retries, w, out) == (polls, Ok(out))
  {
  }

  lemma NextBlockRead(avail: nat -> nat, polls: nat, blocks: seq<seq<byte>>, n: nat, retries: nat, w: nat,
                      out: seq<nat>)
    requires WholeBlocks(blocks) && w > 0 && n > 0
    ensures var (polls', ready) := Wait(avail, polls, retries);
            var payload, rest := Payload(NextBlock(blocks)), if blocks == [] then [] else blocks[1..];
            ReadBack(avail, polls, blocks, n, retries, w, out)
            == if !ready then (polls', Err(DeviceError))
               else if payload.Err? then (polls', Err(payload.error))
               else ReadBack(avail, polls', rest, n - 1, retries, w, out + Samples(w, payload.value))
  {
  }

  /** fetch_buffer: the samples of a complete buffer, the padding of the last block dropped. */
  function FetchBuffer(complete: bool, avail: nat -> nat, blocks: seq<seq<byte>>, pixels: nat, is32: bool)
    : Result<seq<nat>>
    requires WholeBlocks(blocks)
  {
    if !complete then Err(DeviceError)
    else
      var out :- ReadBack(avail, 0, blocks, BlocksFor(BytesOf(pixels, is32)), RETRIES, if is32 then 4 else 2, []).1;
      Ok(if |out| >= pixels then out[..pixels] else out + seq(pixels - |out|, _ => 0))
  }

  /** The driver's side of the connection during a readback. */
  class BufferPort {
    const avail: nat -> nat          // what bytes_available answers to the k-th poll
    var polls: nat
    var blocks: seq<seq<byte>>       // the blocks still to come

    constructor (availability: nat -> nat, incoming: seq<seq<byte>>)
      ensures avail == availability && polls == 0 && blocks == incoming
    {
      avail := availability;
      polls, blocks := 0, incoming;
    }

    method BytesAvailable() returns (n: nat)
      modifies this
      ensures n == avail(old(polls)) && polls == old(polls) + 1 && blocks == old(blocks)
    {
      n := avail(polls);
      polls := polls + 1;
    }

    method Read() returns (block: seq<byte>)
      modifies this
      ensures block == NextBlock(old(blocks)) && polls == old(polls)
      ensures blocks == if old(blocks) == [] then [] else old(blocks)[1..]
    {
      block := NextBlock(blocks);
      if blocks != [] {
        blocks := blocks[1..];
      }
    }

    method ReadBackBuffer(numBlocks: nat, retries: nat, w: nat) returns (r: Result<seq<nat>>)
      requires WholeBlocks(blocks) && w > 0
      modifies this
      ensures (polls, r) == ReadBack(avail, old(polls), old(blocks), numBlocks, retries, w, [])
    {
      hide ReadBack, Payload, Samples;
      var out: seq<nat> := [];
      for i := 0 to numBlocks
        invariant WholeBlocks(blocks)
        invariant ReadBack(avail, old(polls), old(blocks), numBlocks, retries, w, [])
                  == ReadBack(avail, polls, blocks, numBlocks - i, retries, w, out)
      {
        ghost var before := polls;
        ghost var coming := blocks;
        var j := 0;
        while j < retries
          invariant 0 <= j <= retries && blocks == coming
          invariant j == retries ==> retries == 0
          invariant Wait(avail, before, retries) == Wait(avail, polls, retries - j)
        {
          var bytesAvail := BytesAvailable();
          if bytesAvail >= REPLY {
            break;
          }
          if j == retries - 1 {
            NextBlockRead(avail, before, coming, numBlocks - i, retries, w, out);
            return Err(DeviceError);
          }
          j := j + 1;
        }
        assert Wait(avail, before, retries) == (polls, true);
        NextBlockRead(avail, before, coming, numBlocks - i, retries, w, out);
        var block := Read();
        var payload := Payload(block);
        if payload.Err? {
          return Err(payload.error);
        }
        out := out + Samples(w, payload.value);
      }
      AllBlocksRead(avail, polls, blocks, retries, w, out);
      r := Ok(out);
    }
  }

  // ---- what a readback returns ----

  /** Polling stops within blocks times retries, however it ends. */
  lemma {:induction false} PollsAreBounded(avail: nat -> nat, polls: nat, blocks: seq<seq<byte>>,
                                           n: nat, retries: nat, w: nat, out: seq<nat>)
    requires WholeBlocks(blocks) && w > 0
    ensures polls <= ReadBack(avail, polls, blocks, n, retries, w, out).0 <= polls + n * retries
    decreases n
  {
    if n == 0 {
    } else {
      assert n * retries == (n - 1) * retries + retries;
      var (polls', ready) := Wait(avail, polls, retries);
      var payload := Payload(NextBlock(blocks));
      if ready && payload.Ok? {
        PollsAreBounded(avail, polls', if blocks == [] then [] else blocks[1..], n - 1, retries, w,
                        out + Samples(w, payload.value));
      }
    }
  }

  lemma SampleInFront(w: nat, a: seq<byte>, b: seq<byte>, k: nat)
    requires (w == 2 || w == 4) && |a| % w == 0 && k < |a| / w
    ensures k < |a + b| / w && Samples(w, a + b)[k] == Samples(w, a)[k]
  {
    SlotFits(|a| / w, w, k);
    assert Slot(a + b, w, k) == Slot(a, w, k);
  }

  lemma SlotBehind(w: nat, a: seq<byte>, b: seq<byte>, m: nat, k: nat)
    requires |a| == m * w && (m + k) * w == m * w + k * w && k * w + w <= |b|
    ensures (m + k) * w + w <= |a + b| && Slot(a + b, w, m + k) == Slot(b, w, k)
  {
  }

  lemma SampleBehind(w: nat, a: seq<byte>, b: seq<byte>, m: nat, k: nat)
    requires (w == 2 && m == 512) || (w == 4 && m == 256)
    requires |a| == BLOCK && k < |b| / w
    ensures m + k < |a + b| / w && Samples(w, a + b)[m + k] == Samples(w, b)[k]
  {
    SlotFits(|b| / w, w, k);
    SlotBehind(w, a, b, m, k);
  }

  lemma SamplesConcat(w: nat, head: seq<byte>, rest: seq<byte>)
    requires (w == 2 || w == 4) && |head| == BLOCK
    ensures Samples(w, head + rest) == Samples(w, head) + Samples(w, rest)
  {
    var m := if w == 2 then 512 else 256;
    forall k | 0 <= k < m ensures Samples(w, head + rest)[k] == Samples(w, head)[k] {
      SampleInFront(w, head, rest, k);
    }
    forall k | 0 <= k < |rest| / w ensures Samples(w, head + rest)[m + k] == Samples(w, rest)[k] {
      SampleBehind(w, head, rest, m, k);
    }
  }

  /** The blocks by which a controller sends data: any two bytes of sequence number, and the
      data in pieces of 1024 bytes. */
  predicate Carries(blocks: seq<seq<byte>>, n: nat, data: seq<byte>)
    decreases n
  {
    if n == 0 then data == []
    else
      && blocks != [] && |blocks[0]| == 1028 && |data| >= 1024
      && blocks[0][0] == 60 && blocks[0][3] == 58 && blocks[0][4..] == data[..1024]
      && Carries(blocks[1..], n - 1, data[1024..])
  }

  /** Poll k is the first from `polls` on that finds a block. */
  predicate FirstFound(avail: nat -> nat, polls: nat, k: nat) {
    polls <= k && avail(k) >= 1028 && forall j | polls <= j < k :: avail(j) < 1028
  }

  /** Each of n blocks is found by one of its polls, the first of which follows the poll that
      found the block before. */
  ghost predicate AllFound(avail: nat -> nat, polls: nat, n: nat, retries: nat)
    decreases n
  {
    n == 0
    || exists k | polls <= k < polls + retries :: FirstFound(avail, polls, k) && AllFound(avail, k + 1, n - 1, retries)
  }

  lemma {:induction false} WaitFinds(avail: nat -> nat, polls: nat, left: nat)
    requires left > 0
    ensures var (polls', ready) := Wait(avail, polls, left);
            && (ready ==> polls < polls' <= polls + left && FirstFound(avail, polls, polls' - 1))
            && (!ready ==> forall j | polls <= j < polls + left :: avail(j) < REPLY)
    decreases left
  {
    if left == 1 || avail(polls) >= REPLY {
    } else {
      WaitFinds(avail, polls + 1, left - 1);
    }
  }

  /** Whether a block is found, and by which poll. */
  lemma NextFound(avail: nat -> nat, polls: nat, n: nat, retries: nat)
    requires n > 0 && retries > 0
    ensures var (polls', ready) := Wait(avail, polls, retries);
            AllFound(avail, polls, n, retries) <==> ready && AllFound(avail, polls', n - 1, retries)
  {
    WaitFinds(avail, polls, retries);
    var (polls', ready) := Wait(avail, polls, retries);
    if AllFound(avail, polls, n, retries) {
      var k :| polls <= k < polls + retries && FirstFound(avail, polls, k) && AllFound(avail, k + 1, n - 1, retries);
      assert ready;
      assert k == polls' - 1;
    }
  }

  lemma {:induction false} ReadBackCollects(avail: nat -> nat, polls: nat, blocks: seq<seq<byte>>,
                                            n: nat, retries: nat, w: nat, out: seq<nat>, data: seq<byte>)
    requires WholeBlocks(blocks) && (w == 2 || w == 4) && Carries(blocks, n, data) && retries > 0
    ensures ReadBack(avail, polls, blocks, n, retries, w, out).1
            == if AllFound(avail, polls, n, retries) then Ok(out + Samples(w, data)) else Err(DeviceError)
    decreases n
  {
    if n == 0 {
      assert Samples(w, []) == [];
      assert out + Samples(w, data) == out;
    } else {
      NextFound(avail, polls, n, retries);
      var (polls', ready) := Wait(avail, polls, retries);
      if ready {
        var head, rest := data[..BLOCK], data[BLOCK..];
        assert Payload(blocks[0]) == Ok(head);
        ReadBackCollects(avail, polls', blocks[1..], n - 1, retries, w, out + Samples(w, head), rest);
        SamplesConcat(w, head, rest);
        assert data == head + rest;
        assert out + Samples(w, head) + Samples(w, rest) == out + Samples(w, data);
      }
    }
  }

  lemma SamplesOfPack(w: nat, ns: seq<nat>, pad: seq<byte>)
    requires w == 2 || w == 4
    requires forall k | 0 <= k < |ns| :: ns[k] < Pow256(w)
    ensures |Samples(w, Pack(w, ns) + pad)| >= |ns|
    ensures Samples(w, Pack(w, ns) + pad)[..|ns|] == ns
  {
    var packed := Pack(w, ns);
    WholeItems(|ns|, w);
    assert |packed + pad| / w >= |ns|;
    forall k | 0 <= k < |ns| ensures Samples(w, packed + pad)[k] == ns[k] {
      SampleInFront(w, packed, pad, k);
      SlotOfPack(w, ns, k);
      FromLEOfToLE(ns[k], w);
    }
  }

  lemma BlocksNeeded(pixels: nat, is32: bool)
    ensures BlocksFor(BytesOf(pixels, is32)) == ((if is32 then 4 else 2) * pixels + 1023) / 1024
  {
    var bytes := BytesOf(pixels, is32);
    var q, r := bytes / 1024, bytes % 1024;
    assert bytes + 1023 == 1024 * q + (r + 1023);
  }

  /** Main result: for every pixel count and both sample widths, when the controller sends the
      samples little-endian in as many blocks as they need, a fetch from a complete buffer returns
      exactly the samples in order, dropping only the padding, if each block is found by one of
      its hundred polls; and else a DeviceError. */
  lemma FetchReturnsPixels(complete: bool, avail: nat -> nat, blocks: seq<seq<byte>>, ns: seq<nat>, pad: seq<byte>,
                           is32: bool)
    requires WholeBlocks(blocks)
    requires forall k | 0 <= k < |ns| :: ns[k] < if is32 then 0x1_0000_0000 else 0x1_0000
    requires var w := if is32 then 4 else 2;
             Carries(blocks, (w * |ns| + 1023) / 1024, Pack(w, ns) + pad)
    ensures var n := ((if is32 then 4 else 2) * |ns| + 1023) / 1024;
            FetchBuffer(complete, avail, blocks, |ns|, is32)
            == if complete && AllFound(avail, 0, n, 100) then Ok(ns) else Err(DeviceError)
  {
    var w := if is32 then 4 else 2;
    assert Pow256(2) == 0x1_0000 && Pow256(4) == 0x1_0000 * Pow256(2);
    hide Pow256, Pack, Samples, BytesOf, BlocksFor, ReadBack, AllFound;
    var data := Pack(w, ns) + pad;
    BlocksNeeded(|ns|, is32);
    ReadBackCollects(avail, 0, blocks, BlocksFor(BytesOf(|ns|, is32)), RETRIES, w, [], data);
    SamplesOfPack(w, ns, pad);
    assert [] + Samples(w, data) == Samples(w, data);
  }
}
