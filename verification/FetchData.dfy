/** server/src/FetchDataImpl.cpp and the stream branch of python/pyfoxtrot/Client.py: the server
    cuts a byte buffer into chunks, one per call of a re-entrant handler, and the client glues
    and unpacks them. */
module FetchData {
  import opened Results
  import opened Bytes
  import opened WireTypes
  import opened ServerEncode
  import opened ServerToClient
  import ClientDecode

  // ---- the handler's state between calls ----

  datatype Logic = Logic(
    thischunk: nat,
    numFullChunks: nat,
    extraChunk: bool,
    csize: nat,
    data: seq<byte>,
    curr: nat)            // _currval, as an offset into data

  /** What the responder has been told so far. */
  datatype Responder = Responder(writes: seq<seq<byte>>, finishes: nat)

  /** The offsets a chunk is taken between lie inside the buffer. */
  predicate Ready(l: Logic) {
    l.curr <= |l.data| && (l.thischunk < l.numFullChunks ==> l.curr + l.csize <= |l.data|)
  }

  /** initial_request's chunk arithmetic. */
  function Started(source: seq<byte>, chunksize: nat): (l: Logic)
    requires chunksize > 0
    ensures Ready(l)
  {
    if |source| / chunksize > 0 then SlotFits(|source| / chunksize, chunksize, 0);
      Logic(0, |source| / chunksize, |source| % chunksize != 0, chunksize, source, 0)
    else Logic(0, 0, |source| % chunksize != 0, chunksize, source, 0)
  }

  /** What HandleRequest does in one call, for a request whose device call has produced `source`: true when the
      handler is done with the request. */
  function Step(l: Logic, out: Responder, source: seq<byte>, chunksize: nat)
    : (Logic, Responder, bool)
    requires chunksize > 0 && (l.thischunk > 0 ==> Ready(l))
  {
    var s := if l.thischunk == 0 then Started(source, chunksize) else l;
    if s.thischunk < s.numFullChunks then
      (s.(curr := s.curr + s.csize, thischunk := s.thischunk + 1),
       out.(writes := out.writes + [s.data[s.curr..s.curr + s.csize]]),
       false)
    else if s.extraChunk then
      (s.(extraChunk := false, thischunk := s.thischunk + 1),
       out.(writes := out.writes + [s.data[s.curr..]]),
       false)
    else
      (s.(thischunk := 0), out.(finishes := out.finishes + 1), true)
  }

  // ---- a whole request ----

  /** ceil(n / c) */
  function ChunkCount(n: nat, c: nat): nat
    requires c > 0
  {
    n / c + if n % c != 0 then 1 else 0
  }

  function Chunk(data: seq<byte>, c: nat, k: nat): seq<byte>
    requires c > 0 && k < ChunkCount(|data|, c)
    ensures 0 < |Chunk(data, c, k)| <= c
    ensures k < |data| / c ==> |Chunk(data, c, k)| == c
  {
    ChunkFits(|data|, c, k);
    if k < |data| / c then data[k * c..k * c + c] else data[k * c..]
  }

  lemma ChunkFits(n: nat, c: nat, k: nat)
    requires c > 0 && k < ChunkCount(n, c)
    ensures if k < n / c then k * c + c <= n else k * c < n <= k * c + c
  {
    var q, r := n / c, n % c;
    assert n == q * c + r;
    if k < q { SlotFits(q, c, k); }
  }

  /** The handler's state after k calls of a request. */
  function After(data: seq<byte>, c: nat, k: nat): (l: Logic)
    requires c > 0 && k <= ChunkCount(|data|, c)
    ensures Ready(l)
  {
    var full := |data| / c;
    var m := if k < full then k else full;
    if k < full then ChunkFits(|data|, c, k);
      Logic(k, full, |data| % c != 0, c, data, m * c)
    else
      assert |data| == full * c + |data| % c;
      Logic(k, full, |data| % c != 0 && k == full, c, data, m * c)
  }

  lemma OneCall(data: seq<byte>, c: nat, k: nat, l: Logic, out: Responder)
    requires c > 0 && k < ChunkCount(|data|, c)
    requires if k == 0 then l.thischunk == 0 else l == After(data, c, k)
    ensures Step(l, out, data, c)
            == (After(data, c, k + 1), out.(writes := out.writes + [Chunk(data, c, k)]), false)
  {
    ChunkFits(|data|, c, k);
    assert (k + 1) * c == k * c + c;
    assert k == 0 ==> Started(data, c) == After(data, c, 0);
  }

  lemma LastCall(data: seq<byte>, c: nat, l: Logic, out: Responder)
    requires c > 0
    requires var w := ChunkCount(|data|, c); if w == 0 then l.thischunk == 0 else l == After(data, c, w)
    ensures var (l', out', done) := Step(l, out, data, c);
            done && l'.thischunk == 0 && out' == out.(finishes := out.finishes + 1)
  {
  }

  /** Chunks 0 to k-1. */
  function Chunks(data: seq<byte>, c: nat, k: nat): (cs: seq<seq<byte>>)
    requires c > 0 && k <= ChunkCount(|data|, c)
    ensures |cs| == k
  {
    if k == 0 then [] else Chunks(data, c, k - 1) + [Chunk(data, c, k - 1)]
  }

  /** The handler called until it is done: what it has written and how often it was called. */
  function Serve(l: Logic, out: Responder, data: seq<byte>, c: nat, k: nat): (Logic, Responder, nat)
    requires c > 0 && k <= ChunkCount(|data|, c)
    requires if k == 0 then l.thischunk == 0 else l == After(data, c, k)
    decreases ChunkCount(|data|, c) - k
  {
    var (l', out', done) := Step(l, out, data, c);
    if done then (l', out', k + 1)
    else if k == ChunkCount(|data|, c) then LastCall(data, c, l, out); (l', out', k + 1)
    else OneCall(data, c, k, l, out); Serve(l', out', data, c, k + 1)
  }

  lemma OneMoreAtTheEnd<T>(xs: seq<T>, x: T, k: nat)
    requires k <= |xs|
    ensures (xs + [x])[|xs| - k..] == xs[|xs| - k..] + [x] && (xs + [x])[..|xs| - k] == xs[..|xs| - k]
  {
  }

  lemma {:induction false} ServeFrom(l: Logic, out: Responder, data: seq<byte>, c: nat, k: nat)
    requires c > 0 && k <= ChunkCount(|data|, c)
    requires if k == 0 then l.thischunk == 0 else l == After(data, c, k)
    requires k <= |out.writes| && out.writes[|out.writes| - k..] == Chunks(data, c, k)
    ensures var (l', out', calls) := Serve(l, out, data, c, k);
            var w := ChunkCount(|data|, c);
            l'.thischunk == 0 && calls == w + 1
            && out' == Responder(out.writes[..|out.writes| - k] + Chunks(data, c, w), out.finishes + 1)
    decreases ChunkCount(|data|, c) - k
  {
    if k == ChunkCount(|data|, c) {
      LastCall(data, c, l, out);
      assert out.writes == out.writes[..|out.writes| - k] + out.writes[|out.writes| - k..];
    } else {
      hide Chunk, Step, After;
      OneCall(data, c, k, l, out);
      var out' := out.(writes := out.writes + [Chunk(data, c, k)]);
      OneMoreAtTheEnd(out.writes, Chunk(data, c, k), k);
      ServeFrom(After(data, c, k + 1), out', data, c, k + 1);
    }
  }

  function Glue(chunks: seq<seq<byte>>): seq<byte> {
    if chunks == [] then [] else Glue(chunks[..|chunks| - 1]) + chunks[|chunks| - 1]
  }

  /** Where chunk k starts. */
  function StartOf(n: nat, c: nat, k: nat): (p: nat)
    requires c > 0 && k <= ChunkCount(n, c)
    ensures p <= n
  {
    if k < ChunkCount(n, c) then
      ChunkFits(n, c, k);
      k * c
    else n
  }

  lemma ChunkBounds(data: seq<byte>, c: nat, k: nat)
    requires c > 0 && k < ChunkCount(|data|, c)
    ensures var p, q := StartOf(|data|, c, k), StartOf(|data|, c, k + 1);
            p < q && Chunk(data, c, k) == data[p..q]
  {
    var n := |data|;
    var m := n / c;
    assert n == m * c + n % c;
    ChunkFits(n, c, k);
    assert (k + 1) * c == k * c + c;
    if k + 1 < ChunkCount(n, c) {
      assert k < m;
    } else if k < m {
      assert k + 1 == m && n % c == 0;
    }
  }

  lemma FirstStart(n: nat, c: nat)
    requires c > 0
    ensures StartOf(n, c, 0) == 0
  {
    assert n == n / c * c + n % c;
  }

  lemma {:induction false} GlueOfChunks(data: seq<byte>, c: nat, k: nat)
    requires c > 0 && k <= ChunkCount(|data|, c)
    ensures Glue(Chunks(data, c, k)) == data[..StartOf(|data|, c, k)]
  {
    if k == 0 {
      FirstStart(|data|, c);
    } else {
      hide Chunk, StartOf, ChunkCount;
      GlueOfChunks(data, c, k - 1);
      ChunkBounds(data, c, k - 1);
      assert Chunks(data, c, k)[..k - 1] == Chunks(data, c, k - 1);
      var p, q := StartOf(|data|, c, k - 1), StartOf(|data|, c, k);
      assert data[..p] + data[p..q] == data[..q];
    }
  }

  /** Serving a request: ceil(n / c) writes, one finish, the handler ready for the next
      request, and chunks that make up the buffer. */
  lemma RequestIsServed(l: Logic, data: seq<byte>, c: nat)
    requires c > 0 && l.thischunk == 0
    ensures var (l', out, calls) := Serve(l, Responder([], 0), data, c, 0);
            && calls == ChunkCount(|data|, c) + 1 && l'.thischunk == 0
            && |out.writes| == ChunkCount(|data|, c) && out.finishes == 1
            && Glue(out.writes) == data
            && forall k | 0 <= k < |out.writes| ::
                 if k < |data| / c then |out.writes[k]| == c else 0 < |out.writes[k]| < c
  {
    var w := ChunkCount(|data|, c);
    ServeFrom(l, Responder([], 0), data, c, 0);
    var out := Serve(l, Responder([], 0), data, c, 0).1;
    assert out.writes == Chunks(data, c, w);
    GlueOfChunks(data, c, w);
    forall k | 0 <= k < w
      ensures if k < |data| / c then |out.writes[k]| == c else 0 < |out.writes[k]| < c
    {
      ChunkAt(data, c, w, k);
      LastChunk(data, c, k);
    }
  }

  lemma LastChunk(data: seq<byte>, c: nat, k: nat)
    requires c > 0 && k < ChunkCount(|data|, c)
    ensures k >= |data| / c ==> |Chunk(data, c, k)| == |data| % c
  {
    assert |data| == |data| / c * c + |data| % c;
  }

  lemma {:induction false} ChunkAt(data: seq<byte>, c: nat, k: nat, i: nat)
    requires c > 0 && i < k <= ChunkCount(|data|, c)
    ensures Chunks(data, c, k)[i] == Chunk(data, c, i)
  {
    if i == k - 1 {
    } else {
      ChunkAt(data, c, k - 1, i);
    }
  }

  // ---- the client ----

  /** The tags the stream branch unpacks: fewer than a packed array in a reply may carry. */
  predicate StreamTag(dtp: ByteType) {
    dtp.UCharB? || dtp.UShortB? || dtp.UIntB? || dtp.IIntB? || dtp.BDoubleB?
  }

  /** _process_sync_response for a stream. Without any chunk the tag is never bound, which is an
      exception. */
  function ProcessStream(dtp: ByteType, chunks: seq<seq<byte>>): Result<seq<Py>> {
    if chunks == [] || !StreamTag(dtp) then Err(LogicError) else ClientDecode.Unpack(dtp, Glue(chunks))
  }

  /** byte_view_data: the size of the view is a 32-bit number. */
  function ByteView(bytes: seq<byte>): seq<byte> {
    bytes[..|bytes| % UINT32_END]
  }

  /** Everything the client receives for an array the device returned. */
  function Fetch(l: Logic, a: Numbers, c: nat): Result<seq<Py>>
    requires c > 0 && l.thischunk == 0
  {
    var view := ByteView(Pack(SizeOf(a.elem), Images(a.items)));
    ProcessStream(ByteTag(a.elem).value, Serve(l, Responder([], 0), view, c, 0).1.writes)
  }

  lemma FetchIsUnpack(l: Logic, a: Numbers, c: nat)
    requires c > 0 && l.thischunk == 0
    ensures var tag, view := ByteTag(a.elem).value, ByteView(Pack(SizeOf(a.elem), Images(a.items)));
            Fetch(l, a, c)
            == if view == [] || !StreamTag(tag) then Err(LogicError) else ClientDecode.Unpack(tag, view)
  {
    var view := ByteView(Pack(SizeOf(a.elem), Images(a.items)));
    RequestIsServed(l, view, c);
    assert view != [] ==> ChunkCount(|view|, c) > 0;
  }

  /** A cut-off view cannot unpack to the whole list. */
  lemma ShortView(a: Numbers, view: seq<byte>)
    requires StreamTag(ByteTag(a.elem).value) && |view| < |a.items| * SizeOf(a.elem)
    ensures ClientDecode.Unpack(ByteTag(a.elem).value, view) != Ok(Meanings(a.items))
  {
    var w := SizeOf(a.elem);
    assert ClientDecode.ItemWidth(ByteTag(a.elem).value) == Ok(w);
    WholeItems(|a.items|, w);
    assert |view| / w < |a.items|;
    var r := ClientDecode.Unpack(ByteTag(a.elem).value, view);
    assert r.Ok? ==> |r.value| == |view| / w;
    assert |Meanings(a.items)| == |a.items|;
  }

  lemma TagIsStreamed(t: ScalarType)
    requires Packable(t)
    ensures StreamTag(ByteTag(t).value) <==> t in {NumT(UChar), NumT(UShort), NumT(Short), NumT(UInt), NumT(Int), DblT}
  {
  }

  lemma ReadableShorts(a: Numbers)
    ensures (forall i | 0 <= i < |a.items| :: Readable(a.items[i]))
            <==> (a.elem == NumT(Short) ==> forall i | 0 <= i < |a.items| :: a.items[i].w.n >= 0)
  {
  }

  lemma FetchByTag(l: Logic, a: Numbers, c: nat)
    requires c > 0 && l.thischunk == 0 && ByteTag(a.elem).Ok?
    ensures Fetch(l, a, c) == Ok(Meanings(a.items))
            <==> a.items != [] && |a.items| * SizeOf(a.elem) < UINT32_END && StreamTag(ByteTag(a.elem).value)
                 && forall i | 0 <= i < |a.items| :: Readable(a.items[i])
  {
    hide Fetch, Readable, Pack, ClientDecode.Unpack;
    var data := Pack(SizeOf(a.elem), Images(a.items));
    FetchIsUnpack(l, a, c);
    if StreamTag(ByteTag(a.elem).value) {
      if |data| < UINT32_END {
        assert ByteView(data) == data;
        PackedItems(a);
      } else {
        ShortView(a, ByteView(data));
      }
    }
  }

  /** Main result, end to end: for every chunk size the client gets the original list exactly
      when the array is not empty and below 4 GiB, its elements are of a type the client unpacks,
      and no short in it is negative. */
  lemma ClientGetsTheArray(l: Logic, a: Numbers, c: nat)
    requires c > 0 && l.thischunk == 0
    ensures Fetch(l, a, c) == Ok(Meanings(a.items))
            <==> a.items != [] && |a.items| * SizeOf(a.elem) < 0x1_0000_0000
                 && a.elem in {NumT(UChar), NumT(UShort), NumT(Short), NumT(UInt), NumT(Int), DblT}
                 && (a.elem == NumT(Short) ==> forall i | 0 <= i < |a.items| :: a.items[i].w.n >= 0)
  {
    TagIsStreamed(a.elem);
    ReadableShorts(a);
    hide Fetch, Readable, StreamTag, Meanings, SizeOf;
    FetchByTag(l, a, c);
  }

  // ---- the two ends as objects ----

  class FetchDataLogic {
    var thischunk: nat
    var numFullChunks: nat
    var extraChunk: bool
    var csize: nat
    var data: seq<byte>
    var curr: nat
    var writes: seq<seq<byte>>   // the responder's side
    var finishes: nat

    constructor ()
      ensures State().thischunk == 0 && Responses() == Responder([], 0)
    {
      thischunk, numFullChunks, extraChunk, csize, data, curr := 0, 0, false, 0, [], 0;
      writes, finishes := [], 0;
    }

    function State(): Logic
      reads this
    {
      Logic(thischunk, numFullChunks, extraChunk, csize, data, curr)
    }

    function Responses(): Responder
      reads this
    {
      Responder(writes, finishes)
    }

    method InitialRequest(source: seq<byte>, chunksize: nat)
      requires chunksize > 0 && thischunk == 0
      modifies this
      ensures State() == Started(source, chunksize) && Responses() == old(Responses())
    {
      data := source;
      csize := chunksize;
      numFullChunks := |data| / csize;
      extraChunk := |data| % csize != 0;
      curr := 0;
    }

    method HandleRequest(source: seq<byte>, chunksize: nat) returns (done: bool)
      requires chunksize > 0 && (thischunk > 0 ==> Ready(State()))
      modifies this
      ensures (State(), Responses(), done)
              == Step(old(State()), old(Responses()), source, chunksize)
    {
      if thischunk == 0 {
        InitialRequest(source, chunksize);
      }
      if thischunk < numFullChunks {
        writes := writes + [data[curr..curr + csize]];
        curr := curr + csize;
        thischunk := thischunk + 1;
        return false;
      }
      if extraChunk {
        writes := writes + [data[curr..]];
        extraChunk := false;
        thischunk := thischunk + 1;
        return false;
      }
      finishes := finishes + 1;
      thischunk := 0;
      done := true;
    }
  }

  method ProcessSyncResponse(dtp: ByteType, repl: seq<seq<byte>>) returns (r: Result<seq<Py>>)
    ensures r == ProcessStream(dtp, repl)
  {
    var rawbytes: seq<byte> := [];
    for i := 0 to |repl|
      invariant rawbytes == Glue(repl[..i])
    {
      assert repl[..i + 1][..i] == repl[..i];
      rawbytes := rawbytes + repl[i];
    }
    assert repl[..|repl|] == repl;
    if repl == [] {
      return Err(LogicError);
    }
    match dtp {
      case UCharB | UShortB | UIntB | IIntB | BDoubleB => r := ClientDecode.Unpack(dtp, rawbytes);
      case _ => r := Err(LogicError);
    }
  }
}
