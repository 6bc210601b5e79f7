/** Little-endian byte images of numbers, as both the C++ server (by reinterpreting
    memory) and Python's struct module (by an explicit '<' format) lay them out. */
module Bytes {
  type byte = n: int | 0 <= n < 256

  function Pow256(w: nat): (p: nat)
    ensures p > 0
  {
    if w == 0 then 1 else 256 * Pow256(w - 1)
  }

  function ToLE(n: nat, w: nat): (bs: seq<byte>)
    ensures |bs| == w
    decreases w
  {
    if w == 0 then [] else [n % 256] + ToLE(n / 256, w - 1)
  }

  function FromLE(bs: seq<byte>): (n: nat)
    ensures n < Pow256(|bs|)
  {
    if bs == [] then 0 else bs[0] + 256 * FromLE(bs[1..])
  }

  lemma {:induction false} FromLEOfToLE(n: nat, w: nat)
    requires n < Pow256(w)
    ensures FromLE(ToLE(n, w)) == n
    decreases w
  {
    if w == 0 {
    } else {
      FromLEOfToLE(n / 256, w - 1);
      assert ToLE(n, w)[1..] == ToLE(n / 256, w - 1);
    }
  }

  /** Two's complement image of a signed number in w bytes. */
  function Twos(n: int, w: nat): (m: int)
  {
    if n < 0 then n + Pow256(w) else n
  }

  /** Reading w unsigned bytes back as a signed number. */
  function Signed(m: nat, w: nat): int
  {
    if 2 * m >= Pow256(w) then m - Pow256(w) else m
  }

  lemma SlotFits(n: nat, w: nat, k: nat)
    requires k < n
    ensures k * w + w <= n * w
  {
    assert (k + 1) * w <= n * w;
  }

  lemma WholeItems(n: nat, w: nat)
    requires w == 1 || w == 2 || w == 4 || w == 8
    ensures n * w % w == 0 && n * w / w == n
  {
  }

  /** The k-th w-byte item of a packed array. */
  function Slot(bs: seq<byte>, w: nat, k: nat): seq<byte>
    requires k * w + w <= |bs|
  {
    bs[k * w..k * w + w]
  }

  lemma SlotOfAppend(front: seq<byte>, last: seq<byte>, w: nat, n: nat, k: nat)
    requires |front| == n * w && |last| == w && k <= n
    ensures k * w + w <= |front + last|
    ensures k < n ==> k * w + w <= |front| && Slot(front + last, w, k) == Slot(front, w, k)
    ensures k == n ==> Slot(front + last, w, k) == last
  {
    if k < n { SlotFits(n, w, k); }
  }

  /** A packed array of w-byte unsigned numbers. */
  function Pack(w: nat, ns: seq<nat>): (bs: seq<byte>)
    ensures |bs| == |ns| * w
  {
    if ns == [] then [] else Pack(w, ns[..|ns| - 1]) + ToLE(ns[|ns| - 1], w)
  }

  lemma {:induction false} SlotOfPack(w: nat, ns: seq<nat>, k: nat)
    requires k < |ns|
    ensures k * w + w <= |Pack(w, ns)|
    ensures Slot(Pack(w, ns), w, k) == ToLE(ns[k], w)
  {
    var n := |ns| - 1;
    SlotOfAppend(Pack(w, ns[..n]), ToLE(ns[n], w), w, n, k);
    if k >= n {
    } else {
      SlotOfPack(w, ns[..n], k);
    }
  }
}
