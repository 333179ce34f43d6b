/** Byte strings, big-endian integers and the fixed constants of the wire protocol. */
module ByteStrings {
  type Byte = b: int | 0 <= b < 256
  type Bytes = seq<Byte>

  /** The identifiers that the relay and the session draw: six characters of [a-z0-9]. */
  type Id = Bytes

  const U64: int := 0x1_0000_0000_0000_0000

  const KEY_LEN := 32
  const NONCE_LEN := 12
  const VIEWER_ID_LEN := 6
  const GCM_TAG_LEN := 16
  const EPOCH_DURATION_SEC := 60
  const EPOCH_GRACE_NANOS := 5_000_000_000
  const REVOCATION_FAILURE_THRESHOLD := 10

  const TAG_SPAKE2: Byte := 1
  const TAG_STREAM: Byte := 2
  const TAG_UNICAST: Byte := 3
  const TAG_PONG: Byte := 5
  const TAG_CONTROL: Byte := 6
  const TAG_TERM_SIZE: Byte := 7

  const CTRL_SESSION_NOT_FOUND: Byte := 3
  const CTRL_SESSION_ENDED: Byte := 4
  const CTRL_VIEWER_DISCONNECTED: Byte := 7

  datatype Option<+T> = None | Some(value: T)

  function Zeros(n: nat): (z: Bytes)
    ensures |z| == n && forall i :: 0 <= i < n ==> z[i] == 0
  {
    seq(n, _ => 0)
  }

  /** What Go's copy leaves in a slice holding `dst`: as much of `src` as fits. */
  function Overlay(dst: Bytes, src: Bytes): (r: Bytes)
    ensures |r| == |dst|
    ensures |src| == |dst| ==> r == src
  {
    if |src| >= |dst| then src[..|dst|] else src + dst[|src|..]
  }

  /** A copy of `bs` into a zeroed slice of length `n`. */
  function Fit(bs: Bytes, n: nat): (r: Bytes)
    ensures |r| == n
    ensures |bs| == n ==> r == bs
  {
    Overlay(Zeros(n), bs)
  }

  function Pow256(n: nat): (p: nat)
    ensures p >= 1
  {
    if n == 0 then 1 else 256 * Pow256(n - 1)
  }

  lemma Pow256Of8()
    ensures Pow256(8) == U64
  {
    assert Pow256(2) == 0x1_0000;
    assert Pow256(4) == 0x1_0000_0000;
    assert Pow256(6) == 0x1_0000_0000_0000;
  }

  /** The low `len` bytes of `v`, most significant first. */
  function ToBE(v: nat, len: nat): (bs: Bytes)
    ensures |bs| == len
    decreases len, v
  {
    if len == 0 then [] else ToBE(v / 256, len - 1) + [v % 256]
  }

  function FromBE(bs: Bytes): nat
  {
    if bs == [] then 0 else FromBE(bs[..|bs| - 1]) * 256 + bs[|bs| - 1]
  }

  lemma {:induction false} FromToBE(v: nat, len: nat)
    requires v < Pow256(len)
    ensures FromBE(ToBE(v, len)) == v
    decreases len
  {
    if len > 0 {
      FromToBE(v / 256, len - 1);
      assert ToBE(v, len)[..len - 1] == ToBE(v / 256, len - 1);
    }
  }

  lemma {:induction false} ToFromBE(bs: Bytes)
    ensures FromBE(bs) < Pow256(|bs|)
    ensures ToBE(FromBE(bs), |bs|) == bs
  {
    if bs != [] {
      ToFromBE(bs[..|bs| - 1]);
    }
  }

  /** copy(dst[lo:hi], src): as much of `src` as fits, nothing else. */
  method Copy(dst: array<Byte>, lo: nat, hi: nat, src: Bytes)
    requires lo <= hi <= dst.Length
    modifies dst
    ensures forall k :: 0 <= k < dst.Length ==>
      dst[k] == if lo <= k < hi && k - lo < |src| then src[k - lo] else old(dst[k])
  {
    var n := if |src| <= hi - lo then |src| else hi - lo;
    var i := 0;
    while i < n
      invariant 0 <= i <= n
      invariant forall k :: 0 <= k < dst.Length ==>
        dst[k] == if lo <= k < lo + i then src[k - lo] else old(dst[k])
    {
      dst[lo + i] := src[i];
      i := i + 1;
    }
  }

  /** Writes a 64-bit integer at `off`, most significant byte first. */
  method PutUint64(dst: array<Byte>, off: nat, v: nat)
    requires off + 8 <= dst.Length
    modifies dst
    ensures forall k :: 0 <= k < dst.Length ==>
      dst[k] == if off <= k < off + 8 then ToBE(v, 8)[k - off] else old(dst[k])
  {
    var i, w := 8, v;
    ghost var low: Bytes := [];
    while i > 0
      invariant 0 <= i <= 8 && w >= 0
      invariant ToBE(v, 8) == ToBE(w, i) + low
      invariant forall k :: 0 <= k < dst.Length ==>
        dst[k] == if off + i <= k < off + 8 then low[k - off - i] else old(dst[k])
    {
      i := i - 1;
      dst[off + i] := w % 256;
      low := [w % 256] + low;
      w := w / 256;
    }
  }
}
