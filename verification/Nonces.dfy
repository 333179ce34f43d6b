/** The 96-bit nonce counter (internal/crypto/nonce.go). */
module Nonces {
  import opened ByteStrings

  /** The nonce that the `draw`-th call of Next returns; the counter is an atomic 64-bit integer. */
  function NonceOf(draw: nat): (n: Bytes)
    ensures |n| == NONCE_LEN
  {
    Zeros(NONCE_LEN - 8) + ToBE(draw % U64, 8)
  }

  /** What the viewer's shift-and-or loop reads back: the low eight bytes. */
  function NonceVal(nonce: Bytes): nat
    requires |nonce| == NONCE_LEN
  {
    FromBE(nonce[4..12])
  }

  lemma NonceRoundTrip(draw: nat)
    ensures NonceVal(NonceOf(draw)) == draw % U64
    ensures NonceOf(draw)[..4] == [0, 0, 0, 0] && FromBE(NonceOf(draw)[4..12]) == draw % U64
  {
    Pow256Of8();
    assert NonceOf(draw)[4..12] == ToBE(draw % U64, 8);
    FromToBE(draw % U64, 8);
  }

  /** Two draws share a nonce exactly when they are a multiple of 2^64 apart. */
  lemma NoncesCollideIff(i: nat, j: nat)
    ensures NonceOf(i) == NonceOf(j) <==> i % U64 == j % U64
  {
    NonceRoundTrip(i);
    NonceRoundTrip(j);
  }

  lemma DistinctBelow(i: nat, j: nat)
    requires i < j < i + U64
    ensures NonceOf(i) != NonceOf(j)
  {
    NoncesCollideIff(i, j);
    Apart(i, j);
  }

  lemma Apart(i: nat, j: nat)
    requires i < j < i + U64
    ensures i % U64 != j % U64
  {}

  lemma WrapsTo(i: nat)
    ensures NonceOf(i) == NonceOf(i + U64)
  {
    NoncesCollideIff(i, i + U64);
    SameResidue(i);
  }

  lemma SameResidue(i: nat)
    ensures i % U64 == (i + U64) % U64
  {}

  lemma CounterStep(draws: nat)
    ensures (draws % U64 + 1) % U64 == (draws + 1) % U64
  {}

  predicate AllDistinct(n: nat)
  {
    forall i: nat, j: nat :: 1 <= i < j <= n ==> NonceOf(i) != NonceOf(j)
  }

  /** The first n draws have pairwise distinct nonces if and only if n is at most 2^64. */
  lemma NoncesUniqueIff(n: nat)
    ensures AllDistinct(n) <==> n <= U64
  {
    if n <= U64 {
      forall i: nat, j: nat | 1 <= i < j <= n ensures NonceOf(i) != NonceOf(j) {
        DistinctBelow(i, j);
      }
    } else {
      WrapsTo(1);
    }
  }

  /** Below 2^64 draws the encoding keeps the order of the draws. */
  lemma NoncesOrdered(i: nat, j: nat)
    requires i < j < U64
    ensures NonceVal(NonceOf(i)) < NonceVal(NonceOf(j))
  {
    hide NonceOf, NonceVal;
    NonceRoundTrip(i);
    NonceRoundTrip(j);
  }

  class NonceCounter {
    var val: nat
    ghost var draws: nat

    ghost predicate Valid()
      reads this
    {
      val == draws % U64
    }

    constructor ()
      ensures Valid() && draws == 0
    {
      val, draws := 0, 0;
    }

    method Next() returns (nonce: Bytes)
      requires Valid()
      modifies this
      ensures Valid() && draws == old(draws) + 1
      ensures nonce == NonceOf(draws)
    {
      CounterStep(draws);
      val := (val + 1) % U64;
      draws := draws + 1;
      var buf := new Byte[NONCE_LEN](_ => 0);
      PutUint64(buf, NONCE_LEN - 8, val);
      nonce := buf[..];
    }
  }

  /** The viewer's loop `v = v<<8 | b` over bytes 4..12 (viewer.go:373-376): the shifted value has a clear low byte. */
  method ReadNonce(nonce: Bytes) returns (v: nat)
    requires |nonce| == NONCE_LEN
    ensures v == NonceVal(nonce) < U64
  {
    Pow256Of8();
    ToFromBE(nonce[4..12]);
    v := 0;
    var i := 4;
    while i < 12
      invariant 4 <= i <= 12
      invariant v == FromBE(nonce[4..i]) < Pow256(i - 4)
    {
      assert nonce[4..i + 1][..i - 4] == nonce[4..i];
      ToFromBE(nonce[4..i + 1]);
      Pow256Bound(i - 3);
      v := (v * 256) % U64 + nonce[i];
      i := i + 1;
    }
  }

  lemma {:induction false} Pow256Bound(n: nat)
    requires n <= 8
    ensures Pow256(n) <= U64
    decreases 8 - n
  {
    Pow256Of8();
    if n < 8 {
      Pow256Bound(n + 1);
    }
  }
}
