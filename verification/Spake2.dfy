/**
 * SPAKE2 as web/src/spake2.ts computes it (sections 3.3 and 4 of RFC 9382, with the AAD appended to the
 * transcript).  The curve, the hash and the MAC are foreign: the group is cyclic of prime order, a point is
 * its discrete logarithm to the base point, and everything else about them is arbitrary.
 */
module Spake2 {
  import opened ByteStrings

  // ----- the foreign parts

  type PrimeOrder = q: nat
    | 2 <= q <= U256 && forall a, b :: 0 < a < q && 0 < b < q ==> (a * b) % q != 0
    witness 2

  const U256: int := U64 * U64 * U64 * U64

  lemma Pow256Of32()
    ensures Pow256(32) == U256
  {
    hide Pow256;
    Pow256Of8();
    Pow256Add(8, 8);
    Pow256Add(16, 16);
  }

  lemma {:induction false} Pow256Add(m: nat, n: nat)
    ensures Pow256(m + n) == Pow256(m) * Pow256(n)
  {
    if m > 0 {
      Pow256Add(m - 1, n);
    }
  }

  /** The order of P-256. */
  const Order: PrimeOrder

  type Point = p: nat | p < Order
  type NonZero = p: nat | 0 < p < Order witness 1

  const Base: NonZero := 1
  const M: NonZero
  const N: NonZero

  function Add(p: Point, q: Point): Point
  {
    (p + q) % Order
  }

  function Sub(p: Point, q: Point): Point
  {
    (p - q) % Order
  }

  /** multiply throws on the scalar 0. */
  function Mul(p: Point, s: nat): Option<Point>
  {
    if 0 < s < Order then Some((p * s) % Order) else None
  }

  datatype Codec = Codec(encode: Point -> Bytes, decode: Bytes -> Option<Point>)

  ghost predicate Faithful(c: Codec)
  {
    && (forall p: Point :: p != 0 ==> c.decode(c.encode(p)) == Some(p))
    && forall bs :: c.decode(bs) != Some(0)
  }

  const Unary := Codec(
    (p: Point) => seq(p, _ => 0 as Byte),
    (bs: Bytes) => if 0 < |bs| < Order then Some(|bs|) else None)

  type GoodCodec = c: Codec | Faithful(c) witness Unary

  /** Uncompressed points; decoding accepts what the library accepts, and never the point at infinity. */
  const Points: GoodCodec

  /** toRawBytes throws on the point at infinity. */
  function PointToBytes(p: Point): Option<Bytes>
  {
    if p == 0 then None else Some(Points.encode(p))
  }

  type Hash = f: Bytes -> Bytes | forall x :: |f(x)| == 32 witness (_ => Zeros(32))
  type Keyed = f: (Bytes, Bytes) -> Bytes | forall k, x :: |f(k, x)| == 32 witness ((_, _) => Zeros(32))

  const Sha256: Hash
  const HmacSha256: Keyed

  /** HKDF-SHA256 to 32 bytes, of the input key material and the info string. */
  const Hkdf32: Keyed

  // ----- scalars

  /** The bitwise operators on non-negative integers. */
  function Xor(a: nat, b: nat): nat
    decreases a + b
  {
    if a == 0 && b == 0 then 0 else (if a % 2 != b % 2 then 1 else 0) + 2 * Xor(a / 2, b / 2)
  }

  function Or(a: nat, b: nat): nat
    decreases a + b
  {
    if a == 0 && b == 0 then 0 else (if a % 2 == 1 || b % 2 == 1 then 1 else 0) + 2 * Or(a / 2, b / 2)
  }

  function Pow2(n: nat): (p: nat)
    ensures p >= 1
  {
    if n == 0 then 1 else 2 * Pow2(n - 1)
  }

  lemma {:induction false} OrNone(a: nat)
    ensures Or(a, 0) == a
  {
    if a > 0 {
      OrNone(a / 2);
    }
  }

  /** Or-ing into clear low bits is adding. */
  lemma {:induction false} OrShifted(v: nat, b: nat, n: nat)
    requires b < Pow2(n)
    ensures v * Pow2(n) >= 0 && Or(v * Pow2(n), b) == v * Pow2(n) + b
  {
    if n == 0 {
      OrNone(v);
    } else {
      var half := v * Pow2(n - 1);
      assert v * Pow2(n) == 2 * half;
      OrShifted(v, b / 2, n - 1);
    }
  }

  /** The fold `val = (val << 8n) | BigInt(b)`. */
  method FoldBytes(digest: Bytes) returns (val: nat)
    ensures val == FromBE(digest)
  {
    val := 0;
    for i := 0 to |digest|
      invariant val == FromBE(digest[..i])
    {
      assert digest[..i + 1][..i] == digest[..i];
      assert Pow2(8) == 256;
      OrShifted(val, digest[i], 8);
      val := Or(val * 256, digest[i]);
    }
    assert digest[..|digest|] == digest;
  }

  function DerivePassword(password: Bytes): Point
  {
    FromBE(Sha256(password)) % Order
  }

  function ScalarOf(random: Bytes): Point
  {
    FromBE(random) % Order
  }

  function ScalarBytes(s: nat): Bytes
  {
    ToBE(s, 32)
  }

  /** The masks and shifts of scalarToBytes, from the last byte to the first. */
  method ScalarToBytes(s: nat) returns (out: Bytes)
    ensures out == ScalarBytes(s)
  {
    var bytes := new Byte[32](_ => 0);
    var i, val := 31, s;
    ghost var low: Bytes := [];
    while i >= 0
      invariant -1 <= i <= 31 && ToBE(s, 32) == ToBE(val, i + 1) + low
      invariant forall k :: i < k < 32 ==> bytes[k] == low[k - i - 1]
    {
      bytes[i] := val % 256;
      low := [val % 256] + low;
      val := val / 256;
      i := i - 1;
    }
    assert low == ToBE(s, 32);
    out := bytes[..];
  }

  /** scalarToBytes is undone by the big-endian fold, for every scalar of the group. */
  lemma ScalarRoundTrip(s: nat)
    requires s < U256
    ensures FromBE(ScalarBytes(s)) == s
  {
    Pow256Of32();
    FromToBE(s, 32);
  }

  // ----- the transcript

  function ToLE(v: nat, len: nat): (bs: Bytes)
    ensures |bs| == len
    decreases len, v
  {
    if len == 0 then [] else [v % 256] + ToLE(v / 256, len - 1)
  }

  function FromLE(bs: Bytes): nat
  {
    if bs == [] then 0 else bs[0] + 256 * FromLE(bs[1..])
  }

  lemma {:induction false} FromToLE(v: nat, len: nat)
    requires v < Pow256(len)
    ensures FromLE(ToLE(v, len)) == v
    decreases len
  {
    if len > 0 {
      FromToLE(v / 256, len - 1);
    }
  }

  /** A field and the length before it. */
  function Framed(field: Bytes): Bytes
  {
    ToLE(|field|, 8) + field
  }

  function Concat(parts: seq<Bytes>): Bytes
  {
    if parts == [] then [] else Concat(parts[..|parts| - 1]) + parts[|parts| - 1]
  }

  function FramedAll(fields: seq<Bytes>): (r: seq<Bytes>)
    ensures |r| == |fields| && forall i :: 0 <= i < |r| ==> r[i] == Framed(fields[i])
  {
    seq(|fields|, i requires 0 <= i < |fields| => Framed(fields[i]))
  }

  /** What is in a transcript: six fields, and the AAD if there is one and it is not empty. */
  datatype Fields = Fields(
    idA: Bytes, idB: Bytes, msgA: Bytes, msgB: Bytes, k: Bytes, password: Bytes, aad: Option<Bytes>)

  function Listed(t: Fields): seq<Bytes>
  {
    [t.idA, t.idB, t.msgA, t.msgB, t.k, t.password] + (if t.aad.Some? && t.aad.value != [] then [t.aad.value] else [])
  }

  function Transcript(t: Fields): Bytes
  {
    Concat(FramedAll(Listed(t)))
  }

  /** The array lengths of the program. */
  predicate Sized(fields: seq<Bytes>)
  {
    forall i :: 0 <= i < |fields| ==> |fields[i]| < U64
  }

  /** Splits a transcript into its fields again. */
  function Parse(bs: Bytes): Option<seq<Bytes>>
    decreases |bs|
  {
    if bs == [] then Some([])
    else if |bs| < 8 then None
    else
      var len := FromLE(bs[..8]);
      if 8 + len > |bs| then None else
        var rest := Parse(bs[8 + len..]);
        if rest.None? then None else Some([bs[8..8 + len]] + rest.value)
  }

  lemma {:induction false} ConcatHead(parts: seq<Bytes>)
    requires parts != []
    ensures Concat(parts) == parts[0] + Concat(parts[1..])
  {
    var n := |parts| - 1;
    if n > 0 {
      ConcatHead(parts[..n]);
      assert parts[..n][1..] == parts[1..][..n - 1];
    } else {
      assert parts[..0] == [] && parts[1..] == [];
    }
  }

  /** The parser inverts the encoding. */
  lemma {:induction false} ParseInverts(fields: seq<Bytes>)
    requires Sized(fields)
    ensures Parse(Concat(FramedAll(fields))) == Some(fields)
    decreases |fields|
  {
    var parts := FramedAll(fields);
    if fields != [] {
      var f, rest := fields[0], fields[1..];
      ConcatHead(parts);
      assert parts[1..] == FramedAll(rest);
      ParseInverts(rest);
      var bs := Concat(parts);
      Pow256Of8();
      FromToLE(|f|, 8);
      hide Concat, FromLE, ToLE;
      assert bs == ToLE(|f|, 8) + f + Concat(parts[1..]);
      assert bs[..8] == ToLE(|f|, 8) && bs[8..8 + |f|] == f && bs[8 + |f|..] == Concat(parts[1..]);
      assert fields == [f] + rest;
    }
  }

  function Normal(aad: Option<Bytes>): Bytes
  {
    if aad.Some? then aad.value else []
  }

  /** Equal transcripts have equal fields; a missing AAD and an empty one are the same. */
  lemma TranscriptInjective(s: Fields, t: Fields)
    requires Sized(Listed(s)) && Sized(Listed(t))
    ensures Transcript(s) == Transcript(t) <==> s.(aad := None) == t.(aad := None) && Normal(s.aad) == Normal(t.aad)
  {
    ParseInverts(Listed(s));
    ParseInverts(Listed(t));
    hide Parse, Concat, FramedAll;
    if Transcript(s) == Transcript(t) {
      assert Listed(s) == Listed(t);
      assert forall i :: 0 <= i < 6 ==> Listed(s)[i] == Listed(t)[i];
      assert |Listed(s)| == |Listed(t)| == 7 ==> Listed(s)[6] == Listed(t)[6];
      assert Listed(s)[0] == s.idA && Listed(s)[1] == s.idB && Listed(s)[2] == s.msgA && Listed(s)[3] == s.msgB;
      assert Listed(s)[4] == s.k && Listed(s)[5] == s.password;
      assert Listed(t)[0] == t.idA && Listed(t)[1] == t.idB && Listed(t)[2] == t.msgA && Listed(t)[3] == t.msgB;
      assert Listed(t)[4] == t.k && Listed(t)[5] == t.password;
    }
    if s.(aad := None) == t.(aad := None) && Normal(s.aad) == Normal(t.aad) {
      assert Listed(s) == Listed(t);
    }
  }

  lemma ToLEStep(head: Bytes, v: nat, n: nat)
    requires n > 0
    ensures head + ToLE(v, n) == head + [v % 256] + ToLE(v / 256, n - 1)
  {}

  method EncodeLength(data: Bytes) returns (out: Bytes)
    ensures out == ToLE(|data|, 8)
  {
    var buf := new Byte[8](_ => 0);
    var i, v := 0, |data|;
    hide ToLE;
    while i < 8
      invariant 0 <= i <= 8 && v >= 0
      invariant ToLE(|data|, 8) == buf[..i] + ToLE(v, 8 - i)
    {
      ToLEStep(buf[..i], v, 8 - i);
      ghost var head := buf[..i];
      buf[i] := v % 256;
      assert buf[..i + 1] == head + [v % 256];
      i, v := i + 1, v / 256;
    }
    out := buf[..];
    assert ToLE(v, 0) == [];
  }

  /** The pushes, the length sum and the offset copies. */
  method BuildTranscript(t: Fields) returns (out: Bytes)
    ensures out == Transcript(t)
  {
    var parts: seq<Bytes> := [];
    var fields := [t.idA, t.idB, t.msgA, t.msgB, t.k, t.password];
    if t.aad.Some? && |t.aad.value| > 0 {
      fields := fields + [t.aad.value];
    }
    assert fields == Listed(t);
    for i := 0 to |fields|
      invariant Concat(parts) == Concat(FramedAll(fields[..i]))
    {
      var len := EncodeLength(fields[i]);
      ConcatPair(parts, len, fields[i]);
      parts := parts + [len] + [fields[i]];
      FramedPrefix(fields, i);
    }
    assert fields[..|fields|] == fields;
    out := SetAll(parts);
  }

  lemma ConcatPair(parts: seq<Bytes>, a: Bytes, b: Bytes)
    ensures Concat(parts + [a] + [b]) == Concat(parts) + (a + b)
  {
    assert (parts + [a] + [b])[..|parts| + 1] == parts + [a];
    assert (parts + [a])[..|parts|] == parts;
  }

  lemma FramedPrefix(fields: seq<Bytes>, i: nat)
    requires i < |fields|
    ensures Concat(FramedAll(fields[..i + 1])) == Concat(FramedAll(fields[..i])) + Framed(fields[i])
  {
    assert FramedAll(fields[..i + 1])[..i] == FramedAll(fields[..i]);
  }

  method SetAll(parts: seq<Bytes>) returns (out: Bytes)
    ensures out == Concat(parts)
  {
    var totalLen := 0;
    for i := 0 to |parts|
      invariant totalLen == |Concat(parts[..i])|
    {
      assert parts[..i + 1][..i] == parts[..i];
      totalLen := totalLen + |parts[i]|;
    }
    assert parts[..|parts|] == parts;
    var result := new Byte[totalLen](_ => 0);
    var offset := 0;
    for i := 0 to |parts|
      invariant offset == |Concat(parts[..i])| <= totalLen
      invariant result[..offset] == Concat(parts[..i])
    {
      assert parts[..i + 1][..i] == parts[..i];
      ConcatGrows(parts, i + 1);
      Copy(result, offset, offset + |parts[i]|, parts[i]);
      offset := offset + |parts[i]|;
      assert result[..offset] == Concat(parts[..i]) + parts[i];
    }
    out := result[..];
  }

  lemma {:induction false} ConcatGrows(parts: seq<Bytes>, k: nat)
    requires k <= |parts|
    ensures |Concat(parts[..k])| <= |Concat(parts)|
    decreases |parts| - k
  {
    if k < |parts| {
      ConcatGrows(parts, k + 1);
      assert parts[..k + 1][..k] == parts[..k];
    } else {
      assert parts[..k] == parts;
    }
  }

  // ----- comparison

  lemma {:induction false} XorZero(a: nat, b: nat)
    ensures Xor(a, b) == 0 <==> a == b
    decreases a + b
  {
    if a != 0 || b != 0 {
      XorZero(a / 2, b / 2);
    }
  }

  lemma {:induction false} OrZero(a: nat, b: nat)
    ensures Or(a, b) == 0 <==> a == 0 && b == 0
    decreases a + b
  {
    if a != 0 || b != 0 {
      OrZero(a / 2, b / 2);
    }
  }

  /** No early exit: every byte takes part, and the answer is equality. */
  method ConstantTimeEqual(a: Bytes, b: Bytes) returns (eq: bool)
    ensures eq <==> a == b
  {
    if |a| != |b| {
      return false;
    }
    var diff := 0;
    for i := 0 to |a|
      invariant diff >= 0 && (diff == 0 <==> a[..i] == b[..i])
    {
      assert a[..i + 1] == a[..i] + [a[i]] && b[..i + 1] == b[..i] + [b[i]];
      XorZero(a[i], b[i]);
      OrZero(diff, Xor(a[i], b[i]));
      diff := Or(diff, Xor(a[i], b[i]));
    }
    assert a[..|a|] == a && b[..|b|] == b;
    eq := diff == 0;
  }

  // ----- the protocol

  const IDENTITY_A: Bytes := [65]
  const IDENTITY_B: Bytes := [66]

  /** "ConfirmationKeys" */
  const CONFIRMATION_KEYS_INFO: Bytes := [67, 111, 110, 102, 105, 114, 109, 97, 116, 105, 111, 110, 75, 101, 121, 115]

  /** A password-masked public share. */
  function Masked(mask: Point, w: Point, s: Point): Option<Point>
  {
    var own, hidden := Mul(Base, s), Mul(mask, w);
    if own.None? || hidden.None? then None else Some(Add(hidden.value, own.value))
  }

  function Message(mask: Point, w: Point, s: Point): Option<Bytes>
  {
    var p := Masked(mask, w, s);
    if p.None? then None else PointToBytes(p.value)
  }

  /** The shared point as computed from the other side's message: unmask, then multiply by the own scalar. */
  function SharedPoint(mask: Point, w: Point, s: Point, message: Bytes): Option<Bytes>
  {
    var p, hidden := Points.decode(message), Mul(mask, w);
    if p.None? || hidden.None? then None else
      var k := Mul(Sub(p.value, hidden.value), s);
      if k.None? then None else PointToBytes(k.value)
  }

  /** What SPAKE2Client.finish puts into its transcript, unless something throws. */
  function ClientFields(w: Point, x: Point, messageB: Bytes, aad: Option<Bytes>): Option<Fields>
  {
    var k, own := SharedPoint(N, w, x, messageB), Message(M, w, x);
    if k.None? || own.None? then None
    else Some(Fields(IDENTITY_A, IDENTITY_B, own.value, messageB, k.value, ScalarBytes(w), aad))
  }

  /** What SPAKE2Server.exchange puts into its transcript. */
  function ServerFields(w: Point, y: Point, messageA: Bytes, aad: Option<Bytes>): Option<Fields>
  {
    var k, own := SharedPoint(M, w, y, messageA), Message(N, w, y);
    if k.None? || own.None? then None
    else Some(Fields(IDENTITY_A, IDENTITY_B, messageA, own.value, k.value, ScalarBytes(w), aad))
  }

  datatype Keys = Keys(shared: Bytes, confirmA: Bytes, confirmB: Bytes)

  function KeysOf(t: Fields): Keys
  {
    var h := Sha256(Transcript(t));
    var kc := Hkdf32(h[16..], CONFIRMATION_KEYS_INFO + Normal(t.aad));
    Keys(h[..16], kc[..16], kc[16..])
  }

  function ConfirmA(t: Fields): Bytes
  {
    HmacSha256(KeysOf(t).confirmA, Transcript(t))
  }

  function ConfirmB(t: Fields): Bytes
  {
    HmacSha256(KeysOf(t).confirmB, Transcript(t))
  }

  // ----- agreement

  lemma ModSmall(v: nat, q: nat)
    requires v < q
    ensures v % q == v
  {}

  lemma ModWraps(v: int, q: nat)
    requires 0 < q && v < 0 <= v + q
    ensures v % q == v + q
  {
    assert v == q * (-1) + (v + q);
  }

  lemma ModOnce(v: nat, q: nat)
    requires q <= v < 2 * q
    ensures v % q == v - q
  {
    assert v == q * 1 + (v - q);
  }

  /** Multiplying the base point gives the scalar itself. */
  lemma OfBase(s: Point)
    ensures Mul(Base, s) == if s == 0 then None else Some(s)
  {
    ModSmall(s, Order);
  }

  /** Unmasking undoes masking. */
  lemma Unmasked(hidden: Point, s: Point)
    ensures Sub(Add(hidden, s), hidden) == s
  {
    if hidden + s < Order {
      ModSmall(hidden + s, Order);
      ModSmall(s, Order);
    } else {
      ModOnce(hidden + s, Order);
      if s < Order {
        ModWraps(s - Order, Order);
      }
    }
  }

  /** A message exists exactly when neither factor is zero and the masked share is not the point at infinity. */
  lemma MessageIff(mask: NonZero, w: Point, s: Point)
    ensures Message(mask, w, s) ==
      var share := Add((mask * w) % Order, s);
      if w != 0 && s != 0 && share != 0 then Some(Points.encode(share)) else None
  {
    OfBase(s);
    hide Add;
  }

  lemma ProductNonZero(a: nat, b: nat)
    requires 0 < a < Order && 0 < b < Order
    ensures (a * b) % Order != 0
  {}

  /** What one side computes from the other's message is the product of the two scalars. */
  lemma SharedIsProduct(mask: NonZero, w: Point, mine: Point, theirs: Point)
    requires Message(mask, w, theirs).Some? && 0 < mine
    ensures SharedPoint(mask, w, mine, Message(mask, w, theirs).value) == PointToBytes((theirs * mine) % Order)
    ensures (theirs * mine) % Order != 0
  {
    hide Add, Sub, Message;
    MessageIff(mask, w, theirs);
    Unmasked((mask * w) % Order, theirs);
    ProductNonZero(theirs, mine);
  }

  /**
   * With the same reduced password and AAD, whenever both messages exist, each side accepts the other's
   * message and both build the same transcript; so the confirmations agree and so do the session keys.
   */
  lemma Agreement(w: Point, x: Point, y: Point, aad: Option<Bytes>)
    requires Message(M, w, x).Some? && Message(N, w, y).Some?
    ensures var c := ClientFields(w, x, Message(N, w, y).value, aad);
      var s := ServerFields(w, y, Message(M, w, x).value, aad);
      && c == s
      && c == Some(Fields([65], [66], Message(M, w, x).value, Message(N, w, y).value, Points.encode((x * y) % Order),
                          ScalarBytes(w), aad))
  {
    hide SharedPoint, Message;
    MessageIff(M, w, x);
    MessageIff(N, w, y);
    SharedIsProduct(N, w, x, y);
    SharedIsProduct(M, w, y, x);
    Commutes(x, y);
  }

  lemma Commutes(x: nat, y: nat)
    ensures x * y == y * x
  {}

  // ----- soundness

  /** Two different transcripts with one MAC. */
  predicate MacCollision(k1: Bytes, t1: Bytes, k2: Bytes, t2: Bytes)
  {
    t1 != t2 && HmacSha256(k1, t1) == HmacSha256(k2, t2)
  }

  /**
   * Whatever messages were delivered to the two sides: if the server accepts the client's confirmation, or
   * the client the server's, then both have the same reduced password, saw each other's messages and AAD,
   * and hold the same session key - or the MAC has collided on two different transcripts.
   */
  lemma AcceptanceMeansAgreement(
      wC: Point, x: Point, seenB: Bytes, aadC: Option<Bytes>, wS: Point, y: Point, seenA: Bytes, aadS: Option<Bytes>)
    requires ClientFields(wC, x, seenB, aadC).Some? && ServerFields(wS, y, seenA, aadS).Some?
    requires var c, s := ClientFields(wC, x, seenB, aadC).value, ServerFields(wS, y, seenA, aadS).value;
      && Sized(Listed(c)) && Sized(Listed(s))
      && (ConfirmA(c) == ConfirmA(s) || ConfirmB(c) == ConfirmB(s))
    ensures var c, s := ClientFields(wC, x, seenB, aadC).value, ServerFields(wS, y, seenA, aadS).value;
      || (wC == wS && Message(M, wC, x) == Some(seenA) && Message(N, wS, y) == Some(seenB)
          && Normal(aadC) == Normal(aadS) && KeysOf(c) == KeysOf(s))
      || MacCollision(KeysOf(c).confirmA, Transcript(c), KeysOf(s).confirmA, Transcript(s))
      || MacCollision(KeysOf(c).confirmB, Transcript(c), KeysOf(s).confirmB, Transcript(s))
  {
    var c, s := ClientFields(wC, x, seenB, aadC).value, ServerFields(wS, y, seenA, aadS).value;
    TranscriptInjective(c, s);
    ScalarRoundTrip(wC);
    ScalarRoundTrip(wS);
    hide Transcript, ScalarBytes;
  }

  // ----- what the keys depend on

  /** Section 3.4 of RFC 9382: the hash of the transcript splits into the session key and the key of a KDF. */
  ghost predicate Scheduled(shared: Bytes, confirmA: Bytes, confirmB: Bytes, t: Fields)
  {
    && |shared| == |confirmA| == |confirmB| == 16
    && exists ka ::
         && Sha256(Transcript(t)) == shared + ka
         && Hkdf32(ka, CONFIRMATION_KEYS_INFO + Normal(t.aad)) == confirmA + confirmB
  }

  lemma KeySchedule(t: Fields)
    ensures Scheduled(KeysOf(t).shared, KeysOf(t).confirmA, KeysOf(t).confirmB, t)
  {
    hide Transcript;
    var h := Sha256(Transcript(t));
    var kc := Hkdf32(h[16..], CONFIRMATION_KEYS_INFO + Normal(t.aad));
    assert h == h[..16] + h[16..] && kc == kc[..16] + kc[16..];
  }

  /** Two different inputs whose hashes agree in the first half, or in the second. */
  predicate FirstHalfCollision(x: Bytes, y: Bytes)
  {
    x != y && Sha256(x)[..16] == Sha256(y)[..16]
  }

  predicate SecondHalfCollision(x: Bytes, y: Bytes)
  {
    x != y && Sha256(x)[16..] == Sha256(y)[16..]
  }

  /** Two different inputs of the key derivation with one value for the first half, or the second. */
  predicate KdfCollision(k1: Bytes, info1: Bytes, k2: Bytes, info2: Bytes)
  {
    (k1, info1) != (k2, info2)
    && (Hkdf32(k1, info1)[..16] == Hkdf32(k2, info2)[..16] || Hkdf32(k1, info1)[16..] == Hkdf32(k2, info2)[16..])
  }

  /** One session key means one transcript, up to a collision of half the hash. */
  lemma SessionKeyBinds(
      shared: Bytes, s: Fields, confirmA: Bytes, confirmB: Bytes, t: Fields, confirmA': Bytes, confirmB': Bytes)
    requires Scheduled(shared, confirmA, confirmB, s) && Scheduled(shared, confirmA', confirmB', t)
    ensures Transcript(s) == Transcript(t) || FirstHalfCollision(Transcript(s), Transcript(t))
  {
    hide Transcript;
    var k :| Sha256(Transcript(s)) == shared + k;
    var k' :| Sha256(Transcript(t)) == shared + k';
  }

  /** One confirmation key means one transcript, up to a collision of half the hash or of half the derived keys. */
  lemma ConfirmKeyBinds(
      shared: Bytes, confirmA: Bytes, confirmB: Bytes, s: Fields,
      shared': Bytes, confirmA': Bytes, confirmB': Bytes, t: Fields) returns (k: Bytes, k': Bytes)
    requires Scheduled(shared, confirmA, confirmB, s) && Scheduled(shared', confirmA', confirmB', t)
    requires confirmA == confirmA' || confirmB == confirmB'
    ensures Transcript(s) == Transcript(t) || SecondHalfCollision(Transcript(s), Transcript(t))
      || KdfCollision(k, CONFIRMATION_KEYS_INFO + Normal(s.aad), k', CONFIRMATION_KEYS_INFO + Normal(t.aad))
  {
    hide Transcript;
    k :| Sha256(Transcript(s)) == shared + k
      && Hkdf32(k, CONFIRMATION_KEYS_INFO + Normal(s.aad)) == confirmA + confirmB;
    k' :| Sha256(Transcript(t)) == shared' + k'
      && Hkdf32(k', CONFIRMATION_KEYS_INFO + Normal(t.aad)) == confirmA' + confirmB';
    assert Sha256(Transcript(s))[16..] == k && Sha256(Transcript(t))[16..] == k';
  }

  /** A transcript lists its fields in the order of section 3.3 of RFC 9382, and the AAD last. */
  lemma TranscriptLists(t: Fields)
    requires Sized(Listed(t))
    ensures Parse(Transcript(t)) == Some(
      [t.idA, t.idB, t.msgA, t.msgB, t.k, t.password] + (if Normal(t.aad) == [] then [] else [Normal(t.aad)]))
  {
    ParseInverts(Listed(t));
    hide Parse, Concat, FramedAll;
  }

  // ----- passwords and scalars

  /** `p` is the residue of `v` modulo the group order. */
  ghost predicate IsResidue(p: Point, v: nat)
  {
    exists k: nat :: v == p + k * Order
  }

  lemma Residue(v: nat)
    ensures IsResidue(v % Order, v)
  {
    assert v == v % Order + (v / Order) * Order;
  }

  /** A reduced password is the residue of the password's hash, a scalar that of the 32 random bytes. */
  lemma Reduced(password: Bytes, random: Bytes)
    ensures IsResidue(DerivePassword(password), FromBE(Sha256(password)))
    ensures IsResidue(ScalarOf(random), FromBE(random))
  {
    Residue(FromBE(Sha256(password)));
    Residue(FromBE(random));
  }

  /** Every scalar of the group is drawn by some 32 bytes, and read back from them. */
  lemma ScalarDrawn(s: Point)
    ensures ScalarOf(ScalarBytes(s)) == s
  {
    ScalarRoundTrip(s);
    ModSmall(s, Order);
    hide ScalarBytes;
  }

  /** Different password bytes whose hashes are congruent modulo the group order. */
  ghost predicate PasswordCollision(a: Bytes, b: Bytes)
  {
    a != b && exists p: Point :: IsResidue(p, FromBE(Sha256(a))) && IsResidue(p, FromBE(Sha256(b)))
  }

  /**
   * Carried to what the users typed: if either confirmation is accepted, both sides started from the same
   * password bytes, saw each other's messages and AAD and hold the same session key - or the hashes of two
   * passwords are congruent, or the MAC has collided.
   */
  lemma AcceptanceMeansSamePassword(
      pwC: Bytes, x: Point, seenB: Bytes, aadC: Option<Bytes>, pwS: Bytes, y: Point, seenA: Bytes, aadS: Option<Bytes>)
    requires ClientFields(DerivePassword(pwC), x, seenB, aadC).Some?
    requires ServerFields(DerivePassword(pwS), y, seenA, aadS).Some?
    requires var c, s := ClientFields(DerivePassword(pwC), x, seenB, aadC).value,
                         ServerFields(DerivePassword(pwS), y, seenA, aadS).value;
      && Sized(Listed(c)) && Sized(Listed(s))
      && (ConfirmA(c) == ConfirmA(s) || ConfirmB(c) == ConfirmB(s))
    ensures var c, s := ClientFields(DerivePassword(pwC), x, seenB, aadC).value,
                        ServerFields(DerivePassword(pwS), y, seenA, aadS).value;
      || ((pwC == pwS || PasswordCollision(pwC, pwS))
          && Message(M, DerivePassword(pwC), x) == Some(seenA) && Message(N, DerivePassword(pwS), y) == Some(seenB)
          && Normal(aadC) == Normal(aadS) && KeysOf(c) == KeysOf(s))
      || MacCollision(KeysOf(c).confirmA, Transcript(c), KeysOf(s).confirmA, Transcript(s))
      || MacCollision(KeysOf(c).confirmB, Transcript(c), KeysOf(s).confirmB, Transcript(s))
  {
    AcceptanceMeansAgreement(DerivePassword(pwC), x, seenB, aadC, DerivePassword(pwS), y, seenA, aadS);
    Reduced(pwC, pwC);
    Reduced(pwS, pwS);
    hide DerivePassword, ClientFields, ServerFields, ConfirmA, ConfirmB, Transcript, KeysOf, Message, IsResidue;
  }

  // ----- the two classes; None stands for null, and for an exception in a result

  class SPAKE2Server {
    const password: Point
    const aad: Option<Bytes>
    var scalar: Option<Point>
    var sharedKey: Option<Bytes>
    var confirmKeyA: Option<Bytes>
    var confirmKeyB: Option<Bytes>
    var transcript: Option<Bytes>
    ghost var run: Option<Fields>

    /** The keys are those of the last exchange that did not throw. */
    ghost predicate Valid()
      reads this
    {
      match run
      case None => sharedKey.None? && confirmKeyA.None? && confirmKeyB.None? && transcript.None?
      case Some(t) =>
        && transcript == Some(Transcript(t)) && t.aad == aad
        && sharedKey == Some(KeysOf(t).shared)
        && confirmKeyA == Some(KeysOf(t).confirmA) && confirmKeyB == Some(KeysOf(t).confirmB)
    }

    constructor (passwordBytes: Bytes, aad: Option<Bytes>)
      ensures Valid() && run == None && password == DerivePassword(passwordBytes) && this.aad == aad
    {
      var digest := FoldBytes(Sha256(passwordBytes));
      password := digest % Order;
      this.aad := aad;
      scalar, sharedKey, confirmKeyA, confirmKeyB, transcript, run := None, None, None, None, None, None;
    }

    method Exchange(clientMessage: Bytes, random: Bytes) returns (r: Option<Bytes>)
      requires Valid()
      modifies this
      ensures Valid()
      ensures var t := ServerFields(password, ScalarOf(random), clientMessage, aad);
        if t.Some? then run == t && r == Some(t.value.msgB) else run == old(run) && r == None
    {
      hide Transcript, ScalarBytes, KeysOf, Add, Sub, Mul;
      var pA := Points.decode(clientMessage);
      if pA.None? {
        return None;
      }
      var draw := FoldBytes(random);
      scalar := Some(draw % Order);
      var y := Mul(Base, scalar.value);
      var n := Mul(N, password);
      var wm := Mul(M, password);
      if y.None? || n.None? || wm.None? {
        return None;
      }
      var pB := Add(n.value, y.value);
      var k := Mul(Sub(pA.value, wm.value), scalar.value);
      if k.None? {
        return None;
      }
      var pBData := PointToBytes(pB);
      var kData := PointToBytes(k.value);
      if pBData.None? || kData.None? {
        return None;
      }
      var passData := ScalarToBytes(password);
      var t := Fields(IDENTITY_A, IDENTITY_B, clientMessage, pBData.value, kData.value, passData, aad);
      var tt := BuildTranscript(t);
      transcript, run := Some(tt), Some(t);
      DeriveKeys(tt);
      r := pBData;
    }

    method DeriveKeys(tt: Bytes)
      modifies this`sharedKey, this`confirmKeyA, this`confirmKeyB
      ensures forall t: Fields :: tt == Transcript(t) && t.aad == aad ==>
        && sharedKey == Some(KeysOf(t).shared)
        && confirmKeyA == Some(KeysOf(t).confirmA) && confirmKeyB == Some(KeysOf(t).confirmB)
    {
      hide Transcript;
      var h := Sha256(tt);
      var halfLen := |h| / 2;
      sharedKey := Some(h[..halfLen]);
      var confirmInfo := CONFIRMATION_KEYS_INFO + (if aad.Some? then aad.value else []);
      var kc := Hkdf32(h[halfLen..], confirmInfo);
      confirmKeyA, confirmKeyB := Some(kc[..16]), Some(kc[16..]);
    }

    /** Accepts exactly the confirmation of its own transcript, and answers with its own. */
    method Confirm(clientConfirmation: Bytes) returns (r: Option<Bytes>)
      requires Valid()
      ensures r == if run.Some? && clientConfirmation == ConfirmA(run.value) then Some(ConfirmB(run.value)) else None
    {
      hide Transcript;
      if confirmKeyA.None? || confirmKeyB.None? || transcript.None? {
        return None;
      }
      var expected := HmacSha256(confirmKeyA.value, transcript.value);
      var same := ConstantTimeEqual(clientConfirmation, expected);
      if !same {
        return None;
      }
      r := Some(HmacSha256(confirmKeyB.value, transcript.value));
    }

    method SessionKey() returns (r: Option<Bytes>)
      requires Valid()
      ensures r == sharedKey && (r.Some? <==> run.Some?)
      ensures r.Some? ==> r.value == Sha256(Transcript(run.value))[..16]
    {
      hide Transcript;
      r := sharedKey;
    }
  }

  class SPAKE2Client {
    const password: Point
    const aad: Option<Bytes>
    var scalar: Option<Point>
    var sharedKey: Option<Bytes>
    var confirmKeyA: Option<Bytes>
    var confirmKeyB: Option<Bytes>
    var transcript: Option<Bytes>
    ghost var run: Option<Fields>

    ghost predicate Valid()
      reads this
    {
      match run
      case None => sharedKey.None? && confirmKeyA.None? && confirmKeyB.None? && transcript.None?
      case Some(t) =>
        && transcript == Some(Transcript(t)) && t.aad == aad
        && sharedKey == Some(KeysOf(t).shared)
        && confirmKeyA == Some(KeysOf(t).confirmA) && confirmKeyB == Some(KeysOf(t).confirmB)
    }

    constructor (passwordBytes: Bytes, aad: Option<Bytes>)
      ensures Valid() && run == None && scalar == None
      ensures password == DerivePassword(passwordBytes) && this.aad == aad
    {
      var digest := FoldBytes(Sha256(passwordBytes));
      password := digest % Order;
      this.aad := aad;
      scalar, sharedKey, confirmKeyA, confirmKeyB, transcript, run := None, None, None, None, None, None;
    }

    method Start(random: Bytes) returns (r: Option<Bytes>)
      requires Valid()
      modifies this`scalar
      ensures Valid() && scalar == Some(ScalarOf(random)) && r == Message(M, password, ScalarOf(random))
    {
      hide Message, KeysOf, Transcript;
      var draw := FoldBytes(random);
      scalar := Some(draw % Order);
      r := RegenerateInitialMessage();
    }

    method RegenerateInitialMessage() returns (r: Option<Bytes>)
      ensures r == if scalar.Some? then Message(M, password, scalar.value) else None
    {
      if scalar.None? {
        return None;
      }
      var x := Mul(Base, scalar.value);
      var m := Mul(M, password);
      if x.None? || m.None? {
        return None;
      }
      r := PointToBytes(Add(m.value, x.value));
    }

    method Finish(serverMessage: Bytes) returns (r: Option<Bytes>)
      requires Valid()
      modifies this`sharedKey, this`confirmKeyA, this`confirmKeyB, this`transcript, this`run
      ensures Valid()
      ensures var t := if scalar.Some? then ClientFields(password, scalar.value, serverMessage, aad) else None;
        if t.Some? then run == t && r == Some(ConfirmA(t.value)) else run == old(run) && r == None
    {
      hide Transcript, ScalarBytes, KeysOf, Add, Sub, Mul, Message;
      if scalar.None? {
        return None;
      }
      var pB := Points.decode(serverMessage);
      var wn := Mul(N, password);
      if pB.None? || wn.None? {
        return None;
      }
      var k := Mul(Sub(pB.value, wn.value), scalar.value);
      if k.None? {
        return None;
      }
      var pAData := RegenerateInitialMessage();
      var kData := PointToBytes(k.value);
      if pAData.None? || kData.None? {
        return None;
      }
      var passData := ScalarToBytes(password);
      var t := Fields(IDENTITY_A, IDENTITY_B, pAData.value, serverMessage, kData.value, passData, aad);
      var tt := BuildTranscript(t);
      transcript, run := Some(tt), Some(t);
      DeriveKeys(tt);
      r := Some(HmacSha256(confirmKeyA.value, tt));
    }

    method DeriveKeys(tt: Bytes)
      modifies this`sharedKey, this`confirmKeyA, this`confirmKeyB
      ensures confirmKeyA.Some?
      ensures forall t: Fields :: tt == Transcript(t) && t.aad == aad ==>
        && sharedKey == Some(KeysOf(t).shared)
        && confirmKeyA == Some(KeysOf(t).confirmA) && confirmKeyB == Some(KeysOf(t).confirmB)
    {
      hide Transcript;
      var h := Sha256(tt);
      var halfLen := |h| / 2;
      sharedKey := Some(h[..halfLen]);
      var confirmInfo := CONFIRMATION_KEYS_INFO + (if aad.Some? then aad.value else []);
      var kc := Hkdf32(h[halfLen..], confirmInfo);
      confirmKeyA, confirmKeyB := Some(kc[..16]), Some(kc[16..]);
    }

    /** Accepts exactly the server's confirmation of the client's transcript. */
    method Verify(serverConfirmation: Bytes) returns (ok: bool)
      requires Valid()
      ensures ok <==> run.Some? && serverConfirmation == ConfirmB(run.value)
    {
      hide Transcript;
      if confirmKeyB.None? || transcript.None? {
        return false;
      }
      var expected := HmacSha256(confirmKeyB.value, transcript.value);
      ok := ConstantTimeEqual(serverConfirmation, expected);
    }

    method SessionKey() returns (r: Option<Bytes>)
      requires Valid()
      ensures r == sharedKey && (r.Some? <==> run.Some?)
      ensures r.Some? ==> r.value == Sha256(Transcript(run.value))[..16]
    {
      hide Transcript;
      r := sharedKey;
    }
  }

  /** A whole handshake over a faithful channel: it fails only if a message does not exist. */
  method CompleteSPAKE2(password: Bytes, aad: Option<Bytes>, randomX: Bytes, randomY: Bytes)
    returns (clientKey: Option<Bytes>, serverKey: Option<Bytes>)
    ensures var w := DerivePassword(password);
      clientKey.Some? <==> Message(M, w, ScalarOf(randomX)).Some? && Message(N, w, ScalarOf(randomY)).Some?
    ensures clientKey == serverKey
  {
    hide ScalarOf, DerivePassword, Message, SharedPoint, ClientFields, KeysOf, Transcript, ConfirmA, ConfirmB;
    clientKey, serverKey := None, None;
    var client := new SPAKE2Client(password, aad);
    var server := new SPAKE2Server(password, aad);
    var msgA := client.Start(randomX);
    if msgA.None? {
      return;
    }
    ghost var w, x, y := client.password, ScalarOf(randomX), ScalarOf(randomY);
    if Message(M, w, x).Some? && Message(N, w, y).Some? {
      Agreement(w, x, y, aad);
    }
    var msgB := server.Exchange(msgA.value, randomY);
    if msgB.None? {
      return;
    }
    var confirmA := client.Finish(msgB.value);
    var confirmB := server.Confirm(confirmA.value);
    var ok := client.Verify(confirmB.value);
    clientKey := client.SessionKey();
    serverKey := server.SessionKey();
  }

  /** Two runs with one session key have one transcript, up to a collision of half the hash. */
  lemma SessionKeysBind(a: SPAKE2Client, b: SPAKE2Server)
    requires a.Valid() && b.Valid() && a.run.Some? && b.run.Some? && a.sharedKey == b.sharedKey
    requires Sized(Listed(a.run.value)) && Sized(Listed(b.run.value))
    ensures
      || (a.run.value.(aad := None) == b.run.value.(aad := None) && Normal(a.aad) == Normal(b.aad))
      || FirstHalfCollision(Transcript(a.run.value), Transcript(b.run.value))
  {
    var s, t := a.run.value, b.run.value;
    KeySchedule(s);
    KeySchedule(t);
    hide KeysOf, Transcript, Scheduled;
    var k, k' := KeysOf(s), KeysOf(t);
    SessionKeyBinds(k.shared, s, k.confirmA, k.confirmB, t, k'.confirmA, k'.confirmB);
    TranscriptInjective(s, t);
  }
}
