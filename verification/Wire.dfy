/**
 * The layouts of the messages that cross the relay, their builders (internal/sharer/sharer.go:332-392,
 * internal/relay/relay.go:333-359) and how a viewer dispatches on them.
 */
module Wire {
  import opened ByteStrings
  import opened SessionState

  /** viewerID(6) + nonce(12) + ciphertext: the same untagged layout for key deliveries and rekeys. */
  function KeyDelivery(id: Id, enc: Payload): Bytes
  {
    Fit(id, VIEWER_ID_LEN) + Fit(enc.nonce, NONCE_LEN) + enc.cipher
  }

  /** tag(1) + epoch(8) + nonce(12) + ciphertext. */
  function FrameBytes(tag: Byte, f: Frame): Bytes
  {
    [tag] + ToBE(f.epoch, 8) + Fit(f.nonce, NONCE_LEN) + f.cipher
  }

  /** tag(1) + viewerID(6) + payload, the envelope of unicasts and of relayed handshake messages. */
  function Addressed(tag: Byte, id: Id, payload: Bytes): Bytes
  {
    [tag] + Fit(id, VIEWER_ID_LEN) + payload
  }

  function Disconnected(id: Id): Bytes
  {
    [TAG_CONTROL, CTRL_VIEWER_DISCONNECTED] + Fit(id, VIEWER_ID_LEN)
  }

  // ----- the viewer's side

  /** A message that is not one of the tagged kinds reaches the default branch of the dispatch. */
  predicate IsDefault(m: Bytes)
  {
    m != [] && m[0] !in {TAG_STREAM, TAG_TERM_SIZE, TAG_PONG, TAG_CONTROL}
  }

  predicate IsFrame(m: Bytes)
  {
    m != [] && m[0] in {TAG_STREAM, TAG_TERM_SIZE}
  }

  /** Identifiers are drawn from [a-z0-9]. */
  predicate IsViewerId(id: Id)
  {
    |id| == VIEWER_ID_LEN && forall i :: 0 <= i < |id| ==> 97 <= id[i] <= 122 || 48 <= id[i] <= 57
  }

  /** An identifier at the head of a message that no tag of the dispatch captures. */
  predicate IsUntagged(id: Id)
  {
    |id| == VIEWER_ID_LEN && IsDefault(id)
  }

  const MIN_FRAME := 1 + 8 + NONCE_LEN + GCM_TAG_LEN

  function FrameEpoch(m: Bytes): nat
    requires |m| >= MIN_FRAME
  {
    FromBE(m[1..9])
  }

  function FrameNonce(m: Bytes): (n: Bytes)
    requires |m| >= MIN_FRAME
    ensures |n| == NONCE_LEN
  {
    m[9..21]
  }

  function FrameCipher(m: Bytes): Bytes
    requires |m| >= MIN_FRAME
  {
    m[21..]
  }

  /** A frame parses back to what was built, whichever tag it carries. */
  lemma FrameRoundTrip(tag: Byte, f: Frame)
    requires |f.nonce| == NONCE_LEN && f.epoch < U64 && |f.cipher| >= GCM_TAG_LEN
    ensures var m := FrameBytes(tag, f);
      |m| == 21 + |f.cipher| && m[0] == tag
      && FrameEpoch(m) == f.epoch && FrameNonce(m) == f.nonce && FrameCipher(m) == f.cipher
      && FromBE(m[1..9]) == f.epoch && m[9..21] == f.nonce && m[21..] == f.cipher
  {
    var m := FrameBytes(tag, f);
    Pow256Of8();
    FromToBE(f.epoch, 8);
    assert m[1..9] == ToBE(f.epoch, 8);
  }

  const MIN_DELIVERY := VIEWER_ID_LEN + NONCE_LEN + 1
  const MIN_REKEY := VIEWER_ID_LEN + NONCE_LEN + GCM_TAG_LEN + 1

  /** A key delivery parses back, and no tag of the dispatch can capture it. */
  lemma DeliveryRoundTrip(id: Id, enc: Payload)
    requires IsUntagged(id) && |enc.nonce| == NONCE_LEN
    ensures var m := KeyDelivery(id, enc);
      |m| == 18 + |enc.cipher| && IsDefault(m) && m[..6] == id && m[6..18] == enc.nonce && m[18..] == enc.cipher
  {}

  /** The relay strips the envelope: target and payload come back. */
  lemma AddressedRoundTrip(tag: Byte, id: Id, payload: Bytes)
    requires |id| == VIEWER_ID_LEN
    ensures var m := Addressed(tag, id, payload); |m| >= 7 && m[0] == tag && m[1..7] == id && m[7..] == payload
  {}

  /** A notice is 6, 7 and the viewer's identifier. */
  lemma NoticeRoundTrip(id: Id)
    requires |id| == 6
    ensures Disconnected(id) == [6, 7] + id
  {}

  // ----- the builders, filling byte buffers

  method BuildKeyDelivery(id: Id, enc: Payload) returns (out: Bytes)
    ensures out == KeyDelivery(id, enc)
  {
    var buf := new Byte[VIEWER_ID_LEN + NONCE_LEN + |enc.cipher|](_ => 0);
    Copy(buf, 0, VIEWER_ID_LEN, id);
    Copy(buf, VIEWER_ID_LEN, VIEWER_ID_LEN + NONCE_LEN, enc.nonce);
    Copy(buf, VIEWER_ID_LEN + NONCE_LEN, buf.Length, enc.cipher);
    out := buf[..];
  }

  /** buildStreamFrame and buildTermSizeFrame differ in the tag only. */
  method BuildFrame(tag: Byte, cipher: Bytes, nonce: Bytes, epoch: nat) returns (out: Bytes)
    ensures out == FrameBytes(tag, Frame(cipher, nonce, epoch))
  {
    var buf := new Byte[1 + 8 + NONCE_LEN + |cipher|](_ => 0);
    buf[0] := tag;
    PutUint64(buf, 1, epoch);
    Copy(buf, 9, 9 + NONCE_LEN, nonce);
    Copy(buf, 9 + NONCE_LEN, buf.Length, cipher);
    hide ToBE;
    out := buf[..];
  }

  method BuildAddressed(tag: Byte, id: Id, payload: Bytes) returns (out: Bytes)
    ensures out == Addressed(tag, id, payload)
  {
    var buf := new Byte[1 + VIEWER_ID_LEN + |payload|](_ => 0);
    buf[0] := tag;
    Copy(buf, 1, 1 + VIEWER_ID_LEN, id);
    Copy(buf, 1 + VIEWER_ID_LEN, buf.Length, payload);
    out := buf[..];
  }

  /** The notice that a viewer is gone, as runViewer fills it in. */
  method BuildDisconnected(id: Id) returns (out: Bytes)
    ensures out == Disconnected(id)
  {
    var buf := new Byte[2 + VIEWER_ID_LEN](_ => 0);
    buf[0], buf[1] := TAG_CONTROL, CTRL_VIEWER_DISCONNECTED;
    Copy(buf, 2, 2 + VIEWER_ID_LEN, id);
    out := buf[..];
  }
}
