/**
 * What a relay can do to a viewer within the safety theorem of Adversary, and exactly when: set it back to an
 * older stream key with a replayed delivery, and pass a stream frame off as a terminal size or the reverse.
 */
module Tampering {
  import opened ByteStrings
  import opened Aead
  import opened Adversary
  import opened Nonces
  import opened Wire
  import H = SharerState
  import S = SessionState
  import V = ViewerState

  // ----- replayed deliveries

  /** The bytes in which a sealed stream key travels to the viewer `id`. */
  function DeliveryOf(id: Id, e: Sealed): Bytes
  {
    KeyDelivery(id, S.PayloadOf(e))
  }

  /** A delivery or rekey that was sealed for the viewer and carries a key other than the one it holds. */
  predicate CarriesOtherKey(v: V.State, m: Bytes, log: seq<Sealed>)
  {
    exists i :: 0 <= i < |log| && log[i].key == Auth(v.authKey) && log[i].plain !in {[], v.streamKey}
                && m == DeliveryOf(v.id, log[i])
  }

  lemma DeliveryOpens(v: V.State, log: seq<Sealed>, draws: nat, i: nat)
    requires S.Ordered(log, draws) && IsUntagged(v.id) && i < |log|
    requires log[i].key == Auth(v.authKey) && log[i].plain != []
    ensures var m := DeliveryOf(v.id, log[i]);
      IsDefault(m) && V.ProcessRekey(v, m, log) == (v.(streamKey := log[i].plain, failures := 0), None)
  {
    hide S.Ordered, Open, KeyDelivery;
    NoncesDiffer(log, draws, i);
    DeliveryRoundTrip(v.id, S.PayloadOf(log[i]));
    OpenSealed(log, i);
  }

  lemma NoncesDiffer(log: seq<Sealed>, draws: nat, i: nat)
    requires S.Ordered(log, draws) && i < |log|
    ensures |log[i].nonce| == NONCE_LEN
    ensures forall j :: 0 <= j < |log| && j != i ==> log[j].nonce != log[i].nonce
  {
    forall j | 0 <= j < |log| && j != i ensures log[j].nonce != log[i].nonce {
      assert NonceVal(log[j].nonce) != NonceVal(log[i].nonce);
    }
  }

  /** What a rekey that the viewer takes must have been. */
  lemma RekeyWas(v: V.State, m: Bytes, log: seq<Sealed>) returns (i: nat)
    requires V.ProcessRekey(v, m, log).1.None? && |v.id| == VIEWER_ID_LEN
    requires forall j :: 0 <= j < |log| ==> |log[j].nonce| == NONCE_LEN
    ensures i < |log| && log[i].key == Auth(v.authKey) && log[i].plain != [] && m == DeliveryOf(v.id, log[i])
    ensures V.ProcessRekey(v, m, log).0 == v.(streamKey := log[i].plain, failures := 0)
  {
    i := OpenSound(log, Auth(v.authKey), m[6..18], m[18..]);
    assert m == m[..6] + m[6..18] + m[18..];
  }

  /**
   * When a message changes the stream key a viewer holds: exactly when it is a delivery or rekey that was
   * ever sealed for it, new or old, and carries another key.
   */
  lemma KeyChangesIff(v: V.State, m: Bytes, now: int, log: seq<Sealed>, draws: nat)
    requires S.Ordered(log, draws) && IsUntagged(v.id)
    ensures V.Step(v, m, now, log).0.streamKey != v.streamKey <==> CarriesOtherKey(v, m, log)
  {
    hide V.DecryptAndWrite, V.DecryptAndApplySize, V.ProcessRekey, DeliveryOf, S.Ordered;
    NonceLengths(log, draws);
    FramesKeepKey(v, m, now, log);
    if CarriesOtherKey(v, m, log) {
      var i :| 0 <= i < |log| && log[i].key == Auth(v.authKey) && log[i].plain !in {[], v.streamKey}
        && m == DeliveryOf(v.id, log[i]);
      DeliveryOpens(v, log, draws, i);
    }
    if IsDefault(m) && V.ProcessRekey(v, m, log).1.None? {
      var i := RekeyWas(v, m, log);
    } else {
      RekeyRefused(v, m, log);
    }
  }

  lemma NonceLengths(log: seq<Sealed>, draws: nat)
    requires S.Ordered(log, draws)
    ensures forall j :: 0 <= j < |log| ==> |log[j].nonce| == NONCE_LEN
  {}

  lemma FramesKeepKey(v: V.State, m: Bytes, now: int, log: seq<Sealed>)
    ensures V.DecryptAndWrite(v, m, now, log).0.streamKey == v.streamKey
    ensures V.DecryptAndApplySize(v, m, now, log).streamKey == v.streamKey
  {
    hide V.ValidateEpoch, Open;
  }

  lemma RekeyRefused(v: V.State, m: Bytes, log: seq<Sealed>)
    ensures V.ProcessRekey(v, m, log).1.Some? ==> V.ProcessRekey(v, m, log).0 == v
  {
    hide Open;
  }

  ghost predicate CanBeSetTo(v: V.State, k: Bytes, log: seq<Sealed>)
  {
    exists m :: IsDefault(m) && V.ProcessRekey(v, m, log) == (v.(streamKey := k, failures := 0), None)
  }

  /** The keys a relay can make a viewer hold are exactly those that were ever sealed for it. */
  lemma SetBackIff(v: V.State, k: Bytes, log: seq<Sealed>, draws: nat)
    requires S.Ordered(log, draws) && IsUntagged(v.id)
    ensures CanBeSetTo(v, k, log) <==> k in Grants(log, v.authKey) && k != []
  {
    hide V.ProcessRekey, DeliveryOf, S.Ordered;
    NonceLengths(log, draws);
    if CanBeSetTo(v, k, log) {
      var m :| IsDefault(m) && V.ProcessRekey(v, m, log) == (v.(streamKey := k, failures := 0), None);
      var i := RekeyWas(v, m, log);
    }
    if k in Grants(log, v.authKey) && k != [] {
      var i :| 0 <= i < |log| && log[i].key == Auth(v.authKey) && log[i].plain == k;
      DeliveryOpens(v, log, draws, i);
      assert V.ProcessRekey(v, DeliveryOf(v.id, log[i]), log) == (v.(streamKey := k, failures := 0), None);
    }
  }

  /** A viewer never holds an identifier that begins like a tagged message, whoever chose it. */
  predicate HoldsUntagged(p: V.Phase)
  {
    V.StateOf(p).Some? ==> IsUntagged(V.StateOf(p).value.id)
  }

  lemma ReceiveHoldsUntagged(p: V.Phase, m: Bytes, now: int, log: seq<Sealed>)
    requires HoldsUntagged(p)
    ensures HoldsUntagged(V.Receive(p, m, now, log))
  {
    hide V.ValidateEpoch, Open;
  }

  lemma {:induction false} RunHoldsUntagged(w: World, es: seq<Event>, auth: Bytes, t: World)
    requires Run(w, es, auth, t) && HoldsUntagged(w.viewer)
    ensures HoldsUntagged(t.viewer)
    decreases |es|
  {
    hide HoldsUntagged, V.Receive, S.Apply;
    if es != [] {
      if es[0].Deliver? {
        ReceiveHoldsUntagged(w.viewer, es[0].m, es[0].now, w.sess.log);
      }
      RunHoldsUntagged(Next(w, es[0], auth), es[1..], auth, t);
    }
  }

  /**
   * Against any relay, which may also have rewritten the identifier in the first delivery: the keys that one
   * message can make a running viewer hold are exactly those ever sealed for it, and a message changes its key
   * exactly if it carries another of them under the identifier that the viewer holds.
   */
  lemma KeysOfAnyRelay(streamKey: Bytes, es: seq<Event>, auth: Bytes, t: World, k: Bytes, m: Bytes, now: int)
    requires |streamKey| == KEY_LEN && Run(Start(streamKey, auth), es, auth, t)
    requires t.sess.draws < U64 && t.viewer.Streaming?
    ensures IsUntagged(t.viewer.v.id) && t.viewer.v.authKey == auth
    ensures CanBeSetTo(t.viewer.v, k, t.sess.log) <==> k in Grants(t.sess.log, auth) && k != []
    ensures V.Step(t.viewer.v, m, now, t.sess.log).0.streamKey != t.viewer.v.streamKey
      <==> CarriesOtherKey(t.viewer.v, m, t.sess.log)
  {
    hide Run, CanBeSetTo, CarriesOtherKey, S.Ordered, V.Step, Genuine, Increasing;
    StartInv(streamKey, auth);
    RunKeepsSafe(Start(streamKey, auth), es, auth, t);
    RunHoldsUntagged(Start(streamKey, auth), es, auth, t);
    SetBackIff(t.viewer.v, k, t.sess.log, t.sess.draws);
    KeyChangesIff(t.viewer.v, m, now, t.sess.log, t.sess.draws);
  }

  /** The session after one registration, and what it seals. */
  lemma Registered(s: S.State, key: Bytes, id: Id)
    requires !s.closed && |key| == KEY_LEN
    ensures S.Apply(s, S.OpRegister(key, id, 0, S.CLI)) == s.(
      draws := s.draws + 1, log := s.log + [Sealed(Auth(key), NonceOf(s.draws + 1), s.streamKey)],
      viewers := s.viewers[id := S.Member(key, 0, S.CLI)])
  {
    hide NonceOf;
  }

  /** A viewer that waits for its key takes a delivery sealed for it. */
  lemma FirstDelivery(auth: Bytes, id: Id, log: seq<Sealed>, draws: nat, i: nat)
    requires S.Ordered(log, draws) && IsUntagged(id) && i < |log|
    requires log[i].key == Auth(auth) && log[i].plain != []
    ensures V.Receive(V.AwaitKey(auth), DeliveryOf(id, log[i]), 0, log)
      == V.Streaming(V.State(log[i].plain, auth, id, 0, 0, V.EpochClock(false, 0, 0), 0, 0, []))
  {
    hide S.Ordered, Open, KeyDelivery;
    NoncesDiffer(log, draws, i);
    DeliveryRoundTrip(id, S.PayloadOf(log[i]));
    OpenSealed(log, i);
  }

  lemma LaterDelivery(v: V.State, log: seq<Sealed>, draws: nat, i: nat)
    requires S.Ordered(log, draws) && IsUntagged(v.id) && i < |log|
    requires log[i].key == Auth(v.authKey) && log[i].plain != []
    ensures V.Receive(V.Streaming(v), DeliveryOf(v.id, log[i]), 0, log)
      == V.Streaming(v.(streamKey := log[i].plain, failures := 0))
  {
    hide S.Ordered, V.ProcessRekey, DeliveryOf;
    DeliveryOpens(v, log, draws, i);
  }

  /** The session of SetBackRun after its k-th step that is not a delivery. */
  function Stage(k0: Bytes, k1: Bytes, auth: Bytes, other: Bytes, id: Id, id2: Id, k: nat): S.State
  {
    var s := S.Initial(k0);
    var s1 := s.(draws := 1, log := [Sealed(Auth(auth), NonceOf(1), k0)],
                 viewers := map[id := S.Member(auth, 0, S.CLI)]);
    var s2 := s1.(draws := 2, log := s1.log + [Sealed(Auth(other), NonceOf(2), k0)],
                  viewers := s1.viewers[id2 := S.Member(other, 0, S.CLI)]);
    if k == 0 then s else if k == 1 then s1 else if k == 2 then s2 else
      s1.(streamKey := k1, revoked := {id2}, draws := 3, log := s2.log + [Sealed(Auth(auth), NonceOf(3), k1)])
  }

  predicate Distinct(k0: Bytes, k1: Bytes, auth: Bytes, other: Bytes, id: Id, id2: Id)
  {
    && |k0| == |k1| == |auth| == |other| == KEY_LEN && k0 != k1 && auth != other
    && IsViewerId(id) && IsViewerId(id2) && id != id2
  }

  lemma Stages(k0: Bytes, k1: Bytes, auth: Bytes, other: Bytes, id: Id, id2: Id)
    requires Distinct(k0, k1, auth, other, id, id2)
    ensures var st := k => Stage(k0, k1, auth, other, id, id2, k);
      && S.Apply(st(0), S.OpRegister(auth, id, 0, S.CLI)) == st(1)
      && S.Apply(st(1), S.OpRegister(other, id2, 0, S.CLI)) == st(2)
      && S.Possible(st(2), S.OpRevoke(id2, k1, [id])) && S.Apply(st(2), S.OpRevoke(id2, k1, [id])) == st(3)
  {
    hide NonceOf;
    var s1, s2 := Stage(k0, k1, auth, other, id, id2, 1), Stage(k0, k1, auth, other, id, id2, 2);
    Registered(S.Initial(k0), auth, id);
    Registered(s1, other, id2);
    assert s2.viewers.Keys - {id2} == {id};
    assert s2.viewers - {id2} == s1.viewers;
    S.RevokeOutcome(s2, id2, k1, [id]);
    S.RekeysAt(S.Without(s2, id2), k1, [id], 0);
  }

  lemma StageOrdered(k0: Bytes, k1: Bytes, auth: Bytes, other: Bytes, id: Id, id2: Id, k: nat)
    requires k <= 3
    ensures S.Ordered(Stage(k0, k1, auth, other, id, id2, k).log, Stage(k0, k1, auth, other, id, id2, k).draws)
  {
    hide NonceOf, NonceVal;
    NonceRoundTrip(1);
    NonceRoundTrip(2);
    NonceRoundTrip(3);
  }

  lemma Then(w: World, e: Event, auth: Bytes, rest: seq<Event>, t: World) returns (es: seq<Event>)
    requires Possible(w, e) && Fresh(w, e) && FreshRun(Next(w, e, auth), rest, auth, t)
    ensures es == [e] + rest && FreshRun(w, es, auth, t)
  {
    es := [e] + rest;
    assert es[0] == e && es[1..] == rest;
  }

  /**
   * A viewer that has taken the current key can lose it again: after another viewer was revoked and the rekey
   * taken, its own first key delivery, replayed, sets it back to the key of before the revocation.
   */
  lemma SetBackRun(k0: Bytes, k1: Bytes, auth: Bytes, other: Bytes, id: Id, id2: Id)
    returns (es: seq<Event>, current: World, t: World)
    requires Distinct(k0, k1, auth, other, id, id2)
    ensures FreshRun(Start(k0, auth), es, auth, current) && current.viewer.Streaming? && current.sess.log != []
    ensures current.viewer.v.streamKey == current.sess.streamKey == k1
    ensures var first := DeliveryOf(id, current.sess.log[0]);
      t == Next(current, Deliver(first, 0), auth) && t.viewer.Streaming?
    ensures t.sess.streamKey == k1 && t.viewer.v.streamKey == k0 != k1
  {
    hide Stage, DeliveryOf, S.Apply, V.Receive, S.Ordered, FreshRun;
    Stages(k0, k1, auth, other, id, id2);
    var s0, s1 := Stage(k0, k1, auth, other, id, id2, 0), Stage(k0, k1, auth, other, id, id2, 1);
    var s2, s3 := Stage(k0, k1, auth, other, id, id2, 2), Stage(k0, k1, auth, other, id, id2, 3);
    StageFacts(k0, k1, auth, other, id, id2);
    StageOrdered(k0, k1, auth, other, id, id2, 1);
    StageOrdered(k0, k1, auth, other, id, id2, 3);
    var v0 := V.State(k0, auth, id, 0, 0, V.EpochClock(false, 0, 0), 0, 0, []);
    var v1 := v0.(streamKey := k1);
    FirstDelivery(auth, id, s1.log, 1, 0);
    LaterDelivery(v0, s3.log, 3, 2);
    LaterDelivery(v1, s3.log, 3, 0);
    var first, second := DeliveryOf(id, s3.log[0]), DeliveryOf(id, s3.log[2]);
    var w0 := Start(k0, auth);
    var w1 := World(s1, V.AwaitKey(auth), None, {k0}, {auth});
    var w2 := World(s1, V.Streaming(v0), None, {k0}, {auth});
    var w3 := World(s2, V.Streaming(v0), None, {k0}, {auth, other});
    var w4 := World(s3, V.Streaming(v0), None, {k0, k1}, {auth, other});
    current := World(s3, V.Streaming(v1), None, {k0, k1}, {auth, other});
    t := World(s3, V.Streaming(v1.(streamKey := k0)), None, {k0, k1}, {auth, other});
    assert {} + {auth} == {auth} && {auth} + {other} == {auth, other} && {k0} + {k1} == {k0, k1};
    es := NoMore(current, auth);
    es := Then(w4, Deliver(second, 0), auth, es, current);
    es := Then(w3, Local(S.OpRevoke(id2, k1, [id])), auth, es, current);
    es := Then(w2, Local(S.OpRegister(other, id2, 0, S.CLI)), auth, es, current);
    es := Then(w1, Deliver(first, 0), auth, es, current);
    es := Then(w0, Local(S.OpRegister(auth, id, 0, S.CLI)), auth, es, current);
  }

  lemma NoMore(w: World, auth: Bytes) returns (es: seq<Event>)
    ensures es == [] && FreshRun(w, es, auth, w)
  {
    es := [];
  }

  lemma StageFacts(k0: Bytes, k1: Bytes, auth: Bytes, other: Bytes, id: Id, id2: Id)
    requires Distinct(k0, k1, auth, other, id, id2)
    ensures var st := k => Stage(k0, k1, auth, other, id, id2, k);
      && st(0) == S.Initial(k0) && st(1).draws == 1 && st(3).draws == 3 && st(3).streamKey == k1
      && |st(1).log| == 1 && |st(3).log| == 3 && st(3).log[0] == st(1).log[0]
      && st(1).log[0].key == st(3).log[2].key == Auth(auth)
      && st(1).log[0].plain == k0 && st(3).log[2].plain == k1
      && !st(2).closed && id2 in st(2).viewers && st(2).viewers[id2].authKey == other
  {}

  // ----- changed tags

  function TagOf(kind: V.Kind): Byte
  {
    if kind.Written? then TAG_STREAM else TAG_TERM_SIZE
  }

  function Retagged(m: Bytes, tag: Byte): Bytes
    requires m != []
  {
    [tag] + m[1..]
  }

  function PlainOf(v: V.State, m: Bytes, log: seq<Sealed>): Option<Bytes>
    requires |m| >= MIN_FRAME
  {
    Open(log, EpochKey(v.streamKey, FrameEpoch(m)), FrameNonce(m), FrameCipher(m))
  }

  /** A stream frame that would be written is, under the other tag, applied as a size if long enough, or ignored. */
  lemma StreamAsSizeIff(v: V.State, m: Bytes, now: int, log: seq<Sealed>)
    requires |m| >= MIN_FRAME && m[0] == TAG_STREAM && V.DecryptAndWrite(v, m, now, log).1.None?
    ensures PlainOf(v, m, log).Some?
    ensures var plain := PlainOf(v, m, log).value;
      V.Step(v, Retagged(m, TAG_TERM_SIZE), now, log).0.accepted ==
        if |plain| >= 4 then v.accepted + [V.Accepted(NonceVal(FrameNonce(m)), plain, V.Applied)] else v.accepted
  {
    SameFields(m, TAG_TERM_SIZE);
    var i := OpenSound(log, EpochKey(v.streamKey, FrameEpoch(m)), FrameNonce(m), FrameCipher(m));
    hide V.ValidateEpoch, Open, FrameEpoch, FrameNonce, NonceVal, FromBE;
  }

  /** A size frame that would be applied is written as output under the other tag. */
  lemma SizeAsStream(v: V.State, m: Bytes, now: int, log: seq<Sealed>)
    requires |m| >= MIN_FRAME && m[0] == TAG_TERM_SIZE && V.DecryptAndApplySize(v, m, now, log).accepted != v.accepted
    ensures PlainOf(v, m, log).Some?
    ensures V.Step(v, Retagged(m, TAG_STREAM), now, log).0.accepted
      == v.accepted + [V.Accepted(NonceVal(FrameNonce(m)), PlainOf(v, m, log).value, V.Written)]
  {
    SameFields(m, TAG_STREAM);
    hide V.ValidateEpoch, Open, FrameEpoch, FrameNonce, FrameCipher, NonceVal, FromBE;
  }

  lemma SameFields(m: Bytes, tag: Byte)
    requires |m| >= MIN_FRAME
    ensures var r := Retagged(m, tag);
      && |r| == |m| && r[0] == tag && FrameEpoch(r) == FrameEpoch(m) && FrameNonce(r) == FrameNonce(m)
      && FrameCipher(r) == FrameCipher(m)
  {
    var r := Retagged(m, tag);
    assert r[1..9] == m[1..9] && r[9..21] == m[9..21] && r[21..] == m[21..];
  }

  /** The message is, but for its tag, the frame of a logged call. */
  predicate IsFrameFor(m: Bytes, e: Sealed)
  {
    && |m| >= MIN_FRAME && e.key.EpochKey? && |e.nonce| == NONCE_LEN
    && m == FrameBytes(m[0], S.Frame(Gcm(e.key, e.nonce, e.plain), e.nonce, e.key.epoch))
  }

  /**
   * `kindOf` says for which kind of frame each nonce was drawn; below 2^64 draws that is one kind for each
   * EncryptFrame call.  A message is untampered if it does not carry the frame of a call under another tag.
   */
  predicate Untampered(m: Bytes, log: seq<Sealed>, kindOf: nat -> V.Kind)
  {
    IsFrame(m) ==>
      forall i :: 0 <= i < |log| && IsFrameFor(m, log[i]) ==> m[0] == TagOf(kindOf(NonceVal(log[i].nonce)))
  }

  /** What it takes for a message to add to the history of a viewer. */
  lemma AcceptedWas(v: V.State, m: Bytes, now: int, log: seq<Sealed>)
    ensures var w := V.Step(v, m, now, log).0;
      w.accepted != v.accepted ==>
        && IsFrame(m) && |m| >= MIN_FRAME && PlainOf(v, m, log).Some?
        && w.accepted == v.accepted + [V.Accepted(NonceVal(FrameNonce(m)), PlainOf(v, m, log).value,
                                                  if m[0] == TAG_STREAM then V.Written else V.Applied)]
  {
    hide V.ValidateEpoch, Open, FrameEpoch, FrameNonce, FrameCipher, NonceVal, FromBE;
  }

  /** A frame that opens is the frame of a logged call. */
  lemma OpensLogged(v: V.State, m: Bytes, log: seq<Sealed>) returns (i: nat)
    requires |m| >= MIN_FRAME && PlainOf(v, m, log).Some?
    ensures i < |log| && IsFrameFor(m, log[i]) && log[i].nonce == FrameNonce(m)
  {
    i := OpenSound(log, EpochKey(v.streamKey, FrameEpoch(m)), FrameNonce(m), FrameCipher(m));
    ToFromBE(m[1..9]);
    assert m == [m[0]] + m[1..9] + m[9..21] + m[21..];
  }

  lemma FrameForNonce(m: Bytes, e: Sealed)
    requires IsFrameFor(m, e)
    ensures FrameNonce(m) == e.nonce
  {
    hide ToBE;
    var f := FrameBytes(m[0], S.Frame(Gcm(e.key, e.nonce, e.plain), e.nonce, e.key.epoch));
    assert f[9..21] == e.nonce;
  }

  /** What is accepted is taken for the kind it was sent as if and only if its tag was not changed. */
  lemma KindIff(v: V.State, m: Bytes, now: int, log: seq<Sealed>, kindOf: nat -> V.Kind)
    requires V.Step(v, m, now, log).0.accepted != v.accepted
    ensures var h := V.Step(v, m, now, log).0.accepted;
      |h| == |v.accepted| + 1
      && (h[|v.accepted|].kind == kindOf(h[|v.accepted|].nonce) <==> Untampered(m, log, kindOf))
  {
    hide V.Step, IsFrameFor, PlainOf, NonceVal;
    AcceptedWas(v, m, now, log);
    var i := OpensLogged(v, m, log);
    forall j | 0 <= j < |log| && IsFrameFor(m, log[j]) ensures log[j].nonce == FrameNonce(m) {
      FrameForNonce(m, log[j]);
    }
  }

  ghost predicate UntamperedRun(w: World, es: seq<Event>, auth: Bytes, kindOf: nat -> V.Kind)
    decreases |es|
  {
    es == [] || (Possible(w, es[0]) && (es[0].Deliver? ==> Untampered(es[0].m, w.sess.log, kindOf))
                 && UntamperedRun(Next(w, es[0], auth), es[1..], auth, kindOf))
  }

  predicate KindsKept(h: seq<V.Accepted>, kindOf: nat -> V.Kind)
  {
    forall i :: 0 <= i < |h| ==> h[i].kind == kindOf(h[i].nonce)
  }

  lemma DeliverKinds(p: V.Phase, m: Bytes, now: int, log: seq<Sealed>, kindOf: nat -> V.Kind)
    requires KindsKept(V.History(p), kindOf) && Untampered(m, log, kindOf)
    ensures KindsKept(V.History(V.Receive(p, m, now, log)), kindOf)
  {
    hide V.Step, Untampered;
    if p.Streaming? {
      var w := V.Step(p.v, m, now, log).0;
      if w.accepted != p.v.accepted {
        AcceptedWas(p.v, m, now, log);
        KindIff(p.v, m, now, log, kindOf);
      }
    }
  }

  lemma {:induction false} KindsRun(w: World, es: seq<Event>, auth: Bytes, t: World, kindOf: nat -> V.Kind)
    requires Run(w, es, auth, t) && UntamperedRun(w, es, auth, kindOf) && KindsKept(V.History(w.viewer), kindOf)
    ensures KindsKept(V.History(t.viewer), kindOf)
    decreases |es|
  {
    hide KindsKept, Untampered;
    if es != [] {
      if es[0].Deliver? {
        DeliverKinds(w.viewer, es[0].m, es[0].now, w.sess.log, kindOf);
      }
      KindsRun(Next(w, es[0], auth), es[1..], auth, t, kindOf);
    }
  }

  /**
   * As long as the relay changes no tag, whatever else it does: what is written was encrypted as a stream
   * frame, and what is applied was encrypted as a terminal size.
   */
  lemma KindsRespected(streamKey: Bytes, es: seq<Event>, auth: Bytes, t: World, kindOf: nat -> V.Kind)
    requires |streamKey| == KEY_LEN && Run(Start(streamKey, auth), es, auth, t) && t.sess.draws < U64
    requires UntamperedRun(Start(streamKey, auth), es, auth, kindOf)
    ensures Subsequence(Pairs(V.History(t.viewer)), Calls(Start(streamKey, auth), es, auth))
    ensures forall i :: 0 <= i < |V.History(t.viewer)| ==>
      V.History(t.viewer)[i].kind == kindOf(V.History(t.viewer)[i].nonce)
  {
    SafeAgainstAnyRelay(streamKey, es, auth, t);
    KindsRun(Start(streamKey, auth), es, auth, t, kindOf);
  }

  /** How the sharer ties the two together: what it builds for a tag is untampered if that tag's kind is recorded. */
  lemma BuiltUntampered(s: H.State, tag: Byte, plain: Bytes, unix: int, more: seq<Sealed>, kindOf: nat -> V.Kind)
    requires S.Inv(s.sess) && !s.sess.closed && tag in {TAG_STREAM, TAG_TERM_SIZE}
    requires var t := H.SendFrame(s, tag, plain, unix).0.sess;
      t.draws < U64 && exists draws :: S.Ordered(t.log + more, draws)
    ensures var (t, sent) := H.SendFrame(s, tag, plain, unix);
      && |sent| == 1
      && (Untampered(sent[0], t.sess.log + more, kindOf) <==> tag == TagOf(kindOf(t.sess.draws)))
  {
    hide S.Ordered, FrameBytes, NonceOf, NonceVal;
    var t, sent := H.SendFrame(s, tag, plain, unix).0.sess, H.SendFrame(s, tag, plain, unix).1;
    var log, n := t.log + more, |s.sess.log|;
    var draws :| S.Ordered(log, draws);
    NoncesDiffer(log, draws, n);
    NonceRoundTrip(t.draws);
    assert log[n] == t.log[n] && NonceVal(log[n].nonce) == t.draws;
    BuiltFrame(sent[0], tag, log[n]);
    forall j | 0 <= j < |log| && IsFrameFor(sent[0], log[j]) ensures j == n {
      FrameForNonce(sent[0], log[j]);
      FrameForNonce(sent[0], log[n]);
    }
  }

  lemma BuiltFrame(m: Bytes, tag: Byte, e: Sealed)
    requires tag in {TAG_STREAM, TAG_TERM_SIZE} && e.key.EpochKey? && |e.nonce| == NONCE_LEN
    requires m == FrameBytes(tag, S.Frame(Gcm(e.key, e.nonce, e.plain), e.nonce, e.key.epoch))
    ensures m[0] == tag && IsFrame(m) && IsFrameFor(m, e)
  {}
}
