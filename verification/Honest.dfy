/**
 * The whole protocol as a step system: one sharer with its session, an honest relay, and any number of
 * viewers, exchanging the byte strings of Wire over bounded queues.
 *
 * One step each: a revocation with all its rekeys; registering a viewer, delivering its key and mapping it;
 * encrypting a frame and sending it.  Legal states the other hypotheses: the sharer's clock does not go
 * back, drawn identifiers are fresh, sends succeed, fewer than 2^64 nonces are drawn, and Verify succeeds
 * only for a viewer that holds the same key.
 */
module Honest {
  import opened ByteStrings
  import opened Aead
  import opened Wire
  import opened ViewerFold
  import S = SessionState
  import V = ViewerState
  import H = SharerState
  import R = RelayState
  import Routing = SharerRouting
  import Nonces

  /** A viewer: in its handshake, running, or stopped by its user. */
  datatype End = WaitMsgA | WaitConfirmA | Ready(p: V.Phase) | Quit

  /**
   * `wire` holds what the relay has written towards each viewer and the viewer has not read; `up` what the
   * relay has written towards the sharer; `auths` the keys agreed by SPAKE2; `got` what each viewer has read
   * since it holds a key; `unix` the last reading of the sharer's clock.
   */
  datatype World = World(
    sharer: H.State, relay: R.State, wire: map<Id, seq<Bytes>>, ends: map<Id, End>, up: seq<Bytes>,
    auths: map<Id, Bytes>, got: map<Id, seq<Bytes>>, unix: int)

  datatype Event =
    | Join(rid: Id, clientByte: Byte)
    | SharerReads(o: H.Oracle, hit: Id)
    | Stream(plain: Bytes, unix: int)
    | Resize(cols: nat, rows: nat, unix: int)
    | Revocation(target: Id, kNew: Bytes, sealing: seq<Id>, sending: seq<Id>)
    | RelayWrites(rid: Id)
    | ViewerReads(rid: Id, now: int, reply: Option<Bytes>, auth: Bytes)
    | Leaves(rid: Id)
    | Quits(rid: Id)
    | Lost(rid: Id, n: nat)

  function Start(streamKey: Bytes, maxViewers: nat, unix: int): World
  {
    World(Routing.Start(streamKey), R.State(map[], false, maxViewers), map[], map[], [], map[], map[], unix)
  }

  /** The relay handles one message of the sharer; an evicted viewer may still read what was buffered for it. */
  function Send(w: World, data: Bytes): World
  {
    var relay := R.FromSharer(w.relay, data);
    w.(relay := relay,
       wire := map rid | rid in w.wire ::
         if rid in w.relay.viewers && rid !in relay.viewers then w.wire[rid] + w.relay.viewers[rid] else w.wire[rid])
  }

  function SendAll(w: World, msgs: seq<Bytes>): World
    decreases |msgs|
  {
    if msgs == [] then w else SendAll(Send(w, msgs[0]), msgs[1..])
  }

  function Act(w: World, r: (H.State, seq<Bytes>)): World
  {
    SendAll(w.(sharer := r.0), r.1)
  }

  /** The viewer reads `m`; SPAKE2 answers `reply`, and ends with the key `auth`. */
  function EndAfter(e: End, m: Bytes, now: int, reply: Option<Bytes>, auth: Bytes, log: seq<Sealed>): End
  {
    match e
    case Quit => e
    case Ready(p) => Ready(V.Receive(p, m, now, log))
    case _ =>
      match V.RecvHandshake(m)
      case Skip => e
      case Fail(why) => Ready(V.Stopped(None, why))
      case Take =>
        if reply.None? then Ready(V.Stopped(None, V.HandshakeFailed))
        else if e.WaitMsgA? then WaitConfirmA
        else Ready(V.AwaitKey(auth))
  }

  predicate Answers(e: End, m: Bytes, reply: Option<Bytes>)
  {
    (e.WaitMsgA? || e.WaitConfirmA?) && V.RecvHandshake(m).Take? && reply.Some?
  }

  function GotAfter(e: End, m: Bytes, got: seq<Bytes>): seq<Bytes>
  {
    if e.Ready? && e.p.Streaming? then got + [m] else got
  }

  function StepEnd(w: World, rid: Id, m: Bytes, now: int, reply: Option<Bytes>, auth: Bytes): World
    requires rid in w.ends && rid in w.got
  {
    var e := w.ends[rid];
    w.(ends := w.ends[rid := EndAfter(e, m, now, reply, auth, w.sharer.sess.log)],
       got := w.got[rid := GotAfter(e, m, w.got[rid])],
       up := if Answers(e, m, reply) then w.up + [Addressed(TAG_SPAKE2, rid, reply.value)] else w.up,
       auths := if Answers(e, m, reply) && e.WaitConfirmA? then w.auths[rid := auth] else w.auths)
  }

  predicate Legal(w: World, e: Event)
  {
    match e
    case Join(rid, _) => |rid| == VIEWER_ID_LEN && rid !in w.ends
    case SharerReads(o, hit) =>
      && w.up != [] && o.created && o.sendOk && o.sizeOk && w.unix <= o.unix < U64
      && IsViewerId(o.id) && o.id !in w.sharer.sess.viewers
      && Routing.Possible(w.sharer, Routing.Received(w.up[0], o, hit))
      && (o.verify && o.authKey.Some? && Verifying(w) ==>
            w.up[0][1..7] in w.auths && o.authKey.value == w.auths[w.up[0][1..7]])
    case Stream(plain, unix) => w.unix <= unix < U64
    case Resize(_, _, unix) => w.unix <= unix < U64
    case Revocation(target, kNew, sealing, sending) =>
      Routing.Possible(w.sharer, Routing.Revocation(target, kNew, sealing, sending))
    case RelayWrites(rid) => rid in w.relay.viewers && rid in w.wire && w.relay.viewers[rid] != []
    case ViewerReads(rid, _, _, auth) =>
      rid in w.ends && rid in w.got && rid in w.wire && w.wire[rid] != [] && |auth| == KEY_LEN
    case Leaves(rid) => rid in w.ends && rid in w.wire
    case Quits(rid) => rid in w.ends
    case Lost(rid, n) => rid in w.wire && rid !in w.relay.viewers && n <= |w.wire[rid]|
  }

  /** The sharer is about to verify the confirmation of some viewer. */
  predicate Verifying(w: World)
    requires w.up != []
  {
    |w.up[0]| >= 7 && w.up[0][0] == TAG_SPAKE2 && w.up[0][1..7] in w.sharer.handshakes
    && w.sharer.handshakes[w.up[0][1..7]].stage == H.WaitConfirmB
  }

  function Next(w: World, e: Event): World
    requires Legal(w, e)
  {
    match e
    case Join(rid, b) =>
      var (relay, r) := R.Join(w.relay, rid);
      if !r.Joined? then w else
        w.(relay := relay, wire := w.wire[rid := []], ends := w.ends[rid := WaitMsgA], got := w.got[rid := []],
           up := w.up + [Addressed(TAG_SPAKE2, rid, [b])])
    case SharerReads(o, hit) =>
      Act(w.(up := w.up[1..], unix := o.unix), H.FromRelay(w.sharer, w.up[0], o, hit))
    case Stream(plain, unix) => Act(w.(unix := unix), H.SendFrame(w.sharer, TAG_STREAM, plain, unix))
    case Resize(cols, rows, unix) => Act(w.(unix := unix), H.SetTermSize(w.sharer, cols, rows, unix))
    case Revocation(target, kNew, sealing, sending) => AfterRevocation(w, target, kNew, sealing, sending)
    case RelayWrites(rid) =>
      w.(relay := R.Take(w.relay, rid), wire := w.wire[rid := w.wire[rid] + [w.relay.viewers[rid][0]]])
    case ViewerReads(rid, now, reply, auth) =>
      StepEnd(w.(wire := w.wire[rid := w.wire[rid][1..]]), rid, w.wire[rid][0], now, reply, auth)
    case Leaves(rid) =>
      var rest := if rid in w.relay.viewers then w.relay.viewers[rid] else [];
      w.(relay := R.Leave(w.relay, rid), wire := w.wire[rid := w.wire[rid] + rest], up := w.up + [Disconnected(rid)])
    case Quits(rid) => w.(ends := w.ends[rid := Quit])
    case Lost(rid, n) => w.(wire := w.wire[rid := w.wire[rid][..n]])
  }

  ghost predicate Run(w: World, es: seq<Event>, t: World)
    decreases |es|
  {
    if es == [] then w == t
    else Legal(w, es[0]) && Next(w, es[0]).sharer.sess.draws < U64 && Run(Next(w, es[0]), es[1..], t)
  }

  // ----- invariants

  /** Everything on its way to an attached viewer, oldest first. */
  function Pending(w: World, rid: Id): seq<Bytes>
    requires rid in w.relay.viewers && rid in w.wire
  {
    w.wire[rid] + w.relay.viewers[rid]
  }

  /** The messages that are not frames. */
  function NonFrames(q: seq<Bytes>): nat
  {
    if q == [] then 0 else NonFrames(q[..|q| - 1]) + (if IsFrame(q[|q| - 1]) then 0 else 1)
  }

  predicate IsFrom(m: Bytes, rid: Id)
  {
    |m| >= 7 && m[0] == TAG_SPAKE2 && m[1..7] == rid
  }

  /** The handshake messages of one viewer on their way to the sharer. */
  function FromRid(up: seq<Bytes>, rid: Id): nat
  {
    if up == [] then 0 else FromRid(up[..|up| - 1], rid) + (if IsFrom(up[|up| - 1], rid) then 1 else 0)
  }

  function StageOf(s: H.State, rid: Id): nat
  {
    if rid !in s.handshakes then 0 else
      match s.handshakes[rid].stage
      case WaitInit => 0
      case WaitMsgB => 1
      case WaitConfirmB => 2
      case Complete => 3
  }

  function RankOf(e: End): nat
  {
    if e.WaitMsgA? then 0 else if e.WaitConfirmA? then 1 else 2
  }

  /** At most one handshake message is in flight, and it carries the turn. */
  predicate Token(e: End, stage: nat, auth: Option<Bytes>, q: seq<Bytes>, u: nat)
  {
    !e.Quit? && stage < 3 ==>
      if e.Ready? && e.p.Stopped? then u == 0 else
        && (e.Ready? ==> e.p.AwaitKey? && auth == Some(e.p.auth))
        && u + NonFrames(q) <= 1
        && (u == 1 ==> stage == RankOf(e))
        && (NonFrames(q) == 1 ==> stage == RankOf(e) + 1)
  }

  /** The key a viewer will hold once `q` is consumed is the current one, and nothing in `q` is rejected. */
  predicate Agrees(s: Option<Sum>, sess: S.State, sid: Id, epoch: nat)
    requires sid in sess.viewers
  {
    && s.Some? && s.value.Keyed?
    && s.value.key == sess.streamKey && s.value.auth == sess.viewers[sid].authKey && s.value.id == sid
    && s.value.lastNonce <= sess.draws && (s.value.epoch.Some? ==> s.value.epoch.value <= epoch)
  }

  /** A registered viewer that is still attached. */
  predicate Live(e: End, q: seq<Bytes>, got: seq<Bytes>, sess: S.State, sid: Id, epoch: nat)
    requires sid in sess.viewers
  {
    !e.Quit? ==>
      && e.Ready? && !e.p.Stopped?
      && Agrees(Fold(SumOf(e.p), q, sess.log), sess, sid, epoch)
      && (e.p.Streaming? ==>
            e.p.v.failures == 0 && Shows(e.p.v, got, sess.log))
  }

  predicate Base(w: World)
  {
    && Routing.Routed(w.sharer) && Routing.Exact(w.sharer)
    && S.Inv(w.sharer.sess) && !w.sharer.sess.closed && w.sharer.sess.draws < U64 && 0 <= w.unix < U64
    && w.relay.viewers.Keys <= w.ends.Keys && w.wire.Keys == w.got.Keys == w.ends.Keys
    && (forall rid :: rid in w.ends ==> |rid| == VIEWER_ID_LEN)
    && (forall rid :: rid in w.sharer.handshakes ==> rid in w.ends)
    && (forall sid :: sid in w.sharer.ids ==> IsViewerId(sid))
    && (forall rid :: rid in w.auths ==> |w.auths[rid]| == KEY_LEN)
    && (forall i :: 0 <= i < |w.up| ==> Known(w, w.up[i]))
  }

  /** What travels towards the sharer: a handshake message of some viewer, or the notice that one has left. */
  predicate Known(w: World, m: Bytes)
  {
    m != [] &&
    if m[0] == TAG_SPAKE2 then |m| >= 7 && m[1..7] in w.ends
    else H.Disconnects(m) && m[2..8] in w.ends && m[2..8] !in w.relay.viewers
  }

  function AuthOf(w: World, rid: Id): Option<Bytes>
  {
    if rid in w.auths then Some(w.auths[rid]) else None
  }

  /** What is claimed of one attached viewer; `sids` are the session viewers mapped to it. */
  predicate Good(
    e: End, stage: nat, auth: Option<Bytes>, q: seq<Bytes>, u: nat,
    got: seq<Bytes>, sess: S.State, sids: set<Id>, epoch: nat)
    requires sids <= sess.viewers.Keys
  {
    && Token(e, stage, auth, q, u)
    && (e.WaitMsgA? || e.WaitConfirmA? || (e.Ready? && e.p.AwaitKey?) ==> got == [])
    && forall sid :: sid in sids ==> Live(e, q, got, sess, sid, epoch)
  }

  predicate Defined(w: World, rid: Id)
  {
    && rid in w.relay.viewers && rid in w.wire && rid in w.ends && rid in w.got
    && w.sharer.ids.Keys <= w.sharer.sess.viewers.Keys
  }

  predicate PerViewer(w: World, rid: Id)
    requires Defined(w, rid)
  {
    Good(w.ends[rid], StageOf(w.sharer, rid), AuthOf(w, rid), Pending(w, rid), FromRid(w.up, rid),
         w.got[rid], w.sharer.sess, H.Hits(w.sharer, rid), S.EpochAt(w.unix))
  }

  predicate Inv(w: World)
  {
    Base(w) && forall rid :: rid in w.relay.viewers ==> Defined(w, rid) && PerViewer(w, rid)
  }

  // ----- the relay's step

  lemma FrameEffect(w: World, m: Bytes, rid: Id)
    requires IsFrame(m) && rid in w.relay.viewers && rid in w.wire
    ensures var t := Send(w, m);
      && t == w.(relay := t.relay) && t.relay.viewers.Keys == w.relay.viewers.Keys
      && (Pending(t, rid) == Pending(w, rid) || Pending(t, rid) == Pending(w, rid) + [m])
  {
    var t := Send(w, m);
    assert t.wire == w.wire;
    if t.relay.viewers[rid] != w.relay.viewers[rid] {
      assert w.wire[rid] + (w.relay.viewers[rid] + [m]) == Pending(w, rid) + [m];
    }
  }

  lemma UnicastEffect(w: World, r: Id, payload: Bytes)
    requires |r| == VIEWER_ID_LEN && w.relay.viewers.Keys <= w.wire.Keys
    ensures var t := Send(w, H.Unicast(r, payload));
      && t == w.(relay := t.relay, wire := t.wire) && t.wire.Keys == w.wire.Keys
      && w.relay.viewers.Keys - {r} <= t.relay.viewers.Keys <= w.relay.viewers.Keys
      && forall rid :: rid in t.relay.viewers ==>
           Pending(t, rid) == if rid == r then Pending(w, rid) + [payload] else Pending(w, rid)
  {
    AddressedRoundTrip(TAG_UNICAST, r, payload);
    hide Addressed;
    var t := Send(w, H.Unicast(r, payload));
    assert t.relay == R.Unicast(w.relay, r, payload);
    forall rid | rid in t.relay.viewers
      ensures Pending(t, rid) == if rid == r then Pending(w, rid) + [payload] else Pending(w, rid)
    {
      assert t.wire[rid] == w.wire[rid];
      if rid == r {
        assert w.wire[rid] + (w.relay.viewers[rid] + [payload]) == Pending(w, rid) + [payload];
      }
    }
  }

  lemma {:induction false} SendAllSplit(w: World, a: seq<Bytes>, b: seq<Bytes>)
    ensures SendAll(w, a + b) == SendAll(SendAll(w, a), b)
    decreases |a|
  {
    if a == [] {
      assert a + b == b;
    } else {
      assert (a + b)[0] == a[0] && (a + b)[1..] == a[1..] + b;
      SendAllSplit(Send(w, a[0]), a[1..], b);
    }
  }

  lemma {:induction false} SendAllFrame(w: World, msgs: seq<Bytes>, s: H.State)
    ensures SendAll(w.(sharer := s), msgs) == SendAll(w, msgs).(sharer := s)
    decreases |msgs|
  {
    if msgs != [] {
      assert Send(w.(sharer := s), msgs[0]) == Send(w, msgs[0]).(sharer := s);
      SendAllFrame(Send(w, msgs[0]), msgs[1..], s);
    }
  }

  lemma SendOne(w: World, m: Bytes)
    ensures SendAll(w, [m]) == Send(w, m)
  {
    var msgs := [m];
    assert msgs[1..] == [];
  }

  // ----- frames

  lemma {:induction false} NonFramesAppend(q: seq<Bytes>, m: Bytes)
    ensures NonFrames(q + [m]) == NonFrames(q) + (if IsFrame(m) then 0 else 1)
  {
    assert (q + [m])[..|q|] == q;
  }

  /** The session after one more frame, and the frame on the wire. */
  lemma FrameFacts(sess: S.State, tag: Byte, plain: Bytes, unix: int)
    requires S.Inv(sess) && !sess.closed && sess.draws + 1 < U64 && 0 <= unix < U64
    requires tag == TAG_STREAM || (tag == TAG_TERM_SIZE && |plain| >= 4)
    ensures var (t, r) := S.EncryptFrame(sess, plain, unix);
      && r.Ok? && S.Inv(t) && t.draws == sess.draws + 1
      && t == sess.(draws := t.draws, log := t.log) && |t.log| == |sess.log| + 1 && sess.log <= t.log
      && var m := FrameBytes(tag, r.value);
      && IsFrame(m) && m[0] == tag && |m| == MIN_FRAME + |plain|
      && FrameEpoch(m) == S.EpochAt(unix)
      && Nonces.NonceVal(FrameNonce(m)) == t.draws
      && Open(t.log, EpochKey(sess.streamKey, S.EpochAt(unix)), FrameNonce(m), FrameCipher(m)) == Some(plain)
  {
    var (t, r) := S.EncryptFrame(sess, plain, unix);
    SealOne(sess, plain, unix);
    FrameRoundTrip(tag, r.value);
    hide FrameBytes, FrameEpoch, FrameNonce, FrameCipher, Nonces.NonceOf, Nonces.NonceVal, S.Ordered, Open;
  }

  /** What EncryptFrame seals and returns. */
  lemma SealOne(sess: S.State, plain: Bytes, unix: int)
    requires S.Inv(sess) && !sess.closed && sess.draws + 1 < U64 && 0 <= unix < U64
    ensures var (t, r) := S.EncryptFrame(sess, plain, unix);
      && r.Ok? && S.Inv(t) && t.draws == sess.draws + 1
      && t == sess.(draws := t.draws, log := t.log) && |t.log| == |sess.log| + 1 && sess.log <= t.log
      && r.value.epoch == S.EpochAt(unix) < U64 && |r.value.cipher| == |plain| + GCM_TAG_LEN
      && |r.value.nonce| == NONCE_LEN && Nonces.NonceVal(r.value.nonce) == t.draws
      && Open(t.log, EpochKey(sess.streamKey, S.EpochAt(unix)), r.value.nonce, r.value.cipher) == Some(plain)
  {
    hide Nonces.NonceOf, Nonces.NonceVal, S.Ordered, Open;
    var (t, r) := S.EncryptFrame(sess, plain, unix);
    S.StepKeepsInv(sess, S.OpEncrypt(plain, unix));
    Nonces.NonceRoundTrip(sess.draws + 1);
    EpochBound(unix);
    OrderedDistinct(t.log, t.draws, |sess.log|);
    OpenSealed(t.log, |sess.log|);
  }

  lemma EpochBound(unix: int)
    requires 0 <= unix < U64
    ensures S.EpochAt(unix) < U64
  {}

  /** A live viewer stays live when the session seals more without changing keys or members. */
  lemma LiveStays(e: End, q: seq<Bytes>, got: seq<Bytes>, sess: S.State, t: S.State, sid: Id, epoch: nat, later: nat)
    requires sid in sess.viewers && Live(e, q, got, sess, sid, epoch) && epoch <= later
    requires sid in t.viewers && t.viewers[sid] == sess.viewers[sid] && t.streamKey == sess.streamKey
    requires t.draws >= sess.draws && sess.log <= t.log
    ensures Live(e, q, got, t, sid, later)
  {
    if !e.Quit? {
      var more := t.log[|sess.log|..];
      assert t.log == sess.log + more;
      FoldStable(SumOf(e.p), q, sess.log, more);
      if e.p.Streaming? {
        ShowsStable(e.p.v, got, sess.log, more);
      }
      hide Fold, Shows;
    }
  }

  /** The fold accepts a frame that is newer than what it has seen and opens under its key. */
  lemma SumStepFrame(s: Sum, m: Bytes, log: seq<Sealed>)
    requires s.Keyed? && IsFrame(m) && |m| >= MIN_FRAME && (m[0] == TAG_TERM_SIZE ==> |m| >= MIN_FRAME + 4)
    requires s.epoch.Some? ==> s.epoch.value <= FrameEpoch(m)
    requires s.lastNonce < Nonces.NonceVal(FrameNonce(m))
    requires Open(log, EpochKey(s.key, FrameEpoch(m)), FrameNonce(m), FrameCipher(m)).Some?
    ensures SumStep(s, m, log) == Some(s.(lastNonce := Nonces.NonceVal(FrameNonce(m)), epoch := Some(FrameEpoch(m))))
  {
    hide Open, FrameEpoch, FrameNonce, FrameCipher, Nonces.NonceVal;
  }

  /** A live viewer stays live with one more message on its way that the fold accepts without a change of keys. */
  lemma LiveAppend(e: End, q: seq<Bytes>, got: seq<Bytes>, sess: S.State, sid: Id, epoch: nat, m: Bytes, u: Sum)
    requires sid in sess.viewers && Live(e, q, got, sess, sid, epoch)
    requires !e.Quit? ==> SumStep(Fold(SumOf(e.p), q, sess.log).value, m, sess.log) == Some(u)
    requires !e.Quit? ==> Agrees(Some(u), sess, sid, epoch)
    ensures Live(e, q + [m], got, sess, sid, epoch)
  {
    hide Shows, SumStep, Agrees;
    if !e.Quit? {
      AgreesSome(Fold(SumOf(e.p), q, sess.log), sess, sid, epoch);
      FoldAppend(SumOf(e.p), q, m, sess.log);
      hide Fold;
    }
  }

  lemma AgreesSome(s: Option<Sum>, sess: S.State, sid: Id, epoch: nat)
    requires sid in sess.viewers && Agrees(s, sess, sid, epoch)
    ensures s.Some? && s.value.Keyed? && s.value.key == sess.streamKey
    ensures s.value.lastNonce <= sess.draws && (s.value.epoch.Some? ==> s.value.epoch.value <= epoch)
  {}

  /** One more frame on its way to a live viewer. */
  lemma LiveFrame(
    e: End, q: seq<Bytes>, got: seq<Bytes>, sess: S.State, sid: Id, epoch: nat, tag: Byte, plain: Bytes, unix: int)
    requires S.Inv(sess) && !sess.closed && sess.draws + 1 < U64 && 0 <= unix < U64
    requires tag == TAG_STREAM || (tag == TAG_TERM_SIZE && |plain| >= 4)
    requires sid in sess.viewers && Live(e, q, got, sess, sid, epoch) && epoch <= S.EpochAt(unix)
    ensures var (t, r) := S.EncryptFrame(sess, plain, unix);
      && sid in t.viewers && r.Ok?
      && Live(e, q, got, t, sid, S.EpochAt(unix))
      && Live(e, q + [FrameBytes(tag, r.value)], got, t, sid, S.EpochAt(unix))
  {
    hide Open, FrameBytes, SumStep, Fold, Shows, S.EncryptFrame, S.EpochAt, S.Ordered, FrameEpoch, FrameNonce,
      FrameCipher, Nonces.NonceVal;
    FrameFacts(sess, tag, plain, unix);
    var (t, r) := S.EncryptFrame(sess, plain, unix);
    LiveStays(e, q, got, sess, t, sid, epoch, S.EpochAt(unix));
    if !e.Quit? {
      var m := FrameBytes(tag, r.value);
      FoldFrame(SumOf(e.p), q, sess, t);
      var s := Fold(SumOf(e.p), q, t.log).value;
      SumStepFrame(s, m, t.log);
      LiveAppend(e, q, got, t, sid, S.EpochAt(unix), m, SumStep(s, m, t.log).value);
    }
  }

  lemma FoldFrame(s: Sum, q: seq<Bytes>, sess: S.State, t: S.State)
    requires sess.log <= t.log && Fold(s, q, sess.log).Some?
    ensures Fold(s, q, t.log) == Fold(s, q, sess.log)
  {
    assert t.log == sess.log + t.log[|sess.log|..];
    FoldStable(s, q, sess.log, t.log[|sess.log|..]);
  }

  lemma TokenFrame(e: End, stage: nat, auth: Option<Bytes>, q: seq<Bytes>, u: nat, m: Bytes)
    requires Token(e, stage, auth, q, u) && IsFrame(m)
    ensures Token(e, stage, auth, q + [m], u)
  {
    NonFramesAppend(q, m);
  }

  predicate FrameLegal(w: World, tag: Byte, plain: Bytes, unix: int)
  {
    && (tag == TAG_STREAM || (tag == TAG_TERM_SIZE && |plain| >= 4))
    && w.unix <= unix < U64 && w.sharer.sess.draws + 1 < U64
  }

  /** The whole step: the frame is sealed, then offered to every attached viewer. */
  lemma FrameStep(w: World, tag: Byte, plain: Bytes, unix: int) returns (w1: World, m: Bytes)
    ensures w1 == w.(unix := unix, sharer := w.sharer.(sess := S.EncryptFrame(w.sharer.sess, plain, unix).0))
    requires !w.sharer.sess.closed
    ensures S.EncryptFrame(w.sharer.sess, plain, unix).1.Ok?
    ensures m == FrameBytes(tag, S.EncryptFrame(w.sharer.sess, plain, unix).1.value)
    ensures Act(w.(unix := unix), H.SendFrame(w.sharer, tag, plain, unix)) == Send(w1, m)
  {
    S.EncryptShape(w.sharer.sess, plain, unix);
    hide S.EncryptFrame;
    var (sess, r) := S.EncryptFrame(w.sharer.sess, plain, unix);
    m := FrameBytes(tag, r.value);
    w1 := w.(unix := unix, sharer := w.sharer.(sess := sess));
    SendOne(w1, m);
  }

  lemma GoodFrame(
    e: End, stage: nat, auth: Option<Bytes>, q: seq<Bytes>, u: nat, got: seq<Bytes>, sess: S.State, sids: set<Id>,
    epoch: nat, tag: Byte, plain: Bytes, unix: int)
    requires S.Inv(sess) && !sess.closed && sess.draws + 1 < U64 && 0 <= unix < U64
    requires tag == TAG_STREAM || (tag == TAG_TERM_SIZE && |plain| >= 4)
    requires sids <= sess.viewers.Keys && Good(e, stage, auth, q, u, got, sess, sids, epoch) && epoch <= S.EpochAt(unix)
    ensures var (t, r) := S.EncryptFrame(sess, plain, unix);
      && t.viewers == sess.viewers && r.Ok?
      && Good(e, stage, auth, q, u, got, t, sids, S.EpochAt(unix))
      && Good(e, stage, auth, q + [FrameBytes(tag, r.value)], u, got, t, sids, S.EpochAt(unix))
  {
    FrameFacts(sess, tag, plain, unix);
    TokenFrame(e, stage, auth, q, u, FrameBytes(tag, S.EncryptFrame(sess, plain, unix).1.value));
    hide Token, Live, FrameBytes, S.EncryptFrame;
    forall sid | sid in sids
      ensures Live(e, q, got, S.EncryptFrame(sess, plain, unix).0, sid, S.EpochAt(unix))
      ensures Live(e, q + [FrameBytes(tag, S.EncryptFrame(sess, plain, unix).1.value)], got,
                   S.EncryptFrame(sess, plain, unix).0, sid, S.EpochAt(unix))
    {
      LiveFrame(e, q, got, sess, sid, epoch, tag, plain, unix);
    }
  }

  lemma FrameKeepsViewer(w: World, tag: Byte, plain: Bytes, unix: int, rid: Id)
    requires S.Inv(w.sharer.sess) && !w.sharer.sess.closed && 0 <= w.unix
    requires Defined(w, rid) && PerViewer(w, rid) && FrameLegal(w, tag, plain, unix)
    ensures var t := Act(w.(unix := unix), H.SendFrame(w.sharer, tag, plain, unix));
      Defined(t, rid) && PerViewer(t, rid)
  {
    hide Good, FrameBytes, S.EncryptFrame, Act, H.SendFrame, Send, S.EpochAt, S.Inv;
    var w1, m := FrameStep(w, tag, plain, unix);
    EpochMonotone(w.unix, unix);
    GoodFrame(w.ends[rid], StageOf(w.sharer, rid), AuthOf(w, rid), Pending(w, rid), FromRid(w.up, rid),
         w.got[rid], w.sharer.sess, H.Hits(w.sharer, rid), S.EpochAt(w.unix), tag, plain, unix);
    FrameFacts(w.sharer.sess, tag, plain, unix);
    FrameEffect(w1, m, rid);
    assert Pending(w1, rid) == Pending(w, rid);
    assert H.Hits(w1.sharer, rid) == H.Hits(w.sharer, rid);
  }

  lemma EpochMonotone(a: int, b: int)
    requires 0 <= a <= b < U64
    ensures S.EpochAt(a) <= S.EpochAt(b)
  {}

  /** Base depends on the sharer, the domains, the clock and the messages going up. */
  lemma RoutingFrame(s: H.State, t: H.State)
    requires Routing.Routed(s) && Routing.Exact(s) && S.Inv(t.sess) && !t.sess.closed
    requires t == s.(sess := t.sess, cols := t.cols, rows := t.rows) && t.sess.viewers == s.sess.viewers
    ensures Routing.Routed(t) && Routing.Exact(t)
  {
    hide S.Ordered, Routing.InOrder;
    assert forall rid :: Routing.IsComplete(s, rid) ==> Routing.IsComplete(t, rid);
  }

  lemma KnownStays(w: World, t: World)
    requires t.ends.Keys == w.ends.Keys && t.relay.viewers.Keys <= w.relay.viewers.Keys
    requires forall i :: 0 <= i < |w.up| ==> Known(w, w.up[i])
    requires forall i :: 0 <= i < |t.up| ==> t.up[i] in w.up
    ensures forall i :: 0 <= i < |t.up| ==> Known(t, t.up[i])
  {
    forall i | 0 <= i < |t.up| ensures Known(t, t.up[i]) {
      var m := t.up[i];
      assert m in w.up;
      assert Known(w, m);
    }
  }

  lemma BaseFrame(w: World, t: World)
    requires Base(w)
    requires t.sharer == w.sharer.(sess := t.sharer.sess, cols := t.sharer.cols, rows := t.sharer.rows)
    requires t.sharer.sess.viewers == w.sharer.sess.viewers && !t.sharer.sess.closed
    requires S.Inv(t.sharer.sess) && t.sharer.sess.draws < U64 && 0 <= t.unix < U64
    requires t.relay.viewers.Keys <= w.relay.viewers.Keys && t.wire.Keys == w.wire.Keys && t.got.Keys == w.got.Keys
    requires t.ends.Keys == w.ends.Keys && t.auths == w.auths
    requires forall i :: 0 <= i < |t.up| ==> t.up[i] in w.up
    ensures Base(t)
  {
    hide S.Inv, Routing.Routed, Routing.Exact, Known;
    RoutingFrame(w.sharer, t.sharer);
    KnownStays(w, t);
  }

  lemma FrameKeeps(w: World, tag: Byte, plain: Bytes, unix: int)
    requires Inv(w) && FrameLegal(w, tag, plain, unix)
    ensures Inv(Act(w.(unix := unix), H.SendFrame(w.sharer, tag, plain, unix)))
  {
    hide Good, FrameBytes, S.EncryptFrame, Act, H.SendFrame, S.EpochAt, S.Inv, Routing.Routed, Routing.Exact, Known,
      PerViewer;
    var t := Act(w.(unix := unix), H.SendFrame(w.sharer, tag, plain, unix));
    var w1, m := FrameStep(w, tag, plain, unix);
    FrameFacts(w.sharer.sess, tag, plain, unix);
    SendFrameKeys(w1, m);
    hide Send;
    BaseFrame(w, t);
    forall rid | rid in t.relay.viewers ensures Defined(t, rid) && PerViewer(t, rid) {
      FrameKeepsViewer(w, tag, plain, unix, rid);
    }
  }

  lemma SendFrameKeys(w: World, m: Bytes)
    requires IsFrame(m)
    ensures var t := Send(w, m);
      t == w.(relay := t.relay) && t.relay.viewers.Keys == w.relay.viewers.Keys
  {
    assert Send(w, m).wire == w.wire;
  }

  // ----- the other steps, one viewer at a time

  lemma GoodStays(
    e: End, stage: nat, auth: Option<Bytes>, q: seq<Bytes>, u: nat, got: seq<Bytes>, sess: S.State, sids: set<Id>,
    epoch: nat, t: S.State, u': nat, sids': set<Id>, epoch': nat)
    requires sids <= sess.viewers.Keys && Good(e, stage, auth, q, u, got, sess, sids, epoch)
    requires u' <= u && sids' <= sids && epoch <= epoch'
    requires t.draws >= sess.draws && sess.log <= t.log && t.streamKey == sess.streamKey
    requires forall sid :: sid in sids' ==> sid in t.viewers && t.viewers[sid] == sess.viewers[sid]
    ensures Good(e, stage, auth, q, u', got, t, sids', epoch')
  {
    hide Live;
    forall sid | sid in sids' ensures Live(e, q, got, t, sid, epoch') {
      LiveStays(e, q, got, sess, t, sid, epoch, epoch');
    }
  }

  /** The sharer answers a handshake message with a unicast `m`. */
  lemma GoodReply(
    e: End, stage: nat, auth: Option<Bytes>, q: seq<Bytes>, u: nat, got: seq<Bytes>, sess: S.State, epoch: nat,
    m: Bytes)
    requires Good(e, stage, auth, q, u, got, sess, {}, epoch) && stage < 2 && u >= 1
    ensures Good(e, stage + 1, auth, q + [m], u - 1, got, sess, {}, epoch)
  {
    NonFramesAppend(q, m);
    hide NonFrames;
  }

  /** The sharer gives up on a handshake, or its Start fails. */
  lemma GoodAbandoned(
    e: End, stage: nat, auth: Option<Bytes>, q: seq<Bytes>, u: nat, got: seq<Bytes>, sess: S.State, epoch: nat)
    requires Good(e, stage, auth, q, u, got, sess, {}, epoch) && stage < 3 && u >= 1
    ensures Good(e, 0, auth, q, u - 1, got, sess, {}, epoch)
  {
    hide NonFrames;
  }

  lemma {:induction false} NonFramesZero(q: seq<Bytes>)
    requires NonFrames(q) == 0
    ensures forall m :: m in q ==> IsFrame(m)
  {
    if q != [] {
      NonFramesZero(q[..|q| - 1]);
      assert q == q[..|q| - 1] + [q[|q| - 1]];
    }
  }

  /** The session after a registration, and the sealed key. */
  lemma RegisterFacts(sess: S.State, a: Bytes, id: Id, unix: int, ct: S.ClientType)
    requires S.Inv(sess) && !sess.closed && sess.draws + 1 < U64 && |a| == KEY_LEN
    ensures var (t, r) := S.Register(sess, a, id, unix, ct);
      && r.Ok? && S.Inv(t) && t.draws == sess.draws + 1 && sess.log <= t.log
      && t == sess.(draws := t.draws, log := t.log, viewers := sess.viewers[id := S.Member(a, unix, ct)])
      && |r.value.nonce| == NONCE_LEN && |r.value.cipher| == KEY_LEN + GCM_TAG_LEN
      && Open(t.log, Auth(a), r.value.nonce, r.value.cipher) == Some(sess.streamKey)
  {
    var (t, r) := S.Register(sess, a, id, unix, ct);
    S.StepKeepsInv(sess, S.OpRegister(a, id, unix, ct));
    OrderedDistinct(t.log, t.draws, |sess.log|);
    OpenSealed(t.log, |sess.log|);
    hide Nonces.NonceOf, Nonces.NonceVal, S.Ordered, Open;
  }

  /** The sharer admits the viewer whose confirmation it has just verified. */
  lemma GoodAdmitted(
    e: End, a: Bytes, q: seq<Bytes>, u: nat, got: seq<Bytes>, sess: S.State, epoch: nat,
    id: Id, unix: int, ct: S.ClientType, epoch': nat)
    requires S.Inv(sess) && !sess.closed && sess.draws + 1 < U64 && |a| == KEY_LEN && IsViewerId(id)
    requires Good(e, 2, Some(a), q, u, got, sess, {}, epoch) && u >= 1
    ensures var (t, r) := S.Register(sess, a, id, unix, ct);
      && r.Ok? && id in t.viewers
      && Good(e, 3, Some(a), q + [KeyDelivery(id, r.value)], u - 1, got, t, {id}, epoch')
  {
    RegisterFacts(sess, a, id, unix, ct);
    var (t, r) := S.Register(sess, a, id, unix, ct);
    hide S.Register;
    if !e.Quit? {
      NonFramesZero(q);
      FoldSkips(a, q, t.log);
      FoldAppend(Waiting(a), q, KeyDelivery(id, r.value), t.log);
      DeliveryRoundTrip(id, r.value);
      hide Fold, Open, KeyDelivery, S.Ordered;
      assert Live(e, q + [KeyDelivery(id, r.value)], got, t, id, epoch');
    }
  }

  /** The session after a revocation, and the sealed rekey of one viewer that stays. */
  lemma RevokeFacts(sess: S.State, target: Id, kNew: Bytes, order: seq<Id>, sid: Id)
    requires S.Inv(sess) && !sess.closed && target in sess.viewers && |kNew| == KEY_LEN
    requires S.Enumerates(order, sess.viewers.Keys - {target}) && sess.draws + |order| < U64
    requires sid in sess.viewers && sid != target
    ensures var (t, r) := S.Revoke(sess, target, kNew, order);
      && r.Ok? && sid in r.value && S.Inv(t)
      && |r.value[sid].nonce| == NONCE_LEN && |r.value[sid].cipher| == KEY_LEN + GCM_TAG_LEN
      && Open(t.log, Auth(sess.viewers[sid].authKey), r.value[sid].nonce, r.value[sid].cipher) == Some(kNew)
  {
    hide S.Revoke, S.RekeyAll, S.Rekeys, S.Handed, S.Ordered, Open, Nonces.NonceOf;
    S.StepKeepsInv(sess, S.OpRevoke(target, kNew, order));
    S.RevokeOutcome(sess, target, kNew, order);
    var seals := S.Rekeys(S.Without(sess, target), kNew, order);
    S.HandedAt(seals, order);
    assert sid in sess.viewers.Keys - {target};
    assert sid in order;
    var i :| 0 <= i < |order| && order[i] == sid;
    S.RekeysAt(S.Without(sess, target), kNew, order, i);
    var log := sess.log + seals;
    assert log[|sess.log| + i] == seals[i];
    OrderedDistinct(log, sess.draws + |order|, |sess.log| + i);
    OpenSealed(log, |sess.log| + i);
  }

  /** The rekey puts a viewer that stays on the new key. */
  lemma GoodRekeyed(
    e: End, stage: nat, auth: Option<Bytes>, q: seq<Bytes>, u: nat, got: seq<Bytes>, sess: S.State, epoch: nat,
    target: Id, kNew: Bytes, order: seq<Id>, sid: Id)
    requires S.Inv(sess) && !sess.closed && target in sess.viewers && |kNew| == KEY_LEN
    requires S.Enumerates(order, sess.viewers.Keys - {target}) && sess.draws + |order| < U64
    requires sid in sess.viewers && sid != target && IsViewerId(sid) && stage == 3
    requires Good(e, stage, auth, q, u, got, sess, {sid}, epoch)
    ensures var (t, r) := S.Revoke(sess, target, kNew, order);
      && r.Ok? && sid in r.value && sid in t.viewers
      && Good(e, stage, auth, q + [KeyDelivery(sid, r.value[sid])], u, got, t, {sid}, epoch)
  {
    hide S.Revoke, S.Ordered, Open, KeyDelivery, Fold, Shows;
    RevokeFacts(sess, target, kNew, order, sid);
    S.RevokeNeverFails(sess, target, kNew, order);
    S.StepKeepsInv(sess, S.OpRevoke(target, kNew, order));
    var (t, r) := S.Revoke(sess, target, kNew, order);
    assert sid in {sid};
    assert Live(e, q, got, sess, sid, epoch);
    if !e.Quit? {
      var more := t.log[|sess.log|..];
      assert t.log == sess.log + more;
      FoldStable(SumOf(e.p), q, sess.log, more);
      ShowsStableIf(e, got, sess.log, more);
      DeliveryRoundTrip(sid, r.value[sid]);
      FoldAppend(SumOf(e.p), q, KeyDelivery(sid, r.value[sid]), t.log);
      assert Live(e, q + [KeyDelivery(sid, r.value[sid])], got, t, sid, epoch);
    }
  }

  lemma ShowsStableIf(e: End, got: seq<Bytes>, log: seq<Sealed>, more: seq<Sealed>)
    requires e.Ready? && (e.p.Streaming? ==> Shows(e.p.v, got, log))
    ensures e.p.Streaming? ==> Shows(e.p.v, got, log + more)
  {
    if e.p.Streaming? {
      ShowsStable(e.p.v, got, log, more);
    }
  }

  lemma {:induction false} NonFramesHead(q: seq<Bytes>)
    requires q != []
    ensures NonFrames(q) == (if IsFrame(q[0]) then 0 else 1) + NonFrames(q[1..])
  {
    var n := |q| - 1;
    if n > 0 {
      NonFramesHead(q[..n]);
      assert q[..n][1..] == q[1..][..n - 1];
    }
  }

  /** A live viewer reads its oldest message: nothing is rejected. */
  lemma LiveRead(e: End, q: seq<Bytes>, got: seq<Bytes>, sess: S.State, sid: Id, epoch: nat, now: int)
    requires sid in sess.viewers && S.Inv(sess) && sess.draws < U64 && q != [] && !e.Quit?
    requires Live(e, q, got, sess, sid, epoch) && (e.Ready? && e.p.AwaitKey? ==> got == [])
    ensures Live(Ready(V.Receive(e.p, q[0], now, sess.log)), q[1..], GotAfter(e, q[0], got), sess, sid, epoch)
  {
    hide V.Receive, SumStep, SumOf, Shows, S.Ordered;
    var m := q[0];
    StepFollowsFold(e.p, m, now, sess.log);
    if e.p.Streaming? {
      ShowsOneMore(e.p, got, m, now, sess.log, sess.draws);
    } else {
      ShowsNothing(e.p.auth, m, now, sess.log);
    }
  }

  lemma GoodRead(
    e: End, stage: nat, auth: Option<Bytes>, q: seq<Bytes>, u: nat, got: seq<Bytes>, sess: S.State, sids: set<Id>,
    epoch: nat, now: int, reply: Option<Bytes>, key: Bytes)
    requires S.Inv(sess) && sess.draws < U64 && q != []
    requires sids <= sess.viewers.Keys && Good(e, stage, auth, q, u, got, sess, sids, epoch)
    requires sids != {} ==> stage == 3
    ensures Good(
      EndAfter(e, q[0], now, reply, key, sess.log), stage,
      if Answers(e, q[0], reply) && e.WaitConfirmA? then Some(key) else auth, q[1..],
      if Answers(e, q[0], reply) then u + 1 else u, GotAfter(e, q[0], got), sess, sids, epoch)
  {
    NonFramesHead(q);
    V.TakesIffDefault(q[0]);
    hide NonFrames, Live, S.Inv;
    forall sid | sid in sids
      ensures Live(EndAfter(e, q[0], now, reply, key, sess.log), q[1..], GotAfter(e, q[0], got), sess, sid, epoch)
    {
      LiveReadAny(e, q, got, sess, sid, epoch, now, reply, key);
    }
  }

  lemma LiveReadAny(
    e: End, q: seq<Bytes>, got: seq<Bytes>, sess: S.State, sid: Id, epoch: nat, now: int, reply: Option<Bytes>,
    key: Bytes)
    requires sid in sess.viewers && S.Inv(sess) && sess.draws < U64 && q != []
    requires Live(e, q, got, sess, sid, epoch) && (e.Ready? && e.p.AwaitKey? ==> got == [])
    ensures Live(EndAfter(e, q[0], now, reply, key, sess.log), q[1..], GotAfter(e, q[0], got), sess, sid, epoch)
  {
    if !e.Quit? {
      LiveRead(e, q, got, sess, sid, epoch, now);
      hide V.Receive, Fold, Sent;
    }
  }

  // ----- whole steps

  /** A viewer that a step does not touch. */
  lemma OtherKeeps(w: World, t: World, rid: Id)
    requires Defined(w, rid) && PerViewer(w, rid) && Defined(t, rid)
    requires t.ends[rid] == w.ends[rid] && t.got[rid] == w.got[rid] && Pending(t, rid) == Pending(w, rid)
    requires StageOf(t.sharer, rid) == StageOf(w.sharer, rid) && AuthOf(t, rid) == AuthOf(w, rid)
    requires FromRid(t.up, rid) <= FromRid(w.up, rid)
    requires H.Hits(t.sharer, rid) <= H.Hits(w.sharer, rid) && S.EpochAt(w.unix) <= S.EpochAt(t.unix)
    requires t.sharer.sess.draws >= w.sharer.sess.draws && w.sharer.sess.log <= t.sharer.sess.log
    requires t.sharer.sess.streamKey == w.sharer.sess.streamKey
    requires forall sid :: sid in H.Hits(t.sharer, rid) ==>
      sid in w.sharer.sess.viewers && t.sharer.sess.viewers[sid] == w.sharer.sess.viewers[sid]
    ensures PerViewer(t, rid)
  {
    hide Good, FromRid, StageOf, AuthOf, Pending, S.EpochAt;
    GoodStays(w.ends[rid], StageOf(w.sharer, rid), AuthOf(w, rid), Pending(w, rid), FromRid(w.up, rid),
         w.got[rid], w.sharer.sess, H.Hits(w.sharer, rid), S.EpochAt(w.unix),
         t.sharer.sess, FromRid(t.up, rid), H.Hits(t.sharer, rid), S.EpochAt(t.unix));
  }

  lemma {:induction false} FromRidHead(up: seq<Bytes>, rid: Id)
    requires up != []
    ensures FromRid(up, rid) == (if IsFrom(up[0], rid) then 1 else 0) + FromRid(up[1..], rid)
  {
    hide IsFrom;
    var n := |up| - 1;
    if n > 0 {
      FromRidHead(up[..n], rid);
      assert up[..n][1..] == up[1..][..n - 1];
    }
  }

  lemma FromRidAppend(up: seq<Bytes>, m: Bytes, rid: Id)
    ensures FromRid(up + [m], rid) == FromRid(up, rid) + (if IsFrom(m, rid) then 1 else 0)
  {
    assert (up + [m])[..|up|] == up;
  }

  /** The sharer has taken the oldest message off its connection. */
  function Popped(w: World, unix: int): World
    requires w.up != []
  {
    w.(up := w.up[1..], unix := unix)
  }

  lemma PopKeeps(w: World, unix: int)
    requires Inv(w) && w.up != [] && w.unix <= unix < U64
    ensures Inv(Popped(w, unix))
  {
    hide Good, FromRid, S.EpochAt, S.Inv, Routing.Routed, Routing.Exact, Known, PerViewer;
    var t := Popped(w, unix);
    BaseFrame(w, t);
    EpochMonotone(w.unix, unix);
    forall rid | rid in t.relay.viewers ensures Defined(t, rid) && PerViewer(t, rid) {
      FromRidHead(w.up, rid);
      OtherKeeps(w, t, rid);
    }
  }

  lemma DisconnectKeeps(w: World, rid0: Id, hit: Id)
    requires Inv(w) && rid0 !in w.relay.viewers
    requires H.Hits(w.sharer, rid0) == {} || hit in H.Hits(w.sharer, rid0)
    ensures Inv(w.(sharer := H.HandleDisconnect(w.sharer, rid0, hit)))
  {
    hide Good, FromRid, S.EpochAt, S.Inv, Routing.Routed, Routing.Exact, Known, PerViewer, H.HandleDisconnect;
    var t := w.(sharer := H.HandleDisconnect(w.sharer, rid0, hit));
    Routing.DisconnectKeeps(w.sharer, rid0, hit);
    RoutedFacts(w.sharer);
    DisconnectShape(w.sharer, rid0, hit);
    RoutedFacts(t.sharer);
    SameUp(w, t);
    assert Base(t);
    forall rid | rid in t.relay.viewers ensures Defined(t, rid) && PerViewer(t, rid) {
      OtherKeeps(w, t, rid);
    }
  }

  lemma DisconnectShape(s: H.State, rid: Id, hit: Id)
    requires H.Hits(s, rid) == {} || hit in H.Hits(s, rid)
    requires S.Inv(s.sess)
    ensures var t := H.HandleDisconnect(s, rid, hit);
      && t == s.(ids := t.ids, sess := t.sess) && t.sess == s.sess.(viewers := t.sess.viewers) && S.Inv(t.sess)
      && t.ids.Keys <= s.ids.Keys && (forall sid :: sid in t.ids ==> t.ids[sid] == s.ids[sid])
      && (forall sid :: sid in t.sess.viewers ==> sid in s.sess.viewers && t.sess.viewers[sid] == s.sess.viewers[sid])
  {
    hide S.Ordered;
  }

  lemma SameUp(w: World, t: World)
    requires forall i :: 0 <= i < |w.up| ==> Known(w, w.up[i])
    requires t.up == w.up && w.ends.Keys <= t.ends.Keys && t.relay.viewers.Keys <= w.relay.viewers.Keys
    ensures forall i :: 0 <= i < |t.up| ==> Known(t, t.up[i])
  {
    hide H.Disconnects;
    forall i | 0 <= i < |t.up| ensures Known(t, t.up[i]) {
      assert Known(w, w.up[i]);
    }
  }

  lemma RoutedFacts(s: H.State)
    requires Routing.Routed(s) && Routing.Exact(s)
    ensures !s.sess.closed && S.GoodKeys(s.sess) && s.ids.Keys == s.sess.viewers.Keys
    ensures forall sid :: sid in s.ids ==> s.ids[sid] in s.handshakes && s.handshakes[s.ids[sid]].stage == H.Complete
    ensures forall a, b :: a in s.ids && b in s.ids && s.ids[a] == s.ids[b] ==> a == b
  {
    hide S.GoodKeys;
    assert forall sid :: sid in s.ids ==> Routing.IsComplete(s, s.ids[sid]);
  }

  /** A handshake step that admits nobody: nothing, a reply that advances the stage, or a fresh start. */
  lemma SpakeShape(s: H.State, rid: Id, payload: Bytes, o: H.Oracle)
    requires o.sendOk
    requires !(H.Context(s, rid, payload).stage.WaitConfirmB? && o.verify && o.authKey.Some?)
    ensures var (t, sent) := H.HandleSpake2(s, rid, payload, o);
      && t == s.(handshakes := t.handshakes)
      && t.handshakes.Keys <= s.handshakes.Keys + {rid}
      && (forall r :: r != rid ==> StageOf(t, r) == StageOf(s, r))
      && if sent == [] then StageOf(t, rid) == (if StageOf(s, rid) == 3 then 3 else 0)
         else exists m :: sent == [H.Unicast(rid, m)] && StageOf(s, rid) < 2 && StageOf(t, rid) == StageOf(s, rid) + 1
  {
    hide Addressed;
    var (t, sent) := H.HandleSpake2(s, rid, payload, o);
    if sent != [] {
      var hs := H.Context(s, rid, payload);
      var m := if hs.stage.WaitInit? then o.start.value else o.finish.value;
      assert sent == [H.Unicast(rid, m)];
    }
  }

  /** A sharer step that sends at most one unicast, to `rid0`. */
  predicate Unicasted(w: World, t: World, rid0: Id, m: Option<Bytes>)
    requires w.relay.viewers.Keys <= w.wire.Keys
  {
    && t == w.(sharer := t.sharer, relay := t.relay, wire := t.wire) && t.wire.Keys == w.wire.Keys
    && w.relay.viewers.Keys - {rid0} <= t.relay.viewers.Keys <= w.relay.viewers.Keys
    && forall rid :: rid in t.relay.viewers ==>
         Pending(t, rid) == if rid == rid0 && m.Some? then Pending(w, rid) + [m.value] else Pending(w, rid)
  }

  lemma ActUnicast(w: World, s: H.State, rid0: Id, m: Bytes)
    requires w.relay.viewers.Keys <= w.wire.Keys && |rid0| == VIEWER_ID_LEN
    ensures Unicasted(w, Act(w, (s, [H.Unicast(rid0, m)])), rid0, Some(m))
    ensures Act(w, (s, [H.Unicast(rid0, m)])).sharer == s
  {
    var w1 := w.(sharer := s);
    SendOne(w1, H.Unicast(rid0, m));
    UnicastEffect(w1, rid0, m);
    hide Send, H.Unicast, Pending;
    forall rid | rid in w.relay.viewers ensures Pending(w1, rid) == Pending(w, rid) {
      PendingSame(w, w1, rid);
    }
  }

  lemma PendingSame(w: World, t: World, rid: Id)
    requires rid in w.relay.viewers && rid in w.wire && t.relay == w.relay && t.wire == w.wire
    ensures Pending(t, rid) == Pending(w, rid)
  {}

  lemma ActNothing(w: World, s: H.State, rid0: Id)
    requires w.relay.viewers.Keys <= w.wire.Keys
    ensures Unicasted(w, Act(w, (s, [])), rid0, None) && Act(w, (s, [])) == w.(sharer := s)
  {}

  /** Base, after a step of the sharer towards one viewer. */
  lemma BaseUnicasted(w: World, t: World, rid0: Id, m: Option<Bytes>)
    requires Base(w) && Unicasted(w, t, rid0, m) && rid0 in w.ends
    requires Routing.Routed(t.sharer) && Routing.Exact(t.sharer) && S.Inv(t.sharer.sess) && t.sharer.sess.draws < U64
    requires t.sharer.handshakes.Keys <= w.sharer.handshakes.Keys + {rid0}
    requires forall sid :: sid in t.sharer.ids ==> sid in w.sharer.ids || IsViewerId(sid)
    ensures Base(t)
  {
    hide S.Inv, Routing.Routed, Routing.Exact, Known, Pending, IsViewerId;
    RoutedFacts(t.sharer);
    SameUp(w, t);
  }

  /** The sharer's handshake table advances at `rid0`, and its answer, if any, goes out. */
  lemma ReplyKeeps(w: World, o: H.Oracle)
    requires Inv(w) && w.up != [] && o.sendOk && w.unix <= o.unix < U64
    requires w.up[0][0] == TAG_SPAKE2
    requires !(H.Context(w.sharer, w.up[0][1..7], w.up[0][7..]).stage.WaitConfirmB? && o.verify && o.authKey.Some?)
    ensures Inv(Act(Popped(w, o.unix), H.HandleSpake2(w.sharer, w.up[0][1..7], w.up[0][7..], o)))
  {
    hide Good, FromRid, S.EpochAt, S.Inv, Routing.Routed, Routing.Exact, PerViewer, H.HandleSpake2, Act, StageOf,
      Pending, H.Unicast, H.Disconnects;
    assert Known(w, w.up[0]);
    var rid0 := w.up[0][1..7];
    var w0 := Popped(w, o.unix);
    PopKeeps(w, o.unix);
    SpakeShape(w.sharer, rid0, w.up[0][7..], o);
    Routing.Spake2Keeps(w.sharer, rid0, w.up[0][7..], o);
    var (s, sent) := H.HandleSpake2(w.sharer, rid0, w.up[0][7..], o);
    var m: Option<Bytes> := None;
    if sent == [] {
      ActNothing(w0, s, rid0);
    } else {
      var x :| sent == [H.Unicast(rid0, x)] && StageOf(w.sharer, rid0) < 2
        && StageOf(s, rid0) == StageOf(w.sharer, rid0) + 1;
      ActUnicast(w0, s, rid0, x);
      m := Some(x);
    }
    var t := Act(w0, (s, sent));
    hide Known;
    BaseUnicasted(w0, t, rid0, m);
    forall rid | rid in t.relay.viewers ensures Defined(t, rid) && PerViewer(t, rid) {
      if rid == rid0 {
        ReplyKeepsOne(w, t, rid0, m);
      } else {
        OtherKeeps(w0, t, rid);
      }
    }
  }

  lemma ReplyAfter(w: World, t: World, rid0: Id, m: Option<Bytes>)
    requires Inv(w) && w.up != [] && IsFrom(w.up[0], rid0) && w.unix <= t.unix < U64
    requires Unicasted(Popped(w, t.unix), t, rid0, m) && rid0 in t.relay.viewers
    requires t.sharer == w.sharer.(handshakes := t.sharer.handshakes)
    requires if m.None? then StageOf(t.sharer, rid0) == (if StageOf(w.sharer, rid0) == 3 then 3 else 0)
             else StageOf(w.sharer, rid0) < 2 && StageOf(t.sharer, rid0) == StageOf(w.sharer, rid0) + 1
    requires StageOf(w.sharer, rid0) == 3
    ensures Defined(t, rid0) && PerViewer(t, rid0)
  {
    hide Good, FromRid, S.EpochAt, S.Inv, Known, Pending, Routing.Routed, Routing.Exact;
    FromRidHead(w.up, rid0);
    EpochMonotone(w.unix, t.unix);
    PendingSame(w, Popped(w, t.unix), rid0);
    OtherKeeps(w, t, rid0);
  }

  lemma ReplyDuring(w: World, t: World, rid0: Id, m: Option<Bytes>)
    requires Inv(w) && w.up != [] && IsFrom(w.up[0], rid0) && w.unix <= t.unix < U64
    requires Unicasted(Popped(w, t.unix), t, rid0, m) && rid0 in t.relay.viewers
    requires t.sharer == w.sharer.(handshakes := t.sharer.handshakes)
    requires if m.None? then StageOf(t.sharer, rid0) == (if StageOf(w.sharer, rid0) == 3 then 3 else 0)
             else StageOf(w.sharer, rid0) < 2 && StageOf(t.sharer, rid0) == StageOf(w.sharer, rid0) + 1
    requires StageOf(w.sharer, rid0) != 3
    ensures Defined(t, rid0) && PerViewer(t, rid0)
  {
    hide Good, FromRid, S.EpochAt, S.Inv, Known, Pending, Routing.Routed, Routing.Exact;
    FromRidHead(w.up, rid0);
    EpochMonotone(w.unix, t.unix);
    PendingSame(w, Popped(w, t.unix), rid0);
    BaseDefines(w, rid0);
    var stage := StageOf(w.sharer, rid0);
    var u := FromRid(w.up, rid0);
    GoodStays(w.ends[rid0], stage, AuthOf(w, rid0), Pending(w, rid0), u,
      w.got[rid0], w.sharer.sess, H.Hits(w.sharer, rid0), S.EpochAt(w.unix),
      w.sharer.sess, u, H.Hits(w.sharer, rid0), S.EpochAt(t.unix));
    HitsAreComplete(w.sharer, rid0);
    if m.None? {
      GoodAbandoned(w.ends[rid0], stage, AuthOf(w, rid0), Pending(w, rid0), u, w.got[rid0], w.sharer.sess,
        S.EpochAt(t.unix));
    } else {
      GoodReply(w.ends[rid0], stage, AuthOf(w, rid0), Pending(w, rid0), u, w.got[rid0], w.sharer.sess,
        S.EpochAt(t.unix), m.value);
    }
  }

  lemma ReplyKeepsOne(w: World, t: World, rid0: Id, m: Option<Bytes>)
    requires Inv(w) && w.up != [] && IsFrom(w.up[0], rid0) && w.unix <= t.unix < U64
    requires Unicasted(Popped(w, t.unix), t, rid0, m) && rid0 in t.relay.viewers
    requires t.sharer == w.sharer.(handshakes := t.sharer.handshakes)
    requires if m.None? then StageOf(t.sharer, rid0) == (if StageOf(w.sharer, rid0) == 3 then 3 else 0)
             else StageOf(w.sharer, rid0) < 2 && StageOf(t.sharer, rid0) == StageOf(w.sharer, rid0) + 1
    ensures Defined(t, rid0) && PerViewer(t, rid0)
  {
    hide Inv, PerViewer, StageOf, Unicasted;
    if StageOf(w.sharer, rid0) == 3 {
      ReplyAfter(w, t, rid0, m);
    } else {
      ReplyDuring(w, t, rid0, m);
    }
  }

  lemma HitsAreComplete(s: H.State, rid: Id)
    requires Routing.Routed(s) && Routing.Exact(s)
    ensures H.Hits(s, rid) != {} ==> StageOf(s, rid) == 3
  {
    RoutedFacts(s);
    if H.Hits(s, rid) != {} {
      var sid :| sid in H.Hits(s, rid);
      assert s.ids[sid] == rid;
    }
  }

  /** The context in which a verified viewer is admitted. */
  function Verified(w: World): H.State
    requires w.up != [] && Verifying(w)
  {
    var rid := w.up[0][1..7];
    var hs := w.sharer.handshakes[rid];
    H.SetContext(w.sharer, rid, hs.(calls := hs.calls + [H.Verified]))
  }

  predicate Admits(w: World, o: H.Oracle)
    requires w.up != []
  {
    && Verifying(w) && o.sendOk && o.sizeOk && o.verify && o.authKey.Some? && w.unix <= o.unix < U64
    && IsViewerId(o.id) && o.id !in w.sharer.sess.viewers
    && AuthOf(w, w.up[0][1..7]) == o.authKey && w.sharer.sess.draws + 1 < U64
  }

  /** The world once the key is on its way. */
  function Delivered(w: World, o: H.Oracle): World
    requires w.up != [] && Admits(w, o)
  {
    Act(Popped(w, o.unix), H.Deliver(Verified(w), w.up[0][1..7], o))
  }

  function Registered(w: World, o: H.Oracle): (S.State, S.Result<S.Payload>)
    requires w.up != [] && Admits(w, o)
  {
    S.Register(w.sharer.sess, o.authKey.value, o.id, o.unix, w.sharer.handshakes[w.up[0][1..7]].clientType)
  }

  lemma DeliveredShape(w: World, o: H.Oracle)
    requires Base(w) && w.up != [] && Admits(w, o)
    ensures var t, rid0, r := Delivered(w, o), w.up[0][1..7], Registered(w, o);
      && r.1.Ok? && Unicasted(Popped(w, o.unix), t, rid0, Some(KeyDelivery(o.id, r.1.value)))
      && t.sharer == H.Deliver(Verified(w), rid0, o).0 && H.Deliver(Verified(w), rid0, o).1 != []
      && t.sharer.sess == r.0 && S.Inv(r.0) && r.0.draws == w.sharer.sess.draws + 1 && w.sharer.sess.log <= r.0.log
      && r.0.streamKey == w.sharer.sess.streamKey
      && r.0.viewers
           == w.sharer.sess.viewers[o.id := S.Member(o.authKey.value, o.unix, w.sharer.handshakes[rid0].clientType)]
  {
    hide S.Ordered, H.Deliver, Act, Pending, H.Unicast, KeyDelivery, S.Register, Routing.Routed, Routing.Exact, Known;
    RoutedFacts(w.sharer);
    var rid0 := w.up[0][1..7];
    RegisterFacts(w.sharer.sess, o.authKey.value, o.id, o.unix, w.sharer.handshakes[rid0].clientType);
    Routing.DeliverShape(Verified(w), rid0, o);
    DeliverSends(Verified(w), rid0, o);
    ActUnicast(Popped(w, o.unix), H.Deliver(Verified(w), rid0, o).0, rid0, KeyDelivery(o.id, Registered(w, o).1.value));
  }

  lemma DeliveredRouting(w: World, o: H.Oracle)
    requires Base(w) && w.up != [] && Admits(w, o)
    ensures var s, rid0 := H.Deliver(Verified(w), w.up[0][1..7], o).0, w.up[0][1..7];
      && Routing.Routed(s) && Routing.Exact(s) && s.ids == w.sharer.ids[o.id := rid0]
      && s.handshakes.Keys == w.sharer.handshakes.Keys && StageOf(s, rid0) == 3
      && (forall rid :: rid != rid0 ==> StageOf(s, rid) == StageOf(w.sharer, rid))
      && H.Hits(s, rid0) == {o.id} && (forall rid :: rid != rid0 ==> H.Hits(s, rid) <= H.Hits(w.sharer, rid))
  {
    hide S.Ordered, H.Deliver, S.Register, Known, Routing.Routed, Routing.Exact;
    var rid0 := w.up[0][1..7];
    RoutedFacts(w.sharer);
    Routing.DeliverShape(Verified(w), rid0, o);
    Routing.DeliverKeeps(w.sharer, rid0, o);
    AdmittedHits(w.sharer, H.Deliver(Verified(w), rid0, o).0, rid0, o.id);
  }

  lemma DeliverKeepsOne(w: World, o: H.Oracle, t: World, m: Bytes)
    requires Inv(w) && w.up != [] && Admits(w, o)
    requires var rid0 := w.up[0][1..7];
      && t.unix == o.unix && Unicasted(Popped(w, o.unix), t, rid0, Some(m)) && rid0 in t.relay.viewers
      && Registered(w, o).1.Ok? && m == KeyDelivery(o.id, Registered(w, o).1.value)
      && t.sharer.sess == Registered(w, o).0 && t.sharer.ids.Keys <= t.sharer.sess.viewers.Keys
      && H.Hits(t.sharer, rid0) == {o.id} && StageOf(t.sharer, rid0) == 3
    ensures var rid0 := w.up[0][1..7]; Defined(t, rid0) && PerViewer(t, rid0)
  {
    hide Good, FromRid, S.EpochAt, S.Inv, Known, H.Deliver, S.Register, KeyDelivery, Verified, Routing.Routed,
      Routing.Exact, S.GoodKeys;
    var rid0 := w.up[0][1..7];
    FromRidHead(w.up, rid0);
    PendingSame(w, Popped(w, o.unix), rid0);
    HitsAreComplete(w.sharer, rid0);
    GoodAdmitted(w.ends[rid0], o.authKey.value, Pending(w, rid0), FromRid(w.up, rid0), w.got[rid0],
      w.sharer.sess, S.EpochAt(w.unix), o.id, o.unix, w.sharer.handshakes[rid0].clientType, S.EpochAt(o.unix));
  }

  lemma DeliverKeeps(w: World, o: H.Oracle)
    requires Inv(w) && w.up != [] && Admits(w, o)
    ensures Inv(Delivered(w, o)) && Delivered(w, o).sharer == H.Deliver(Verified(w), w.up[0][1..7], o).0
    ensures Delivered(w, o).unix == o.unix && H.Deliver(Verified(w), w.up[0][1..7], o).1 != []
  {
    hide Good, FromRid, S.EpochAt, S.Inv, Routing.Routed, Routing.Exact, PerViewer, Delivered, Registered, Verified,
      StageOf, Pending, Known, KeyDelivery, H.Deliver;
    var rid0 := w.up[0][1..7];
    var w0 := Popped(w, o.unix);
    PopKeeps(w, o.unix);
    DeliveredShape(w, o);
    DeliveredRouting(w, o);
    RoutedFacts(w.sharer);
    var t := Delivered(w, o);
    var m := KeyDelivery(o.id, Registered(w, o).1.value);
    BaseUnicasted(w0, t, rid0, Some(m));
    forall rid | rid in t.relay.viewers ensures Defined(t, rid) && PerViewer(t, rid) {
      if rid == rid0 {
        DeliverKeepsOne(w, o, t, m);
      } else {
        OtherKeeps(w0, t, rid);
      }
    }
  }

  lemma DeliverSends(s: H.State, rid: Id, o: H.Oracle)
    requires rid in s.handshakes && o.authKey.Some? && o.sendOk
    requires S.Register(s.sess, o.authKey.value, o.id, o.unix, s.handshakes[rid].clientType).1.Ok?
    ensures H.Deliver(s, rid, o).1 == [H.Unicast(rid, KeyDelivery(o.id,
      S.Register(s.sess, o.authKey.value, o.id, o.unix, s.handshakes[rid].clientType).1.value))]
  {
    hide S.Register, KeyDelivery, H.Unicast;
  }

  lemma AdmittedHits(s: H.State, t: H.State, rid0: Id, id: Id)
    requires Routing.Routed(s) && Routing.Exact(s) && StageOf(s, rid0) != 3
    requires t.ids == s.ids[id := rid0]
    ensures H.Hits(t, rid0) == {id} && forall rid :: rid != rid0 ==> H.Hits(t, rid) <= H.Hits(s, rid)
  {
    hide Routing.Routed, Routing.Exact;
    HitsAreComplete(s, rid0);
    forall sid | sid in H.Hits(t, rid0) ensures sid == id {
      assert sid in H.Hits(s, rid0) || sid == id;
    }
  }

  lemma ActAct(w: World, a: seq<Bytes>, s1: H.State, b: seq<Bytes>, s2: H.State)
    ensures Act(w, (s2, a + b)) == Act(Act(w, (s1, a)), (s2, b))
  {
    hide Send;
    SendAllSplit(w.(sharer := s2), a, b);
    SendAllFrame(w, a, s1);
    SendAllFrame(w, a, s2);
  }

  lemma AdmitKeeps(w: World, o: H.Oracle)
    requires Inv(w) && w.up != [] && Admits(w, o)
    requires Act(Popped(w, o.unix), H.Admit(Verified(w), w.up[0][1..7], o)).sharer.sess.draws < U64
    ensures Inv(Act(Popped(w, o.unix), H.Admit(Verified(w), w.up[0][1..7], o)))
  {
    hide Good, S.EpochAt, S.Inv, Known, Routing.Routed, Routing.Exact, PerViewer, H.Deliver, H.SendFrame, SendAll;
    var rid0 := w.up[0][1..7];
    DeliverKeeps(w, o);
    var s := Verified(w);
    var (s1, delivery) := H.Deliver(s, rid0, o);
    var w1 := Delivered(w, o);
    assert Base(w1);
    if s.cols > 0 && s.rows > 0 {
      var plain := H.SizePlain(s.cols, s.rows);
      var (s2, sent) := H.SendFrame(s1, TAG_TERM_SIZE, plain, o.unix);
      ActAct(Popped(w, o.unix), delivery, s1, sent, s2);
      assert Act(w1, (s2, sent)) == Act(w1.(unix := o.unix), H.SendFrame(w1.sharer, TAG_TERM_SIZE, plain, o.unix));
      FrameDraws(w1.sharer, TAG_TERM_SIZE, plain, o.unix);
      ActSharer(w1, (s2, sent));
      FrameKeeps(w1, TAG_TERM_SIZE, plain, o.unix);
    }
  }

  lemma ActSharer(w: World, r: (H.State, seq<Bytes>))
    ensures Act(w, r).sharer == r.0
  {
    hide Send;
    SendAllFrame(w, r.1, r.0);
  }

  lemma FrameDraws(s: H.State, tag: Byte, plain: Bytes, unix: int)
    requires !s.sess.closed
    ensures H.SendFrame(s, tag, plain, unix).0.sess.draws == s.sess.draws + 1
  {
    hide Nonces.NonceOf, FrameBytes;
  }

  lemma AdmitDraws(s: H.State, rid: Id, o: H.Oracle)
    requires rid in s.handshakes && o.authKey.Some? && !s.sess.closed && S.GoodKeys(s.sess)
    requires |o.authKey.value| == KEY_LEN
    ensures H.Admit(s, rid, o).0.sess.draws >= s.sess.draws + 1
  {
    hide H.Deliver, H.SendFrame, Nonces.NonceOf;
    Routing.DeliverShape(s, rid, o);
    FrameDraws(H.Deliver(s, rid, o).0, TAG_TERM_SIZE, H.SizePlain(s.cols, s.rows), o.unix);
  }

  lemma SharerReadsKeeps(w: World, o: H.Oracle, hit: Id)
    requires Inv(w) && Legal(w, SharerReads(o, hit)) && Next(w, SharerReads(o, hit)).sharer.sess.draws < U64
    ensures Inv(Next(w, SharerReads(o, hit)))
  {
    hide Good, S.EpochAt, S.Inv, PerViewer, H.HandleDisconnect, SendAll, H.Admit, Routing.Routed, Routing.Exact;
    var data := w.up[0];
    assert Known(w, data);
    if data[0] == TAG_SPAKE2 {
      var rid0 := data[1..7];
      if Verifying(w) && o.verify && o.authKey.Some? {
        assert H.SetContext(w.sharer, rid0, w.sharer.handshakes[rid0]) == w.sharer;
        RoutedFacts(w.sharer);
        AdmitDraws(Verified(w), rid0, o);
        ActSharer(Popped(w, o.unix), H.Admit(Verified(w), rid0, o));
        AdmitKeeps(w, o);
      } else {
        ReplyKeeps(w, o);
      }
    } else {
      PopKeeps(w, o.unix);
      DisconnectKeeps(Popped(w, o.unix), data[2..8], hit);
      hide H.Disconnects;
      ActNothing(Popped(w, o.unix), H.HandleDisconnect(w.sharer, data[2..8], hit), data[2..8]);
    }
  }

  // ----- revocations

  predicate Mapped(ids: map<Id, Id>, order: seq<Id>, sid: Id, rid: Id)
  {
    sid in order && sid in ids && ids[sid] == rid
  }

  /** Each mapped viewer in `order` has been sent its own rekey, and nobody else anything. */
  ghost predicate Rekeyed(w: World, t: World, ids: map<Id, Id>, rekeys: map<Id, S.Payload>, order: seq<Id>)
    requires w.relay.viewers.Keys <= w.wire.Keys && forall id :: id in order ==> id in rekeys
  {
    && t == w.(relay := t.relay, wire := t.wire) && t.wire.Keys == w.wire.Keys
    && t.relay.viewers.Keys <= w.relay.viewers.Keys
    && forall rid :: rid in t.relay.viewers ==> RekeyedOne(w, t, ids, rekeys, order, rid)
  }

  ghost predicate RekeyedOne(w: World, t: World, ids: map<Id, Id>, rekeys: map<Id, S.Payload>, order: seq<Id>, rid: Id)
    requires rid in w.relay.viewers && rid in w.wire && rid in t.relay.viewers && rid in t.wire
    requires forall id :: id in order ==> id in rekeys
  {
    && (forall sid :: Mapped(ids, order, sid, rid) ==>
          Pending(t, rid) == Pending(w, rid) + [KeyDelivery(sid, rekeys[sid])])
    && ((forall sid :: !Mapped(ids, order, sid, rid)) ==> Pending(t, rid) == Pending(w, rid))
  }

  lemma {:induction false} RekeyEffect(w: World, ids: map<Id, Id>, rekeys: map<Id, S.Payload>, order: seq<Id>)
    requires w.relay.viewers.Keys <= w.wire.Keys && forall id :: id in order ==> id in rekeys
    requires forall a, b :: a in ids && b in ids && ids[a] == ids[b] ==> a == b
    requires forall i, j :: 0 <= i < j < |order| ==> order[i] != order[j]
    requires forall id :: id in ids ==> |ids[id]| == VIEWER_ID_LEN
    ensures Rekeyed(w, SendAll(w, H.RekeySends(ids, rekeys, order)), ids, rekeys, order)
    decreases |order|
  {
    hide KeyDelivery, Send, Pending, H.Unicast;
    if order != [] {
      var id, rest := order[0], order[1..];
      var msgs := H.RekeySends(ids, rekeys, rest);
      assert id !in rest;
      assert order == [id] + rest;
      var w1 := if id in ids then Send(w, H.Unicast(ids[id], KeyDelivery(id, rekeys[id]))) else w;
      if id in ids {
        UnicastEffect(w, ids[id], KeyDelivery(id, rekeys[id]));
        SendAllSplit(w, [H.Unicast(ids[id], KeyDelivery(id, rekeys[id]))], msgs);
        SendOne(w, H.Unicast(ids[id], KeyDelivery(id, rekeys[id])));
      } else {
        assert H.RekeySends(ids, rekeys, order) == msgs;
      }
      RekeyEffect(w1, ids, rekeys, rest);
      var t := SendAll(w, H.RekeySends(ids, rekeys, order));
      assert t == SendAll(w1, msgs);
      forall rid | rid in t.relay.viewers ensures RekeyedOne(w, t, ids, rekeys, order, rid) {
        RekeyOneMore(w, w1, t, ids, rekeys, order, rid);
      }
    }
  }

  lemma RekeyOneMore(
    w: World, w1: World, t: World, ids: map<Id, Id>, rekeys: map<Id, S.Payload>, order: seq<Id>, rid: Id)
    requires order != [] && order[0] !in order[1..] && forall id :: id in order ==> id in rekeys
    requires forall a, b :: a in ids && b in ids && ids[a] == ids[b] ==> a == b
    requires rid in w.relay.viewers && rid in w.wire && rid in w1.relay.viewers && rid in w1.wire
    requires rid in t.relay.viewers && rid in t.wire
    requires Pending(w1, rid) == if order[0] in ids && ids[order[0]] == rid
      then Pending(w, rid) + [KeyDelivery(order[0], rekeys[order[0]])] else Pending(w, rid)
    requires RekeyedOne(w1, t, ids, rekeys, order[1..], rid)
    ensures RekeyedOne(w, t, ids, rekeys, order, rid)
  {
    hide KeyDelivery, Pending;
    var id, rest := order[0], order[1..];
    assert order == [id] + rest;
    assert forall sid :: Mapped(ids, rest, sid, rid) ==> Mapped(ids, order, sid, rid);
    if Mapped(ids, order, id, rid) {
      assert forall sid :: !Mapped(ids, rest, sid, rid);
    } else {
      assert forall sid :: Mapped(ids, order, sid, rid) ==> Mapped(ids, rest, sid, rid);
    }
  }

  lemma GoodNobody(
    e: End, stage: nat, auth: Option<Bytes>, q: seq<Bytes>, u: nat, got: seq<Bytes>, sess: S.State, sids: set<Id>,
    epoch: nat, t: S.State)
    requires sids <= sess.viewers.Keys && Good(e, stage, auth, q, u, got, sess, sids, epoch)
    ensures Good(e, stage, auth, q, u, got, t, {}, epoch)
  {}

  /** What a revocation does to the world, apart from the relay. */
  predicate Revoked(w: World, t: World, target: Id, kNew: Bytes, order: seq<Id>, rekeys: map<Id, S.Payload>)
  {
    && Base(w) && target in w.sharer.sess.viewers && |kNew| == KEY_LEN
    && S.Enumerates(order, w.sharer.sess.viewers.Keys - {target}) && w.sharer.sess.draws + |order| < U64
    && S.Revoke(w.sharer.sess, target, kNew, order) == (t.sharer.sess, S.Ok(rekeys))
    && t.sharer == w.sharer.(sess := t.sharer.sess, ids := w.sharer.ids - {target})
    && t == w.(sharer := t.sharer, relay := t.relay, wire := t.wire)
  }

  lemma RevokedStays(
    w: World, t: World, target: Id, kNew: Bytes, order: seq<Id>, rekeys: map<Id, S.Payload>, sid: Id, rid: Id)
    requires Revoked(w, t, target, kNew, order, rekeys) && Defined(w, rid) && PerViewer(w, rid) && Defined(t, rid)
    requires sid != target && sid in w.sharer.ids && w.sharer.ids[sid] == rid && sid in rekeys
    requires Pending(t, rid) == Pending(w, rid) + [KeyDelivery(sid, rekeys[sid])]
    ensures PerViewer(t, rid)
  {
    hide Good, S.EpochAt, S.Ordered, S.Revoke, FromRid, Known, KeyDelivery, Pending, Routing.Routed, Routing.Exact,
      S.Enumerates;
    RoutedFacts(w.sharer);
    assert H.Hits(w.sharer, rid) == {sid} && H.Hits(t.sharer, rid) == {sid};
    GoodRekeyed(w.ends[rid], StageOf(w.sharer, rid), AuthOf(w, rid), Pending(w, rid), FromRid(w.up, rid), w.got[rid],
      w.sharer.sess, S.EpochAt(w.unix), target, kNew, order, sid);
  }

  lemma RevokedOther(
    w: World, t: World, target: Id, kNew: Bytes, order: seq<Id>, rekeys: map<Id, S.Payload>, rid: Id)
    requires Revoked(w, t, target, kNew, order, rekeys) && Defined(w, rid) && PerViewer(w, rid) && Defined(t, rid)
    requires H.Hits(t.sharer, rid) == {} && Pending(t, rid) == Pending(w, rid)
    ensures PerViewer(t, rid)
  {
    hide Good, S.EpochAt, S.Inv, S.Revoke, FromRid, Known, Pending, Routing.Routed, Routing.Exact, S.Enumerates;
    GoodNobody(w.ends[rid], StageOf(w.sharer, rid), AuthOf(w, rid), Pending(w, rid), FromRid(w.up, rid), w.got[rid],
      w.sharer.sess, H.Hits(w.sharer, rid), S.EpochAt(w.unix), t.sharer.sess);
  }

  lemma RevokedViewer(
    w: World, t: World, target: Id, kNew: Bytes, order: seq<Id>, rekeys: map<Id, S.Payload>, sending: seq<Id>, rid: Id)
    requires Revoked(w, t, target, kNew, order, rekeys) && Defined(w, rid) && PerViewer(w, rid) && Defined(t, rid)
    requires forall id :: id in sending ==> id in rekeys
    requires forall sid :: sid in w.sharer.ids && sid != target ==> sid in sending
    requires RekeyedOne(w, t, t.sharer.ids, rekeys, sending, rid)
    ensures PerViewer(t, rid)
  {
    hide Base, Good, S.Revoke, PerViewer, KeyDelivery, Pending;
    if sid :| sid in H.Hits(t.sharer, rid) {
      assert Mapped(t.sharer.ids, sending, sid, rid);
      RevokedStays(w, t, target, kNew, order, rekeys, sid, rid);
    } else {
      assert forall sid :: Mapped(t.sharer.ids, sending, sid, rid) ==> sid in H.Hits(t.sharer, rid);
      RevokedOther(w, t, target, kNew, order, rekeys, rid);
    }
  }

  function AfterRevocation(w: World, target: Id, kNew: Bytes, sealing: seq<Id>, sending: seq<Id>): World
    requires Routing.Possible(w.sharer, Routing.Revocation(target, kNew, sealing, sending))
  {
    Act(w, H.Revoke(w.sharer, target, kNew, sealing, sending))
  }

  /** The state after a revocation of a listed viewer, and its rekeys. */
  lemma RevocationShape(w: World, target: Id, kNew: Bytes, sealing: seq<Id>, sending: seq<Id>)
    returns (rekeys: map<Id, S.Payload>)
    requires Base(w) && Routing.Possible(w.sharer, Routing.Revocation(target, kNew, sealing, sending))
    requires target in w.sharer.sess.viewers
    requires AfterRevocation(w, target, kNew, sealing, sending).sharer.sess.draws < U64
    ensures var t := AfterRevocation(w, target, kNew, sealing, sending);
      && Revoked(w, t, target, kNew, sealing, rekeys) && S.Inv(t.sharer.sess)
      && (forall id :: id in sending ==> id in rekeys)
      && (forall sid :: sid in w.sharer.ids && sid != target ==> sid in sending)
      && w.relay.viewers.Keys <= w.wire.Keys
      && Rekeyed(w.(sharer := t.sharer), t, t.sharer.ids, rekeys, sending)
  {
    hide S.Revoke, S.Inv, Known, Routing.Routed, Routing.Exact, H.RekeySends, Rekeyed, Send;
    var t := AfterRevocation(w, target, kNew, sealing, sending);
    RoutedFacts(w.sharer);
    ActSharer(w, H.Revoke(w.sharer, target, kNew, sealing, sending));
    S.RevokeNeverFails(w.sharer.sess, target, kNew, sealing);
    S.StepKeepsInv(w.sharer.sess, S.OpRevoke(target, kNew, sealing));
    rekeys := S.Revoke(w.sharer.sess, target, kNew, sealing).1.value;
    var ids := w.sharer.ids - {target};
    RekeyEffect(w.(sharer := t.sharer), ids, rekeys, sending);
    RekeyedIsRelay(w.(sharer := t.sharer), t, ids, rekeys, sending);
  }

  lemma RekeyedIsRelay(w: World, t: World, ids: map<Id, Id>, rekeys: map<Id, S.Payload>, order: seq<Id>)
    requires w.relay.viewers.Keys <= w.wire.Keys && (forall id :: id in order ==> id in rekeys)
    requires Rekeyed(w, t, ids, rekeys, order)
    ensures t == w.(relay := t.relay, wire := t.wire)
    ensures t.relay.viewers.Keys <= w.relay.viewers.Keys && t.wire.Keys == w.wire.Keys
    ensures forall rid :: rid in t.relay.viewers ==> RekeyedOne(w, t, ids, rekeys, order, rid)
  {
    hide RekeyedOne;
  }

  lemma RevocationKeeps(w: World, target: Id, kNew: Bytes, sealing: seq<Id>, sending: seq<Id>)
    requires Inv(w) && Routing.Possible(w.sharer, Routing.Revocation(target, kNew, sealing, sending))
    requires AfterRevocation(w, target, kNew, sealing, sending).sharer.sess.draws < U64
    ensures Inv(AfterRevocation(w, target, kNew, sealing, sending))
  {
    hide AfterRevocation, Base, Routing.Possible, PerViewer, RekeyedOne, H.Revoke, Rekeyed;
    var t := AfterRevocation(w, target, kNew, sealing, sending);
    RevocationSharer(w, target, kNew, sealing, sending);
    if target in w.sharer.sess.viewers {
      var rekeys := RevocationShape(w, target, kNew, sealing, sending);
      var w1 := w.(sharer := t.sharer);
      RekeyedIsRelay(w1, t, t.sharer.ids, rekeys, sending);
      RevokedBase(w, t);
      forall rid | rid in t.relay.viewers ensures Defined(t, rid) && PerViewer(t, rid) {
        BaseDefines(t, rid);
        SharerIrrelevant(w, t, rekeys, sending, rid);
        RevokedViewer(w, t, target, kNew, sealing, rekeys, sending, rid);
      }
    }
  }

  lemma BaseDefines(w: World, rid: Id)
    requires Base(w) && rid in w.relay.viewers
    ensures Defined(w, rid)
  {
    hide Known, S.Inv, Routing.Routed;
  }

  lemma RevocationSharer(w: World, target: Id, kNew: Bytes, sealing: seq<Id>, sending: seq<Id>)
    requires Base(w) && Routing.Possible(w.sharer, Routing.Revocation(target, kNew, sealing, sending))
    ensures var t := AfterRevocation(w, target, kNew, sealing, sending);
      && Routing.Routed(t.sharer) && Routing.Exact(t.sharer)
      && (target !in w.sharer.sess.viewers ==> t == w)
  {
    hide S.Revoke, S.Inv, Known, Routing.Routed, Routing.Exact, SendAll;
    RoutedFacts(w.sharer);
    Routing.RevokeKeeps(w.sharer, target, kNew, sealing, sending);
    ActSharer(w, H.Revoke(w.sharer, target, kNew, sealing, sending));
    if target !in w.sharer.sess.viewers {
      S.RevokeUnknown(w.sharer.sess, target, kNew, sealing);
      ActNothing(w, w.sharer, []);
      assert w.sharer.ids - {target} == w.sharer.ids;
    }
  }

  lemma SharerIrrelevant(w: World, t: World, rekeys: map<Id, S.Payload>, order: seq<Id>, rid: Id)
    requires rid in w.relay.viewers && rid in w.wire && rid in t.relay.viewers && rid in t.wire
    requires forall id :: id in order ==> id in rekeys
    requires RekeyedOne(w.(sharer := t.sharer), t, t.sharer.ids, rekeys, order, rid)
    ensures RekeyedOne(w, t, t.sharer.ids, rekeys, order, rid)
  {
    hide KeyDelivery, Pending;
    PendingSame(w, w.(sharer := t.sharer), rid);
  }

  lemma RevokedBase(w: World, t: World)
    requires Base(w) && !t.sharer.sess.closed && t == w.(sharer := t.sharer, relay := t.relay, wire := t.wire)
    requires Routing.Routed(t.sharer) && Routing.Exact(t.sharer) && S.Inv(t.sharer.sess) && t.sharer.sess.draws < U64
    requires t.sharer.handshakes == w.sharer.handshakes && t.sharer.ids.Keys <= w.sharer.ids.Keys
    requires t.relay.viewers.Keys <= w.relay.viewers.Keys && t.wire.Keys == w.wire.Keys
    ensures Base(t)
  {
    hide S.Inv, Known, Routing.Routed, Routing.Exact;
    RoutedFacts(t.sharer);
    SameUp(w, t);
  }

  // ----- the steps of the relay and of the viewers

  lemma WriteKeeps(w: World, rid0: Id)
    requires Inv(w) && Legal(w, RelayWrites(rid0))
    ensures Inv(Next(w, RelayWrites(rid0)))
  {
    hide Good, PerViewer, S.EpochAt, S.Inv, Known, Routing.Routed, Routing.Exact, FromRid, Act, R.Join;
    var t := Next(w, RelayWrites(rid0));
    BaseFrame(w, t);
    hide Base, Next, R.Take;
    forall rid | rid in t.relay.viewers ensures Defined(t, rid) && PerViewer(t, rid) {
      BaseDefines(w, rid);
      BaseDefines(t, rid);
      PendingWritten(w, rid0, rid);
      OtherKeeps(w, t, rid);
    }
  }

  /** What the relay writes moves from its queue to the wire. */
  lemma PendingWritten(w: World, rid0: Id, rid: Id)
    requires Legal(w, RelayWrites(rid0)) && rid in w.relay.viewers && rid in w.wire
    ensures var t := Next(w, RelayWrites(rid0));
      && rid in t.relay.viewers && rid in t.wire && Pending(t, rid) == Pending(w, rid)
      && t == w.(relay := t.relay, wire := t.wire)
  {}

  lemma {:induction false} FromRidZero(up: seq<Bytes>, rid: Id)
    requires forall i :: 0 <= i < |up| ==> !IsFrom(up[i], rid)
    ensures FromRid(up, rid) == 0
  {
    hide IsFrom;
    if up != [] {
      FromRidZero(up[..|up| - 1], rid);
    }
  }

  /** Going up, a message keeps Base when it is known. */
  lemma BaseUp(w: World, t: World, m: Bytes)
    requires Base(w)
    requires t == w.(relay := t.relay, wire := t.wire, ends := t.ends, got := t.got, auths := t.auths, up := w.up + [m])
    requires Known(t, m) && w.ends.Keys <= t.ends.Keys && t.wire.Keys == t.got.Keys == t.ends.Keys
    requires t.relay.viewers.Keys <= t.ends.Keys
    requires forall rid :: rid in t.relay.viewers ==> rid in w.relay.viewers || rid !in w.ends
    requires forall rid :: rid in t.ends ==> |rid| == VIEWER_ID_LEN
    requires forall rid :: rid in t.auths ==> |t.auths[rid]| == KEY_LEN
    ensures Base(t)
  {
    hide S.Inv, Routing.Routed, Routing.Exact, H.Disconnects;
    forall i | 0 <= i < |t.up| ensures Known(t, t.up[i]) {
      if i < |w.up| {
        assert Known(w, w.up[i]);
      }
    }
  }

  lemma JoinOne(w: World, t: World, rid0: Id, m: Bytes, rid: Id)
    requires Inv(w) && Base(t) && rid0 !in w.ends && IsFrom(m, rid0) && rid in t.relay.viewers
    requires t == w.(relay := w.relay.(viewers := w.relay.viewers[rid0 := []]), wire := w.wire[rid0 := []],
      ends := w.ends[rid0 := WaitMsgA], got := w.got[rid0 := []], up := w.up + [m])
    ensures Defined(t, rid) && PerViewer(t, rid)
  {
    hide Base, Good, PerViewer, S.EpochAt, FromRid;
    BaseDefines(t, rid);
    if rid == rid0 {
      Newcomer(w, t, rid0, m);
    } else {
      BaseDefines(w, rid);
      FromRidAppend(w.up, m, rid);
      OtherKeeps(w, t, rid);
    }
  }

  lemma JoinKeeps(w: World, rid0: Id, b: Byte)
    requires Inv(w) && Legal(w, Join(rid0, b))
    ensures Inv(Next(w, Join(rid0, b)))
  {
    hide PerViewer, S.Inv, Known, Routing.Routed, Routing.Exact, Act, Addressed, Defined;
    var t := Next(w, Join(rid0, b));
    if R.Join(w.relay, rid0).1.Joined? {
      var m := Addressed(TAG_SPAKE2, rid0, [b]);
      AddressedRoundTrip(TAG_SPAKE2, rid0, [b]);
      KnownSpake(t, m);
      BaseUp(w, t, m);
      forall rid | rid in t.relay.viewers ensures Defined(t, rid) && PerViewer(t, rid) {
        JoinOne(w, t, rid0, m, rid);
      }
    }
  }

  lemma KnownNotice(w: World, rid: Id)
    requires |rid| == VIEWER_ID_LEN && rid in w.ends && rid !in w.relay.viewers
    ensures Known(w, Disconnected(rid))
  {
    var m := Disconnected(rid);
    assert m[2..8] == rid;
  }

  lemma KnownSpake(w: World, m: Bytes)
    requires |m| >= 7 && m[0] == TAG_SPAKE2 && m[1..7] in w.ends
    ensures Known(w, m)
  {}

  lemma Newcomer(w: World, t: World, rid0: Id, m: Bytes)
    requires Base(w) && rid0 !in w.ends && Defined(t, rid0) && t.sharer == w.sharer && t.auths == w.auths
    requires t.up == w.up + [m] && t.ends[rid0] == WaitMsgA && t.got[rid0] == [] && Pending(t, rid0) == []
    ensures PerViewer(t, rid0)
  {
    hide S.Inv, Routing.Routed, Routing.Exact, H.Disconnects;
    forall i | 0 <= i < |w.up| ensures !IsFrom(w.up[i], rid0) {
      assert Known(w, w.up[i]);
    }
    FromRidZero(w.up, rid0);
    FromRidAppend(w.up, m, rid0);
    HitsAreComplete(w.sharer, rid0);
    hide FromRid;
  }

  lemma LeaveKeeps(w: World, rid0: Id)
    requires Inv(w) && Legal(w, Leaves(rid0))
    ensures Inv(Next(w, Leaves(rid0)))
  {
    hide Good, PerViewer, S.EpochAt, S.Inv, Routing.Routed, Routing.Exact, FromRid, Act;
    var t := Next(w, Leaves(rid0));
    var m := Disconnected(rid0);
    KnownNotice(t, rid0);
    BaseUp(w, t, m);
    hide Known;
    forall rid | rid in t.relay.viewers ensures Defined(t, rid) && PerViewer(t, rid) {
      FromRidAppend(w.up, m, rid);
      OtherKeeps(w, t, rid);
    }
  }

  lemma QuitKeeps(w: World, rid0: Id)
    requires Inv(w) && Legal(w, Quits(rid0))
    ensures Inv(Next(w, Quits(rid0)))
  {
    hide S.EpochAt, S.Inv, Routing.Routed, Routing.Exact, FromRid, Act, Known, Fold;
    var t := Next(w, Quits(rid0));
    BaseFrame(w, t);
    forall rid | rid in t.relay.viewers ensures Defined(t, rid) && PerViewer(t, rid) {
      if rid != rid0 {
        hide Good;
        OtherKeeps(w, t, rid);
      }
    }
  }

  lemma LostKeeps(w: World, rid0: Id, n: nat)
    requires Inv(w) && Legal(w, Lost(rid0, n))
    ensures Inv(Next(w, Lost(rid0, n)))
  {
    hide Good, PerViewer, S.EpochAt, S.Inv, Routing.Routed, Routing.Exact, FromRid, Act, Known;
    var t := Next(w, Lost(rid0, n));
    BaseFrame(w, t);
    forall rid | rid in t.relay.viewers ensures Defined(t, rid) && PerViewer(t, rid) {
      OtherKeeps(w, t, rid);
    }
  }

  lemma ReadBase(w: World, rid0: Id, now: int, reply: Option<Bytes>, auth: Bytes)
    requires Base(w) && Legal(w, ViewerReads(rid0, now, reply, auth))
    ensures Base(Next(w, ViewerReads(rid0, now, reply, auth)))
  {
    hide S.Inv, Routing.Routed, Routing.Exact, FromRid, Act, Known, EndAfter, Addressed;
    var t := Next(w, ViewerReads(rid0, now, reply, auth));
    if Answers(w.ends[rid0], w.wire[rid0][0], reply) {
      var m := Addressed(TAG_SPAKE2, rid0, reply.value);
      AddressedRoundTrip(TAG_SPAKE2, rid0, reply.value);
      KnownSpake(t, m);
      BaseUp(w, t, m);
    } else {
      BaseFrame(w, t);
    }
  }

  lemma ReadOne(w: World, t: World, rid: Id, now: int, reply: Option<Bytes>, auth: Bytes)
    requires Base(w) && Defined(w, rid) && PerViewer(w, rid) && Defined(t, rid) && w.wire[rid] != []
    requires t == StepEnd(w.(wire := w.wire[rid := w.wire[rid][1..]]), rid, w.wire[rid][0], now, reply, auth)
    ensures PerViewer(t, rid)
  {
    hide Good, S.EpochAt, S.Inv, Routing.Routed, Routing.Exact, FromRid, Known, EndAfter, Addressed, Answers, H.Hits,
      StageOf;
    var m := w.wire[rid][0];
    assert Pending(w, rid)[0] == m && Pending(t, rid) == Pending(w, rid)[1..];
    ReadIsAnswer(w.ends[rid], m, reply);
    if reply.Some? && |rid| == VIEWER_ID_LEN {
      AddressedRoundTrip(TAG_SPAKE2, rid, reply.value);
      FromRidAppend(w.up, Addressed(TAG_SPAKE2, rid, reply.value), rid);
    }
    HitsAreComplete(w.sharer, rid);
    HitsListed(w.sharer, rid);
    GoodRead(w.ends[rid], StageOf(w.sharer, rid), AuthOf(w, rid), Pending(w, rid), FromRid(w.up, rid),
      w.got[rid], w.sharer.sess, H.Hits(w.sharer, rid), S.EpochAt(w.unix), now, reply, auth);
  }

  lemma HitsListed(s: H.State, rid: Id)
    ensures H.Hits(s, rid) <= s.ids.Keys
  {}

  lemma ReadOther(w: World, t: World, rid0: Id, now: int, reply: Option<Bytes>, auth: Bytes, rid: Id)
    requires Defined(w, rid) && PerViewer(w, rid) && Defined(t, rid) && rid != rid0 && |rid0| == VIEWER_ID_LEN
    requires rid0 in w.wire && rid0 in w.ends && rid0 in w.got && w.wire[rid0] != []
    requires t == StepEnd(w.(wire := w.wire[rid0 := w.wire[rid0][1..]]), rid0, w.wire[rid0][0], now, reply, auth)
    ensures PerViewer(t, rid)
  {
    hide Good, PerViewer, S.EpochAt, FromRid, EndAfter, Addressed, Answers;
    ReadIsAnswer(w.ends[rid0], w.wire[rid0][0], reply);
    if reply.Some? {
      AddressedRoundTrip(TAG_SPAKE2, rid0, reply.value);
      FromRidAppend(w.up, Addressed(TAG_SPAKE2, rid0, reply.value), rid);
    }
    OtherKeeps(w, t, rid);
  }

  lemma ReadKeeps(w: World, rid0: Id, now: int, reply: Option<Bytes>, auth: Bytes)
    requires Inv(w) && Legal(w, ViewerReads(rid0, now, reply, auth))
    ensures Inv(Next(w, ViewerReads(rid0, now, reply, auth)))
  {
    hide PerViewer, S.Inv, Routing.Routed, Routing.Exact, Act, Known, EndAfter, Addressed, Answers, Defined;
    var t := Next(w, ViewerReads(rid0, now, reply, auth));
    ReadBase(w, rid0, now, reply, auth);
    forall rid | rid in t.relay.viewers ensures Defined(t, rid) && PerViewer(t, rid) {
      BaseDefines(t, rid);
      BaseDefines(w, rid);
      if rid == rid0 {
        ReadOne(w, t, rid0, now, reply, auth);
      } else {
        ReadOther(w, t, rid0, now, reply, auth, rid);
      }
    }
  }

  lemma ReadIsAnswer(e: End, m: Bytes, reply: Option<Bytes>)
    ensures Answers(e, m, reply) ==> reply.Some?
  {}

  lemma ResizeKeeps(w: World, cols: nat, rows: nat, unix: int)
    requires Inv(w) && w.unix <= unix < U64 && w.sharer.sess.draws + 1 < U64
    ensures Inv(Act(w.(unix := unix), H.SetTermSize(w.sharer, cols, rows, unix)))
  {
    hide Good, PerViewer, S.EpochAt, S.Inv, Known, Routing.Routed, Routing.Exact, FromRid, Act, H.SendFrame;
    var w1 := w.(sharer := w.sharer.(cols := cols, rows := rows));
    BaseFrame(w, w1);
    forall rid | rid in w1.relay.viewers ensures Defined(w1, rid) && PerViewer(w1, rid) {
      OtherKeeps(w, w1, rid);
    }
    FrameKeeps(w1, TAG_TERM_SIZE, H.SizePlain(cols, rows), unix);
    ActIgnoresSharer(w.(unix := unix), w1.(unix := unix), H.SetTermSize(w.sharer, cols, rows, unix));
  }

  lemma ActIgnoresSharer(w: World, w1: World, r: (H.State, seq<Bytes>))
    requires w1 == w.(sharer := w1.sharer)
    ensures Act(w, r) == Act(w1, r)
  {}

  lemma NextKeeps(w: World, e: Event)
    requires Inv(w) && Legal(w, e) && Next(w, e).sharer.sess.draws < U64
    ensures Inv(Next(w, e))
  {
    hide Inv, S.Inv, Act, H.FromRelay, AfterRevocation, R.Join, R.Take, R.Leave, StepEnd, H.SendFrame, H.SetTermSize,
      Routing.Possible, Popped, Verifying;
    match e
    case Join(rid, b) => JoinKeeps(w, rid, b);
    case SharerReads(o, hit) => SharerReadsKeeps(w, o, hit);
    case Stream(plain, unix) =>
      BudgetOf(w, H.SendFrame(w.sharer, TAG_STREAM, plain, unix), unix);
      SendDraws(w, TAG_STREAM, plain, unix);
      FrameKeeps(w, TAG_STREAM, plain, unix);
    case Resize(cols, rows, unix) =>
      BudgetOf(w, H.SetTermSize(w.sharer, cols, rows, unix), unix);
      SizeDraws(w, cols, rows, unix);
      ResizeKeeps(w, cols, rows, unix);
    case Revocation(target, kNew, sealing, sending) => RevocationKeeps(w, target, kNew, sealing, sending);
    case RelayWrites(rid) => WriteKeeps(w, rid);
    case ViewerReads(rid, now, reply, auth) => ReadKeeps(w, rid, now, reply, auth);
    case Leaves(rid) => LeaveKeeps(w, rid);
    case Quits(rid) => QuitKeeps(w, rid);
    case Lost(rid, n) => LostKeeps(w, rid, n);
  }

  lemma BudgetOf(w: World, r: (H.State, seq<Bytes>), unix: int)
    ensures Act(w.(unix := unix), r).sharer == r.0
  {
    ActSharer(w.(unix := unix), r);
  }

  lemma SendDraws(w: World, tag: Byte, plain: Bytes, unix: int)
    requires Inv(w)
    ensures H.SendFrame(w.sharer, tag, plain, unix).0.sess.draws == w.sharer.sess.draws + 1
  {
    hide PerViewer, Defined, Known, Routing.Routed, Routing.Exact, S.Inv, H.SendFrame;
    FrameDraws(w.sharer, tag, plain, unix);
  }

  lemma SizeDraws(w: World, cols: nat, rows: nat, unix: int)
    requires Inv(w)
    ensures H.SetTermSize(w.sharer, cols, rows, unix).0.sess.draws == w.sharer.sess.draws + 1
  {
    hide PerViewer, Defined, Known, Routing.Routed, Routing.Exact, S.Inv, H.SendFrame;
    FrameDraws(w.sharer.(cols := cols, rows := rows), TAG_TERM_SIZE, H.SizePlain(cols, rows), unix);
  }

  lemma {:induction false} RunKeeps(w: World, es: seq<Event>, t: World)
    requires Inv(w) && Run(w, es, t)
    ensures Inv(t)
    decreases |es|
  {
    hide Inv, Legal, Next;
    if es != [] {
      NextKeeps(w, es[0]);
      RunKeeps(Next(w, es[0]), es[1..], t);
    }
  }

  lemma StartInv(streamKey: Bytes, maxViewers: nat, unix: int)
    requires |streamKey| == KEY_LEN && 0 <= unix < U64
    ensures Inv(Start(streamKey, maxViewers, unix))
  {}

  // ----- theorems

  /** A registered viewer, still attached at the relay, whose user has not stopped it. */
  predicate Watching(w: World, sid: Id, rid: Id)
  {
    && sid in w.sharer.sess.viewers && sid in w.sharer.ids && w.sharer.ids[sid] == rid
    && rid in w.relay.viewers && rid in w.wire && rid in w.ends && rid in w.got && !w.ends[rid].Quit?
  }

  /** What is claimed of a watching viewer in every reachable state. */
  ghost predicate InStep(w: World, sid: Id, rid: Id)
    requires Watching(w, sid, rid)
  {
    var e, log := w.ends[rid], w.sharer.sess.log;
    && e.Ready? && !e.p.Stopped?
    && (e.p.Streaming? ==>
          && e.p.v.failures == 0 && OutputOf(e.p) == Sent(w.got[rid], log)
          && (e.p.v.cols, e.p.v.rows) == SizeAfter((0, 0), w.got[rid], log))
    && forall nows: seq<int> :: |nows| == |Pending(w, rid)| ==>
         var drained := Drain(e.p, Pending(w, rid), nows, log);
         && drained.Streaming?
         && drained.v.streamKey == w.sharer.sess.streamKey
         && drained.v.authKey == w.sharer.sess.viewers[sid].authKey && drained.v.id == sid && drained.v.failures == 0
         && (e.p.Streaming? ==>
               && OutputOf(drained) == Sent(w.got[rid], log) + Sent(Pending(w, rid), log)
               && (drained.v.cols, drained.v.rows)
                    == SizeAfter(SizeAfter((0, 0), w.got[rid], log), Pending(w, rid), log))
  }

  /**
   * In every reachable state, every session viewer is mapped to one relay ID, no two to the same, and every
   * watching viewer: is running and has never rejected a frame; has written exactly the stream plaintexts of
   * the frames it has read, and shows the size of the last size frame among them; and, reading what is on its
   * way to it, whenever it does so, will hold the session's current key, and will have written and will show
   * exactly that too.
   */
  lemma KeyAgreementAndCompleteness(streamKey: Bytes, maxViewers: nat, unix: int, es: seq<Event>, t: World)
    requires |streamKey| == KEY_LEN && 0 <= unix < U64 && Run(Start(streamKey, maxViewers, unix), es, t)
    ensures t.sharer.ids.Keys == t.sharer.sess.viewers.Keys && Routing.Injective(t.sharer.ids)
    ensures forall sid, rid :: Watching(t, sid, rid) ==> InStep(t, sid, rid)
  {
    hide InStep, Run;
    StartInv(streamKey, maxViewers, unix);
    RunKeeps(Start(streamKey, maxViewers, unix), es, t);
    hide Known, S.Inv, PerViewer;
    forall sid, rid | Watching(t, sid, rid) ensures InStep(t, sid, rid) {
      WatchingInStep(t, sid, rid);
    }
  }

  lemma WatchingInStep(w: World, sid: Id, rid: Id)
    requires Inv(w) && Watching(w, sid, rid)
    ensures InStep(w, sid, rid)
  {
    hide Known, S.Ordered, Routing.Routed, Routing.Exact, Fold, Sent, SizeAfter, AllSealed, Drain, V.Output, Token,
      Pending;
    assert PerViewer(w, rid);
    assert sid in H.Hits(w.sharer, rid);
    var p, q, log := w.ends[rid].p, Pending(w, rid), w.sharer.sess.log;
    forall nows: seq<int> | |nows| == |q|
      ensures var d := Drain(p, q, nows, log);
        && !d.Stopped? && SumOf(d) == Fold(SumOf(p), q, log).value
        && (d.Streaming? ==> d.v.failures == 0) && (p.Streaming? ==> OutputOf(d) == OutputOf(p) + Sent(q, log))
        && (p.Streaming? && d.Streaming? ==> (d.v.cols, d.v.rows) == SizeAfter((p.v.cols, p.v.rows), q, log))
    {
      DrainFollowsFold(p, q, nows, log, w.sharer.sess.draws);
    }
  }

  /** A viewer that leaves is reported to the sharer, with 6, 7 and its relay ID. */
  lemma LeaverReported(w: World, rid: Id)
    requires Inv(w) && Legal(w, Leaves(rid))
    ensures var t := Next(w, Leaves(rid)); t.up == w.up + [[6, 7] + rid] && rid !in t.relay.viewers
  {
    hide PerViewer, Known, S.Inv, Routing.Routed, Routing.Exact;
  }

  /** The map of a routed sharer has at most one hit, so a disconnect forgets all of them. */
  lemma HitsForgotten(s: H.State, rid: Id, hit: Id)
    requires Routing.Routed(s) && Routing.Exact(s) && (H.Hits(s, rid) == {} || hit in H.Hits(s, rid))
    ensures var t := H.HandleDisconnect(s, rid, hit);
      && t.ids == s.ids - H.Hits(s, rid) && t.sess.viewers == s.sess.viewers - H.Hits(s, rid)
      && t.sess.streamKey == s.sess.streamKey
  {
    hide Routing.Routed, Routing.Exact;
    if H.Hits(s, rid) == {} {
      assert s.ids - {} == s.ids && s.sess.viewers - {} == s.sess.viewers;
    } else {
      RoutedFacts(s);
      hide S.GoodKeys;
      assert H.Hits(s, rid) == {hit};
    }
  }

  /** On reading that, the sharer forgets the session viewer mapped to it, and no other. */
  lemma LeaverForgotten(w: World, o: H.Oracle, hit: Id, rid: Id)
    requires Inv(w) && Legal(w, SharerReads(o, hit)) && |rid| == 6 && w.up[0] == [6, 7] + rid
    ensures var t, hits := Next(w, SharerReads(o, hit)).sharer, H.Hits(w.sharer, rid);
      && t.ids == w.sharer.ids - hits && t.sess.viewers == w.sharer.sess.viewers - hits
      && t.sess.streamKey == w.sharer.sess.streamKey
  {
    hide PerViewer, Known, S.Inv, SendAll, Routing.Routed, Routing.Exact, H.Hits, H.HandleDisconnect, H.HandleSpake2,
      H.FromRelay;
    assert w.up[0] == [6, 7] + rid + [];
    Routing.DispatchIff(w.sharer, w.up[0], o, hit, rid, []);
    assert w.up[0][2..8] == rid;
    hide Routing.Possible, Act;
    ActSharer(w.(up := w.up[1..], unix := o.unix), H.FromRelay(w.sharer, w.up[0], o, hit));
    HitsForgotten(w.sharer, rid, hit);
  }
}
