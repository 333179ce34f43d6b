/**
 * A handshake completes: from any reachable state in which nothing is on its way to the sharer and the relay
 * has room, a new viewer can join and be admitted, provided the SPAKE2 answers succeed and the two messages
 * it waits for are not among those that the receiver discards.
 */
module HandshakeRun {
  import opened ByteStrings
  import opened Honest
  import opened FramesOnly
  import opened Wire
  import H = SharerState
  import Nonces
  import R = RelayState
  import Routing = SharerRouting
  import S = SessionState
  import V = ViewerState

  /** One viewer in its handshake: the sharer's stage, its own, and what the relay holds for it. */
  predicate Turn(w: World, rid: Id, stage: nat, e: End, queue: seq<Bytes>)
  {
    && Inv(w) && !w.relay.closed && rid in w.relay.viewers && rid in w.wire && rid in w.ends && rid in w.got
    && w.relay.viewers[rid] == queue && w.wire[rid] == [] && w.ends[rid] == e && StageOf(w.sharer, rid) == stage
  }

  lemma JoinTurn(w: World, rid: Id, b: Byte)
    requires Inv(w) && w.up == [] && !w.relay.closed && |w.relay.viewers| < w.relay.maxViewers
    requires |rid| == VIEWER_ID_LEN && rid !in w.ends
    ensures Legal(w, Join(rid, b))
    ensures var t := Next(w, Join(rid, b));
      && Turn(t, rid, 0, WaitMsgA, []) && t.up == [Addressed(TAG_SPAKE2, rid, [b])]
      && t.sharer == w.sharer && t.unix == w.unix
  {
    hide PerViewer, S.Inv, Routing.Routed, Routing.Exact, Known, Addressed;
    NextKeeps(w, Join(rid, b));
  }

  /** The oracle answers the stage with `x`, and everything can be sent. */
  predicate Answered(o: H.Oracle, w: World, stage: nat, x: Bytes)
  {
    && o.created && o.sendOk && o.sizeOk && w.unix <= o.unix < U64 && IsViewerId(o.id) && o.id !in w.sharer.sess.viewers
    && (if stage == 0 then o.start == Some(x) else o.finish == Some(x))
  }

  lemma SharerTurn(w: World, rid: Id, stage: nat, e: End, payload: Bytes, o: H.Oracle, x: Bytes)
    requires Turn(w, rid, stage, e, []) && stage < 2 && |rid| == VIEWER_ID_LEN
    requires w.up == [Addressed(TAG_SPAKE2, rid, payload)] && Answered(o, w, stage, x)
    ensures Legal(w, SharerReads(o, []))
    ensures var t := Next(w, SharerReads(o, []));
      && Turn(t, rid, stage + 1, e, [x]) && t.up == [] && t.auths == w.auths && t.unix == o.unix
      && t.sharer == w.sharer.(handshakes := t.sharer.handshakes)
  {
    hide PerViewer, S.Inv, Routing.Routed, Routing.Exact, Known, Addressed, Send, SendAll;
    AddressedRoundTrip(TAG_SPAKE2, rid, payload);
    var t := Next(w, SharerReads(o, []));
    StageAnswers(w.sharer, rid, payload, o, stage, x);
    var s := H.HandleSpake2(w.sharer, rid, payload, o).0;
    UnicastFits(w.(up := w.up[1..], unix := o.unix), s, rid, x);
    NextKeeps(w, SharerReads(o, []));
  }

  lemma StageAnswers(s: H.State, rid: Id, payload: Bytes, o: H.Oracle, stage: nat, x: Bytes)
    requires StageOf(s, rid) == stage < 2 && o.created && o.sendOk
    requires if stage == 0 then o.start == Some(x) else o.finish == Some(x)
    ensures var (t, sent) := H.HandleSpake2(s, rid, payload, o);
      && sent == [H.Unicast(rid, x)] && t == s.(handshakes := t.handshakes) && StageOf(t, rid) == stage + 1
  {
    hide H.Unicast, H.Admit;
  }

  lemma UnicastFits(w: World, s: H.State, rid: Id, x: Bytes)
    requires rid in w.relay.viewers && w.relay.viewers[rid] == [] && rid in w.wire && |rid| == VIEWER_ID_LEN
    ensures var t := Act(w, (s, [H.Unicast(rid, x)]));
      && t == w.(sharer := s, relay := t.relay, wire := t.wire) && t.relay == w.relay.(viewers := t.relay.viewers)
      && rid in t.relay.viewers && t.relay.viewers[rid] == [x] && rid in t.wire && t.wire[rid] == w.wire[rid]
  {
    AddressedRoundTrip(TAG_UNICAST, rid, x);
    hide Addressed, SendAll;
    SendOne(w.(sharer := s), H.Unicast(rid, x));
    assert R.FromSharer(w.relay, H.Unicast(rid, x)) == R.Unicast(w.relay, rid, x);
  }

  lemma WriteTurn(w: World, rid: Id, stage: nat, e: End, x: Bytes)
    requires Turn(w, rid, stage, e, [x])
    ensures Legal(w, RelayWrites(rid))
    ensures var t := Next(w, RelayWrites(rid));
      && Inv(t) && t.wire.Keys == w.wire.Keys && rid in t.wire && rid in t.relay.viewers
      && t.wire[rid] == [x] && t.relay.viewers[rid] == []
      && t == w.(relay := w.relay.(viewers := t.relay.viewers), wire := t.wire)
  {
    hide Inv, StageOf;
    BudgetHolds(w);
    NextKeeps(w, RelayWrites(rid));
    assert [] + [x] == [x] && [x][1..] == [];
  }

  lemma BudgetHolds(w: World)
    requires Inv(w)
    ensures w.sharer.sess.draws < U64
  {
    hide PerViewer, S.Inv, Known, Routing.Routed, Routing.Exact;
  }

  lemma ViewerTurn(w: World, rid: Id, stage: nat, e: End, x: Bytes, y: Bytes, auth: Bytes, now: int)
    requires Turn(w, rid, stage, e, [x]) && w.up == [] && (e.WaitMsgA? || e.WaitConfirmA?)
    requires V.RecvHandshake(x).Take? && |auth| == KEY_LEN
    ensures Legal(w, RelayWrites(rid))
    ensures var w1 := Next(w, RelayWrites(rid));
      && w1.sharer == w.sharer && Legal(w1, ViewerReads(rid, now, Some(y), auth))
      && var t := Next(w1, ViewerReads(rid, now, Some(y), auth));
         && Turn(t, rid, stage, if e.WaitMsgA? then WaitConfirmA else Ready(V.AwaitKey(auth)), [])
         && t.up == [Addressed(TAG_SPAKE2, rid, y)] && t.sharer == w.sharer && t.unix == w.unix
         && (e.WaitConfirmA? ==> rid in t.auths && t.auths[rid] == auth)
  {
    hide Inv, StageOf, Addressed, V.RecvHandshake;
    BudgetHolds(w);
    WriteTurn(w, rid, stage, e, x);
    var w1 := Next(w, RelayWrites(rid));
    NextKeeps(w1, ViewerReads(rid, now, Some(y), auth));
    assert [x][1..] == [] && [x][0] == x;
  }

  /** A message that the receiver discards is lost: both sides go on waiting, and nothing is on its way. */
  lemma DiscardedTurn(w: World, rid: Id, stage: nat, e: End, x: Bytes, y: Bytes, auth: Bytes, now: int)
    requires Turn(w, rid, stage, e, [x]) && w.up == [] && (e.WaitMsgA? || e.WaitConfirmA?)
    requires V.RecvHandshake(x).Skip? && |auth| == KEY_LEN
    ensures Legal(w, RelayWrites(rid))
    ensures var w1 := Next(w, RelayWrites(rid));
      && Legal(w1, ViewerReads(rid, now, Some(y), auth))
      && var t := Next(w1, ViewerReads(rid, now, Some(y), auth));
         Turn(t, rid, stage, e, []) && t.up == [] && t.sharer == w.sharer
  {
    hide Inv, StageOf, Addressed, V.RecvHandshake;
    BudgetHolds(w);
    WriteTurn(w, rid, stage, e, x);
    var w1 := Next(w, RelayWrites(rid));
    NextKeeps(w1, ViewerReads(rid, now, Some(y), auth));
    assert [x][1..] == [] && [x][0] == x;
  }

  /** The oracle admits the viewer under the key that its own side derived. */
  predicate Admitting(o: H.Oracle, w: World, auth: Bytes)
  {
    && o.created && o.sendOk && o.sizeOk && w.unix <= o.unix < U64 && IsViewerId(o.id) && o.id !in w.sharer.sess.viewers
    && o.verify && o.authKey == Some(auth) && |auth| == KEY_LEN
  }

  /** What an admission sends: the key delivery, and the terminal size if it is known. */
  lemma AdmitSends(s: H.State, rid: Id, payload: Bytes, auth: Bytes, o: H.Oracle) returns (x: Bytes, size: seq<Bytes>)
    requires !s.sess.closed && S.GoodKeys(s.sess) && StageOf(s, rid) == 2
    requires o.created && o.sendOk && o.sizeOk && o.verify && o.authKey == Some(auth) && |auth| == KEY_LEN
    ensures var (t, sent) := H.HandleSpake2(s, rid, payload, o);
      && sent == [H.Unicast(rid, x)] + size && |size| <= 1 && (forall m :: m in size ==> IsFrame(m))
      && t.ids == s.ids[o.id := rid] && o.id in t.sess.viewers && t.sess.draws <= s.sess.draws + 2
  {
    hide H.Unicast, KeyDelivery, Nonces.NonceOf, ToBE;
    var hs := s.handshakes[rid];
    var s1 := H.SetContext(s, rid, hs.(calls := hs.calls + [H.Verified]));
    S.RegisterShape(s.sess, auth, o.id, o.unix, hs.clientType);
    x := KeyDelivery(o.id, S.Register(s.sess, auth, o.id, o.unix, hs.clientType).1.value);
    size := H.Admit(s1, rid, o).1[1..];
  }

  /** A unicast to a viewer without a backlog, and at most one frame after it, evict nobody. */
  lemma SendsFit(w: World, s: H.State, rid: Id, x: Bytes, size: seq<Bytes>)
    requires rid in w.relay.viewers && w.relay.viewers[rid] == [] && rid in w.wire && |rid| == VIEWER_ID_LEN
    requires |size| <= 1 && forall m :: m in size ==> IsFrame(m)
    ensures var t := Act(w, (s, [H.Unicast(rid, x)] + size));
      && t.sharer == s && t.ends == w.ends && t.got == w.got && rid in t.relay.viewers && rid in t.wire
  {
    hide H.Unicast, Send, SendAll;
    UnicastFits(w, s, rid, x);
    ActAct(w, [H.Unicast(rid, x)], s, size, s);
    var w1 := Act(w, (s, [H.Unicast(rid, x)]));
    if size != [] {
      assert size == [size[0]] && size[0] in size;
      SendOne(w1.(sharer := s), size[0]);
      FrameEffect(w1.(sharer := s), size[0], rid);
    } else {
      SendNone(w1.(sharer := s));
    }
  }

  lemma SendNone(w: World)
    ensures SendAll(w, []) == w
  {}

  lemma SharerOpen(w: World)
    requires Inv(w)
    ensures !w.sharer.sess.closed && S.GoodKeys(w.sharer.sess)
  {
    hide PerViewer, Known;
  }

  lemma AdmissionTurn(w: World, rid: Id, auth: Bytes, payload: Bytes, o: H.Oracle)
    requires Turn(w, rid, 2, Ready(V.AwaitKey(auth)), []) && |rid| == VIEWER_ID_LEN
    requires w.up == [Addressed(TAG_SPAKE2, rid, payload)] && rid in w.auths && w.auths[rid] == auth
    requires Admitting(o, w, auth) && w.sharer.sess.draws + 2 < U64
    ensures Legal(w, SharerReads(o, []))
    ensures var t := Next(w, SharerReads(o, []));
      t.sharer.sess.draws < U64 && Inv(t) && Watching(t, o.id, rid) && t.ends[rid] == w.ends[rid]
  {
    hide Inv, StageOf, Addressed, Act, H.HandleSpake2;
    AddressedRoundTrip(TAG_SPAKE2, rid, payload);
    SharerOpen(w);
    var x, size := AdmitSends(w.sharer, rid, payload, auth, o);
    SendsFit(w.(up := w.up[1..], unix := o.unix), H.HandleSpake2(w.sharer, rid, payload, o).0, rid, x, size);
    NextKeeps(w, SharerReads(o, []));
  }

  lemma Then(w: World, e: Event, rest: seq<Event>, t: World) returns (es: seq<Event>)
    requires Legal(w, e) && Next(w, e).sharer.sess.draws < U64 && Run(Next(w, e), rest, t)
    ensures es == [e] + rest && Run(w, es, t)
  {
    es := [e] + rest;
    assert es[0] == e && es[1..] == rest;
  }

  lemma NoMore(w: World) returns (es: seq<Event>)
    ensures es == [] && Run(w, es, w)
  {
    es := [];
  }

  /** The answers of one successful handshake; the identifier and the clock readings are the sharer's. */
  datatype Script = Script(
    msgA: Bytes, msgB: Bytes, confirmA: Bytes, confirmB: Bytes, auth: Bytes, id: Id, unix: int, clientByte: Byte)

  function OracleOf(c: Script): H.Oracle
  {
    H.Oracle(true, Some(c.msgA), Some(c.confirmA), true, Some(c.auth), c.id, c.unix, true, true)
  }

  /** The script suits the sharer: an unused identifier, a key of the right length, a clock that does not go back. */
  predicate Suits(w: World, c: Script)
  {
    && w.sharer.sess.draws + 2 < U64 && w.unix <= c.unix < U64
    && IsViewerId(c.id) && c.id !in w.sharer.sess.viewers && |c.auth| == KEY_LEN
  }

  predicate Playable(w: World, rid: Id, c: Script)
  {
    && Suits(w, c) && w.up == [] && !w.relay.closed && |w.relay.viewers| < w.relay.maxViewers
    && |rid| == VIEWER_ID_LEN && rid !in w.ends
  }

  /**
   * From any reachable state with nothing on its way to the sharer and room at the relay: a new viewer whose
   * two awaited messages, msg_a and confirm_a, are neither empty nor begin with 2, 5, 6 or 7 has a run that
   * ends with it registered, mapped and attached - and so, by KeyAgreementAndCompleteness, holding the current
   * key as soon as it has read what is on its way to it.
   */
  lemma HandshakeCompletes(
      streamKey: Bytes, maxViewers: nat, unix: int, before: seq<Event>, w: World, rid: Id, c: Script)
    returns (es: seq<Event>, t: World)
    requires |streamKey| == KEY_LEN && 0 <= unix < U64 && Run(Start(streamKey, maxViewers, unix), before, w)
    requires Playable(w, rid, c) && IsDefault(c.msgA) && IsDefault(c.confirmA)
    ensures Run(w, es, t) && Watching(t, c.id, rid) && InStep(t, c.id, rid)
  {
    hide Run, Turn, Addressed, InStep, Watching, Inv, Next, Legal;
    StartInv(streamKey, maxViewers, unix);
    RunKeeps(Start(streamKey, maxViewers, unix), before, w);
    es, t := Play(w, rid, c);
    WatchingInStep(t, c.id, rid);
  }

  /** The viewer has joined, and the sharer's first answer, whatever it is, is queued for it. */
  lemma ToMsgA(w: World, rid: Id, c: Script, x: Bytes) returns (w1: World, w2: World)
    requires Inv(w) && Playable(w, rid, c)
    ensures Legal(w, Join(rid, c.clientByte)) && w1 == Next(w, Join(rid, c.clientByte)) && w1.sharer == w.sharer
    ensures var o := OracleOf(c).(start := Some(x));
      Legal(w1, SharerReads(o, [])) && w2 == Next(w1, SharerReads(o, []))
    ensures Turn(w2, rid, 1, WaitMsgA, [x]) && w2.up == [] && Suits(w2, c)
    ensures w2.sharer == w1.sharer.(handshakes := w2.sharer.handshakes)
  {
    hide Turn, Addressed, Inv, Next, Legal;
    JoinTurn(w, rid, c.clientByte);
    w1 := Next(w, Join(rid, c.clientByte));
    SharerTurn(w1, rid, 0, WaitMsgA, [c.clientByte], OracleOf(c).(start := Some(x)), x);
    w2 := Next(w1, SharerReads(OracleOf(c).(start := Some(x)), []));
  }

  /** It has taken msg_a, and the sharer's second answer, whatever it is, is queued for it. */
  lemma ToConfirmA(w: World, rid: Id, c: Script, x: Bytes) returns (w1: World, w2: World, w3: World)
    requires Turn(w, rid, 1, WaitMsgA, [c.msgA]) && w.up == [] && Suits(w, c) && IsDefault(c.msgA)
    requires |rid| == VIEWER_ID_LEN
    ensures Legal(w, RelayWrites(rid)) && w1 == Next(w, RelayWrites(rid)) && w1.sharer == w.sharer
    ensures var e := ViewerReads(rid, 0, Some(c.msgB), c.auth);
      Legal(w1, e) && w2 == Next(w1, e) && w2.sharer == w.sharer
    ensures var o := OracleOf(c).(finish := Some(x));
      Legal(w2, SharerReads(o, [])) && w3 == Next(w2, SharerReads(o, []))
    ensures Turn(w3, rid, 2, WaitConfirmA, [x]) && w3.up == [] && Suits(w3, c)
    ensures w3.sharer == w.sharer.(handshakes := w3.sharer.handshakes)
  {
    hide Turn, Addressed, Inv, Next, Legal, V.RecvHandshake;
    V.TakesIffDefault(c.msgA);
    ViewerTurn(w, rid, 1, WaitMsgA, c.msgA, c.msgB, c.auth, 0);
    w1 := Next(w, RelayWrites(rid));
    w2 := Next(w1, ViewerReads(rid, 0, Some(c.msgB), c.auth));
    SharerTurn(w2, rid, 1, WaitConfirmA, c.msgB, OracleOf(c).(finish := Some(x)), x);
    w3 := Next(w2, SharerReads(OracleOf(c).(finish := Some(x)), []));
  }

  lemma PlayConfirmA(w: World, rid: Id, c: Script) returns (es: seq<Event>, t: World)
    requires Turn(w, rid, 2, WaitConfirmA, [c.confirmA]) && w.up == [] && Suits(w, c) && IsDefault(c.confirmA)
    requires |rid| == VIEWER_ID_LEN
    ensures Run(w, es, t) && Inv(t) && Watching(t, c.id, rid)
  {
    hide Run, Turn, Addressed, Watching, Inv, Next, Legal, V.RecvHandshake;
    var o := OracleOf(c);
    V.TakesIffDefault(c.confirmA);
    ViewerTurn(w, rid, 2, WaitConfirmA, c.confirmA, c.confirmB, c.auth, 0);
    var w1 := Next(w, RelayWrites(rid));
    var w2 := Next(w1, ViewerReads(rid, 0, Some(c.confirmB), c.auth));
    AdmissionTurn(w2, rid, c.auth, c.confirmB, o);
    t := Next(w2, SharerReads(o, []));
    es := NoMore(t);
    es := Then(w2, SharerReads(o, []), es, t);
    es := Then(w1, ViewerReads(rid, 0, Some(c.confirmB), c.auth), es, t);
    es := Then(w, RelayWrites(rid), es, t);
  }

  lemma PlayMsgA(w: World, rid: Id, c: Script) returns (es: seq<Event>, t: World)
    requires Turn(w, rid, 1, WaitMsgA, [c.msgA]) && w.up == [] && Suits(w, c) && |rid| == VIEWER_ID_LEN
    requires IsDefault(c.msgA) && IsDefault(c.confirmA)
    ensures Run(w, es, t) && Inv(t) && Watching(t, c.id, rid)
  {
    hide Run, Turn, Watching, Inv, Next, Legal;
    var w1, w2, w3 := ToConfirmA(w, rid, c, c.confirmA);
    es, t := PlayConfirmA(w3, rid, c);
    es := Then(w2, SharerReads(OracleOf(c), []), es, t);
    es := Then(w1, ViewerReads(rid, 0, Some(c.msgB), c.auth), es, t);
    es := Then(w, RelayWrites(rid), es, t);
  }

  lemma Play(w: World, rid: Id, c: Script) returns (es: seq<Event>, t: World)
    requires Inv(w) && Playable(w, rid, c) && IsDefault(c.msgA) && IsDefault(c.confirmA)
    ensures Run(w, es, t) && Inv(t) && Watching(t, c.id, rid)
  {
    hide Run, Turn, Watching, Inv, Next, Legal;
    var w1, w2 := ToMsgA(w, rid, c, c.msgA);
    es, t := PlayMsgA(w2, rid, c);
    es := Then(w1, SharerReads(OracleOf(c), []), es, t);
    es := Then(w, Join(rid, c.clientByte), es, t);
  }

  // ----- a message that is not taken

  /** A viewer in its handshake that nothing can reach any more: it waits or has ended, and nothing will be taken. */
  predicate Stuck(w: World, rid: Id)
  {
    && Unserved(w, rid) && StageOf(w.sharer, rid) != 3
    && (w.ends[rid].Ready? ==> w.ends[rid].p.Stopped?)
    && forall m :: m in Way(w, rid) ==> !IsDefault(m)
  }

  lemma StuckRead(w: World, rid: Id, now: int, reply: Option<Bytes>, auth: Bytes)
    requires Inv(w) && Legal(w, ViewerReads(rid, now, reply, auth)) && Stuck(w, rid)
    ensures Stuck(Next(w, ViewerReads(rid, now, reply, auth)), rid)
  {
    hide Inv, FromRid, Addressed, StageOf, H.Hits, V.RecvHandshake;
    var m := w.wire[rid][0];
    V.TakesIffDefault(m);
    var t := Next(w, ViewerReads(rid, now, reply, auth));
    assert Way(w, rid) == [m] + Way(t, rid);
    assert m in Way(w, rid);
  }

  lemma StuckKeeps(w: World, e: Event, rid: Id)
    requires Inv(w) && Legal(w, e) && Stuck(w, rid)
    ensures Stuck(Next(w, e), rid)
  {
    hide Inv, Next, Legal, Unserved, IsDefault;
    if OfSharer(e) {
      var added := SharerStays(w, e, rid);
      StuckWaits(w, Next(w, e), rid, added);
    } else if e.ViewerReads? && e.rid == rid {
      StuckRead(w, rid, e.now, e.reply, e.auth);
    } else {
      OtherStays(w, e, rid);
    }
  }

  lemma StuckWaits(w: World, t: World, rid: Id, added: seq<Bytes>)
    requires Stuck(w, rid) && Unserved(t, rid) && rid in t.wire && Broadcasts(w, t, rid, added)
    ensures Stuck(t, rid)
  {
    hide Way, FromRid, StageOf, H.Hits;
    forall m | m in Way(t, rid) ensures !IsDefault(m) {
      assert m in Way(w, rid) || m in added;
    }
  }

  lemma {:induction false} StuckRun(w: World, es: seq<Event>, t: World, rid: Id)
    requires Inv(w) && Stuck(w, rid) && Run(w, es, t)
    ensures Stuck(t, rid)
    decreases |es|
  {
    hide Inv, Stuck, Next, Legal;
    if es != [] {
      NextKeeps(w, es[0]);
      StuckKeeps(w, es[0], rid);
      StuckRun(Next(w, es[0]), es[1..], t, rid);
    }
  }

  /** Some continuation of the run ends with a session viewer mapped to this one. */
  ghost predicate CanBeAdmitted(w: World, rid: Id)
  {
    exists es, t :: Run(w, es, t) && H.Hits(t.sharer, rid) != {}
  }

  /** The answer `x` of the sharer, msg_a or confirm_a, is on its way to a viewer that waits for it. */
  predicate Answering(w: World, rid: Id, e: End, x: Bytes)
  {
    && |rid| == VIEWER_ID_LEN && w.up == [] && (e.WaitMsgA? || e.WaitConfirmA?)
    && Turn(w, rid, if e.WaitMsgA? then 1 else 2, e, [x])
  }

  lemma NotTaken(w: World, rid: Id, e: End, x: Bytes)
    requires Answering(w, rid, e, x) && !IsDefault(x)
    ensures Stuck(w, rid)
  {
    hide PerViewer, Known, S.Inv, Routing.Routed, Routing.Exact, StageOf, IsDefault;
    HitsAreComplete(w.sharer, rid);
    assert Way(w, rid) == [x];
  }

  /**
   * Whether a viewer that waits for msg_a or confirm_a can still be admitted, in any continuation at all, is
   * decided by the first byte of the message: it can if and only if the message is not empty and does not
   * begin with 2, 5, 6 or 7.
   */
  lemma AdmittedIff(w: World, rid: Id, e: End, x: Bytes, c: Script)
    requires Answering(w, rid, e, x) && Suits(w, c) && IsDefault(c.confirmA)
    ensures CanBeAdmitted(w, rid) <==> IsDefault(x)
  {
    hide Run, Turn, Watching, Inv, Stuck, IsDefault, H.Hits, StageOf;
    if IsDefault(x) {
      var es, t;
      if e.WaitMsgA? {
        es, t := PlayMsgA(w, rid, c.(msgA := x));
      } else {
        es, t := PlayConfirmA(w, rid, c.(confirmA := x));
      }
      WatchingIsMapped(t, c.id, rid);
    } else {
      NotTaken(w, rid, e, x);
      TurnInv(w, rid, if e.WaitMsgA? then 1 else 2, e, [x]);
      forall es, t | Run(w, es, t) ensures H.Hits(t.sharer, rid) == {} {
        StuckRun(w, es, t, rid);
        StuckUnmapped(t, rid);
      }
    }
  }

  lemma WatchingIsMapped(w: World, sid: Id, rid: Id)
    requires Watching(w, sid, rid)
    ensures H.Hits(w.sharer, rid) != {}
  {
    assert sid in H.Hits(w.sharer, rid);
  }

  lemma StuckUnmapped(w: World, rid: Id)
    requires Stuck(w, rid)
    ensures H.Hits(w.sharer, rid) == {}
  {}

  lemma TurnInv(w: World, rid: Id, stage: nat, e: End, queue: seq<Bytes>)
    requires Turn(w, rid, stage, e, queue)
    ensures Inv(w)
  {}

  /** Whatever the two messages are, there is a run from the start in which the viewer waits for either of them. */
  lemma AnsweringReached(streamKey: Bytes, maxViewers: nat, unix: int, rid: Id, e: End, x: Bytes, c: Script)
    returns (es: seq<Event>, t: World)
    requires |streamKey| == KEY_LEN && 0 <= unix <= c.unix < U64 && maxViewers > 0 && |rid| == VIEWER_ID_LEN
    requires (e.WaitMsgA? || e.WaitConfirmA?) && IsViewerId(c.id) && |c.auth| == KEY_LEN && IsDefault(c.msgA)
    ensures Run(Start(streamKey, maxViewers, unix), es, t) && Answering(t, rid, e, x) && Suits(t, c)
  {
    hide Run, Turn, Inv, Next, Legal, IsDefault;
    var w := Start(streamKey, maxViewers, unix);
    StartInv(streamKey, maxViewers, unix);
    var w1, w2 := ToMsgA(w, rid, c, if e.WaitMsgA? then x else c.msgA);
    var o := OracleOf(c).(start := Some(if e.WaitMsgA? then x else c.msgA));
    if e.WaitMsgA? {
      t := w2;
      es := NoMore(t);
    } else {
      var w3, w4, w5 := ToConfirmA(w2, rid, c, x);
      t := w5;
      es := NoMore(t);
      es := Then(w4, SharerReads(OracleOf(c).(finish := Some(x)), []), es, t);
      es := Then(w3, ViewerReads(rid, 0, Some(c.msgB), c.auth), es, t);
      es := Then(w2, RelayWrites(rid), es, t);
    }
    es := Then(w1, SharerReads(o, []), es, t);
    es := Then(w, Join(rid, c.clientByte), es, t);
  }
}
