/**
 * What the protocol still does for a viewer that is mapped to no session viewer and has no handshake message
 * on its way, or none that counts: nothing but broadcasting frames.
 */
module FramesOnly {
  import opened ByteStrings
  import opened Aead
  import opened Honest
  import opened Wire
  import Nonces
  import H = SharerState
  import R = RelayState
  import Routing = SharerRouting
  import S = SessionState
  import V = ViewerState

  /** Mapped to nobody; and its handshake is over, or nothing that it said is on its way to the sharer. */
  predicate Unserved(w: World, rid: Id)
  {
    && rid in w.ends && rid in w.wire && rid in w.got && H.Hits(w.sharer, rid) == {}
    && (StageOf(w.sharer, rid) == 3 || FromRid(w.up, rid) == 0)
  }

  /** Everything on its way to a viewer, attached or not, oldest first. */
  function Way(w: World, rid: Id): seq<Bytes>
    requires rid in w.wire
  {
    w.wire[rid] + (if rid in w.relay.viewers then w.relay.viewers[rid] else [])
  }

  predicate Elsewhere(m: Bytes, rid: Id)
  {
    |m| >= 7 && m[0] == TAG_UNICAST && m[1..7] != rid
  }

  /** The frame of a log entry made since `was`, sealed under the current key in the epoch of the clock. */
  predicate NewFrame(m: Bytes, was: S.State, sess: S.State, unix: int)
  {
    && IsFrame(m) && |m| >= MIN_FRAME && FrameEpoch(m) == S.EpochAt(unix)
    && (sess.draws < U64 ==> was.draws < Nonces.NonceVal(FrameNonce(m)) <= sess.draws)
    && exists i :: |was.log| <= i < |sess.log| && sess.log[i].nonce == FrameNonce(m)
                   && sess.log[i].key == EpochKey(sess.streamKey, FrameEpoch(m))
  }

  lemma ElsewhereOne(w: World, m: Bytes, rid: Id)
    requires rid in w.wire && Elsewhere(m, rid)
    ensures var t := Send(w, m);
      && t == w.(relay := t.relay, wire := t.wire) && rid in t.wire && Way(t, rid) == Way(w, rid)
      && (rid in t.relay.viewers <==> rid in w.relay.viewers)
  {
    assert R.FromSharer(w.relay, m) == R.Unicast(w.relay, m[1..7], m[7..]);
  }

  lemma {:induction false} SendElsewhere(w: World, msgs: seq<Bytes>, rid: Id)
    requires rid in w.wire && forall m :: m in msgs ==> Elsewhere(m, rid)
    ensures var t := SendAll(w, msgs);
      && t == w.(relay := t.relay, wire := t.wire) && rid in t.wire && Way(t, rid) == Way(w, rid)
      && (rid in t.relay.viewers <==> rid in w.relay.viewers)
    decreases |msgs|
  {
    hide Send, Way, Elsewhere;
    if msgs != [] {
      assert msgs[0] in msgs;
      ElsewhereOne(w, msgs[0], rid);
      SendElsewhere(Send(w, msgs[0]), msgs[1..], rid);
    }
  }

  lemma FrameWay(w: World, m: Bytes, rid: Id)
    requires rid in w.wire && IsFrame(m)
    ensures var t := Send(w, m);
      && t == w.(relay := t.relay) && t.relay.viewers.Keys == w.relay.viewers.Keys
      && (Way(t, rid) == Way(w, rid) || Way(t, rid) == Way(w, rid) + [m])
  {
    SendFrameKeys(w, m);
    var t := Send(w, m);
    if rid in w.relay.viewers && t.relay.viewers[rid] != w.relay.viewers[rid] {
      assert w.wire[rid] + (w.relay.viewers[rid] + [m]) == Way(w, rid) + [m];
    }
  }

  lemma {:induction false} SendUnicastsThenFrame(w: World, us: seq<Bytes>, fs: seq<Bytes>, rid: Id)
    returns (added: seq<Bytes>)
    requires rid in w.wire && (forall m :: m in us ==> Elsewhere(m, rid))
    requires |fs| <= 1 && (forall m :: m in fs ==> IsFrame(m))
    ensures added == [] || added == fs
    ensures var t := SendAll(w, us + fs);
      && t == w.(relay := t.relay, wire := t.wire) && rid in t.wire && Way(t, rid) == Way(w, rid) + added
      && (rid in t.relay.viewers <==> rid in w.relay.viewers)
  {
    hide Send, Way, Elsewhere;
    SendAllSplit(w, us, fs);
    SendElsewhere(w, us, rid);
    var w1 := SendAll(w, us);
    added := [];
    if fs == [] {
      assert SendAll(w1, fs) == w1;
    } else {
      assert fs == [fs[0]] && fs[0] in fs;
      SendOne(w1, fs[0]);
      FrameWay(w1, fs[0], rid);
      added := if Way(Send(w1, fs[0]), rid) == Way(w1, rid) then [] else fs;
    }
  }

  lemma SealedFrame(s: H.State, tag: Byte, plain: Bytes, unix: int)
    requires !s.sess.closed && S.GoodKeys(s.sess) && 0 <= unix < U64 && tag in {TAG_STREAM, TAG_TERM_SIZE}
    ensures var (t, sent) := H.SendFrame(s, tag, plain, unix);
      && t == s.(sess := t.sess) && t.sess == s.sess.(draws := t.sess.draws, log := t.sess.log)
      && s.sess.log <= t.sess.log && t.sess.draws == s.sess.draws + 1
      && |sent| == 1 && NewFrame(sent[0], s.sess, t.sess, unix)
  {
    hide Nonces.NonceOf, FrameBytes;
    var (t, sent) := H.SendFrame(s, tag, plain, unix);
    EpochBound(unix);
    var f := S.EncryptFrame(s.sess, plain, unix).1.value;
    FrameRoundTrip(tag, f);
    Nonces.NonceRoundTrip(s.sess.draws + 1);
    hide Nonces.NonceVal;
    assert t.sess.log[|s.sess.log|].nonce == FrameNonce(sent[0]);
  }

  /** What a handshake message makes the sharer do: at most one unicast to its sender, and a size frame after it. */
  lemma SpakeSends(s: H.State, r: Id, payload: Bytes, o: H.Oracle) returns (us: seq<Bytes>, fs: seq<Bytes>)
    requires !s.sess.closed && S.GoodKeys(s.sess) && |r| == VIEWER_ID_LEN
    requires o.created && o.sendOk && o.sizeOk && 0 <= o.unix < U64
    requires StageOf(s, r) == 2 && o.verify && o.authKey.Some? ==> |o.authKey.value| == KEY_LEN
    ensures var (t, sent) := H.HandleSpake2(s, r, payload, o);
      && sent == us + fs && |fs| <= 1 && (forall m :: m in us ==> |m| >= 7 && m[0] == TAG_UNICAST && m[1..7] == r)
      && (forall m :: m in fs ==> NewFrame(m, s.sess, t.sess, o.unix))
      && s.sess.log <= t.sess.log && s.sess.draws <= t.sess.draws && t.sess.streamKey == s.sess.streamKey
      && (t.ids == s.ids || t.ids == s.ids[o.id := r])
      && (forall q :: q != r ==> StageOf(t, q) == StageOf(s, q))
      && (StageOf(s, r) == 3 ==> t == s && us == fs == [])
  {
    hide H.Unicast, H.Deliver, H.SendFrame, NewFrame, S.GoodKeys;
    us, fs := [], [];
    var (t, sent) := H.HandleSpake2(s, r, payload, o);
    if StageOf(s, r) == 3 {
      assert H.SetContext(s, r, s.handshakes[r]) == s;
    } else if StageOf(s, r) == 2 && o.verify && o.authKey.Some? {
      var hs := s.handshakes[r];
      assert H.SetContext(s, r, hs) == s;
      us, fs := AdmitParts(H.SetContext(s, r, hs.(calls := hs.calls + [H.Verified])), r, o);
    } else {
      SpakeShape(s, r, payload, o);
      us := sent;
      if sent != [] {
        var x :| sent == [H.Unicast(r, x)] && StageOf(s, r) < 2 && StageOf(t, r) == StageOf(s, r) + 1;
        UnicastTo(r, x);
      }
    }
  }

  lemma UnicastTo(r: Id, x: Bytes)
    requires |r| == VIEWER_ID_LEN
    ensures var m := H.Unicast(r, x); |m| >= 7 && m[0] == TAG_UNICAST && m[1..7] == r
  {
    AddressedRoundTrip(TAG_UNICAST, r, x);
    hide Addressed;
  }

  lemma AdmitParts(s: H.State, r: Id, o: H.Oracle) returns (us: seq<Bytes>, fs: seq<Bytes>)
    requires !s.sess.closed && S.GoodKeys(s.sess) && |r| == VIEWER_ID_LEN && r in s.handshakes
    requires o.sendOk && o.sizeOk && 0 <= o.unix < U64 && o.authKey.Some? && |o.authKey.value| == KEY_LEN
    ensures var (t, sent) := H.Admit(s, r, o);
      && sent == us + fs && |fs| <= 1 && (forall m :: m in us ==> |m| >= 7 && m[0] == TAG_UNICAST && m[1..7] == r)
      && (forall m :: m in fs ==> NewFrame(m, s.sess, t.sess, o.unix))
      && s.sess.log <= t.sess.log && s.sess.draws <= t.sess.draws && t.sess.streamKey == s.sess.streamKey
      && t.ids == s.ids[o.id := r]
      && (forall q :: q != r ==> StageOf(t, q) == StageOf(s, q))
  {
    hide H.Unicast, H.SendFrame, KeyDelivery, Nonces.NonceOf;
    var (s1, delivery) := H.Deliver(s, r, o);
    S.RegisterShape(s.sess, o.authKey.value, o.id, o.unix, s.handshakes[r].clientType);
    us, fs := delivery, [];
    UnicastTo(r, KeyDelivery(o.id,
      S.Register(s.sess, o.authKey.value, o.id, o.unix, s.handshakes[r].clientType).1.value));
    if s.cols > 0 && s.rows > 0 {
      SealedFrame(s1, TAG_TERM_SIZE, H.SizePlain(s.cols, s.rows), o.unix);
      fs := H.SendFrame(s1, TAG_TERM_SIZE, H.SizePlain(s.cols, s.rows), o.unix).1;
    }
  }

  // ----- the steps of the sharer

  /** What such a viewer sees of a step of the sharer: at most one frame, sealed in that step. */
  predicate Broadcasts(w: World, t: World, rid: Id, added: seq<Bytes>)
    requires rid in w.wire && rid in t.wire
  {
    && t == w.(sharer := t.sharer, relay := t.relay, wire := t.wire, up := t.up, unix := t.unix)
    && Way(t, rid) == Way(w, rid) + added && |added| <= 1
    && (forall m :: m in added ==> NewFrame(m, w.sharer.sess, t.sharer.sess, t.unix))
    && (rid in t.relay.viewers <==> rid in w.relay.viewers)
    && w.sharer.sess.log <= t.sharer.sess.log && w.sharer.sess.draws <= t.sharer.sess.draws && w.unix <= t.unix
    && StageOf(t.sharer, rid) == StageOf(w.sharer, rid)
  }

  lemma SharerFacts(w: World)
    requires Inv(w)
    ensures !w.sharer.sess.closed && S.GoodKeys(w.sharer.sess) && 0 <= w.unix < U64
    ensures w.sharer.ids.Keys == w.sharer.sess.viewers.Keys
    ensures forall sid :: sid in w.sharer.ids ==>
      w.sharer.ids[sid] in w.ends && |w.sharer.ids[sid]| == VIEWER_ID_LEN
    ensures forall rid :: rid in w.auths ==> |w.auths[rid]| == KEY_LEN
    ensures forall i :: 0 <= i < |w.up| ==> Known(w, w.up[i])
    ensures w.relay.viewers.Keys <= w.wire.Keys
  {
    hide PerViewer, Known, Routing.Routed, Routing.Exact, S.Ordered;
    RoutedFacts(w.sharer);
  }

  /** One message of the sharer's own after the clock has been read. */
  lemma FrameStays(w: World, tag: Byte, s: H.State, plain: Bytes, unix: int, rid: Id) returns (added: seq<Bytes>)
    requires Inv(w) && Unserved(w, rid) && w.unix <= unix < U64 && tag in {TAG_STREAM, TAG_TERM_SIZE}
    requires s == w.sharer.(cols := s.cols, rows := s.rows)
    ensures var t := Act(w.(unix := unix), H.SendFrame(s, tag, plain, unix));
      rid in t.wire && Broadcasts(w, t, rid, added) && Unserved(t, rid)
      && t.sharer.sess.streamKey == w.sharer.sess.streamKey
  {
    hide Inv, Way, NewFrame, H.SendFrame, FromRid;
    SharerFacts(w);
    SealedFrame(s, tag, plain, unix);
    var (s1, sent) := H.SendFrame(s, tag, plain, unix);
    NewIsFrame(sent[0], w.sharer.sess, s1.sess, unix);
    var w1 := w.(unix := unix, sharer := s1);
    added := SendUnicastsThenFrame(w1, [], sent, rid);
    assert [] + sent == sent;
    SameWay(w, w1, rid);
  }

  lemma SameWay(w: World, t: World, rid: Id)
    requires rid in w.wire && rid in t.wire && t.wire == w.wire && t.relay == w.relay
    ensures Way(t, rid) == Way(w, rid)
  {}

  lemma NewIsFrame(m: Bytes, was: S.State, sess: S.State, unix: int)
    requires NewFrame(m, was, sess, unix)
    ensures IsFrame(m)
  {}

  lemma NotFromHead(up: seq<Bytes>, rid: Id)
    requires up != [] && FromRid(up, rid) == 0
    ensures !IsFrom(up[0], rid) && FromRid(up[1..], rid) == 0
  {
    FromRidHead(up, rid);
  }

  lemma PoppedUnserved(w: World, s: H.State, unix: int, rid: Id)
    requires Unserved(w, rid) && w.up != [] && H.Hits(s, rid) == {} && StageOf(s, rid) == StageOf(w.sharer, rid)
    ensures Unserved(w.(up := w.up[1..], unix := unix, sharer := s), rid)
  {
    hide FromRid, StageOf;
    if StageOf(s, rid) != 3 {
      NotFromHead(w.up, rid);
    }
  }

  lemma ReadStays(w: World, o: H.Oracle, hit: Id, rid: Id) returns (added: seq<Bytes>)
    requires Inv(w) && Legal(w, SharerReads(o, hit)) && Unserved(w, rid)
    ensures var t := Next(w, SharerReads(o, hit));
      rid in t.wire && Broadcasts(w, t, rid, added) && Unserved(t, rid)
      && t.sharer.sess.streamKey == w.sharer.sess.streamKey
  {
    hide Inv, Way, NewFrame, FromRid, H.HandleSpake2, H.HandleDisconnect, StageOf, SendAll;
    SharerFacts(w);
    assert Known(w, w.up[0]);
    var data := w.up[0];
    var (s, sent) := H.FromRelay(w.sharer, data, o, hit);
    var w1 := w.(up := w.up[1..], unix := o.unix, sharer := s);
    SameWay(w, w1, rid);
    var us, fs := [], [];
    if data[0] == TAG_SPAKE2 {
      us, fs := SpakeStays(w, o, rid);
    } else {
      DisconnectStays(w.sharer, data[2..8], hit, rid);
    }
    assert sent == us + fs;
    assert H.Hits(s, rid) == {} && StageOf(s, rid) == StageOf(w.sharer, rid);
    added := SendUnicastsThenFrame(w1, us, fs, rid);
    PoppedUnserved(w, s, o.unix, rid);
    var t := Next(w, SharerReads(o, hit));
    assert t == SendAll(w1, us + fs);
    assert Broadcasts(w, t, rid, added);
    UnservedSame(w1, t, rid);
  }

  lemma UnservedSame(w: World, t: World, rid: Id)
    requires Unserved(w, rid) && t == w.(relay := t.relay, wire := t.wire) && rid in t.wire
    ensures Unserved(t, rid)
  {}

  lemma SpakeStays(w: World, o: H.Oracle, rid: Id) returns (us: seq<Bytes>, fs: seq<Bytes>)
    requires Inv(w) && w.up != [] && Known(w, w.up[0]) && w.up[0][0] == TAG_SPAKE2 && Unserved(w, rid)
    requires exists hit :: Legal(w, SharerReads(o, hit))
    ensures var (t, sent) := H.HandleSpake2(w.sharer, w.up[0][1..7], w.up[0][7..], o);
      && sent == us + fs && |fs| <= 1 && (forall m :: m in us ==> Elsewhere(m, rid))
      && (forall m :: m in fs ==> IsFrame(m) && NewFrame(m, w.sharer.sess, t.sess, o.unix))
      && w.sharer.sess.log <= t.sess.log && w.sharer.sess.draws <= t.sess.draws
      && t.sess.streamKey == w.sharer.sess.streamKey
      && H.Hits(t, rid) == {} && StageOf(t, rid) == StageOf(w.sharer, rid)
  {
    hide Inv, FromRid, H.HandleSpake2, Routing.Possible, S.GoodKeys;
    var r := w.up[0][1..7];
    SharerFacts(w);
    us, fs := SpakeSends(w.sharer, r, w.up[0][7..], o);
    var t := H.HandleSpake2(w.sharer, r, w.up[0][7..], o).0;
    if StageOf(w.sharer, rid) != 3 {
      NotFromHead(w.up, rid);
    }
    assert r == rid ==> t == w.sharer;
    HitsElsewhere(w.sharer, t, o.id, r, rid);
  }

  lemma HitsElsewhere(s: H.State, t: H.State, id: Id, r: Id, rid: Id)
    requires t.ids == s.ids || (t.ids == s.ids[id := r] && r != rid)
    requires H.Hits(s, rid) == {}
    ensures H.Hits(t, rid) == {}
  {
    forall sid | sid in t.ids ensures t.ids[sid] != rid {
      assert sid in s.ids && s.ids[sid] == rid ==> sid in H.Hits(s, rid);
    }
  }

  lemma DisconnectStays(s: H.State, r: Id, hit: Id, rid: Id)
    requires H.Hits(s, r) == {} || hit in H.Hits(s, r)
    requires H.Hits(s, rid) == {}
    ensures var t := H.HandleDisconnect(s, r, hit);
      H.Hits(t, rid) == {} && StageOf(t, rid) == StageOf(s, rid) && t.sess.log == s.sess.log
      && t.sess.draws == s.sess.draws && t.sess.streamKey == s.sess.streamKey
  {
    var t := H.HandleDisconnect(s, r, hit);
    forall sid | sid in t.ids ensures t.ids[sid] != rid {
      assert sid in s.ids && s.ids[sid] == rid ==> sid in H.Hits(s, rid);
    }
  }

  lemma {:induction false} RekeysElsewhere(ids: map<Id, Id>, rekeys: map<Id, S.Payload>, order: seq<Id>, rid: Id)
    requires forall id :: id in order ==> id in rekeys
    requires forall id :: id in ids ==> ids[id] != rid && |ids[id]| == VIEWER_ID_LEN
    ensures forall m :: m in H.RekeySends(ids, rekeys, order) ==> Elsewhere(m, rid)
    decreases |order|
  {
    hide H.Unicast, KeyDelivery;
    if order != [] {
      RekeysElsewhere(ids, rekeys, order[1..], rid);
      if order[0] in ids {
        UnicastTo(ids[order[0]], KeyDelivery(order[0], rekeys[order[0]]));
      }
    }
  }

  lemma NoHits(s: H.State, rid: Id)
    requires H.Hits(s, rid) == {}
    ensures forall sid :: sid in s.ids ==> s.ids[sid] != rid
  {
    forall sid | sid in s.ids ensures s.ids[sid] != rid {
      assert s.ids[sid] == rid ==> sid in H.Hits(s, rid);
    }
  }

  /** A revocation sends nothing to a viewer that only the revoked identifier, or none, is mapped to. */
  lemma RevokeSendsElsewhere(
    w: World, target: Id, kNew: Bytes, sealing: seq<Id>, sending: seq<Id>, rid: Id)
    requires Inv(w) && Legal(w, Revocation(target, kNew, sealing, sending)) && H.Hits(w.sharer, rid) <= {target}
    ensures var (t, sent) := H.Revoke(w.sharer, target, kNew, sealing, sending);
      && (forall m :: m in sent ==> Elsewhere(m, rid))
      && t.ids == w.sharer.ids - {target} && t.handshakes == w.sharer.handshakes && H.Hits(t, rid) == {}
      && w.sharer.sess.log <= t.sess.log && w.sharer.sess.draws <= t.sess.draws
      && t.sess.streamKey == if target in w.sharer.sess.viewers then kNew else w.sharer.sess.streamKey
  {
    hide Inv, Elsewhere, S.Revoke, S.Rekeys, H.RekeySends, S.Handed, S.RekeyAll, S.GoodKeys;
    SharerFacts(w);
    var s := w.sharer;
    var t := s.(ids := s.ids - {target});
    forall sid | sid in t.ids ensures t.ids[sid] != rid {
      assert s.ids[sid] == rid ==> sid in H.Hits(s, rid);
    }
    if target in s.sess.viewers {
      S.RevokeNeverFails(s.sess, target, kNew, sealing);
      S.RevokeOutcome(s.sess, target, kNew, sealing);
      var rekeys := S.Revoke(s.sess, target, kNew, sealing).1.value;
      RekeysElsewhere(t.ids, rekeys, sending, rid);
    } else {
      S.RevokeUnknown(s.sess, target, kNew, sealing);
      assert s.ids - {target} == s.ids;
    }
  }

  lemma RevokeStays(w: World, target: Id, kNew: Bytes, sealing: seq<Id>, sending: seq<Id>, rid: Id)
    requires Inv(w) && Legal(w, Revocation(target, kNew, sealing, sending)) && Unserved(w, rid)
    ensures var t := Next(w, Revocation(target, kNew, sealing, sending));
      rid in t.wire && Broadcasts(w, t, rid, []) && Unserved(t, rid)
      && t.sharer.sess.streamKey in {kNew, w.sharer.sess.streamKey}
  {
    hide Inv, Way, NewFrame, FromRid, H.Revoke, StageOf, SendAll;
    RevokeSendsElsewhere(w, target, kNew, sealing, sending, rid);
    var (s, sent) := H.Revoke(w.sharer, target, kNew, sealing, sending);
    var w1 := w.(sharer := s);
    SendElsewhere(w1, sent, rid);
    SameWay(w, w1, rid);
    SameStage(w.sharer, s, rid);
  }

  lemma SameStage(s: H.State, t: H.State, rid: Id)
    requires t.handshakes == s.handshakes
    ensures StageOf(t, rid) == StageOf(s, rid)
  {}

  predicate OfSharer(e: Event)
  {
    e.SharerReads? || e.Stream? || e.Resize? || e.Revocation?
  }

  lemma SharerStays(w: World, e: Event, rid: Id) returns (added: seq<Bytes>)
    requires Inv(w) && Legal(w, e) && OfSharer(e) && Unserved(w, rid)
    ensures var t := Next(w, e);
      && rid in t.wire && Broadcasts(w, t, rid, added) && Unserved(t, rid)
      && (e.Revocation? ==> added == [] && t.sharer.sess.streamKey in {e.kNew, w.sharer.sess.streamKey})
      && (!e.Revocation? ==> t.sharer.sess.streamKey == w.sharer.sess.streamKey)
  {
    hide Inv, Unserved, Broadcasts, Act, H.FromRelay, H.SendFrame, AfterRevocation, Routing.Possible;
    match e
    case SharerReads(o, hit) => added := ReadStays(w, o, hit, rid);
    case Stream(plain, unix) => added := FrameStays(w, TAG_STREAM, w.sharer, plain, unix, rid);
    case Resize(cols, rows, unix) =>
      var s := w.sharer.(cols := cols, rows := rows);
      added := FrameStays(w, TAG_TERM_SIZE, s, H.SizePlain(cols, rows), unix, rid);
    case Revocation(target, kNew, sealing, sending) =>
      RevokeStays(w, target, kNew, sealing, sending, rid);
      added := [];
  }

  lemma FromOther(up: seq<Bytes>, r: Id, x: Bytes, rid: Id)
    requires |r| == VIEWER_ID_LEN && r != rid
    ensures FromRid(up + [Addressed(TAG_SPAKE2, r, x)], rid) == FromRid(up, rid)
  {
    AddressedRoundTrip(TAG_SPAKE2, r, x);
    FromRidAppend(up, Addressed(TAG_SPAKE2, r, x), rid);
    hide Addressed;
  }

  lemma FromNotice(up: seq<Bytes>, r: Id, rid: Id)
    ensures FromRid(up + [Disconnected(r)], rid) == FromRid(up, rid)
  {
    FromRidAppend(up, Disconnected(r), rid);
  }

  /** Nothing but losing its connection takes messages off a viewer's way without its reading them. */
  lemma OtherStays(w: World, e: Event, rid: Id)
    requires Inv(w) && Legal(w, e) && !OfSharer(e) && Unserved(w, rid) && !(e.ViewerReads? && e.rid == rid)
    ensures var t := Next(w, e);
      && Unserved(t, rid) && t.sharer == w.sharer && t.unix == w.unix && t.got[rid] == w.got[rid]
      && t.ends[rid] == (if e.Quits? && e.rid == rid then Quit else w.ends[rid])
      && (rid in t.relay.viewers ==> rid in w.relay.viewers)
      && Way(t, rid) == (if e.Lost? && e.rid == rid then Way(w, rid)[..e.n] else Way(w, rid))
  {
    hide Inv, FromRid, Addressed, EndAfter, GotAfter, StageOf, H.Hits;
    var t := Next(w, e);
    SharerLengths(w);
    match e
    case Join(r, b) => FromOther(w.up, r, [b], rid);
    case ViewerReads(r, now, reply, auth) => if reply.Some? { FromOther(w.up, r, reply.value, rid); }
    case Leaves(r) => FromNotice(w.up, r, rid);
    case RelayWrites(r) => if r == rid { PendingWritten(w, r, r); }
    case _ =>
  }

  lemma SharerLengths(w: World)
    requires Inv(w)
    ensures forall rid :: rid in w.ends ==> |rid| == VIEWER_ID_LEN
  {
    hide PerViewer, Known, Routing.Routed, Routing.Exact, S.Inv;
  }

  /** A detached viewer stays detached. */
  lemma DetachedStep(w: World, e: Event, rid: Id)
    requires Inv(w) && Legal(w, e) && Unserved(w, rid) && rid !in w.relay.viewers
    ensures rid !in Next(w, e).relay.viewers
  {
    hide Inv, Next, Legal, Broadcasts, Way;
    if OfSharer(e) {
      var added := SharerStays(w, e, rid);
      assert rid in Next(w, e).wire && Broadcasts(w, Next(w, e), rid, added);
      BroadcastsKeepAttached(w, Next(w, e), rid, added);
    } else if e.ViewerReads? && e.rid == rid {
      ReadKeepsRelay(w, e);
    } else {
      OtherStays(w, e, rid);
    }
  }

  lemma BroadcastsKeepAttached(w: World, t: World, rid: Id, added: seq<Bytes>)
    requires rid in w.wire && rid in t.wire && Broadcasts(w, t, rid, added)
    ensures rid in t.relay.viewers <==> rid in w.relay.viewers
  {
    hide Way;
  }

  lemma ReadKeepsRelay(w: World, e: Event)
    requires Legal(w, e) && e.ViewerReads?
    ensures Next(w, e).relay == w.relay
  {
    hide EndAfter, GotAfter, Answers, Addressed;
  }

  lemma ReadStaysDone(w: World, e: Event, rid: Id)
    requires Legal(w, e) && e.ViewerReads? && e.rid == rid && Unserved(w, rid) && StageOf(w.sharer, rid) == 3
    ensures Unserved(Next(w, e), rid) && StageOf(Next(w, e).sharer, rid) == 3
  {
    hide EndAfter, GotAfter, Answers, Addressed, StageOf, H.Hits;
  }

  /** Once its handshake is over, nothing makes the sharer serve the viewer again. */
  lemma UnservedStep(w: World, e: Event, rid: Id)
    requires Inv(w) && Legal(w, e) && Unserved(w, rid) && StageOf(w.sharer, rid) == 3
    ensures Unserved(Next(w, e), rid) && StageOf(Next(w, e).sharer, rid) == 3
  {
    hide Inv, Next, Legal, StageOf;
    if OfSharer(e) {
      var added := SharerStays(w, e, rid);
      BroadcastsStage(w, Next(w, e), rid, added);
    } else if e.ViewerReads? && e.rid == rid {
      ReadStaysDone(w, e, rid);
    } else {
      OtherStays(w, e, rid);
    }
  }

  lemma BroadcastsStage(w: World, t: World, rid: Id, added: seq<Bytes>)
    requires rid in w.wire && rid in t.wire && Broadcasts(w, t, rid, added)
    ensures StageOf(t.sharer, rid) == StageOf(w.sharer, rid)
  {
    hide Way, NewFrame, StageOf;
  }
}
