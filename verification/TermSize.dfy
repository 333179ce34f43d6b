/**
 * The terminal size, from what the sharer is told to what the viewers show, over all runs of the whole
 * protocol: a resize reaches every watching viewer that has room for it, and a newcomer gets the last one.
 */
module TermSize {
  import opened ByteStrings
  import opened Aead
  import opened Honest
  import opened ViewerFold
  import opened Wire
  import FramesOnly
  import H = SharerState
  import Nonces
  import R = RelayState
  import Revoked
  import Routing = SharerRouting
  import S = SessionState
  import V = ViewerState

  /** The viewer, once it has read all that is on its way to it, whenever it does so, shows that size. */
  ghost predicate WillShow(w: World, rid: Id, cols: nat, rows: nat)
    requires rid in w.relay.viewers && rid in w.wire && rid in w.ends
  {
    w.ends[rid].Ready? &&
    forall nows: seq<int> :: |nows| == |Pending(w, rid)| ==>
      var p := Drain(w.ends[rid].p, Pending(w, rid), nows, w.sharer.sess.log);
      p.Streaming? && p.v.cols == cols && p.v.rows == rows
  }

  lemma {:induction false} FoldInit(s: Sum, q: seq<Bytes>, m: Bytes, log: seq<Sealed>)
    requires Fold(s, q + [m], log).Some?
    ensures Fold(s, q, log).Some? && Fold(s, q + [m], log) == SumStep(Fold(s, q, log).value, m, log)
    decreases |q|
  {
    hide SumStep;
    if q == [] {
      assert (q + [m])[1..] == [];
    } else {
      assert (q + [m])[0] == q[0] && (q + [m])[1..] == q[1..] + [m];
      FoldInit(SumStep(s, q[0], log).value, q[1..], m, log);
    }
  }

  /** The two bytes of columns come first, then the two of rows. */
  lemma SizeBytes(cols: nat, rows: nat)
    requires cols < 65536 && rows < 65536
    ensures SizeIn(ToBE(cols, 2) + ToBE(rows, 2)) == (cols, rows)
  {
    assert Pow256(2) == 65536;
    FromToBE(cols, 2);
    FromToBE(rows, 2);
    hide ToBE, FromBE;
    var p := ToBE(cols, 2) + ToBE(rows, 2);
    assert p[0..2] == ToBE(cols, 2) && p[2..4] == ToBE(rows, 2);
  }

  /** A queue that ends with a size frame leaves the viewer with that size. */
  lemma LastFrameShown(p: V.Phase, q: seq<Bytes>, m: Bytes, nows: seq<int>, sess: S.State, i: nat)
    requires S.Inv(sess) && sess.draws < U64 && !p.Stopped? && (p.Streaming? ==> p.v.failures == 0)
    requires Fold(SumOf(p), q + [m], sess.log).Some? && Fold(SumOf(p), q + [m], sess.log).value.Keyed?
    requires IsSizeFrame(m) && i < |sess.log| && sess.log[i].nonce == FrameNonce(m) && |nows| == |q| + 1
    ensures var d := Drain(p, q + [m], nows, sess.log);
      d.Streaming? && (d.v.cols, d.v.rows) == SizeIn(sess.log[i].plain)
  {
    hide Fold, Drain, SumStep, S.Ordered, V.Receive, SizeIn, V.Output, Sent, SizeAfter, PlainAt;
    var n := |q|;
    FoldInit(SumOf(p), q, m, sess.log);
    assert nows == nows[..n] + [nows[n]];
    DrainFollowsFold(p, q, nows[..n], sess.log, sess.draws);
    Revoked.DrainSplit(p, q, [m], nows[..n], [nows[n]], sess.log);
    var d := Drain(p, q, nows[..n], sess.log);
    StaysKeyless(SumOf(d), m, sess.log);
    DrainOne(d, m, nows[n], sess.log);
    StepFollowsFold(d, m, nows[n], sess.log);
    OutputFollowsFold(d, m, nows[n], sess.log, sess.draws);
    OfOne(m, (d.v.cols, d.v.rows), sess.log);
    OrderedDistinct(sess.log, sess.draws, i);
    PlainAtIs(sess.log, i);
  }

  lemma StaysKeyless(s: Sum, m: Bytes, log: seq<Sealed>)
    requires IsFrame(m) && SumStep(s, m, log).Some? && SumStep(s, m, log).value.Keyed?
    ensures s.Keyed?
  {}

  lemma DrainOne(p: V.Phase, m: Bytes, now: int, log: seq<Sealed>)
    ensures Drain(p, [m], [now], log) == V.Receive(p, m, now, log)
  {
    assert [m][1..] == [] && [now][1..] == [];
  }

  /** What the session seals for a frame, and the frame. */
  lemma FrameSealed(s: H.State, tag: Byte, plain: Bytes, unix: int) returns (m: Bytes)
    requires !s.sess.closed && S.GoodKeys(s.sess) && 0 <= unix < U64 && tag in {TAG_STREAM, TAG_TERM_SIZE}
    ensures var (t, sent) := H.SendFrame(s, tag, plain, unix);
      && sent == [m] && t == s.(sess := t.sess) && |t.sess.log| == |s.sess.log| + 1 && s.sess.log <= t.sess.log
      && t.sess.log[|s.sess.log|].plain == plain && |m| == MIN_FRAME + |plain| && m[0] == tag
      && t.sess.log[|s.sess.log|].nonce == FrameNonce(m)
  {
    hide Nonces.NonceOf, FrameBytes;
    EpochBound(unix);
    var f := S.EncryptFrame(s.sess, plain, unix).1.value;
    FrameRoundTrip(tag, f);
    m := FrameBytes(tag, f);
  }

  lemma FrameFits(w: World, m: Bytes, rid: Id)
    requires IsFrame(m) && rid in w.relay.viewers && rid in w.wire && |w.relay.viewers[rid]| < R.SEND_BUF_SIZE
    ensures var t := Send(w, m);
      && t == w.(relay := t.relay) && rid in t.relay.viewers && Pending(t, rid) == Pending(w, rid) + [m]
  {
    SendFrameKeys(w, m);
    assert w.wire[rid] + (w.relay.viewers[rid] + [m]) == Pending(w, rid) + [m];
  }

  /** Enough of the invariant for one viewer whose last pending message is a size frame. */
  lemma ShownAtEnd(t: World, sid: Id, rid: Id, q: seq<Bytes>, m: Bytes, i: nat, cols: nat, rows: nat)
    requires Inv(t) && Watching(t, sid, rid) && Pending(t, rid) == q + [m] && IsSizeFrame(m)
    requires i < |t.sharer.sess.log| && t.sharer.sess.log[i].nonce == FrameNonce(m)
    requires SizeIn(t.sharer.sess.log[i].plain) == (cols, rows)
    ensures WillShow(t, rid, cols, rows)
  {
    hide Known, S.Ordered, Routing.Routed, Routing.Exact, Fold, Sent, SizeAfter, AllSealed, Drain, V.Output, Token,
      Pending, S.EpochAt, FromRid, StageOf, SizeIn, Shows;
    assert PerViewer(t, rid) && sid in H.Hits(t.sharer, rid);
    var p := t.ends[rid].p;
    forall nows: seq<int> | |nows| == |Pending(t, rid)|
      ensures var d := Drain(p, Pending(t, rid), nows, t.sharer.sess.log);
        d.Streaming? && d.v.cols == cols && d.v.rows == rows
    {
      LastFrameShown(p, q, m, nows, t.sharer.sess, i);
    }
  }

  /**
   * In every reachable state: after a resize, each watching viewer that had room in its queue will show exactly
   * the new size once it has read what is on its way to it, whatever the clock says.
   */
  lemma ResizeShown(
      streamKey: Bytes, maxViewers: nat, unix: int, es: seq<Event>, w: World, cols: nat, rows: nat, at: int,
      sid: Id, rid: Id)
    requires |streamKey| == KEY_LEN && 0 <= unix < U64 && Run(Start(streamKey, maxViewers, unix), es, w)
    requires Legal(w, Resize(cols, rows, at)) && Next(w, Resize(cols, rows, at)).sharer.sess.draws < U64
    requires cols < 65536 && rows < 65536 && Watching(w, sid, rid) && |w.relay.viewers[rid]| < 256
    ensures Watching(Next(w, Resize(cols, rows, at)), sid, rid)
    ensures WillShow(Next(w, Resize(cols, rows, at)), rid, cols, rows)
  {
    hide Inv, Run, H.SendFrame, Send, SendAll, Pending, WillShow, SizeIn;
    StartInv(streamKey, maxViewers, unix);
    RunKeeps(Start(streamKey, maxViewers, unix), es, w);
    NextKeeps(w, Resize(cols, rows, at));
    FramesOnly.SharerFacts(w);
    var s := w.sharer.(cols := cols, rows := rows);
    var m := FrameSealed(s, TAG_TERM_SIZE, H.SizePlain(cols, rows), at);
    var w1 := w.(unix := at, sharer := H.SendFrame(s, TAG_TERM_SIZE, H.SizePlain(cols, rows), at).0);
    SendOne(w1, m);
    FrameFits(w1, m, rid);
    PendingSame(w, w1, rid);
    SizeBytes(cols, rows);
    EncryptKeeps(s, TAG_TERM_SIZE, H.SizePlain(cols, rows), at);
    ShownAtEnd(Next(w, Resize(cols, rows, at)), sid, rid, Pending(w, rid), m, |w.sharer.sess.log|, cols, rows);
  }

  lemma EncryptKeeps(s: H.State, tag: Byte, plain: Bytes, unix: int)
    ensures var t := H.SendFrame(s, tag, plain, unix).0;
      t.sess.viewers == s.sess.viewers && t.ids == s.ids && t.cols == s.cols && t.rows == s.rows
  {
    hide Nonces.NonceOf, FrameBytes;
  }

  // ----- newcomers

  /** The size of the last resize among the events, or `size` if there is none. */
  function LastResize(size: (nat, nat), es: seq<Event>): (nat, nat)
    decreases |es|
  {
    if es == [] then size
    else LastResize(if es[0].Resize? then (es[0].cols, es[0].rows) else size, es[1..])
  }

  lemma ReadKeepsSize(s: H.State, data: Bytes, o: H.Oracle, hit: Id)
    requires Routing.Possible(s, Routing.Received(data, o, hit))
    ensures var t := H.FromRelay(s, data, o, hit).0; t.cols == s.cols && t.rows == s.rows
  {
    hide S.Register, S.EncryptFrame, H.Unicast, KeyDelivery, FrameBytes;
  }

  lemma StepKeepsSize(w: World, e: Event)
    requires Legal(w, e)
    ensures var t := Next(w, e).sharer;
      (t.cols, t.rows) == if e.Resize? then (e.cols, e.rows) else (w.sharer.cols, w.sharer.rows)
  {
    hide S.Revoke, S.EncryptFrame, SendAll, H.FromRelay, StepEnd, FrameBytes, H.RekeySends;
    match e
    case SharerReads(o, hit) =>
      ReadKeepsSize(w.sharer, w.up[0], o, hit);
      ActSharer(w.(up := w.up[1..], unix := o.unix), H.FromRelay(w.sharer, w.up[0], o, hit));
    case Stream(plain, unix) => ActSharer(w.(unix := unix), H.SendFrame(w.sharer, TAG_STREAM, plain, unix));
    case Resize(cols, rows, unix) => ActSharer(w.(unix := unix), H.SetTermSize(w.sharer, cols, rows, unix));
    case Revocation(target, kNew, sealing, sending) => RevokeKeepsSize(w, e);
    case ViewerReads(_, _, _, _) => ReadKeepsSharer(w, e);
    case _ =>
  }

  lemma RevokeKeepsSize(w: World, e: Event)
    requires Legal(w, e) && e.Revocation?
    ensures Next(w, e).sharer.cols == w.sharer.cols && Next(w, e).sharer.rows == w.sharer.rows
  {
    hide S.Revoke, SendAll, H.RekeySends, S.RekeyAll;
    ActSharer(w, H.Revoke(w.sharer, e.target, e.kNew, e.sealing, e.sending));
  }

  lemma ReadKeepsSharer(w: World, e: Event)
    requires Legal(w, e) && e.ViewerReads?
    ensures Next(w, e).sharer == w.sharer
  {
    hide EndAfter, GotAfter, Answers, Addressed;
  }

  lemma {:induction false} RunKeepsSize(w: World, es: seq<Event>, t: World)
    requires Run(w, es, t)
    ensures (t.sharer.cols, t.sharer.rows) == LastResize((w.sharer.cols, w.sharer.rows), es)
    decreases |es|
  {
    hide Next, Legal;
    if es != [] {
      StepKeepsSize(w, es[0]);
      RunKeepsSize(Next(w, es[0]), es[1..], t);
    }
  }

  /** An admission sends the key, and the terminal size after it if there is one. */
  lemma AdmitSends(s: H.State, r: Id, o: H.Oracle) returns (x: Bytes, fs: seq<Bytes>)
    requires !s.sess.closed && S.GoodKeys(s.sess) && r in s.handshakes && IsViewerId(o.id)
    requires o.sendOk && o.sizeOk && 0 <= o.unix < U64 && o.authKey.Some? && |o.authKey.value| == KEY_LEN
    ensures IsDefault(x)
    ensures var (t, sent) := H.Admit(s, r, o);
      && sent == [H.Unicast(r, x)] + fs && s.sess.log <= t.sess.log
      && (fs != [] <==> s.cols > 0 && s.rows > 0)
      && (fs != [] ==>
            && fs == [fs[0]] && IsSizeFrame(fs[0]) && |t.sess.log| > 0
            && t.sess.log[|t.sess.log| - 1].nonce == FrameNonce(fs[0])
            && t.sess.log[|t.sess.log| - 1].plain == ToBE(s.cols, 2) + ToBE(s.rows, 2))
  {
    hide H.Unicast, H.SendFrame, KeyDelivery, Nonces.NonceOf, S.Register, ToBE;
    var ct := s.handshakes[r].clientType;
    S.RegisterShape(s.sess, o.authKey.value, o.id, o.unix, ct);
    RegisterLog(s.sess, o.authKey.value, o.id, o.unix, ct);
    DeliverSends(s, r, o);
    x := KeyDelivery(o.id, S.Register(s.sess, o.authKey.value, o.id, o.unix, ct).1.value);
    DeliveryRoundTrip(o.id, S.Register(s.sess, o.authKey.value, o.id, o.unix, ct).1.value);
    fs := [];
    if s.cols > 0 && s.rows > 0 {
      var m := FrameSealed(H.Deliver(s, r, o).0, TAG_TERM_SIZE, H.SizePlain(s.cols, s.rows), o.unix);
      fs := [m];
    }
  }

  lemma RegisterLog(s: S.State, key: Bytes, id: Id, now: int, ct: S.ClientType)
    requires !s.closed && |key| == KEY_LEN
    ensures var (t, r) := S.Register(s, key, id, now, ct); s.log <= t.log && r.Ok? && |r.value.nonce| == NONCE_LEN
  {
    hide Nonces.NonceOf;
  }

  /** A unicast and at most one frame reach a viewer that has room for both. */
  lemma BothFit(w: World, s: H.State, rid: Id, x: Bytes, fs: seq<Bytes>)
    requires rid in w.relay.viewers && rid in w.wire && |rid| == VIEWER_ID_LEN
    requires |w.relay.viewers[rid]| + 2 <= R.SEND_BUF_SIZE && w.relay.viewers.Keys <= w.wire.Keys
    requires |fs| <= 1 && forall m :: m in fs ==> IsFrame(m)
    ensures var t := Act(w, (s, [H.Unicast(rid, x)] + fs));
      rid in t.relay.viewers && rid in t.wire && t.ends == w.ends && Pending(t, rid) == Pending(w, rid) + [x] + fs
  {
    hide H.Unicast, Send, SendAll, Pending;
    var w1 := w.(sharer := s);
    SendAllSplit(w1, [H.Unicast(rid, x)], fs);
    SendOne(w1, H.Unicast(rid, x));
    UnicastRoom(w1, rid, x);
    PendingSame(w, w1, rid);
    var w2 := Send(w1, H.Unicast(rid, x));
    if fs == [] {
      assert SendAll(w2, fs) == w2 by { SendNothing(w2, fs); }
    } else {
      assert fs == [fs[0]] && fs[0] in fs;
      SendOne(w2, fs[0]);
      FrameFits(w2, fs[0], rid);
    }
  }

  lemma SendNothing(w: World, msgs: seq<Bytes>)
    requires msgs == []
    ensures SendAll(w, msgs) == w
  {}

  lemma UnicastRoom(w: World, rid: Id, x: Bytes)
    requires rid in w.relay.viewers && rid in w.wire && |rid| == VIEWER_ID_LEN
    requires |w.relay.viewers[rid]| < R.SEND_BUF_SIZE && w.relay.viewers.Keys <= w.wire.Keys
    ensures var t := Send(w, H.Unicast(rid, x));
      && rid in t.relay.viewers && rid in t.wire && t.ends == w.ends
      && |t.relay.viewers[rid]| == |w.relay.viewers[rid]| + 1
      && Pending(t, rid) == Pending(w, rid) + [x]
  {
    AddressedRoundTrip(TAG_UNICAST, rid, x);
    hide Addressed;
    var t := Send(w, H.Unicast(rid, x));
    assert t.relay == R.Unicast(w.relay, rid, x);
    assert w.wire[rid] + (w.relay.viewers[rid] + [x]) == Pending(w, rid) + [x];
  }

  lemma {:induction false} SkipsFrames(auth: Bytes, q: seq<Bytes>, nows: seq<int>, log: seq<Sealed>)
    requires |nows| == |q| && forall m :: m in q ==> IsFrame(m)
    ensures Drain(V.AwaitKey(auth), q, nows, log) == V.AwaitKey(auth)
    decreases |q|
  {
    if q != [] {
      assert q[0] in q;
      SkipsFrames(auth, q[1..], nows[1..], log);
    }
  }

  lemma FreshKey(auth: Bytes, x: Bytes, now: int, log: seq<Sealed>)
    ensures var p := V.Receive(V.AwaitKey(auth), x, now, log); p.Streaming? ==> p.v.cols == 0 && p.v.rows == 0
  {}

  /** The viewer that the sharer admits on reading `w.up[0]`. */
  lemma AdmittedWho(w: World, o: H.Oracle, hit: Id, rid: Id)
    requires Inv(w) && Legal(w, SharerReads(o, hit))
    requires var t := Next(w, SharerReads(o, hit)); o.id in t.sharer.ids && t.sharer.ids[o.id] == rid
    ensures var data := w.up[0];
      && |data| >= 7 && data[0] == TAG_SPAKE2 && data[1..7] == rid && StageOf(w.sharer, rid) == 2
      && rid in w.sharer.handshakes && o.verify && o.authKey.Some? && |o.authKey.value| == KEY_LEN
      && H.FromRelay(w.sharer, data, o, hit) == H.Admit(Admitting(w.sharer, rid), rid, o)
  {
    hide Inv, SendAll, H.HandleSpake2, H.Admit, StageOf;
    FramesOnly.SharerFacts(w);
    assert Known(w, w.up[0]);
    var data := w.up[0];
    ActSharer(w.(up := w.up[1..], unix := o.unix), H.FromRelay(w.sharer, data, o, hit));
    if data[0] == TAG_SPAKE2 {
      var r := data[1..7];
      if StageOf(w.sharer, r) == 2 && o.verify && o.authKey.Some? {
        AdmittingIs(w.sharer, r, data[7..], o);
      } else {
        NotAdmitting(w.sharer, r, data[7..], o);
      }
    }
  }

  function Admitting(s: H.State, r: Id): H.State
    requires r in s.handshakes
  {
    H.SetContext(s, r, s.handshakes[r].(calls := s.handshakes[r].calls + [H.Verified]))
  }

  lemma AdmittingIs(s: H.State, r: Id, payload: Bytes, o: H.Oracle)
    requires StageOf(s, r) == 2 && o.verify && o.authKey.Some?
    ensures r in s.handshakes && s.handshakes[r].stage == H.WaitConfirmB
    ensures H.HandleSpake2(s, r, payload, o) == H.Admit(Admitting(s, r), r, o)
    ensures var ids := H.Admit(Admitting(s, r), r, o).0.ids; forall id :: id in ids ==> id in s.ids || ids[id] == r
  {
    assert H.SetContext(s, r, s.handshakes[r]) == s;
    hide S.Register, S.EncryptFrame, H.Unicast, KeyDelivery, FrameBytes;
  }

  lemma NotAdmitting(s: H.State, r: Id, payload: Bytes, o: H.Oracle)
    requires o.sendOk && !(StageOf(s, r) == 2 && o.verify && o.authKey.Some?)
    ensures H.HandleSpake2(s, r, payload, o).0.ids == s.ids
  {
    SpakeShape(s, r, payload, o);
  }

  /**
   * In every reachable state: a viewer that the sharer admits, with room in its queue for both messages, will
   * show the size of the last resize of the run if that is positive both ways, and else none.
   */
  lemma NewcomerShows(
      streamKey: Bytes, maxViewers: nat, unix: int, es: seq<Event>, w: World, o: H.Oracle, hit: Id, rid: Id,
      cols: nat, rows: nat)
    requires |streamKey| == KEY_LEN && 0 <= unix < U64 && Run(Start(streamKey, maxViewers, unix), es, w)
    requires Legal(w, SharerReads(o, hit)) && Next(w, SharerReads(o, hit)).sharer.sess.draws < U64
    requires rid in w.relay.viewers && |w.relay.viewers[rid]| + 2 <= 256
    requires Watching(Next(w, SharerReads(o, hit)), o.id, rid)
    requires LastResize((0, 0), es) == (cols, rows) && cols < 65536 && rows < 65536
    ensures WillShow(Next(w, SharerReads(o, hit)), rid, if cols > 0 && rows > 0 then cols else 0,
                     if cols > 0 && rows > 0 then rows else 0)
  {
    hide Inv, Run, Next, WillShow, Pending, H.Admit, H.FromRelay, SizeIn, StageOf, Act, ToBE;
    var start := Start(streamKey, maxViewers, unix);
    StartInv(streamKey, maxViewers, unix);
    RunKeeps(start, es, w);
    RunKeepsSize(start, es, w);
    var t := Next(w, SharerReads(o, hit));
    NextKeeps(w, SharerReads(o, hit));
    AdmittedWho(w, o, hit, rid);
    FramesOnly.SharerFacts(w);
    var s := Admitting(w.sharer, rid);
    var x, fs := AdmitSends(s, rid, o);
    var w0 := w.(up := w.up[1..], unix := o.unix);
    NextActs(w, o, hit);
    BothFit(w0, H.Admit(s, rid, o).0, rid, x, fs);
    PendingSame(w, w0, rid);
    ActSharer(w0, H.Admit(s, rid, o));
    if cols > 0 && rows > 0 {
      SizeBytes(cols, rows);
      ShownAtEnd(t, o.id, rid, Pending(w, rid) + [x], fs[0], |t.sharer.sess.log| - 1, cols, rows);
    } else {
      assert Pending(t, rid) == Pending(w, rid) + [x];
      NoSizeYet(w, t, o.id, rid, x);
    }
  }

  lemma NextActs(w: World, o: H.Oracle, hit: Id)
    requires Legal(w, SharerReads(o, hit))
    ensures Next(w, SharerReads(o, hit)) ==
      Act(w.(up := w.up[1..], unix := o.unix), H.FromRelay(w.sharer, w.up[0], o, hit))
  {
    hide H.FromRelay, Act;
  }

  /** Only frames were on the way to the viewer before its key, and nothing is behind it. */
  lemma NoSizeYet(w: World, t: World, sid: Id, rid: Id, x: Bytes)
    requires Inv(w) && Inv(t) && Watching(t, sid, rid) && t.ends == w.ends && rid in w.relay.viewers && rid in w.wire
    requires StageOf(w.sharer, rid) == 2 && w.up != [] && IsFrom(w.up[0], rid)
    requires Pending(t, rid) == Pending(w, rid) + [x]
    ensures WillShow(t, rid, 0, 0)
  {
    hide Known, S.Inv, Routing.Routed, Routing.Exact, Pending, S.EpochAt, FromRid, StageOf, Drain, NonFrames, Live,
      V.Receive;
    WatchingInStep(t, sid, rid);
    BaseDefines(w, rid);
    assert PerViewer(w, rid);
    FromRidHead(w.up, rid);
    var p, q, log := t.ends[rid].p, Pending(w, rid), t.sharer.sess.log;
    NonFramesZero(q);
    forall nows: seq<int> | |nows| == |Pending(t, rid)|
      ensures var d := Drain(p, Pending(t, rid), nows, log); d.Streaming? && d.v.cols == 0 && d.v.rows == 0
    {
      var n := |q|;
      assert nows == nows[..n] + [nows[n]];
      Revoked.DrainSplit(p, q, [x], nows[..n], [nows[n]], log);
      SkipsFrames(p.auth, q, nows[..n], log);
      DrainOne(p, x, nows[n], log);
      FreshKey(p.auth, x, nows[n], log);
    }
  }
}
