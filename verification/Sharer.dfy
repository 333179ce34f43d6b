/**
 * The sharer as the program keeps it (internal/sharer/sharer.go): one object with its session, its handshake
 * contexts and the identifier map, all changed step by step.  Each method refines a function of SharerState.
 * `sent` is the history of what went to the relay.
 */
module SharerHeap {
  import opened ByteStrings
  import opened Wire
  import opened SharerState
  import S = SessionState
  import SessionHeap

  /** handshakeCtx; the SPAKE2 instance behind it is foreign and answers through an Oracle. */
  class Context {
    var stage: Stage
    const clientType: S.ClientType
    ghost var calls: seq<Call>

    constructor (clientType: S.ClientType)
      ensures Abs() == Handshake(WaitInit, clientType, [])
    {
      stage, this.clientType, calls := WaitInit, clientType, [];
    }

    ghost function Abs(): Handshake
      reads this
    {
      Handshake(stage, clientType, calls)
    }
  }

  class Sharer {
    const sess: SessionHeap.Session
    var handshakes: map<Id, Context>
    var viewerIDMap: map<Id, Id>
    var termCols: nat
    var termRows: nat
    var sent: seq<Bytes>
    ghost var deliveries: seq<Delivery>
    ghost var lost: set<Id>
    ghost var dropped: set<Id>

    ghost predicate Valid()
      reads this, sess, sess.counter, sess.buffers
    {
      && sess.Valid()
      && forall a, b :: a in handshakes && b in handshakes && a != b ==> handshakes[a] != handshakes[b]
    }

    ghost function Contexts(): map<Id, Handshake>
      reads `handshakes, handshakes.Values
    {
      map rid | rid in handshakes :: handshakes[rid].Abs()
    }

    ghost function Abs(): State
      requires Valid()
      reads this, sess, sess.counter, sess.buffers, handshakes.Values
    {
      State(sess.Abs(), Contexts(), viewerIDMap, termCols, termRows, deliveries, lost, dropped)
    }

    constructor (sess: SessionHeap.Session)
      requires sess.Valid()
      ensures Valid() && sent == [] && this.sess == sess
      ensures Abs() == State(old(sess.Abs()), map[], map[], 0, 0, [], {}, {})
    {
      this.sess := sess;
      handshakes, viewerIDMap, termCols, termRows := map[], map[], 0, 0;
      sent, deliveries, lost, dropped := [], [], {}, {};
    }

    method SendUnicast(id: Id, payload: Bytes, sendOk: bool)
      requires Valid()
      modifies this`sent
      ensures Valid() && Abs() == old(Abs())
      ensures sent == old(sent) + (if sendOk then [Unicast(id, payload)] else [])
    {
      hide SessionHeap.Session.Valid, SessionHeap.Session.Abs, Addressed;
      var msg := BuildAddressed(TAG_UNICAST, id, payload);
      if sendOk {
        sent := sent + [msg];
      }
      assert Contexts() == old(Contexts());
    }

    /** EncryptFrame and Send: one turn of streamLoop, or a terminal size. */
    method SendFrame(tag: Byte, plain: Bytes, unix: int, sendOk: bool)
      requires Valid()
      modifies this`sent, sess`log, sess.counter
      ensures Valid()
      ensures Abs() == SharerState.SendFrame(old(Abs()), tag, plain, unix).0
      ensures sent == old(sent) + (if sendOk then SharerState.SendFrame(old(Abs()), tag, plain, unix).1 else [])
    {
      hide S.EncryptFrame, FrameBytes, SessionHeap.Session.Valid, SessionHeap.Session.Abs;
      var r := sess.EncryptFrame(plain, unix);
      if r.Ok? {
        var frame := BuildFrame(tag, r.value.cipher, r.value.nonce, r.value.epoch);
        if sendOk {
          sent := sent + [frame];
        }
      }
      assert Contexts() == old(Contexts());
    }

    method BroadcastTermSize(cols: nat, rows: nat, unix: int, sendOk: bool)
      requires Valid()
      modifies this`sent, sess`log, sess.counter
      ensures Valid()
      ensures Abs() == SharerState.BroadcastTermSize(old(Abs()), cols, rows, unix).0
      ensures sent == old(sent)
                + (if sendOk then SharerState.BroadcastTermSize(old(Abs()), cols, rows, unix).1 else [])
    {
      var plain := ToBE(cols, 2) + ToBE(rows, 2);
      SendFrame(TAG_TERM_SIZE, plain, unix, sendOk);
    }

    method SetTermSize(cols: nat, rows: nat, unix: int, sendOk: bool)
      requires Valid()
      modifies this`sent, this`termCols, this`termRows, sess`log, sess.counter
      ensures Valid()
      ensures Abs() == SharerState.SetTermSize(old(Abs()), cols, rows, unix).0
      ensures sent == old(sent) + (if sendOk then SharerState.SetTermSize(old(Abs()), cols, rows, unix).1 else [])
    {
      hide SharerState.BroadcastTermSize, SessionHeap.Session.Valid, SessionHeap.Session.Abs;
      termCols, termRows := cols, rows;
      assert Contexts() == old(Contexts());
      BroadcastTermSize(cols, rows, unix, sendOk);
    }

    /** The context of a relay ID, created on its first message. */
    method Obtain(relayId: Id, payload: Bytes) returns (hs: Context)
      requires Valid()
      modifies this`handshakes
      ensures Valid() && relayId in handshakes && handshakes[relayId] == hs
      ensures Abs() == SetContext(old(Abs()), relayId, SharerState.Context(old(Abs()), relayId, payload))
      ensures hs.Abs() == SharerState.Context(old(Abs()), relayId, payload)
      ensures hs in old(handshakes.Values) || fresh(hs)
    {
      hide SessionHeap.Session.Valid, SessionHeap.Session.Abs;
      if relayId in handshakes {
        hs := handshakes[relayId];
        assert Contexts() == Contexts()[relayId := hs.Abs()];
      } else {
        hs := new Context(ClientTypeFromByte(payload));
        assert forall c :: c in handshakes.Values ==> c != hs;
        handshakes := handshakes[relayId := hs];
        assert Contexts() == old(Contexts())[relayId := hs.Abs()];
      }
    }

    lemma SetTwice(s: State, relayId: Id, a: Handshake, b: Handshake)
      ensures SetContext(SetContext(s, relayId, a), relayId, b) == SetContext(s, relayId, b)
    {}

    /** Records a successful SPAKE2 call. */
    ghost method Called(relayId: Id, hs: Context, call: Call)
      requires Valid() && relayId in handshakes && handshakes[relayId] == hs
      modifies hs`calls
      ensures hs.Abs() == old(hs.Abs()).(calls := old(hs.calls) + [call])
      ensures Valid() && Abs() == SetContext(old(Abs()), relayId, old(hs.Abs()).(calls := old(hs.calls) + [call]))
    {
      hs.calls := hs.calls + [call];
      assert Contexts() == old(Contexts())[relayId := hs.Abs()];
    }

    method Advance(relayId: Id, hs: Context, stage: Stage)
      requires Valid() && relayId in handshakes && handshakes[relayId] == hs
      modifies hs`stage
      ensures hs.Abs() == old(hs.Abs()).(stage := stage)
      ensures Valid() && Abs() == SetContext(old(Abs()), relayId, old(hs.Abs()).(stage := stage))
    {
      hs.stage := stage;
      assert Contexts() == old(Contexts())[relayId := hs.Abs()];
    }

    method CleanupHandshake(relayId: Id)
      requires Valid()
      modifies this`handshakes
      ensures Valid() && Abs() == Cleanup(old(Abs()), relayId)
    {
      handshakes := handshakes - {relayId};
      assert Contexts() == old(Contexts()) - {relayId};
    }

    method HandleSpake2(relayId: Id, payload: Bytes, o: Oracle)
      requires Valid()
      modifies this, sess, sess.counter, handshakes.Values
      ensures Valid()
      ensures Abs() == SharerState.HandleSpake2(old(Abs()), relayId, payload, o).0
      ensures sent == old(sent) + SharerState.HandleSpake2(old(Abs()), relayId, payload, o).1
    {
      hide SharerState.Context, SharerState.Dispatch, SetContext, Valid, Abs;
      KnownContexts();
      if relayId !in handshakes && !o.created {
        return;
      }
      var hs := Obtain(relayId, payload);
      Dispatch(relayId, hs, payload, o);
    }

    lemma KnownContexts()
      requires Valid()
      ensures Abs().handshakes.Keys == handshakes.Keys
    {}

    method Dispatch(relayId: Id, hs: Context, payload: Bytes, o: Oracle)
      requires Valid() && relayId in handshakes && handshakes[relayId] == hs
      modifies this, sess, sess.counter, hs
      ensures Valid()
      ensures Abs() == SharerState.Dispatch(old(Abs()), relayId, o).0
      ensures sent == old(sent) + SharerState.Dispatch(old(Abs()), relayId, o).1
    {
      hide Unicast, SharerState.Admit, SetContext, Cleanup, Valid, Abs;
      ContextOf(relayId);
      match hs.stage
      case WaitInit =>
        if o.start.Some? {
          Answer(relayId, hs, Started, o.start.value, WaitMsgB, o.sendOk);
        }
      case WaitMsgB =>
        if o.finish.None? {
          CleanupHandshake(relayId);
        } else {
          Answer(relayId, hs, Finished, o.finish.value, WaitConfirmB, o.sendOk);
        }
      case WaitConfirmB =>
        if !o.verify || o.authKey.None? {
          CleanupHandshake(relayId);
        } else {
          Called(relayId, hs, Verified);
          Admit(relayId, o);
        }
      case Complete =>
    }

    lemma ContextOf(relayId: Id)
      requires Valid() && relayId in handshakes
      ensures relayId in Abs().handshakes && Abs().handshakes[relayId] == handshakes[relayId].Abs()
    {}

    /** A successful call is answered; the handshake moves on once the answer is sent. */
    method Answer(relayId: Id, hs: Context, call: Call, payload: Bytes, next: Stage, sendOk: bool)
      requires Valid() && relayId in handshakes && handshakes[relayId] == hs
      modifies this`sent, hs
      ensures Valid()
      ensures var was := old(hs.Abs());
        Abs() == SetContext(old(Abs()), relayId,
                            was.(calls := was.calls + [call], stage := if sendOk then next else was.stage))
      ensures sent == old(sent) + (if sendOk then [Unicast(relayId, payload)] else [])
    {
      hide Unicast, SetContext, Valid, Abs;
      Called(relayId, hs, call);
      ghost var c := hs.Abs();
      SendUnicast(relayId, payload, sendOk);
      if sendOk {
        Advance(relayId, hs, next);
        SetTwice(old(Abs()), relayId, c, c.(stage := next));
      }
    }

    method Admit(relayId: Id, o: Oracle)
      requires Valid() && relayId in handshakes && o.authKey.Some?
      modifies this, sess, sess.counter, handshakes[relayId]
      ensures Valid()
      ensures Abs() == SharerState.Admit(old(Abs()), relayId, o).0
      ensures sent == old(sent) + SharerState.Admit(old(Abs()), relayId, o).1
    {
      hide Deliver, SharerState.BroadcastTermSize, SessionHeap.Session.Valid, SessionHeap.Session.Abs;
      var delivered := DeliverKey(relayId, o);
      if delivered {
        var cols, rows := termCols, termRows;
        if cols > 0 && rows > 0 {
          ghost var delivery := Deliver(old(Abs()), relayId, o).1;
          ghost var size := SharerState.BroadcastTermSize(Abs(), cols, rows, o.unix).1;
          BroadcastTermSize(cols, rows, o.unix, o.sizeOk);
          assert old(sent) + delivery + size == old(sent) + (delivery + size);
        }
      }
    }

    method DeliverKey(relayId: Id, o: Oracle) returns (delivered: bool)
      requires Valid() && relayId in handshakes && o.authKey.Some?
      modifies this, sess, sess.counter, handshakes[relayId]
      ensures Valid() && termCols == old(termCols) && termRows == old(termRows)
      ensures delivered <==> Deliver(old(Abs()), relayId, o).1 != []
      ensures Abs() == Deliver(old(Abs()), relayId, o).0
      ensures sent == old(sent) + Deliver(old(Abs()), relayId, o).1
    {
      hide Unicast, KeyDelivery, S.Register, SessionHeap.Session.Valid, SessionHeap.Session.Abs;
      var hs := handshakes[relayId];
      var id, enc := Register(hs, o);
      if enc.Err? {
        CleanupHandshake(relayId);
        return false;
      }
      var delivery := BuildKeyDelivery(id, enc.value);
      SendUnicast(relayId, delivery, o.sendOk);
      if !o.sendOk {
        Noted(lost + {id}, dropped);
        return false;
      }
      Advance(relayId, hs, Complete);
      Admitted(relayId, hs, id);
      delivered := true;
    }

    ghost method Noted(lost: set<Id>, dropped: set<Id>)
      requires Valid()
      modifies this`lost, this`dropped
      ensures Valid() && Abs() == old(Abs()).(lost := lost, dropped := dropped)
    {
      hide SessionHeap.Session.Valid, SessionHeap.Session.Abs;
      this.lost, this.dropped := lost, dropped;
      assert Contexts() == old(Contexts());
    }

    /** The derived key lives in a buffer of its own, zeroed before the handler returns. */
    method Register(hs: Context, o: Oracle) returns (id: Id, enc: S.Result<S.Payload>)
      requires Valid() && o.authKey.Some?
      modifies sess, sess.counter
      ensures Valid() && id == o.id
      ensures var (t, r) := S.Register(old(sess.Abs()), o.authKey.value, o.id, o.unix, hs.clientType);
        enc == r && Abs() == old(Abs()).(sess := t)
    {
      hide S.Register, SessionHeap.Session.Valid, SessionHeap.Session.Abs;
      var derived := o.authKey.value;
      var authKey := new Byte[|derived|](i requires 0 <= i < |derived| => derived[i]);
      assert authKey[..] == derived;
      var info;
      info, enc := sess.RegisterViewer(authKey, Some(o.id), o.unix, hs.clientType);
      SessionHeap.ZeroBytes(authKey);
      id := info.id;
      assert Contexts() == old(Contexts());
    }

    method Admitted(relayId: Id, hs: Context, id: Id)
      requires Valid() && relayId in handshakes && handshakes[relayId] == hs
      modifies this`viewerIDMap, this`deliveries
      ensures Valid()
      ensures Abs() == old(Abs()).(ids := old(viewerIDMap)[id := relayId],
                                   deliveries := old(deliveries) + [Delivery(relayId, hs.calls)])
    {
      hide SessionHeap.Session.Valid, SessionHeap.Session.Abs;
      viewerIDMap := viewerIDMap[id := relayId];
      deliveries := deliveries + [Delivery(relayId, hs.calls)];
      assert Contexts() == old(Contexts());
    }

    /** The search of the identifier map stops at its first hit. */
    method FindMapped(relayId: Id) returns (found: Option<Id>)
      ensures found.Some? ==> found.value in viewerIDMap && viewerIDMap[found.value] == relayId
      ensures found.None? ==> forall sid :: sid in viewerIDMap ==> viewerIDMap[sid] != relayId
    {
      found := None;
      var pending := viewerIDMap.Keys;
      while pending != {} && found.None?
        invariant pending <= viewerIDMap.Keys
        invariant found.None? ==> forall sid :: sid in viewerIDMap && sid !in pending ==> viewerIDMap[sid] != relayId
        invariant found.Some? ==> found.value in viewerIDMap && viewerIDMap[found.value] == relayId
      {
        var sid :| sid in pending;
        if viewerIDMap[sid] == relayId {
          found := Some(sid);
        }
        pending := pending - {sid};
      }
    }

    method Dismiss(id: Id)
      requires Valid()
      modifies sess`viewers, sess.Owned()
      ensures Valid() && Abs() == old(Abs()).(sess := S.Remove(old(Abs()).sess, id))
    {
      hide SessionHeap.Session.Valid, SessionHeap.Session.Abs;
      sess.RemoveViewer(id);
      assert Contexts() == old(Contexts());
    }

    method HandleViewerDisconnect(relayId: Id) returns (ghost hit: Id)
      requires Valid()
      modifies this`viewerIDMap, sess`viewers, sess.Owned()
      ensures Valid() && (Hits(old(Abs()), relayId) == {} || hit in Hits(old(Abs()), relayId))
      ensures Abs() == HandleDisconnect(old(Abs()), relayId, hit)
    {
      hide SessionHeap.Session.Valid, SessionHeap.Session.Abs;
      hit := [];
      var found := FindMapped(relayId);
      if found.Some? {
        hit := found.value;
        assert hit in Hits(Abs(), relayId);
        Forget(found.value);
        Dismiss(found.value);
      } else {
        assert Hits(Abs(), relayId) == {};
      }
    }

    /**
     * Revoke: the (patience + 1)-th send fails.  The key is rotated all the same, and the rekeys that were
     * sent are the first ones of the loop.  When no key can be drawn, the viewer is gone from the session but
     * stays mapped, and nothing is sent.
     */
    method Revoke(target: Id, random: Option<Bytes>, patience: nat)
      returns (ok: bool, ghost sealing: seq<Id>, ghost sending: seq<Id>)
      requires Valid() && (random.Some? ==> |random.value| == KEY_LEN)
      modifies this`viewerIDMap, this`sent, this`lost, this`dropped, sess, sess.counter, sess.Owned()
      ensures Valid()
      ensures if old(sess.closed) || target !in old(sess.viewers) || random.None? then
          !ok && sent == old(sent) && Abs() == RevokeUnkeyed(old(Abs()), target)
        else
          && S.Enumerates(sealing, old(sess.viewers.Keys) - {target})
          && S.Enumerates(sending, old(sess.viewers.Keys) - {target})
          && var (s, rekeys) := SharerState.Revoke(old(Abs()), target, random.value, sealing, sending);
             && Abs() == s && (ok <==> |rekeys| <= patience)
             && sent == old(sent) + (if ok then rekeys else rekeys[..patience])
    {
      hide S.Revoke, RekeySends, SessionHeap.Session.Valid;
      sending := [];
      GoodKeysOf(Abs());
      var r;
      r, sealing := Rotate(target, random);
      if r.Err? {
        if !old(sess.closed) && target in old(sess.viewers) {
          Noted(lost, dropped + {target});
        }
        return false, sealing, sending;
      }
      S.RevokeNeverFails(old(Abs()).sess, target, random.value, sealing);
      Forget(target);
      ok, sending := SendRekeys(r.value, patience);
    }

    method Rotate(target: Id, random: Option<Bytes>) returns (r: S.Result<map<Id, S.Payload>>, ghost sealing: seq<Id>)
      requires Valid() && (random.Some? ==> |random.value| == KEY_LEN)
      modifies sess, sess.counter, sess.Owned()
      ensures Valid()
      ensures if old(sess.closed) || target !in old(sess.viewers) || random.None? then
          r.Err? && Abs() == old(Abs()).(sess := S.RevokeUnkeyed(old(sess.Abs()), target).0)
        else
          && S.Enumerates(sealing, old(sess.viewers.Keys) - {target})
          && var (t, q) := S.Revoke(old(sess.Abs()), target, random.value, sealing);
             r.Ok? && r == q && Abs() == old(Abs()).(sess := t)
    {
      hide S.Revoke, SessionHeap.Session.Valid;
      r, sealing := sess.RevokeViewer(target, random);
      assert Contexts() == old(Contexts());
    }

    method Forget(target: Id)
      requires Valid()
      modifies this`viewerIDMap
      ensures Valid() && Abs() == old(Abs()).(ids := old(viewerIDMap) - {target})
    {
      hide SessionHeap.Session.Valid;
      viewerIDMap := viewerIDMap - {target};
      assert Contexts() == old(Contexts());
    }

    /** The sends of a revocation. */
    method SendRekeys(rekeys: map<Id, S.Payload>, patience: nat) returns (ok: bool, ghost sending: seq<Id>)
      requires Valid()
      modifies this`sent
      ensures Valid() && Abs() == old(Abs()) && S.Enumerates(sending, rekeys.Keys)
      ensures var out := RekeySends(viewerIDMap, rekeys, sending);
        (ok <==> |out| <= patience) && sent == old(sent) + (if ok then out else out[..patience])
    {
      hide Unicast, KeyDelivery, RekeySends, Valid, Abs, S.Enumerates;
      var pending := rekeys.Keys;
      assert rekeys.Keys - pending == {} && rekeys.Keys - {} == rekeys.Keys;
      ok, sending := true, [];
      S.EnumeratesNone();
      var done := 0;
      ghost var out: seq<Bytes> := [];
      RekeySendsSnoc(viewerIDMap, rekeys, []);
      while pending != {}
        invariant Valid() && Abs() == old(Abs())
        invariant pending <= rekeys.Keys && S.Enumerates(sending, rekeys.Keys - pending)
        invariant forall id :: id in sending ==> id in rekeys
        invariant out == RekeySends(viewerIDMap, rekeys, sending) && (ok <==> |out| <= patience)
        invariant sent == old(sent) + (if ok then out else out[..patience])
        invariant ok ==> done == |out|
      {
        var sid :| sid in pending;
        S.EnumeratesMore(sending, rekeys.Keys - pending, sid);
        RekeySendsSnoc(viewerIDMap, rekeys, sending + [sid]);
        assert (sending + [sid])[..|sending|] == sending;
        out := RekeySends(viewerIDMap, rekeys, sending + [sid]);
        sending := sending + [sid];
        if ok && sid in viewerIDMap {
          var delivery := BuildKeyDelivery(sid, rekeys[sid]);
          ok, done := done < patience, done + 1;
          SendUnicast(viewerIDMap[sid], delivery, ok);
        }
        assert rekeys.Keys - (pending - {sid}) == rekeys.Keys - pending + {sid};
        pending := pending - {sid};
      }
    }

    lemma {:induction false} RekeySendsSnoc(ids: map<Id, Id>, rekeys: map<Id, S.Payload>, order: seq<Id>)
      requires forall id :: id in order ==> id in rekeys
      ensures RekeySends(ids, rekeys, order) == if order == [] then [] else
        var id := order[|order| - 1];
        RekeySends(ids, rekeys, order[..|order| - 1])
          + (if id in ids then [Unicast(ids[id], KeyDelivery(id, rekeys[id]))] else [])
    {
      if |order| > 1 {
        RekeySendsSnoc(ids, rekeys, order[1..]);
        assert order[1..][..|order| - 2] == order[..|order| - 1][1..];
      }
    }

    lemma GoodKeysOf(s: State)
      requires Valid() && s == Abs()
      ensures S.GoodKeys(s.sess)
    {}
  }
}
