/**
 * Routing over whole runs of the sharer: any bytes from the relay, in any order, with any answers of the
 * SPAKE2 library, interleaved with frames, resizes and revocations.
 */
module SharerRouting {
  import opened ByteStrings
  import opened SharerState
  import S = SessionState
  import Nonces
  import Wire

  datatype Event =
    | Received(data: Bytes, o: Oracle, hit: Id)
    | Frame(plain: Bytes, unix: int)
    | Resize(cols: nat, rows: nat, at: int)
    | Revocation(target: Id, kNew: Bytes, sealing: seq<Id>, sending: seq<Id>)
    | RevocationUnkeyed(target: Id)

  function Start(streamKey: Bytes): State
  {
    State(S.Initial(streamKey), map[], map[], 0, 0, [], {}, {})
  }

  predicate Possible(s: State, e: Event)
  {
    match e
    case Received(data, _, hit) => Disconnects(data) && Hits(s, data[2..8]) != {} ==> hit in Hits(s, data[2..8])
    case Revocation(target, kNew, sealing, sending) =>
      |kNew| == KEY_LEN && S.GoodKeys(s.sess)
      && S.Enumerates(sealing, s.sess.viewers.Keys - {target}) && S.Enumerates(sending, s.sess.viewers.Keys - {target})
    case _ => true
  }

  function Next(s: State, e: Event): State
    requires Possible(s, e)
  {
    match e
    case Received(data, o, hit) => FromRelay(s, data, o, hit).0
    case Frame(plain, unix) => SendFrame(s, TAG_STREAM, plain, unix).0
    case Resize(cols, rows, at) => SetTermSize(s, cols, rows, at).0
    case Revocation(target, kNew, sealing, sending) => Revoke(s, target, kNew, sealing, sending).0
    case RevocationUnkeyed(target) => RevokeUnkeyed(s, target)
  }

  ghost predicate Run(s: State, es: seq<Event>, t: State)
    decreases |es|
  {
    if es == [] then s == t else Possible(s, es[0]) && Run(Next(s, es[0]), es[1..], t)
  }

  /** Every SPAKE2 answer and key delivery is sent, and every revocation finds a new key. */
  predicate NothingFails(es: seq<Event>)
  {
    forall i :: 0 <= i < |es| ==> !es[i].RevocationUnkeyed? && (es[i].Received? ==> es[i].o.sendOk)
  }

  /** The drawn identifier belongs to no viewer the sharer still knows of. */
  predicate Fresh(s: State, e: Event)
  {
    e.Received? ==> e.o.id !in s.sess.viewers && e.o.id !in s.ids && e.o.id !in s.lost && e.o.id !in s.dropped
  }

  ghost predicate FreshRun(s: State, es: seq<Event>)
    decreases |es|
  {
    es == [] || (Possible(s, es[0]) && Fresh(s, es[0]) && FreshRun(Next(s, es[0]), es[1..]))
  }

  /** The successful SPAKE2 calls behind each stage when no send has failed. */
  function CallsAt(stage: Stage): seq<Call>
  {
    match stage
    case WaitInit => []
    case WaitMsgB => [Started]
    case WaitConfirmB => [Started, Finished]
    case Complete => [Started, Finished, Verified]
  }

  predicate IsComplete(s: State, rid: Id)
  {
    rid in s.handshakes && s.handshakes[rid].stage == Complete
  }

  predicate Injective(ids: map<Id, Id>)
  {
    forall a, b :: a in ids && b in ids && ids[a] == ids[b] ==> a == b
  }

  predicate Once(ds: seq<Delivery>)
  {
    forall i, j :: 0 <= i < j < |ds| ==> ds[i].relayId != ds[j].relayId
  }

  function Rank(c: Call): nat
  {
    if c.Started? then 0 else if c.Finished? then 1 else 2
  }

  function StageRank(stage: Stage): nat
  {
    if stage.WaitInit? then 0 else if stage.WaitMsgB? then 1 else if stage.WaitConfirmB? then 2 else 3
  }

  /**
   * The successful calls behind a stage: in the order Start, Finish, Verify, each at least once before the
   * stage that needs it, and repeated only when an answer could not be sent.
   */
  predicate InOrder(stage: Stage, calls: seq<Call>)
  {
    && (forall i, j :: 0 <= i < j < |calls| ==> Rank(calls[i]) <= Rank(calls[j]))
    && (forall c :: c in calls ==> Rank(c) <= StageRank(stage))
    && (StageRank(stage) >= 1 ==> Started in calls)
    && (StageRank(stage) >= 2 ==> Finished in calls)
    && (StageRank(stage) >= 3 ==> Verified in calls)
  }

  /**
   * Holds whatever fails: only viewers dropped without a new key stay mapped outside the session, only
   * viewers whose key delivery was lost stay unmapped inside it, and no relay ID is used twice.
   */
  predicate Routed(s: State)
  {
    && !s.sess.closed && S.GoodKeys(s.sess)
    && s.ids.Keys - s.dropped <= s.sess.viewers.Keys
    && s.sess.viewers.Keys - s.lost <= s.ids.Keys
    && (forall sid :: sid in s.ids ==> IsComplete(s, s.ids[sid]))
    && Injective(s.ids)
    && (forall i :: 0 <= i < |s.deliveries| ==> IsComplete(s, s.deliveries[i].relayId))
    && Once(s.deliveries) && Ordered(s)
  }

  predicate Ordered(s: State)
  {
    && (forall rid :: rid in s.handshakes ==> InOrder(s.handshakes[rid].stage, s.handshakes[rid].calls))
    && (forall i :: 0 <= i < |s.deliveries| ==> InOrder(Complete, s.deliveries[i].calls))
  }

  /** With fresh identifiers, lost and dropped viewers are exactly the mismatched ones. */
  predicate Accounted(s: State)
  {
    s.lost !! s.ids.Keys && s.dropped !! s.sess.viewers.Keys
  }

  /** Additionally, when no send has failed. */
  predicate Exact(s: State)
  {
    && s.ids.Keys == s.sess.viewers.Keys
    && (forall rid :: rid in s.handshakes ==> s.handshakes[rid].calls == CallsAt(s.handshakes[rid].stage))
    && (forall i :: 0 <= i < |s.deliveries| ==> s.deliveries[i].calls == CallsAt(Complete))
  }

  /** What Deliver changes: nothing but the session and a dropped handshake, or exactly one admitted viewer. */
  lemma DeliverShape(s: State, rid: Id, o: Oracle)
    requires rid in s.handshakes && o.authKey.Some? && !s.sess.closed && S.GoodKeys(s.sess)
    ensures var (t, sent) := Deliver(s, rid, o);
      && t.sess == S.Register(s.sess, o.authKey.value, o.id, o.unix, s.handshakes[rid].clientType).0
      && !t.sess.closed && S.GoodKeys(t.sess) && s.sess.viewers.Keys <= t.sess.viewers.Keys
      && (sent != [] <==> |o.authKey.value| == KEY_LEN && o.sendOk)
      && t == s.(sess := t.sess, ids := t.ids, handshakes := t.handshakes, deliveries := t.deliveries, lost := t.lost)
      && if sent != [] then
           && t.ids == s.ids[o.id := rid] && t.sess.viewers.Keys == s.sess.viewers.Keys + {o.id}
           && t.handshakes == s.handshakes[rid := s.handshakes[rid].(stage := Complete)]
           && t.deliveries == s.deliveries + [Delivery(rid, s.handshakes[rid].calls)] && t.lost == s.lost
         else
           && t.ids == s.ids && t.deliveries == s.deliveries
           && t.handshakes == (if |o.authKey.value| == KEY_LEN then s.handshakes else s.handshakes - {rid})
           && (o.sendOk ==> t.sess.viewers == s.sess.viewers)
           && t.lost == (if |o.authKey.value| == KEY_LEN then s.lost + {o.id} else s.lost)
           && t.sess.viewers.Keys == s.sess.viewers.Keys + (if |o.authKey.value| == KEY_LEN then {o.id} else {})
  {
    hide S.EncryptFrame, Nonces.NonceOf, Wire.Addressed, S.SealNext;
    S.RegisterShape(s.sess, o.authKey.value, o.id, o.unix, s.handshakes[rid].clientType);
    hide S.Register;
  }

  /** One more successful call, of the kind the stage is waiting for; then possibly the next stage. */
  lemma InOrderMore(stage: Stage, calls: seq<Call>, c: Call, next: Stage)
    requires InOrder(stage, calls) && Rank(c) == StageRank(stage) && StageRank(next) == StageRank(stage) + 1
    ensures InOrder(stage, calls + [c]) && InOrder(next, calls + [c])
  {
    assert forall x :: x in calls ==> x in calls + [c];
    assert forall i :: 0 <= i < |calls| ==> calls[i] in calls;
    assert (calls + [c])[|calls|] == c;
  }

  lemma NewcomerComplete(s: State, rid: Id, t: State)
    requires rid in s.handshakes && IsComplete(t, rid) && t.handshakes == s.handshakes[rid := t.handshakes[rid]]
    ensures forall other :: IsComplete(s, other) ==> IsComplete(t, other)
  {}

  lemma NewcomerInjective(s: State, rid: Id, id: Id)
    requires Injective(s.ids) && !IsComplete(s, rid) && forall sid :: sid in s.ids ==> IsComplete(s, s.ids[sid])
    ensures Injective(s.ids[id := rid])
  {}

  lemma NewcomerOnce(s: State, rid: Id, t: State)
    requires Once(s.deliveries) && !IsComplete(s, rid) && rid in t.handshakes
    requires forall i :: 0 <= i < |s.deliveries| ==> IsComplete(s, s.deliveries[i].relayId)
    requires t.deliveries == s.deliveries + [Delivery(rid, t.handshakes[rid].calls)]
    ensures Once(t.deliveries)
  {}

  lemma NewcomerOrdered(s: State, rid: Id, t: State)
    requires Ordered(s) && rid in t.handshakes && t.handshakes == s.handshakes[rid := t.handshakes[rid]]
    requires IsComplete(t, rid) && InOrder(Complete, t.handshakes[rid].calls)
    requires t.deliveries == s.deliveries + [Delivery(rid, t.handshakes[rid].calls)]
    ensures Ordered(t)
  {
    hide InOrder;
  }

  /** One more admitted viewer, under a relay ID that was never admitted before. */
  lemma NewcomerKeeps(s: State, rid: Id, id: Id, t: State)
    requires Routed(s) && rid in s.handshakes && s.handshakes[rid].stage == WaitConfirmB
    requires t.ids == s.ids[id := rid] && t.sess.viewers.Keys == s.sess.viewers.Keys + {id}
    requires !t.sess.closed && S.GoodKeys(t.sess) && t.lost == s.lost && t.dropped == s.dropped
    requires IsComplete(t, rid) && t.handshakes == s.handshakes[rid := t.handshakes[rid]]
    requires InOrder(Complete, t.handshakes[rid].calls)
    requires t.deliveries == s.deliveries + [Delivery(rid, t.handshakes[rid].calls)]
    ensures Routed(t)
    ensures Exact(s) && t.handshakes[rid].calls == CallsAt(Complete) ==> Exact(t)
  {
    hide S.GoodKeys, InOrder, Injective, Once, Ordered;
    assert !IsComplete(s, rid);
    hide IsComplete;
    NewcomerComplete(s, rid, t);
    NewcomerInjective(s, rid, id);
    NewcomerOnce(s, rid, t);
    NewcomerOrdered(s, rid, t);
  }

  lemma DeliverKeeps(was: State, rid: Id, o: Oracle)
    requires Routed(was) && rid in was.handshakes && was.handshakes[rid].stage == WaitConfirmB && o.authKey.Some?
    ensures var s := SetContext(was, rid, was.handshakes[rid].(calls := was.handshakes[rid].calls + [Verified]));
      Routed(Deliver(s, rid, o).0) && (Exact(was) && o.sendOk ==> Exact(Deliver(s, rid, o).0))
  {
    hide Deliver, S.GoodKeys, S.Register, InOrder, Injective, Once;
    var hs := was.handshakes[rid].(calls := was.handshakes[rid].calls + [Verified]);
    var s := SetContext(was, rid, hs);
    var t := Deliver(s, rid, o).0;
    DeliverShape(s, rid, o);
    InOrderMore(WaitConfirmB, was.handshakes[rid].calls, Verified, Complete);
    if |o.authKey.value| == KEY_LEN && o.sendOk {
      NewcomerKeeps(was, rid, o.id, t);
    } else {
      ContextKeeps(was, rid, hs);
      assert Cleanup(s, rid).handshakes == Cleanup(was, rid).handshakes;
    }
  }

  /** A frame changes nothing that routing depends on. */
  lemma FrameKeeps(s: State, tag: Byte, plain: Bytes, unix: int)
    requires Routed(s)
    ensures var t := SendFrame(s, tag, plain, unix).0;
      && Routed(t) && (Exact(s) ==> Exact(t))
      && t == s.(sess := t.sess) && t.sess == s.sess.(draws := t.sess.draws, log := t.sess.log)
  {
    hide S.EncryptFrame, Wire.FrameBytes, InOrder;
    S.EncryptShape(s.sess, plain, unix);
    var t := SendFrame(s, tag, plain, unix).0;
    assert forall rid :: IsComplete(s, rid) ==> IsComplete(t, rid);
  }

  lemma AdmitKeeps(was: State, rid: Id, o: Oracle)
    requires Routed(was) && rid in was.handshakes && was.handshakes[rid].stage == WaitConfirmB && o.authKey.Some?
    ensures var s := SetContext(was, rid, was.handshakes[rid].(calls := was.handshakes[rid].calls + [Verified]));
      Routed(Admit(s, rid, o).0) && (Exact(was) && o.sendOk ==> Exact(Admit(s, rid, o).0))
  {
    hide Deliver, SendFrame, Routed, Exact;
    DeliverKeeps(was, rid, o);
    var s := SetContext(was, rid, was.handshakes[rid].(calls := was.handshakes[rid].calls + [Verified]));
    FrameKeeps(Deliver(s, rid, o).0, TAG_TERM_SIZE, SizePlain(s.cols, s.rows), o.unix);
  }

  /** Replacing or dropping the context of a relay ID that was never admitted. */
  lemma ContextKeeps(s: State, rid: Id, hs: Handshake)
    requires Routed(s) && !IsComplete(s, rid) && hs.stage != Complete && InOrder(hs.stage, hs.calls)
    ensures Routed(SetContext(s, rid, hs)) && Routed(Cleanup(s, rid))
    ensures Exact(s) ==> Exact(Cleanup(s, rid)) && (hs.calls == CallsAt(hs.stage) ==> Exact(SetContext(s, rid, hs)))
  {
    hide InOrder;
  }

  lemma Spake2Keeps(s: State, rid: Id, payload: Bytes, o: Oracle)
    requires Routed(s)
    ensures Routed(HandleSpake2(s, rid, payload, o).0)
    ensures Exact(s) && o.sendOk ==> Exact(HandleSpake2(s, rid, payload, o).0)
  {
    hide Dispatch, Routed, Exact, S.GoodKeys;
    if rid in s.handshakes || o.created {
      var hs := Context(s, rid, payload);
      ContextFacts(s, rid, payload);
      if hs.stage == Complete {
        assert SetContext(s, rid, hs) == s;
      } else {
        ContextKeeps(s, rid, hs);
      }
      DispatchKeeps(SetContext(s, rid, hs), rid, o);
    }
  }

  lemma ContextFacts(s: State, rid: Id, payload: Bytes)
    requires Routed(s)
    ensures var hs := Context(s, rid, payload);
      && InOrder(hs.stage, hs.calls) && (Exact(s) ==> hs.calls == CallsAt(hs.stage))
      && (hs.stage == Complete <==> IsComplete(s, rid))
  {}

  lemma DispatchKeeps(s: State, rid: Id, o: Oracle)
    requires Routed(s) && rid in s.handshakes
    ensures Routed(Dispatch(s, rid, o).0)
    ensures Exact(s) && o.sendOk ==> Exact(Dispatch(s, rid, o).0)
  {
    hide Admit, Wire.Addressed, Cleanup, S.GoodKeys, InOrder;
    var hs := s.handshakes[rid];
    if hs.stage == WaitInit {
      InOrderMore(WaitInit, hs.calls, Started, WaitMsgB);
      ContextKeeps(s, rid, hs.(calls := hs.calls + [Started]));
      ContextKeeps(s, rid, hs.(calls := hs.calls + [Started], stage := WaitMsgB));
    } else if hs.stage == WaitMsgB {
      InOrderMore(WaitMsgB, hs.calls, Finished, WaitConfirmB);
      ContextKeeps(s, rid, hs.(calls := hs.calls + [Finished]));
      ContextKeeps(s, rid, hs.(calls := hs.calls + [Finished], stage := WaitConfirmB));
    } else if hs.stage == WaitConfirmB {
      ContextKeeps(s, rid, hs);
      if o.verify && o.authKey.Some? {
        AdmitKeeps(s, rid, o);
      }
    }
  }

  lemma DisconnectKeeps(s: State, rid: Id, hit: Id)
    requires Routed(s) && (Hits(s, rid) == {} || hit in Hits(s, rid))
    ensures var t := HandleDisconnect(s, rid, hit);
      Routed(t) && (Exact(s) ==> Exact(t)) && Hits(t, rid) == {}
  {
    hide S.Inv, S.GoodKeys, InOrder;
    DisconnectGood(s.sess, hit);
    var t := HandleDisconnect(s, rid, hit);
    assert forall rid :: IsComplete(s, rid) ==> IsComplete(t, rid);
  }

  lemma DisconnectGood(s: S.State, hit: Id)
    requires S.GoodKeys(s)
    ensures S.GoodKeys(S.Remove(s, hit))
  {}

  lemma UnkeyedKeeps(s: State, target: Id)
    requires Routed(s)
    ensures Routed(RevokeUnkeyed(s, target))
  {
    hide InOrder;
    var t := RevokeUnkeyed(s, target);
    assert forall rid :: IsComplete(s, rid) ==> IsComplete(t, rid);
  }

  lemma RevokeKeeps(s: State, target: Id, kNew: Bytes, sealing: seq<Id>, sending: seq<Id>)
    requires Routed(s) && Possible(s, Revocation(target, kNew, sealing, sending))
    ensures var t := Revoke(s, target, kNew, sealing, sending).0;
      Routed(t) && (Exact(s) ==> Exact(t))
  {
    hide S.Revoke, RekeySends, InOrder;
    var t := Revoke(s, target, kNew, sealing, sending).0;
    if target in s.sess.viewers {
      S.RevokeNeverFails(s.sess, target, kNew, sealing);
    } else {
      S.RevokeUnknown(s.sess, target, kNew, sealing);
    }
    assert forall rid :: IsComplete(s, rid) ==> IsComplete(t, rid);
  }

  lemma NextKeeps(s: State, e: Event)
    requires Routed(s) && Possible(s, e)
    ensures Routed(Next(s, e))
    ensures Exact(s) && NothingFails([e]) ==> Exact(Next(s, e))
  {
    hide HandleSpake2, HandleDisconnect, SendFrame, Revoke, Exact, S.GoodKeys, InOrder;
    assert [e][0] == e;
    match e
    case Received(data, o, hit) =>
      if data != [] && data[0] == TAG_SPAKE2 && |data| >= 1 + VIEWER_ID_LEN {
        Spake2Keeps(s, data[1..7], data[7..], o);
      } else if Disconnects(data) {
        DisconnectKeeps(s, data[2..8], hit);
      }
    case Frame(plain, unix) => FrameKeeps(s, TAG_STREAM, plain, unix);
    case Resize(cols, rows, at) =>
      SizeKeeps(s, cols, rows);
      FrameKeeps(s.(cols := cols, rows := rows), TAG_TERM_SIZE, SizePlain(cols, rows), at);
    case Revocation(target, kNew, sealing, sending) => RevokeKeeps(s, target, kNew, sealing, sending);
    case RevocationUnkeyed(target) => UnkeyedKeeps(s, target);
  }

  lemma SizeKeeps(s: State, cols: nat, rows: nat)
    requires Routed(s)
    ensures var t := s.(cols := cols, rows := rows); Routed(t) && (Exact(s) ==> Exact(t))
  {
    hide S.GoodKeys;
    assert forall rid :: IsComplete(s, rid) ==> IsComplete(s.(cols := cols, rows := rows), rid);
  }

  lemma {:induction false} RunKeeps(s: State, es: seq<Event>, t: State)
    requires Routed(s) && Run(s, es, t)
    ensures Routed(t)
    ensures Exact(s) && NothingFails(es) ==> Exact(t)
    decreases |es|
  {
    hide Routed, Exact, Next;
    if es != [] {
      NextKeeps(s, es[0]);
      RunKeeps(Next(s, es[0]), es[1..], t);
    }
  }

  /**
   * Over every run, whatever fails: a disconnect finds at most one viewer, no relay ID is sent a key twice,
   * and each key follows successful calls of Start, Finish and Verify, in that order, on one SPAKE2 instance.
   * Session viewers are missing from the map only if their key delivery was lost, and mapped viewers from the
   * session only if their revocation found no new key.  When nothing fails, the two coincide and each call
   * was made once.
   */
  lemma RoutingTheorem(streamKey: Bytes, es: seq<Event>, t: State)
    requires |streamKey| == KEY_LEN && Run(Start(streamKey), es, t)
    ensures forall a, b, rid :: a in Hits(t, rid) && b in Hits(t, rid) ==> a == b
    ensures forall i, j :: 0 <= i < j < |t.deliveries| ==> t.deliveries[i].relayId != t.deliveries[j].relayId
    ensures forall i :: 0 <= i < |t.deliveries| ==> InOrder(Complete, t.deliveries[i].calls)
    ensures t.sess.viewers.Keys - t.ids.Keys <= t.lost && t.ids.Keys - t.sess.viewers.Keys <= t.dropped
    ensures NothingFails(es) ==> t.ids.Keys == t.sess.viewers.Keys
    ensures NothingFails(es) ==>
      forall i :: 0 <= i < |t.deliveries| ==> t.deliveries[i].calls == [Started, Finished, Verified]
  {
    hide InOrder, Next;
    StartRouted(streamKey);
    RunKeeps(Start(streamKey), es, t);
  }

  lemma StartRouted(streamKey: Bytes)
    requires |streamKey| == KEY_LEN
    ensures Routed(Start(streamKey)) && Exact(Start(streamKey)) && Accounted(Start(streamKey))
  {}

  function NewId(e: Event): set<Id>
  {
    if e.Received? then {e.o.id} else {}
  }

  /** How one step moves identifiers between the session, the map and the history. */
  predicate Moves(s: State, t: State, e: Event)
  {
    && t.ids.Keys <= s.ids.Keys + NewId(e) && t.sess.viewers.Keys <= s.sess.viewers.Keys + NewId(e)
    && (t.lost == s.lost || (t.lost == s.lost + NewId(e) && t.ids == s.ids))
    && (t.dropped == s.dropped
        || (e.RevocationUnkeyed? && t.dropped == s.dropped + {e.target} && e.target !in t.sess.viewers))
  }

  lemma SpakeMoves(s: State, data: Bytes, o: Oracle, hit: Id)
    requires Routed(s) && Possible(s, Received(data, o, hit)) && |data| >= 1 + VIEWER_ID_LEN && data[0] == TAG_SPAKE2
    ensures Moves(s, Next(s, Received(data, o, hit)), Received(data, o, hit))
  {
    hide S.GoodKeys, InOrder, Deliver, SendFrame, Unicast;
    var rid := data[1..7];
    var s0 := SetContext(s, rid, Context(s, rid, data[7..]));
    var hs := s0.handshakes[rid];
    if hs.stage == WaitConfirmB && o.authKey.Some? {
      var s1 := SetContext(s0, rid, hs.(calls := hs.calls + [Verified]));
      DeliverShape(s1, rid, o);
      FrameShape(Deliver(s1, rid, o).0, TAG_TERM_SIZE, SizePlain(s1.cols, s1.rows), o.unix);
    }
  }

  lemma FrameShape(s: State, tag: Byte, plain: Bytes, unix: int)
    ensures var t := SendFrame(s, tag, plain, unix).0;
      t == s.(sess := t.sess) && t.sess.viewers == s.sess.viewers
  {
    S.EncryptShape(s.sess, plain, unix);
  }

  lemma StepMoves(s: State, e: Event)
    requires Routed(s) && Possible(s, e)
    ensures Moves(s, Next(s, e), e)
  {
    hide S.GoodKeys, InOrder, HandleSpake2, SendFrame, S.Revoke;
    match e
    case Received(data, o, hit) =>
      if |data| >= 1 + VIEWER_ID_LEN && data[0] == TAG_SPAKE2 {
        SpakeMoves(s, data, o, hit);
      }
    case Frame(plain, unix) => FrameShape(s, TAG_STREAM, plain, unix);
    case Resize(cols, rows, at) => FrameShape(s.(cols := cols, rows := rows), TAG_TERM_SIZE, SizePlain(cols, rows), at);
    case Revocation(target, kNew, sealing, sending) =>
      if target in s.sess.viewers {
        S.RevokeNeverFails(s.sess, target, kNew, sealing);
      } else {
        S.RevokeUnknown(s.sess, target, kNew, sealing);
      }
    case RevocationUnkeyed(_) =>
  }

  lemma {:induction false} AccountedRun(s: State, es: seq<Event>, t: State)
    requires Routed(s) && Accounted(s) && Run(s, es, t) && FreshRun(s, es)
    ensures Routed(t) && Accounted(t)
    decreases |es|
  {
    hide Routed, Next;
    if es != [] {
      NextKeeps(s, es[0]);
      StepMoves(s, es[0]);
      AccountedRun(Next(s, es[0]), es[1..], t);
    }
  }

  /**
   * With fresh identifiers: the session viewers that are not mapped are exactly those whose key delivery
   * could not be sent, and the mapped ones that are not in the session exactly those that were revoked
   * without a new key.
   */
  lemma MismatchTheorem(streamKey: Bytes, es: seq<Event>, t: State)
    requires |streamKey| == KEY_LEN && Run(Start(streamKey), es, t) && FreshRun(Start(streamKey), es)
    ensures forall id :: id in t.sess.viewers ==> (id !in t.ids <==> id in t.lost)
    ensures forall id :: id in t.ids ==> (id !in t.sess.viewers <==> id in t.dropped)
  {
    hide Next;
    StartRouted(streamKey);
    AccountedRun(Start(streamKey), es, t);
  }

  // ----- single messages

  /**
   * What a message of the relay is taken for: 1, six bytes of relay ID and any payload is a handshake message;
   * 6, 7 and six bytes of relay ID a disconnect notice, whatever follows; anything else is ignored.
   */
  lemma DispatchIff(s: State, data: Bytes, o: Oracle, hit: Id, rid: Id, payload: Bytes)
    requires Possible(s, Received(data, o, hit)) && |rid| == 6
    ensures data == [1] + rid + payload ==> FromRelay(s, data, o, hit) == HandleSpake2(s, rid, payload, o)
    ensures data == [6, 7] + rid + payload ==> FromRelay(s, data, o, hit) == (HandleDisconnect(s, rid, hit), [])
    ensures (|data| < 7 || data[0] != 1) && (|data| < 8 || data[..2] != [6, 7]) ==>
      FromRelay(s, data, o, hit) == (s, [])
  {
    hide HandleSpake2, HandleDisconnect;
    if data == [1] + rid + payload {
      assert data[1..7] == rid && data[7..] == payload;
    }
    if data == [6, 7] + rid + payload {
      assert data[2..8] == rid;
    }
    if |data| >= 8 && data[0] == 6 && data[1] == 7 {
      assert data[..2] == [6, 7];
    }
  }

  /** What an admission does to contexts and viewers. */
  lemma AdmitKinds(s: State, rid: Id, o: Oracle)
    requires rid in s.handshakes && o.authKey.Some? && !s.sess.closed && S.GoodKeys(s.sess)
    ensures var t, kind := Admit(s, rid, o).0, s.handshakes[rid].clientType;
      && (rid in t.handshakes ==> t.handshakes[rid].clientType == kind)
      && (forall r :: r != rid && r in t.handshakes ==> r in s.handshakes && t.handshakes[r] == s.handshakes[r])
      && forall id :: id in t.sess.viewers && (id !in s.sess.viewers || t.sess.viewers[id] != s.sess.viewers[id]) ==>
           t.sess.viewers[id].clientType == kind && t.sess.viewers[id].joinTime == o.unix
  {
    hide SendFrame, Unicast, Wire.KeyDelivery, S.Register, S.GoodKeys;
    S.RegisterShape(s.sess, o.authKey.value, o.id, o.unix, s.handshakes[rid].clientType);
    FrameShape(Deliver(s, rid, o).0, TAG_TERM_SIZE, SizePlain(s.cols, s.rows), o.unix);
  }

  /** The first message of a handshake says what kind of client it is, for good; the viewer is listed as that. */
  lemma ClientTypeKept(s: State, rid: Id, payload: Bytes, o: Oracle)
    requires !s.sess.closed && S.GoodKeys(s.sess)
    ensures var t := HandleSpake2(s, rid, payload, o).0;
      var kind := if rid in s.handshakes then s.handshakes[rid].clientType
                  else if payload != [] && payload[0] == 2 then S.Browser else S.CLI;
      && (rid in t.handshakes ==> t.handshakes[rid].clientType == kind)
      && (forall r :: r != rid && r in t.handshakes ==> r in s.handshakes && t.handshakes[r] == s.handshakes[r])
      && forall id :: id in t.sess.viewers && (id !in s.sess.viewers || t.sess.viewers[id] != s.sess.viewers[id]) ==>
           t.sess.viewers[id].clientType == kind && t.sess.viewers[id].joinTime == o.unix
  {
    hide Admit, Unicast, S.GoodKeys;
    var hs := Context(s, rid, payload);
    if o.authKey.Some? {
      AdmitKinds(SetContext(SetContext(s, rid, hs), rid, hs.(calls := hs.calls + [Verified])), rid, o);
    }
  }

  /**
   * An answer that could not be sent can be sent later: the handshake waits where it was, and the next message
   * of the same viewer gets the answer that it would have got.
   */
  lemma FailedSendRetries(s: State, rid: Id, p: Bytes, q: Bytes, o: Oracle)
    requires !(rid in s.handshakes && s.handshakes[rid].stage in {WaitConfirmB, Complete}) && !o.sendOk && o.created
    requires (if rid in s.handshakes && s.handshakes[rid].stage == WaitMsgB then o.finish else o.start).Some?
    ensures var (t, sent) := HandleSpake2(s, rid, p, o);
      && sent == [] && rid in t.handshakes && t.sess == s.sess && t.ids == s.ids
      && t.handshakes[rid].stage == (if rid in s.handshakes then s.handshakes[rid].stage else WaitInit)
      && HandleSpake2(t, rid, q, o.(sendOk := true)).1 == HandleSpake2(s, rid, p, o.(sendOk := true)).1 != []
  {
    hide Unicast;
  }

  /** The bytes in which a rekey goes to the relay. */
  function RekeyBytes(rid: Id, id: Id, p: S.Payload): Bytes
  {
    [3] + rid + id + p.nonce + p.cipher
  }

  lemma UnicastBytes(rid: Id, id: Id, p: S.Payload)
    requires |rid| == 6 && |id| == 6 && |p.nonce| == 12
    ensures Unicast(rid, Wire.KeyDelivery(id, p)) == RekeyBytes(rid, id, p)
  {}

  lemma RekeyStep(ids: map<Id, Id>, rekeys: map<Id, S.Payload>, order: seq<Id>)
    requires order != [] && forall id :: id in order ==> id in rekeys
    ensures var first, rest := order[0], RekeySends(ids, rekeys, order[1..]);
      RekeySends(ids, rekeys, order)
        == if first in ids then [Unicast(ids[first], Wire.KeyDelivery(first, rekeys[first]))] + rest else rest
  {
    hide Unicast, Wire.KeyDelivery;
    assert [] + RekeySends(ids, rekeys, order[1..]) == RekeySends(ids, rekeys, order[1..]);
  }

  /** The rekeys for `mapped`, in this order. */
  function RekeysFor(ids: map<Id, Id>, rekeys: map<Id, S.Payload>, mapped: seq<Id>): (r: seq<Bytes>)
    requires forall id :: id in mapped ==> id in ids && id in rekeys
    ensures |r| == |mapped|
    ensures forall i :: 0 <= i < |r| ==> r[i] == RekeyBytes(ids[mapped[i]], mapped[i], rekeys[mapped[i]])
  {
    if mapped == [] then [] else
      [RekeyBytes(ids[mapped[0]], mapped[0], rekeys[mapped[0]])] + RekeysFor(ids, rekeys, mapped[1..])
  }

  /** A revocation sends each mapped viewer of the loop its own rekey, in the order of the loop, and nothing else. */
  lemma {:induction false} RekeysSent(ids: map<Id, Id>, rekeys: map<Id, S.Payload>, order: seq<Id>)
    requires forall id :: id in order ==> id in rekeys && |id| == 6 && |rekeys[id].nonce| == 12
    requires forall id :: id in ids ==> |ids[id]| == 6
    ensures RekeySends(ids, rekeys, order) == RekeysFor(ids, rekeys, MappedOf(ids, order))
    decreases |order|
  {
    hide Unicast, Wire.KeyDelivery, RekeyBytes;
    if order != [] {
      var first, rest := order[0], order[1..];
      RekeyStep(ids, rekeys, order);
      RekeysSent(ids, rekeys, rest);
      if first in ids {
        UnicastBytes(ids[first], first, rekeys[first]);
        assert ([first] + MappedOf(ids, rest))[1..] == MappedOf(ids, rest);
      }
    }
  }

  /** The viewers among `order` that are mapped, in this order. */
  function MappedOf(ids: map<Id, Id>, order: seq<Id>): (r: seq<Id>)
    ensures forall id :: id in r <==> id in order && id in ids
    decreases |order|
  {
    if order == [] then [] else
      var rest := MappedOf(ids, order[1..]);
      if order[0] in ids then [order[0]] + rest else rest
  }
}
