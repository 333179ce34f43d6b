/**
 * What the sharer does with the messages of the relay (internal/sharer/sharer.go), as functions on values.
 * The SPAKE2 library is foreign: its answers arrive in an Oracle.  Each function returns what it sends.
 */
module SharerState {
  import opened ByteStrings
  import opened Wire
  import S = SessionState

  datatype Stage = WaitInit | WaitMsgB | WaitConfirmB | Complete

  /** The calls that succeeded on one SPAKE2 instance, in order. */
  datatype Call = Started | Finished | Verified

  datatype Handshake = Handshake(stage: Stage, clientType: S.ClientType, calls: seq<Call>)

  /**
   * `ids` maps session viewer IDs to relay viewer IDs.  The rest is history: `deliveries` lists the relay IDs
   * that were sent a key, `lost` the viewers whose key delivery could not be sent, `dropped` those whose
   * revocation found no new key.
   */
  datatype State = State(
    sess: S.State, handshakes: map<Id, Handshake>, ids: map<Id, Id>, cols: nat, rows: nat,
    deliveries: seq<Delivery>, lost: set<Id>, dropped: set<Id>)

  datatype Delivery = Delivery(relayId: Id, calls: seq<Call>)

  /**
   * The answers of the foreign calls one handshake step may make: whether a SPAKE2 instance can be created,
   * msg_a of Start, confirm_a of Finish, Verify, the derived auth key, the generated viewer ID, the clock,
   * whether the answer can be sent, and whether a terminal size after it can.
   */
  datatype Oracle = Oracle(
    created: bool, start: Option<Bytes>, finish: Option<Bytes>, verify: bool, authKey: Option<Bytes>,
    id: Id, unix: int, sendOk: bool, sizeOk: bool)

  function ClientTypeFromByte(payload: Bytes): S.ClientType
  {
    if payload != [] && payload[0] == 2 then S.Browser else S.CLI
  }

  function Unicast(id: Id, payload: Bytes): Bytes
  {
    Addressed(TAG_UNICAST, id, payload)
  }

  /** The context that handleSPAKE2 works on: the stored one, or a new one. */
  function Context(s: State, relayId: Id, payload: Bytes): Handshake
  {
    if relayId in s.handshakes then s.handshakes[relayId]
    else Handshake(WaitInit, ClientTypeFromByte(payload), [])
  }

  /** cleanupHandshake */
  function Cleanup(s: State, relayId: Id): State
  {
    s.(handshakes := s.handshakes - {relayId})
  }

  function SetContext(s: State, relayId: Id, hs: Handshake): State
  {
    s.(handshakes := s.handshakes[relayId := hs])
  }

  function HandleSpake2(s: State, relayId: Id, payload: Bytes, o: Oracle): (State, seq<Bytes>)
  {
    if relayId !in s.handshakes && !o.created then (s, [])
    else Dispatch(SetContext(s, relayId, Context(s, relayId, payload)), relayId, o)
  }

  function Dispatch(s: State, relayId: Id, o: Oracle): (State, seq<Bytes>)
    requires relayId in s.handshakes
  {
    var hs := s.handshakes[relayId];
    match hs.stage
    case WaitInit =>
      if o.start.None? then (s, []) else
        var hs1 := hs.(calls := hs.calls + [Started]);
        if !o.sendOk then (SetContext(s, relayId, hs1), []) else
          (SetContext(s, relayId, hs1.(stage := WaitMsgB)), [Unicast(relayId, o.start.value)])
    case WaitMsgB =>
      if o.finish.None? then (Cleanup(s, relayId), []) else
        var hs1 := hs.(calls := hs.calls + [Finished]);
        if !o.sendOk then (SetContext(s, relayId, hs1), []) else
          (SetContext(s, relayId, hs1.(stage := WaitConfirmB)), [Unicast(relayId, o.finish.value)])
    case WaitConfirmB =>
      if !o.verify || o.authKey.None? then (Cleanup(s, relayId), []) else
        Admit(SetContext(s, relayId, hs.(calls := hs.calls + [Verified])), relayId, o)
    case Complete => (s, [])
  }

  /** Registration, key delivery and the identifier map. */
  function Deliver(s: State, relayId: Id, o: Oracle): (State, seq<Bytes>)
    requires relayId in s.handshakes && o.authKey.Some?
  {
    var hs := s.handshakes[relayId];
    var (sess, r) := S.Register(s.sess, o.authKey.value, o.id, o.unix, hs.clientType);
    if r.Err? then (Cleanup(s.(sess := sess), relayId), [])
    else if !o.sendOk then (s.(sess := sess, lost := s.lost + {o.id}), [])
    else
      (SetContext(s, relayId, hs.(stage := Complete))
         .(sess := sess, ids := s.ids[o.id := relayId], deliveries := s.deliveries + [Delivery(relayId, hs.calls)]),
       [Unicast(relayId, KeyDelivery(o.id, r.value))])
  }

  /** A delivered key is followed by the terminal size, when it is known. */
  function Admit(s: State, relayId: Id, o: Oracle): (State, seq<Bytes>)
    requires relayId in s.handshakes && o.authKey.Some?
  {
    var (s1, delivery) := Deliver(s, relayId, o);
    if delivery != [] && s.cols > 0 && s.rows > 0 then
      var (s2, sent) := BroadcastTermSize(s1, s.cols, s.rows, o.unix);
      (s2, delivery + (if o.sizeOk then sent else []))
    else (s1, delivery)
  }

  /** EncryptFrame and Send, for stream frames and terminal sizes alike. */
  function SendFrame(s: State, tag: Byte, plain: Bytes, unix: int): (State, seq<Bytes>)
  {
    var (sess, r) := S.EncryptFrame(s.sess, plain, unix);
    (s.(sess := sess), if r.Err? then [] else [FrameBytes(tag, r.value)])
  }

  function SizePlain(cols: nat, rows: nat): (p: Bytes)
    ensures |p| == 4
  {
    ToBE(cols, 2) + ToBE(rows, 2)
  }

  function BroadcastTermSize(s: State, cols: nat, rows: nat, unix: int): (State, seq<Bytes>)
  {
    SendFrame(s, TAG_TERM_SIZE, SizePlain(cols, rows), unix)
  }

  function SetTermSize(s: State, cols: nat, rows: nat, unix: int): (State, seq<Bytes>)
  {
    BroadcastTermSize(s.(cols := cols, rows := rows), cols, rows, unix)
  }

  /** The session viewers mapped to a relay ID: what the loop of handleViewerDisconnect can find. */
  function Hits(s: State, relayId: Id): set<Id>
  {
    set sid | sid in s.ids && s.ids[sid] == relayId
  }

  /** `hit` is the one the map iteration finds first, if any. */
  function HandleDisconnect(s: State, relayId: Id, hit: Id): State
    requires Hits(s, relayId) == {} || hit in Hits(s, relayId)
  {
    if Hits(s, relayId) == {} then s
    else s.(ids := s.ids - {hit}, sess := S.Remove(s.sess, hit))
  }

  /** One message of the relay, as relayLoop dispatches it. */
  function FromRelay(s: State, data: Bytes, o: Oracle, hit: Id): (State, seq<Bytes>)
    requires Disconnects(data) && Hits(s, data[2..8]) != {} ==> hit in Hits(s, data[2..8])
  {
    if data != [] && data[0] == TAG_SPAKE2 && |data| >= 1 + VIEWER_ID_LEN then
      HandleSpake2(s, data[1..7], data[7..], o)
    else if Disconnects(data) then (HandleDisconnect(s, data[2..8], hit), [])
    else (s, [])
  }

  predicate Disconnects(data: Bytes)
  {
    |data| >= 2 + VIEWER_ID_LEN && data[0] == TAG_CONTROL && data[1] == CTRL_VIEWER_DISCONNECTED
  }

  /** The rekeys sent after a revocation: `order` is the order in which the loop visits the rekey map. */
  function RekeySends(ids: map<Id, Id>, rekeys: map<Id, S.Payload>, order: seq<Id>): seq<Bytes>
    requires forall id :: id in order ==> id in rekeys
  {
    if order == [] then [] else
      var id := order[0];
      (if id in ids then [Unicast(ids[id], KeyDelivery(id, rekeys[id]))] else [])
      + RekeySends(ids, rekeys, order[1..])
  }

  /** Revoke with every send succeeding; `sealing` and `sending` are the two map iteration orders. */
  function Revoke(s: State, target: Id, kNew: Bytes, sealing: seq<Id>, sending: seq<Id>): (State, seq<Bytes>)
    requires S.Enumerates(sealing, s.sess.viewers.Keys - {target})
    requires S.Enumerates(sending, s.sess.viewers.Keys - {target})
    requires S.GoodKeys(s.sess)
  {
    var (sess, r) := S.Revoke(s.sess, target, kNew, sealing);
    if r.Err? then (s.(sess := sess), []) else
      var ids := s.ids - {target};
      S.RevokeNeverFails(s.sess, target, kNew, sealing);
      (s.(sess := sess, ids := ids), RekeySends(ids, r.value, sending))
  }

  /** Revoke when no new key can be drawn: the viewer leaves the session but stays mapped. */
  function RevokeUnkeyed(s: State, target: Id): State
  {
    s.(sess := S.RevokeUnkeyed(s.sess, target).0,
       dropped := if !s.sess.closed && target in s.sess.viewers then s.dropped + {target} else s.dropped)
  }
}
