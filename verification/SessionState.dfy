/**
 * What the sharer's session does (internal/session/session.go), as functions on values.  Random bytes,
 * identifiers, clock readings and map iteration orders are arguments.
 */
module SessionState {
  import opened ByteStrings
  import opened Aead
  import opened Nonces

  datatype ClientType = CLI | Browser
  datatype Payload = Payload(nonce: Bytes, cipher: Bytes)
  datatype Frame = Frame(cipher: Bytes, nonce: Bytes, epoch: nat)
  datatype Member = Member(authKey: Bytes, joinTime: int, clientType: ClientType)

  datatype Error = SessionClosed | ViewerNotFound | EmptyBuffer | BadKeyLength | NoRandomness
  datatype Result<+T> = Ok(value: T) | Err(error: Error)

  /** `draws` counts the nonces drawn so far; `log` records every successful Seal, in order. */
  datatype State = State(
    streamKey: Bytes, draws: nat, viewers: map<Id, Member>, revoked: set<Id>, closed: bool, log: seq<Sealed>)

  function Initial(streamKey: Bytes): State
  {
    State(streamKey, 0, map[], {}, false, [])
  }

  /** uint64(Unix()) / 60: a reading before 1970 wraps around. */
  function EpochAt(unix: int): nat
  {
    (unix % U64) / EPOCH_DURATION_SEC
  }

  /** Draws the next nonce and seals under it; the draw is spent even when the key is rejected. */
  function SealNext(s: State, key: Key, plain: Bytes): (State, Result<Payload>)
  {
    var n := NonceOf(s.draws + 1);
    if GoodKey(key) then
      (s.(draws := s.draws + 1, log := s.log + [Sealed(key, n, plain)]), Ok(Payload(n, Gcm(key, n, plain))))
    else
      (s.(draws := s.draws + 1), Err(BadKeyLength))
  }

  function Register(s: State, authKey: Bytes, id: Id, now: int, ct: ClientType): (State, Result<Payload>)
  {
    if s.closed then (s, Err(SessionClosed))
    else if authKey == [] then (s, Err(EmptyBuffer))
    else
      var (s1, r) := SealNext(s, Auth(authKey), s.streamKey);
      if r.Err? then (s1, r) else (s1.(viewers := s.viewers[id := Member(authKey, now, ct)]), r)
  }

  /** The rekey loop: `order` is the order in which the map iteration visits the viewers. */
  function RekeyAll(s: State, kNew: Bytes, order: seq<Id>): (r: (State, Result<map<Id, Payload>>))
    requires forall id :: id in order ==> id in s.viewers
    ensures r.0.viewers == s.viewers
  {
    if order == [] then (s, Ok(map[])) else
      var last := order[|order| - 1];
      var (s1, r) := RekeyAll(s, kNew, order[..|order| - 1]);
      if r.Err? then (s1, r) else
        var (s2, p) := SealNext(s1, Auth(s.viewers[last].authKey), kNew);
        if p.Err? then (s2, Err(p.error)) else (s2, Ok(r.value[last := p.value]))
  }

  /** `order` lists each element of `ids` once. */
  predicate Enumerates(order: seq<Id>, ids: set<Id>)
  {
    && (forall i :: 0 <= i < |order| ==> order[i] in ids)
    && (forall id :: id in ids ==> id in order)
    && (forall i, j :: 0 <= i < j < |order| ==> order[i] != order[j])
  }

  lemma EnumeratesNone()
    ensures Enumerates([], {})
  {}

  lemma EnumeratesMore(order: seq<Id>, ids: set<Id>, id: Id)
    requires Enumerates(order, ids) && id !in ids
    ensures Enumerates(order + [id], ids + {id})
  {}

  function Revoke(s: State, id: Id, kNew: Bytes, order: seq<Id>): (State, Result<map<Id, Payload>>)
    requires Enumerates(order, s.viewers.Keys - {id})
  {
    if s.closed then (s, Err(SessionClosed))
    else if id !in s.viewers then (s, Err(ViewerNotFound))
    else
      var s1 := s.(viewers := s.viewers - {id}, revoked := s.revoked + {id});
      var (s2, r) := RekeyAll(s1, kNew, order);
      if r.Err? then (s2, r) else (s2.(streamKey := kNew), r)
  }

  /** A revocation for which no new key can be drawn: the viewer is dropped, the stream key stays. */
  function RevokeUnkeyed(s: State, id: Id): (State, Error)
  {
    if s.closed then (s, SessionClosed)
    else if id !in s.viewers then (s, ViewerNotFound)
    else (Without(s, id), NoRandomness)
  }

  function Remove(s: State, id: Id): State
  {
    s.(viewers := s.viewers - {id})
  }

  function EncryptFrame(s: State, plain: Bytes, unix: int): (State, Result<Frame>)
  {
    if s.closed then (s, Err(SessionClosed)) else
      var epoch := EpochAt(unix);
      var (s1, r) := SealNext(s, EpochKey(s.streamKey, epoch), plain);
      if r.Err? then (s1, Err(r.error)) else (s1, Ok(Frame(r.value.cipher, r.value.nonce, epoch)))
  }

  function Close(s: State): State
  {
    if s.closed then s else s.(streamKey := Zeros(|s.streamKey|), viewers := map[], closed := true)
  }

  // ----- whole runs

  datatype Op =
    | OpRegister(authKey: Bytes, id: Id, now: int, ct: ClientType)
    | OpRevoke(target: Id, kNew: Bytes, order: seq<Id>)
    | OpRevokeUnkeyed(dropped: Id)
    | OpRemove(gone: Id)
    | OpEncrypt(plain: Bytes, unix: int)
    | OpDraw
    | OpClose

  /** What the callee itself guarantees about the arguments that stand for its internal choices. */
  predicate Possible(s: State, op: Op)
  {
    op.OpRevoke? ==> |op.kNew| == KEY_LEN && Enumerates(op.order, s.viewers.Keys - {op.target})
  }

  function Apply(s: State, op: Op): State
    requires Possible(s, op)
  {
    match op
    case OpRegister(a, id, now, ct) => Register(s, a, id, now, ct).0
    case OpRevoke(id, kNew, order) => Revoke(s, id, kNew, order).0
    case OpRevokeUnkeyed(id) => RevokeUnkeyed(s, id).0
    case OpRemove(id) => Remove(s, id)
    case OpEncrypt(plain, unix) => EncryptFrame(s, plain, unix).0
    case OpDraw => s.(draws := s.draws + 1)
    case OpClose => Close(s)
  }

  ghost predicate Run(s: State, ops: seq<Op>, t: State)
    decreases |ops|
  {
    if ops == [] then s == t
    else Possible(s, ops[0]) && Run(Apply(s, ops[0]), ops[1..], t)
  }

  predicate GoodKeys(s: State)
  {
    |s.streamKey| == KEY_LEN && forall id :: id in s.viewers ==> |s.viewers[id].authKey| == KEY_LEN
  }

  /** Nonces in the log are strictly increasing and bounded by the draws. */
  predicate Ordered(log: seq<Sealed>, draws: nat)
  {
    && (forall i :: 0 <= i < |log| ==> |log[i].nonce| == NONCE_LEN)
    && (forall i :: 0 <= i < |log| ==> 1 <= NonceVal(log[i].nonce) <= draws)
    && (forall i, j :: 0 <= i < j < |log| ==> NonceVal(log[i].nonce) < NonceVal(log[j].nonce))
  }

  predicate Inv(s: State)
  {
    GoodKeys(s) && (s.draws < U64 ==> Ordered(s.log, s.draws))
  }

  lemma SealNextKeepsInv(s: State, key: Key, plain: Bytes)
    requires Inv(s)
    ensures Inv(SealNext(s, key, plain).0)
  {
    hide NonceOf, NonceVal;
    NonceRoundTrip(s.draws + 1);
  }

  /** The seals of a rekey loop over `order` in which no key is rejected. */
  function Rekeys(s: State, kNew: Bytes, order: seq<Id>): (r: seq<Sealed>)
    requires forall id :: id in order ==> id in s.viewers
    ensures |r| == |order|
  {
    if order == [] then [] else
      var n := |order| - 1;
      Rekeys(s, kNew, order[..n]) + [Sealed(Auth(s.viewers[order[n]].authKey), NonceOf(s.draws + |order|), kNew)]
  }

  lemma {:induction false} RekeysAt(s: State, kNew: Bytes, order: seq<Id>, i: nat)
    requires i < |order|
    requires forall id :: id in order ==> id in s.viewers
    ensures Rekeys(s, kNew, order)[i] == Sealed(Auth(s.viewers[order[i]].authKey), NonceOf(s.draws + 1 + i), kNew)
  {
    if i < |order| - 1 {
      RekeysAt(s, kNew, order[..|order| - 1], i);
    }
  }

  /** With good keys the rekey loop never fails; its seals are Rekeys, in order. */
  lemma {:induction false} RekeyAllSucceeds(s: State, kNew: Bytes, order: seq<Id>)
    requires GoodKeys(s)
    requires forall id :: id in order ==> id in s.viewers
    ensures RekeyAll(s, kNew, order).0 == s.(draws := s.draws + |order|, log := s.log + Rekeys(s, kNew, order))
    ensures RekeyAll(s, kNew, order).1.Ok?
  {
    if order != [] {
      var init := order[..|order| - 1];
      RekeyAllSucceeds(s, kNew, init);
      var e := Rekeys(s, kNew, order)[|order| - 1];
      assert s.log + Rekeys(s, kNew, order) == (s.log + Rekeys(s, kNew, init)) + [e];
    }
  }

  /** What a rekey loop over `order` hands back when its seals were `seals`. */
  function Handed(seals: seq<Sealed>, order: seq<Id>): map<Id, Payload>
    requires |seals| == |order|
  {
    if order == [] then map[] else
      var n := |order| - 1;
      Handed(seals[..n], order[..n])[order[n] := PayloadOf(seals[n])]
  }

  lemma {:induction false} RekeyAllHands(s: State, kNew: Bytes, order: seq<Id>)
    requires GoodKeys(s)
    requires forall id :: id in order ==> id in s.viewers
    ensures RekeyAll(s, kNew, order).1 == Ok(Handed(Rekeys(s, kNew, order), order))
  {
    if order != [] {
      var init := order[..|order| - 1];
      RekeyAllHands(s, kNew, init);
      RekeyAllSucceeds(s, kNew, init);
      assert Rekeys(s, kNew, order)[..|order| - 1] == Rekeys(s, kNew, init);
    }
  }

  /** Each viewer visited once is handed the payload of its own seal. */
  lemma {:induction false} HandedAt(seals: seq<Sealed>, order: seq<Id>)
    requires |seals| == |order|
    requires forall i, j :: 0 <= i < j < |order| ==> order[i] != order[j]
    ensures forall id :: id in Handed(seals, order) <==> id in order
    ensures forall i :: 0 <= i < |order| ==> Handed(seals, order)[order[i]] == PayloadOf(seals[i])
  {
    if order != [] {
      var n := |order| - 1;
      HandedAt(seals[..n], order[..n]);
      assert order == order[..n] + [order[n]];
    }
  }

  function PayloadOf(e: Sealed): Payload
  {
    Payload(e.nonce, Gcm(e.key, e.nonce, e.plain))
  }

  lemma {:induction false} RekeyAllKeepsInv(s: State, kNew: Bytes, order: seq<Id>)
    requires Inv(s)
    requires forall id :: id in order ==> id in s.viewers
    ensures Inv(RekeyAll(s, kNew, order).0)
  {
    if order != [] {
      var n := |order| - 1;
      var (s1, r) := RekeyAll(s, kNew, order[..n]);
      RekeyAllKeepsInv(s, kNew, order[..n]);
      SealNextKeepsInv(s1, Auth(s.viewers[order[n]].authKey), kNew);
    }
  }

  lemma StepKeepsInv(s: State, op: Op)
    requires Inv(s) && Possible(s, op)
    ensures Inv(Apply(s, op))
    ensures Apply(s, op).draws >= s.draws && s.log <= Apply(s, op).log
  {
    match op
    case OpRegister(a, id, now, ct) => SealNextKeepsInv(s, Auth(a), s.streamKey);
    case OpRevoke(id, kNew, order) =>
      if !s.closed && id in s.viewers {
        var s1 := s.(viewers := s.viewers - {id}, revoked := s.revoked + {id});
        RekeyAllSucceeds(s1, kNew, order);
        RekeyAllKeepsInv(s1, kNew, order);
      }
    case OpEncrypt(plain, unix) => SealNextKeepsInv(s, EpochKey(s.streamKey, EpochAt(unix)), plain);
    case _ =>
  }

  lemma {:induction false} RunKeepsInv(s: State, ops: seq<Op>, t: State)
    requires Inv(s) && Run(s, ops, t)
    ensures Inv(t) && t.draws >= s.draws
    decreases |ops|
  {
    if ops != [] {
      StepKeepsInv(s, ops[0]);
      RunKeepsInv(Apply(s, ops[0]), ops[1..], t);
    }
  }

  /**
   * Below 2^64 draws, no two Seal calls in the life of a session share a nonce: frames, key
   * deliveries and rekeys alike, across every key rotation.
   */
  lemma NoNonceReuse(streamKey: Bytes, ops: seq<Op>, t: State, i: nat, j: nat)
    requires |streamKey| == KEY_LEN && Run(Initial(streamKey), ops, t)
    requires t.draws < U64 && i < j < |t.log|
    ensures t.log[i].nonce != t.log[j].nonce
    ensures |t.log[i].nonce| == |t.log[j].nonce| == NONCE_LEN
    ensures NonceVal(t.log[i].nonce) < NonceVal(t.log[j].nonce) <= t.draws
  {
    RunKeepsInv(Initial(streamKey), ops, t);
  }

  /** The session once the revoked viewer is gone, before the rekey loop. */
  function Without(s: State, id: Id): State
  {
    s.(viewers := s.viewers - {id}, revoked := s.revoked + {id})
  }

  /** A revocation of a listed viewer of an open session never fails; its outcome in closed form. */
  lemma RevokeOutcome(s: State, id: Id, kNew: Bytes, order: seq<Id>)
    requires GoodKeys(s) && !s.closed && id in s.viewers && Enumerates(order, s.viewers.Keys - {id})
    ensures var seals := Rekeys(Without(s, id), kNew, order);
      Revoke(s, id, kNew, order) == (
        Without(s, id).(streamKey := kNew, draws := s.draws + |order|, log := s.log + seals),
        Ok(Handed(seals, order)))
  {
    RekeyAllSucceeds(Without(s, id), kNew, order);
    RekeyAllHands(Without(s, id), kNew, order);
    hide RekeyAll, Rekeys, Handed;
  }

  /** In every reachable state a revocation hands a rekey to exactly the viewers that stay. */
  lemma RevokeNeverFails(s: State, id: Id, kNew: Bytes, order: seq<Id>)
    requires GoodKeys(s) && !s.closed && id in s.viewers && Enumerates(order, s.viewers.Keys - {id})
    ensures var (t, r) := Revoke(s, id, kNew, order);
      && r.Ok? && t.streamKey == kNew && t.viewers == s.viewers - {id} && t.draws == s.draws + |order|
      && t.revoked == s.revoked + {id} && t.closed == s.closed
      && (forall v :: v in r.value <==> v in t.viewers)
  {
    hide Revoke, Rekeys, Handed;
    RevokeOutcome(s, id, kNew, order);
    HandedAt(Rekeys(Without(s, id), kNew, order), order);
  }

  lemma RevokeUnknown(s: State, id: Id, kNew: Bytes, order: seq<Id>)
    requires Enumerates(order, s.viewers.Keys - {id}) && (s.closed || id !in s.viewers)
    ensures Revoke(s, id, kNew, order) == (s, Err(if s.closed then SessionClosed else ViewerNotFound))
  {}

  /** Registering adds one viewer on success and changes nothing but the nonce counter on failure. */
  lemma RegisterShape(s: State, authKey: Bytes, id: Id, now: int, ct: ClientType)
    requires GoodKeys(s) && !s.closed
    ensures var (t, r) := Register(s, authKey, id, now, ct);
      && GoodKeys(t) && t == s.(viewers := t.viewers, draws := t.draws, log := t.log)
      && (r.Ok? <==> |authKey| == KEY_LEN)
      && t.viewers == (if r.Ok? then s.viewers[id := Member(authKey, now, ct)] else s.viewers)
  {
    hide NonceOf;
  }

  lemma EncryptShape(s: State, plain: Bytes, unix: int)
    ensures var (t, r) := EncryptFrame(s, plain, unix);
      t == s.(draws := t.draws, log := t.log) && (r.Ok? <==> !s.closed)
  {
    hide NonceOf;
  }

  /** A frame carries the number of the minute, since 1970, in which it was sealed. */
  lemma FrameMinute(s: State, plain: Bytes, unix: int)
    requires !s.closed && -U64 <= unix < U64
    ensures EncryptFrame(s, plain, unix).1.Ok?
    ensures var epoch := EncryptFrame(s, plain, unix).1.value.epoch;
      if unix >= 0 then 60 * epoch <= unix < 60 * epoch + 60
      else 60 * epoch <= unix + U64 < 60 * epoch + 60
  {
    hide NonceOf;
    EpochMinute(unix);
  }

  lemma EpochMinute(unix: int)
    requires -U64 <= unix < U64
    ensures var at := if unix >= 0 then unix else unix + U64;
      60 * EpochAt(unix) <= at < 60 * EpochAt(unix) + 60
  {}

  /** Two frames carry one epoch exactly if they were sealed in one minute; never if 60 seconds lie between them. */
  lemma FrameEpochs(s: State, p: Bytes, a: int, t: State, q: Bytes, b: int)
    requires !s.closed && !t.closed && 0 <= a <= b < U64
    ensures EncryptFrame(s, p, a).1.Ok? && EncryptFrame(t, q, b).1.Ok?
    ensures var m, n := EncryptFrame(s, p, a).1.value.epoch, EncryptFrame(t, q, b).1.value.epoch;
      && m <= n && (m == n <==> a / 60 == b / 60)
      && (b - a >= 60 ==> m < n)
  {
    FrameMinute(s, p, a);
    FrameMinute(t, q, b);
    hide EncryptFrame;
  }

  /** A closed session refuses everything, an empty key costs no nonce and a key of the wrong length just that. */
  lemma Refusals(s: State, authKey: Bytes, id: Id, now: int, ct: ClientType, plain: Bytes)
    ensures s.closed ==> Register(s, authKey, id, now, ct) == (s, Err(SessionClosed))
    ensures s.closed ==> EncryptFrame(s, plain, now) == (s, Err(SessionClosed))
    ensures !s.closed && authKey == [] ==> Register(s, authKey, id, now, ct) == (s, Err(EmptyBuffer))
    ensures !s.closed && |authKey| !in {0, 32} ==>
      Register(s, authKey, id, now, ct) == (s.(draws := s.draws + 1), Err(BadKeyLength))
  {
    hide NonceOf;
  }
}
