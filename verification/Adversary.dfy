/**
 * One viewer, a session, and a relay that may deliver any byte string at any time: drop, replay, reorder,
 * split and invent.  The session serves any number of other viewers meanwhile.
 *
 * Seal is unforgeable (Aead.Open).  What a viewer can be made to output is bounded without any further
 * hypothesis but fewer than 2^64 nonces; that a revoked viewer reads nothing new also takes fresh stream keys
 * and fresh per-viewer keys (Fresh).
 */
module Adversary {
  import opened ByteStrings
  import opened Aead
  import opened Nonces
  import opened Wire
  import S = SessionState
  import V = ViewerState

  /**
   * `horizon` is the length of the seal log when this viewer was revoked; the used sets record every key
   * ever generated.
   */
  datatype World = World(
    sess: S.State, viewer: V.Phase, horizon: Option<nat>, usedKeys: set<Bytes>, usedAuth: set<Bytes>)

  datatype Event = Local(op: S.Op) | Deliver(m: Bytes, now: int)

  function Start(streamKey: Bytes, auth: Bytes): World
  {
    World(S.Initial(streamKey), V.AwaitKey(auth), None, {streamKey}, {})
  }

  predicate Possible(w: World, e: Event)
  {
    e.Local? ==> S.Possible(w.sess, e.op)
  }

  /** Generated keys are new. */
  predicate Fresh(w: World, e: Event)
  {
    e.Local? ==>
      && (e.op.OpRegister? ==> e.op.authKey !in w.usedAuth)
      && (e.op.OpRevoke? ==> e.op.kNew !in w.usedKeys)
  }

  /** A revocation of the viewer that holds `auth`, under whatever identifier it is listed. */
  predicate Revokes(w: World, op: S.Op, auth: Bytes)
  {
    op.OpRevoke? && !w.sess.closed && op.target in w.sess.viewers && w.sess.viewers[op.target].authKey == auth
  }

  function Next(w: World, e: Event, auth: Bytes): World
    requires Possible(w, e)
  {
    match e
    case Deliver(m, now) => w.(viewer := V.Receive(w.viewer, m, now, w.sess.log))
    case Local(op) =>
      var t := S.Apply(w.sess, op);
      match op
      case OpRegister(a, _, _, _) => w.(sess := t, usedAuth := w.usedAuth + {a})
      case OpRevoke(id, kNew, _) =>
        w.(sess := t, usedKeys := w.usedKeys + {kNew},
           horizon := if Revokes(w, op, auth) then Some(|w.sess.log|) else w.horizon)
      case _ => w.(sess := t)
  }

  ghost predicate Run(w: World, es: seq<Event>, auth: Bytes, t: World)
    decreases |es|
  {
    if es == [] then w == t else Possible(w, es[0]) && Run(Next(w, es[0], auth), es[1..], auth, t)
  }

  ghost predicate FreshRun(w: World, es: seq<Event>, auth: Bytes, t: World)
    decreases |es|
  {
    if es == [] then w == t
    else Possible(w, es[0]) && Fresh(w, es[0]) && FreshRun(Next(w, es[0], auth), es[1..], auth, t)
  }

  // ----- invariants

  /** The stream keys that the viewer holding `auth` can open. */
  function Grants(log: seq<Sealed>, auth: Bytes): set<Bytes>
  {
    set i | 0 <= i < |log| && log[i].key == Auth(auth) :: log[i].plain
  }

  predicate IsFrameOf(e: Sealed, a: V.Accepted)
  {
    e.key.EpochKey? && |e.nonce| == NONCE_LEN && NonceVal(e.nonce) == a.nonce && e.plain == a.plain
  }

  predicate Granted(log: seq<Sealed>, auth: Bytes, i: nat)
    requires i < |log|
  {
    log[i].key.EpochKey? && log[i].key.stream in Grants(log, auth)
  }

  predicate Genuine(log: seq<Sealed>, auth: Bytes, a: V.Accepted)
  {
    exists i :: 0 <= i < |log| && Granted(log, auth, i) && IsFrameOf(log[i], a)
  }

  /** Some entry of the log is the EncryptFrame call behind `a`. */
  predicate InLog(log: seq<Sealed>, a: V.Accepted)
  {
    exists i :: 0 <= i < |log| && IsFrameOf(log[i], a)
  }

  predicate Increasing(h: seq<V.Accepted>)
  {
    forall i, j :: 0 <= i < j < |h| ==> h[i].nonce < h[j].nonce
  }

  predicate ViewerInv(log: seq<Sealed>, auth: Bytes, v: V.State)
  {
    && v.authKey == auth && v.streamKey in Grants(log, auth)
    && Increasing(v.accepted)
    && forall i :: 0 <= i < |v.accepted| ==> v.accepted[i].nonce <= v.lastNonce && Genuine(log, auth, v.accepted[i])
  }

  predicate PhaseInv(log: seq<Sealed>, auth: Bytes, p: V.Phase)
  {
    match p
    case AwaitKey(a) => a == auth
    case Streaming(v) => ViewerInv(log, auth, v)
    case Stopped(last, _) => last.Some? ==> ViewerInv(log, auth, last.value)
  }

  /** Every key in use is recorded as used. */
  predicate Recorded(w: World)
  {
    && (!w.sess.closed ==> w.sess.streamKey in w.usedKeys)
    && (forall id :: id in w.sess.viewers ==> w.sess.viewers[id].authKey in w.usedAuth)
    && (forall i :: 0 <= i < |w.sess.log| ==>
          if w.sess.log[i].key.EpochKey? then w.sess.log[i].key.stream in w.usedKeys
          else w.sess.log[i].key.bytes in w.usedAuth && w.sess.log[i].plain in w.usedKeys)
  }

  /** At most one entry of the session carries this viewer's key, and none after the revocation. */
  predicate Mine(w: World, auth: Bytes)
  {
    && (forall a, b | a in w.sess.viewers && b in w.sess.viewers ::
          w.sess.viewers[a].authKey == w.sess.viewers[b].authKey == auth ==> a == b)
    && (w.horizon.Some? ==>
          auth in w.usedAuth && forall id :: id in w.sess.viewers ==> w.sess.viewers[id].authKey != auth)
  }

  /** After the revocation: no further grant, and every frame under a granted key lies before the horizon. */
  predicate Horizon(w: World, auth: Bytes)
  {
    w.horizon.Some? ==>
      && w.horizon.value <= |w.sess.log|
      && (!w.sess.closed ==> w.sess.streamKey !in Grants(w.sess.log, auth))
      && GrantedBefore(w.sess.log, auth, w.horizon.value)
  }

  predicate GrantedBefore(log: seq<Sealed>, auth: Bytes, h: nat)
  {
    forall i :: 0 <= i < |log| && Granted(log, auth, i) ==> i < h
  }

  predicate Inv(w: World, auth: Bytes)
  {
    Safe(w, auth) && Recorded(w) && Mine(w, auth) && Horizon(w, auth)
  }

  /** The part of the invariant that holds without fresh keys. */
  predicate Safe(w: World, auth: Bytes)
  {
    S.Inv(w.sess) && PhaseInv(w.sess.log, auth, w.viewer)
  }

  // ----- the viewer's side

  lemma GrantsGrow(log: seq<Sealed>, more: seq<Sealed>, auth: Bytes)
    ensures Grants(log + more, auth) == Grants(log, auth) + Grants(more, auth)
  {
    var all := log + more;
    forall k | k in Grants(more, auth) ensures k in Grants(all, auth) {
      var i :| 0 <= i < |more| && more[i].key == Auth(auth) && more[i].plain == k;
      assert all[|log| + i] == more[i];
    }
    forall k | k in Grants(log, auth) ensures k in Grants(all, auth) {
      var i :| 0 <= i < |log| && log[i].key == Auth(auth) && log[i].plain == k;
      assert all[i] == log[i];
    }
  }

  lemma PhaseInvGrows(log: seq<Sealed>, more: seq<Sealed>, auth: Bytes, p: V.Phase)
    requires PhaseInv(log, auth, p)
    ensures PhaseInv(log + more, auth, p)
  {
    GrantsGrow(log, more, auth);
    if V.StateOf(p).Some? {
      var v := V.StateOf(p).value;
      forall i | 0 <= i < |v.accepted| ensures Genuine(log + more, auth, v.accepted[i]) {
        assert Genuine(log, auth, v.accepted[i]);
        var j :| 0 <= j < |log| && Granted(log, auth, j) && IsFrameOf(log[j], v.accepted[i]);
        assert (log + more)[j] == log[j] && Granted(log + more, auth, j);
      }
    }
  }

  /** A frame that opens under a key of the viewer was sealed under that key. */
  lemma OpensGenuine(log: seq<Sealed>, auth: Bytes, v: V.State, m: Bytes, kind: V.Kind)
    requires ViewerInv(log, auth, v) && |m| >= MIN_FRAME
    requires Open(log, EpochKey(v.streamKey, FrameEpoch(m)), FrameNonce(m), FrameCipher(m)).Some?
    ensures Genuine(log, auth, V.Accepted(NonceVal(FrameNonce(m)),
      Open(log, EpochKey(v.streamKey, FrameEpoch(m)), FrameNonce(m), FrameCipher(m)).value, kind))
  {
    var i := OpenSound(log, EpochKey(v.streamKey, FrameEpoch(m)), FrameNonce(m), FrameCipher(m));
    assert Granted(log, auth, i);
  }

  lemma StepKeepsViewer(log: seq<Sealed>, auth: Bytes, v: V.State, m: Bytes, now: int)
    requires ViewerInv(log, auth, v)
    ensures ViewerInv(log, auth, V.Step(v, m, now, log).0)
  {
    hide V.ValidateEpoch, FrameEpoch, FrameNonce, FrameCipher, NonceVal, Open, Genuine, FromBE;
    if |m| >= MIN_FRAME && Open(log, EpochKey(v.streamKey, FrameEpoch(m)), FrameNonce(m), FrameCipher(m)).Some? {
      OpensGenuine(log, auth, v, m, V.Written);
      OpensGenuine(log, auth, v, m, V.Applied);
    }
    if |m| >= MIN_REKEY && Open(log, Auth(v.authKey), m[6..18], m[18..]).Some? {
      var i := OpenSound(log, Auth(v.authKey), m[6..18], m[18..]);
    }
  }

  lemma DeliverKeepsPhase(log: seq<Sealed>, auth: Bytes, p: V.Phase, m: Bytes, now: int)
    requires PhaseInv(log, auth, p)
    ensures PhaseInv(log, auth, V.Receive(p, m, now, log))
  {
    match p
    case AwaitKey(_) =>
      if |m| >= MIN_DELIVERY && Open(log, Auth(auth), m[6..18], m[18..]).Some? {
        var i := OpenSound(log, Auth(auth), m[6..18], m[18..]);
      }
    case Streaming(v) => StepKeepsViewer(log, auth, v, m, now);
    case Stopped(_, _) =>
  }

  // ----- the session's side

  /** Seals that neither grant this viewer a key nor use one of its keys leave its horizon in place. */
  lemma HorizonGrows(log: seq<Sealed>, more: seq<Sealed>, auth: Bytes, h: nat)
    requires GrantedBefore(log, auth, h)
    requires forall i :: 0 <= i < |more| ==> more[i].key != Auth(auth)
    requires forall i :: 0 <= i < |more| && more[i].key.EpochKey? ==> more[i].key.stream !in Grants(log, auth)
    ensures Grants(log + more, auth) == Grants(log, auth)
    ensures GrantedBefore(log + more, auth, h)
  {
    GrantsGrow(log, more, auth);
    forall i | 0 <= i < |log + more| && Granted(log + more, auth, i) ensures i < h {
      if i < |log| {
        assert Granted(log, auth, i);
      }
    }
  }

  lemma OneSealKeeps(w: World, op: S.Op, auth: Bytes)
    requires Inv(w, auth) && (op.OpRegister? || op.OpEncrypt?) && Possible(w, Local(op)) && Fresh(w, Local(op))
    ensures var t := Next(w, Local(op), auth); Recorded(t) && Mine(t, auth) && Horizon(t, auth)
  {
    var t := Next(w, Local(op), auth);
    var more := t.sess.log[|w.sess.log|..];
    assert t.sess.log == w.sess.log + more;
    if w.horizon.Some? {
      HorizonGrows(w.sess.log, more, auth, w.horizon.value);
    }
  }

  /** The seals of a revocation. */
  function RekeysOf(w: World, op: S.Op): seq<Sealed>
    requires op.OpRevoke? && Possible(w, Local(op))
  {
    S.Rekeys(S.Without(w.sess, op.target), op.kNew, op.order)
  }

  /** A revocation that takes effect, in closed form. */
  lemma RevokeShape(w: World, op: S.Op, auth: Bytes)
    requires S.GoodKeys(w.sess) && op.OpRevoke? && Possible(w, Local(op))
    requires !w.sess.closed && op.target in w.sess.viewers
    ensures var t := Next(w, Local(op), auth);
      && t.sess.log == w.sess.log + RekeysOf(w, op) && t.sess.streamKey == op.kNew && !t.sess.closed
      && t.sess.viewers == w.sess.viewers - {op.target}
      && t.usedKeys == w.usedKeys + {op.kNew} && t.usedAuth == w.usedAuth
      && t.horizon == if Revokes(w, op, auth) then Some(|w.sess.log|) else w.horizon
  {
    S.RevokeOutcome(w.sess, op.target, op.kNew, op.order);
    hide S.Revoke, S.Rekeys, S.Handed;
  }

  lemma RevokeKeeps(w: World, op: S.Op, auth: Bytes)
    requires Inv(w, auth) && op.OpRevoke? && Possible(w, Local(op)) && Fresh(w, Local(op))
    ensures var t := Next(w, Local(op), auth); Recorded(t) && Mine(t, auth) && Horizon(t, auth)
  {
    hide S.Revoke, S.Enumerates, S.Ordered, PhaseInv, GrantedBefore, RekeysOf;
    if !w.sess.closed && op.target in w.sess.viewers {
      RekeysAreForOthers(w, op, auth);
      RevokeShape(w, op, auth);
      hide Next;
      var more := RekeysOf(w, op);
      var t := Next(w, Local(op), auth);
      assert forall i :: 0 <= i < |more| ==> more[i] in more;
      if t.horizon.Some? {
        GrantedInLog(w.sess.log, auth);
        NoKeyYet(w, op.kNew, auth);
        HorizonGrows(w.sess.log, more, auth, t.horizon.value);
      }
    } else {
      S.RevokeUnknown(w.sess, op.target, op.kNew, op.order);
    }
  }

  /** A new stream key was never granted to anybody. */
  lemma NoKeyYet(w: World, k: Bytes, auth: Bytes)
    requires Recorded(w) && k !in w.usedKeys
    ensures k !in Grants(w.sess.log, auth)
  {}

  lemma GrantedInLog(log: seq<Sealed>, auth: Bytes)
    ensures GrantedBefore(log, auth, |log|)
  {}

  /** The rekeys of a revocation carry the new key, each under the key of a viewer that stays. */
  lemma RekeysAreForOthers(w: World, op: S.Op, auth: Bytes)
    requires Inv(w, auth) && op.OpRevoke? && Possible(w, Local(op)) && Fresh(w, Local(op))
    requires op.target in w.sess.viewers
    ensures forall e :: e in RekeysOf(w, op) ==>
      e.key.Auth? && e.plain == op.kNew && e.key.bytes in w.usedAuth
      && (w.horizon.Some? || Revokes(w, op, auth) ==> e.key.bytes != auth)
  {
    hide S.Ordered, PhaseInv, GrantedBefore;
    var s1 := S.Without(w.sess, op.target);
    var more := RekeysOf(w, op);
    forall e | e in more
      ensures exists id :: id in s1.viewers && e.key == Auth(s1.viewers[id].authKey) && e.plain == op.kNew
    {
      var i :| 0 <= i < |more| && more[i] == e;
      S.RekeysAt(s1, op.kNew, op.order, i);
    }
  }

  lemma NextKeepsSafe(w: World, e: Event, auth: Bytes)
    requires Safe(w, auth) && Possible(w, e)
    ensures Safe(Next(w, e, auth), auth) && w.sess.log <= Next(w, e, auth).sess.log
  {
    match e
    case Deliver(m, now) => DeliverKeepsPhase(w.sess.log, auth, w.viewer, m, now);
    case Local(op) =>
      S.StepKeepsInv(w.sess, op);
      var t := S.Apply(w.sess, op);
      assert t.log == w.sess.log + t.log[|w.sess.log|..];
      PhaseInvGrows(w.sess.log, t.log[|w.sess.log|..], auth, w.viewer);
      hide S.Apply, S.Inv, PhaseInv;
  }

  lemma NextKeepsInv(w: World, e: Event, auth: Bytes)
    requires Inv(w, auth) && Possible(w, e) && Fresh(w, e)
    ensures Inv(Next(w, e, auth), auth) && w.sess.log <= Next(w, e, auth).sess.log
  {
    hide Safe;
    NextKeepsSafe(w, e, auth);
    if e.Local? {
      match e.op {
        case OpRegister(_, _, _, _) => OneSealKeeps(w, e.op, auth);
        case OpEncrypt(_, _) => OneSealKeeps(w, e.op, auth);
        case OpRevoke(_, _, _) => RevokeKeeps(w, e.op, auth);
        case _ =>
      }
    }
  }

  lemma {:induction false} RunKeepsSafe(w: World, es: seq<Event>, auth: Bytes, t: World)
    requires Safe(w, auth) && Run(w, es, auth, t)
    ensures Safe(t, auth) && w.sess.log <= t.sess.log
    decreases |es|
  {
    hide Safe, Next;
    if es != [] {
      NextKeepsSafe(w, es[0], auth);
      RunKeepsSafe(Next(w, es[0], auth), es[1..], auth, t);
    }
  }

  lemma {:induction false} RunKeepsInv(w: World, es: seq<Event>, auth: Bytes, t: World)
    requires Inv(w, auth) && FreshRun(w, es, auth, t)
    ensures Inv(t, auth) && w.sess.log <= t.sess.log
    decreases |es|
  {
    hide Inv, Next;
    if es != [] {
      NextKeepsInv(w, es[0], auth);
      RunKeepsInv(Next(w, es[0], auth), es[1..], auth, t);
    }
  }

  lemma StartInv(streamKey: Bytes, auth: Bytes)
    requires |streamKey| == KEY_LEN
    ensures Inv(Start(streamKey, auth), auth) && Safe(Start(streamKey, auth), auth)
  {}

  // ----- theorems

  /** The EncryptFrame calls recorded in the log, in order: nonce and plaintext. */
  function Frames(log: seq<Sealed>): seq<(nat, Bytes)>
    requires forall i :: 0 <= i < |log| ==> |log[i].nonce| == NONCE_LEN
  {
    if log == [] then [] else
      var e := log[|log| - 1];
      var fs := Frames(log[..|log| - 1]);
      if e.key.EpochKey? then fs + [(NonceVal(e.nonce), e.plain)] else fs
  }

  /** The successful EncryptFrame calls of a run, in order: the nonce each one drew and the plaintext it was given. */
  ghost function Calls(w: World, es: seq<Event>, auth: Bytes): seq<(nat, Bytes)>
    decreases |es|
  {
    if es == [] || !Possible(w, es[0]) then [] else CallOf(w, es[0]) + Calls(Next(w, es[0], auth), es[1..], auth)
  }

  function CallOf(w: World, e: Event): seq<(nat, Bytes)>
  {
    if e.Local? && e.op.OpEncrypt? && !w.sess.closed then [(w.sess.draws + 1, e.op.plain)] else []
  }

  lemma {:induction false} FramesAppend(log: seq<Sealed>, more: seq<Sealed>)
    requires forall i :: 0 <= i < |log + more| ==> |(log + more)[i].nonce| == NONCE_LEN
    ensures forall i :: 0 <= i < |log| ==> |log[i].nonce| == NONCE_LEN
    ensures forall i :: 0 <= i < |more| ==> |more[i].nonce| == NONCE_LEN
    ensures Frames(log + more) == Frames(log) + Frames(more)
  {
    forall i | 0 <= i < |log| ensures |log[i].nonce| == NONCE_LEN {
      assert (log + more)[i] == log[i];
    }
    forall i | 0 <= i < |more| ensures |more[i].nonce| == NONCE_LEN {
      assert (log + more)[|log| + i] == more[i];
    }
    if more == [] {
      assert log + more == log;
    } else {
      var init := more[..|more| - 1];
      assert (log + more)[..|log + more| - 1] == log + init;
      FramesAppend(log, init);
    }
  }

  lemma {:induction false} NoFrames(log: seq<Sealed>)
    requires forall i :: 0 <= i < |log| ==> |log[i].nonce| == NONCE_LEN && log[i].key.Auth?
    ensures Frames(log) == []
  {
    if log != [] {
      NoFrames(log[..|log| - 1]);
    }
  }

  /** What one step adds to the log: the frame of an EncryptFrame call, or seals under authentication keys only. */
  lemma StepSeals(w: World, e: Event, auth: Bytes)
    requires Safe(w, auth) && Possible(w, e)
    ensures w.sess.log <= Next(w, e, auth).sess.log
    ensures var more := Next(w, e, auth).sess.log[|w.sess.log|..];
      if CallOf(w, e) != [] then
        more == [Sealed(EpochKey(w.sess.streamKey, S.EpochAt(e.op.unix)), NonceOf(w.sess.draws + 1), e.op.plain)]
      else forall i :: 0 <= i < |more| ==> more[i].key.Auth?
    ensures CallOf(w, e) != [] ==> Next(w, e, auth).sess.draws == w.sess.draws + 1
  {
    hide NonceOf, PhaseInv;
    if e.Local? && e.op.OpRevoke? && !w.sess.closed && e.op.target in w.sess.viewers {
      S.RevokeOutcome(w.sess, e.op.target, e.op.kNew, e.op.order);
      forall i | 0 <= i < |e.op.order|
        ensures S.Rekeys(S.Without(w.sess, e.op.target), e.op.kNew, e.op.order)[i].key.Auth?
      {
        S.RekeysAt(S.Without(w.sess, e.op.target), e.op.kNew, e.op.order, i);
      }
    }
  }

  lemma StepFrames(w: World, e: Event, auth: Bytes)
    requires Safe(w, auth) && Possible(w, e)
    ensures Safe(Next(w, e, auth), auth) && w.sess.draws <= Next(w, e, auth).sess.draws
    ensures Next(w, e, auth).sess.draws < U64 ==>
      && S.Ordered(w.sess.log, w.sess.draws) && S.Ordered(Next(w, e, auth).sess.log, Next(w, e, auth).sess.draws)
      && Frames(Next(w, e, auth).sess.log) == Frames(w.sess.log) + CallOf(w, e)
  {
    hide NonceOf, NonceVal, PhaseInv, S.Apply;
    NextKeepsSafe(w, e, auth);
    if e.Local? {
      S.StepKeepsInv(w.sess, e.op);
    }
    var t := Next(w, e, auth).sess;
    if t.draws < U64 {
      StepSeals(w, e, auth);
      NewFrames(w, e, auth);
      hide Safe, Next, Possible, CallOf, Frames, S.Ordered;
      var more := t.log[|w.sess.log|..];
      assert t.log == w.sess.log + more;
      FramesAppend(w.sess.log, more);
    }
  }

  /** The part of the log that a step adds holds its EncryptFrame call. */
  lemma NewFrames(w: World, e: Event, auth: Bytes)
    requires Safe(w, auth) && Possible(w, e) && w.sess.log <= Next(w, e, auth).sess.log
    requires w.sess.draws <= Next(w, e, auth).sess.draws < U64
    requires forall i :: 0 <= i < |Next(w, e, auth).sess.log| ==> |Next(w, e, auth).sess.log[i].nonce| == NONCE_LEN
    ensures Frames(Next(w, e, auth).sess.log[|w.sess.log|..]) == CallOf(w, e)
  {
    hide NonceOf, NonceVal, Safe, Possible;
    StepSeals(w, e, auth);
    hide Next;
    var more := Next(w, e, auth).sess.log[|w.sess.log|..];
    if CallOf(w, e) != [] {
      NonceRoundTrip(w.sess.draws + 1);
      FramesOfOne(more[0]);
    } else {
      NoFrames(more);
    }
  }

  lemma FramesOfOne(e: Sealed)
    requires |e.nonce| == NONCE_LEN && e.key.EpochKey?
    ensures Frames([e]) == [(NonceVal(e.nonce), e.plain)]
  {
    var one := [e];
    assert one[..0] == [];
  }

  lemma {:induction false} FramesAreCalls(w: World, es: seq<Event>, auth: Bytes, t: World)
    requires Safe(w, auth) && Run(w, es, auth, t)
    ensures w.sess.draws <= t.sess.draws
    ensures t.sess.draws < U64 ==>
      && S.Ordered(w.sess.log, w.sess.draws) && S.Ordered(t.sess.log, t.sess.draws)
      && Frames(t.sess.log) == Frames(w.sess.log) + Calls(w, es, auth)
    decreases |es|
  {
    hide Safe, Next, Possible, CallOf, Frames, S.Ordered;
    if es != [] {
      StepFrames(w, es[0], auth);
      FramesAreCalls(Next(w, es[0], auth), es[1..], auth, t);
    } else {
      OrderedBelow(w, auth);
    }
  }

  lemma OrderedBelow(w: World, auth: Bytes)
    requires Safe(w, auth)
    ensures w.sess.draws < U64 ==> S.Ordered(w.sess.log, w.sess.draws)
  {}

  function Pairs(h: seq<V.Accepted>): (r: seq<(nat, Bytes)>)
    ensures |r| == |h|
  {
    seq(|h|, i requires 0 <= i < |h| => (h[i].nonce, h[i].plain))
  }

  predicate Subsequence<T(==)>(a: seq<T>, b: seq<T>)
  {
    if a == [] then true
    else if b == [] then false
    else
      (a[|a| - 1] == b[|b| - 1] && Subsequence(a[..|a| - 1], b[..|b| - 1])) || Subsequence(a, b[..|b| - 1])
  }

  predicate Sorted(fs: seq<(nat, Bytes)>)
  {
    forall i, j :: 0 <= i < j < |fs| ==> fs[i].0 < fs[j].0
  }

  lemma {:induction false} FramesSorted(log: seq<Sealed>, draws: nat)
    requires S.Ordered(log, draws)
    ensures Sorted(Frames(log))
    ensures forall k :: 0 <= k < |Frames(log)| ==> log != [] && Frames(log)[k].0 <= NonceVal(log[|log| - 1].nonce)
  {
    if log != [] {
      var init := log[..|log| - 1];
      FramesSorted(init, draws);
      assert init != [] ==> NonceVal(init[|init| - 1].nonce) < NonceVal(log[|log| - 1].nonce);
    }
  }

  lemma {:induction false} InLogInFrames(log: seq<Sealed>, a: V.Accepted)
    requires forall i :: 0 <= i < |log| ==> |log[i].nonce| == NONCE_LEN
    requires InLog(log, a)
    ensures (a.nonce, a.plain) in Frames(log)
  {
    var i :| 0 <= i < |log| && IsFrameOf(log[i], a);
    var n := |log| - 1;
    if i < n {
      assert IsFrameOf(log[..n][i], a);
      InLogInFrames(log[..n], a);
    } else {
      var fs := Frames(log);
      assert fs[|fs| - 1] == (a.nonce, a.plain);
    }
  }

  lemma {:induction false} SortedSubset(p: seq<(nat, Bytes)>, f: seq<(nat, Bytes)>)
    requires Sorted(p) && Sorted(f) && forall x :: x in p ==> x in f
    ensures Subsequence(p, f)
    decreases |f|
  {
    if p != [] {
      var n, m := |f| - 1, |p| - 1;
      assert p[m] in f;
      var p' := if p[m] == f[n] then p[..m] else p;
      forall x | x in p' ensures x in f[..n] {
        var k :| 0 <= k < |p'| && p'[k] == x;
        assert p[k] in f;
        var i :| 0 <= i < |f| && f[i] == x;
        var last :| 0 <= last < |f| && f[last] == p[m];
        assert i < n;
        assert f[..n][i] == x;
      }
      SortedSubset(p', f[..n]);
    }
  }

  lemma AcceptedInFrames(w: World, auth: Bytes)
    requires Safe(w, auth) && w.sess.draws < U64
    ensures S.Ordered(w.sess.log, w.sess.draws)
    ensures Subsequence(Pairs(V.History(w.viewer)), Frames(w.sess.log)) && Increasing(V.History(w.viewer))
  {
    hide Frames, IsFrameOf;
    var h := V.History(w.viewer);
    forall k | 0 <= k < |h| ensures InLog(w.sess.log, h[k]) {
      assert Genuine(w.sess.log, auth, h[k]);
    }
    FramesSorted(w.sess.log, w.sess.draws);
    forall x | x in Pairs(h) ensures x in Frames(w.sess.log) {
      var k :| 0 <= k < |h| && Pairs(h)[k] == x;
      InLogInFrames(w.sess.log, h[k]);
    }
    SortedSubset(Pairs(h), Frames(w.sess.log));
  }

  /**
   * Whatever the relay delivers, what the viewer writes or applies is a subsequence of what was passed to
   * EncryptFrame in the run, in strictly increasing nonce order, each frame at most once.
   */
  lemma SafeAgainstAnyRelay(streamKey: Bytes, es: seq<Event>, auth: Bytes, t: World)
    requires |streamKey| == KEY_LEN && Run(Start(streamKey, auth), es, auth, t)
    requires t.sess.draws < U64
    ensures Subsequence(Pairs(V.History(t.viewer)), Calls(Start(streamKey, auth), es, auth))
    ensures Increasing(V.History(t.viewer))
  {
    hide Inv, Safe, Run, Calls, Increasing, Subsequence;
    var start := Start(streamKey, auth);
    StartInv(streamKey, auth);
    RunKeepsSafe(start, es, auth, t);
    FramesAreCalls(start, es, auth, t);
    AcceptedInFrames(t, auth);
    assert Frames(t.sess.log) == Calls(start, es, auth);
  }

  lemma {:induction false} HorizonStays(w: World, es: seq<Event>, auth: Bytes, t: World)
    requires Inv(w, auth) && w.horizon.Some? && FreshRun(w, es, auth, t)
    ensures t.horizon == w.horizon
    decreases |es|
  {
    if es != [] {
      NextKeepsInv(w, es[0], auth);
      HorizonStays(Next(w, es[0], auth), es[1..], auth, t);
    }
  }

  /**
   * Once a revocation of this viewer succeeds, nothing sealed afterwards ever reaches its output or its
   * terminal size, whatever the relay delivers before or after and whatever the session does next.
   */
  lemma RevokedReadsNothingNew(
    streamKey: Bytes, before: seq<Event>, auth: Bytes, w: World, op: S.Op, after: seq<Event>, t: World)
    requires |streamKey| == KEY_LEN && FreshRun(Start(streamKey, auth), before, auth, w)
    requires Possible(w, Local(op)) && Fresh(w, Local(op)) && Revokes(w, op, auth)
    requires FreshRun(Next(w, Local(op), auth), after, auth, t)
    ensures w.sess.log <= t.sess.log
    ensures forall a :: a in V.History(t.viewer) ==> InLog(w.sess.log, a)
  {
    StartInv(streamKey, auth);
    RunKeepsInv(Start(streamKey, auth), before, auth, w);
    NextKeepsInv(w, Local(op), auth);
    RunKeepsInv(Next(w, Local(op), auth), after, auth, t);
    HorizonStays(Next(w, Local(op), auth), after, auth, t);
    forall a | a in V.History(t.viewer) ensures InLog(w.sess.log, a) {
      assert Genuine(t.sess.log, auth, a);
      var i :| 0 <= i < |t.sess.log| && Granted(t.sess.log, auth, i) && IsFrameOf(t.sess.log[i], a);
      assert w.sess.log[i] == t.sess.log[i];
    }
  }
}
