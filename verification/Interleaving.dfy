/**
 * The sharer at lock granularity, as one viewer sees it: registering it, sending its key and mapping it, the
 * rotation, lookup and unicast of any number of concurrent revocations of others, and encrypting a frame and
 * sending it, are separate steps that interleave in any order.  Which interleavings leave the viewer without
 * the current key, and which make it report that its access was revoked although it was not, follows from the
 * order in which key messages and frames were sent.
 */
module Interleaving {
  import opened ByteStrings
  import opened Aead
  import opened ViewerFold
  import opened Wire
  import H = SharerState
  import Honest
  import Nonces
  import Revoked
  import S = SessionState
  import V = ViewerState

  /** A message sent to the viewer, with the generation of the stream key that it carries or is sealed under. */
  datatype Item = KeyItem(gen: nat) | FrameItem(gen: nat, tag: Byte, plain: Bytes)

  /** What a viewer comes to by reading: the key it holds, consecutive failures and what it has written. */
  datatype Fate = Unkeyed | Holding(gen: nat, fails: nat, shown: Bytes) | Out(shown: Bytes)

  function AfterItem(f: Fate, x: Item): Fate
  {
    match f
    case Unkeyed => if x.KeyItem? then Holding(x.gen, 0, []) else Unkeyed
    case Holding(c, n, shown) =>
      if x.KeyItem? then Holding(x.gen, 0, shown)
      else if x.tag != TAG_STREAM then f
      else if x.gen == c then Holding(c, 0, shown + x.plain)
      else if n + 1 >= REVOCATION_FAILURE_THRESHOLD then Out(shown)
      else Holding(c, n + 1, shown)
    case Out(_) => f
  }

  function FateOf(f: Fate, xs: seq<Item>): Fate
    decreases |xs|
  {
    if xs == [] then f else FateOf(AfterItem(f, xs[0]), xs[1..])
  }

  lemma {:induction false} FateMore(f: Fate, xs: seq<Item>, x: Item)
    ensures FateOf(f, xs + [x]) == AfterItem(FateOf(f, xs), x)
    decreases |xs|
  {
    hide AfterItem;
    if xs == [] {
      assert (xs + [x])[1..] == [];
    } else {
      assert (xs + [x])[0] == xs[0] && (xs + [x])[1..] == xs[1..] + [x];
      FateMore(AfterItem(f, xs[0]), xs[1..], x);
    }
  }

  // ----- the bytes behind it

  /** The viewer's identifier and key, the stream keys by generation, and everything sealed. */
  datatype Context = Context(id: Id, auth: Bytes, keys: seq<Bytes>, log: seq<Sealed>)

  predicate Carries(m: Bytes, x: Item, c: Context)
  {
    x.gen < |c.keys| &&
    match x
    case KeyItem(g) =>
      && |m| >= MIN_REKEY && IsDefault(m) && m[..6] == c.id
      && Open(c.log, Auth(c.auth), m[6..18], m[18..]) == Some(c.keys[g])
    case FrameItem(g, tag, plain) =>
      && IsFrame(m) && m[0] == tag && |m| == MIN_FRAME + |plain| && (tag == TAG_TERM_SIZE ==> |plain| >= 4)
      && Open(c.log, EpochKey(c.keys[g], FrameEpoch(m)), FrameNonce(m), FrameCipher(m)) == Some(plain)
  }

  /** A queue with what it carries; frames rise in nonce and epoch beyond the given ones. */
  predicate Flow(q: seq<Bytes>, xs: seq<Item>, nonce: nat, epoch: nat, c: Context)
    decreases |q|
  {
    && |q| == |xs|
    && (q == [] ||
        (&& Carries(q[0], xs[0], c)
         && if xs[0].KeyItem? then Flow(q[1..], xs[1..], nonce, epoch, c)
            else
              && Nonces.NonceVal(FrameNonce(q[0])) > nonce && FrameEpoch(q[0]) >= epoch
              && Flow(q[1..], xs[1..], Nonces.NonceVal(FrameNonce(q[0])), FrameEpoch(q[0]), c)))
  }

  predicate Distinct(keys: seq<Bytes>)
  {
    forall i, j :: 0 <= i < j < |keys| ==> keys[i] != keys[j]
  }

  /** The viewer is where its fate says, having seen no nonce or epoch beyond the given ones. */
  predicate Meets(p: V.Phase, f: Fate, nonce: nat, epoch: nat, c: Context)
  {
    match f
    case Unkeyed => p == V.AwaitKey(c.auth)
    case Holding(g, n, shown) =>
      && p.Streaming? && g < |c.keys| && n < REVOCATION_FAILURE_THRESHOLD
      && p.v.streamKey == c.keys[g] && p.v.authKey == c.auth && p.v.id == c.id && p.v.failures == n
      && Revoked.NotAhead(p.v, nonce, epoch) && OutputOf(p) == shown
    case Out(shown) => p.Stopped? && p.why == V.AccessRevoked && OutputOf(p) == shown
  }

  lemma ReadsKey(p: V.Phase, f: Fate, m: Bytes, x: Item, now: int, nonce: nat, epoch: nat, c: Context)
    requires Meets(p, f, nonce, epoch, c) && Carries(m, x, c) && x.KeyItem?
    ensures Meets(V.Receive(p, m, now, c.log), AfterItem(f, x), nonce, epoch, c)
  {
    hide Open;
  }

  lemma ReadsOpening(p: V.Phase, f: Fate, m: Bytes, x: Item, now: int, nonce: nat, epoch: nat, c: Context)
    requires Meets(p, f, nonce, epoch, c) && Carries(m, x, c) && x.FrameItem? && f.Holding? && x.gen == f.gen
    requires Nonces.NonceVal(FrameNonce(m)) > nonce && FrameEpoch(m) >= epoch
    ensures Meets(V.Receive(p, m, now, c.log), AfterItem(f, x), Nonces.NonceVal(FrameNonce(m)), FrameEpoch(m), c)
  {
    hide Open, Nonces.NonceVal, FrameEpoch, FrameNonce, FrameCipher, V.Output, FromBE;
    var n := Nonces.NonceVal(FrameNonce(m));
    V.OutputOneMore(p.v.accepted, V.Accepted(n, x.plain, V.Written));
    V.OutputOneMore(p.v.accepted, V.Accepted(n, x.plain, V.Applied));
  }

  lemma ReadsForeign(
    p: V.Phase, f: Fate, m: Bytes, x: Item, now: int, nonce: nat, epoch: nat, c: Context, draws: nat)
    requires Meets(p, f, nonce, epoch, c) && Carries(m, x, c) && x.FrameItem? && f.Holding? && x.gen != f.gen
    requires Nonces.NonceVal(FrameNonce(m)) > nonce && FrameEpoch(m) >= epoch
    requires S.Ordered(c.log, draws) && Distinct(c.keys)
    ensures Meets(V.Receive(p, m, now, c.log), AfterItem(f, x), Nonces.NonceVal(FrameNonce(m)), FrameEpoch(m), c)
  {
    hide Open, Nonces.NonceVal, FrameEpoch, FrameNonce, FrameCipher, V.Output, S.Ordered, V.Step;
    var i := OpenSound(c.log, EpochKey(c.keys[x.gen], FrameEpoch(m)), FrameNonce(m), FrameCipher(m));
    Revoked.ForeignFrame(c.log, draws, i, c.keys[f.gen], FrameEpoch(m), FrameCipher(m));
    Revoked.DoomedStep(p.v, m, now, c.log, nonce, epoch);
  }

  lemma ReadsEarly(p: V.Phase, f: Fate, m: Bytes, x: Item, now: int, nonce: nat, epoch: nat, c: Context)
    requires Meets(p, f, nonce, epoch, c) && Carries(m, x, c) && x.FrameItem? && !f.Holding?
    ensures Meets(V.Receive(p, m, now, c.log), AfterItem(f, x), nonce, epoch, c)
  {
    hide Open;
  }

  lemma CarriesShape(m: Bytes, x: Item, c: Context)
    requires Carries(m, x, c)
    ensures x.FrameItem? ==> IsFrame(m) && |m| >= MIN_FRAME
    ensures x.KeyItem? ==> !IsFrame(m)
  {}

  /** Reading a queue to its end, whenever that is done, the viewer meets its fate. */
  lemma {:induction false} DrainMeets(
    p: V.Phase, f: Fate, q: seq<Bytes>, xs: seq<Item>, nows: seq<int>, nonce: nat, epoch: nat, c: Context, draws: nat)
    returns (nonce': nat, epoch': nat)
    requires Meets(p, f, nonce, epoch, c) && Flow(q, xs, nonce, epoch, c) && |nows| == |q|
    requires S.Ordered(c.log, draws) && Distinct(c.keys)
    ensures Meets(Drain(p, q, nows, c.log), FateOf(f, xs), nonce', epoch', c)
    decreases |q|
  {
    hide Meets, Carries, AfterItem, V.Receive, S.Ordered, Distinct, Nonces.NonceVal, FrameNonce, FrameEpoch;
    nonce', epoch' := nonce, epoch;
    if q != [] {
      var m, x := q[0], xs[0];
      CarriesShape(m, x, c);
      if x.KeyItem? {
        ReadsKey(p, f, m, x, nows[0], nonce, epoch, c);
      } else {
        nonce', epoch' := Nonces.NonceVal(FrameNonce(m)), FrameEpoch(m);
        if !f.Holding? {
          ReadsEarly(p, f, m, x, nows[0], nonce, epoch, c);
          MeetsLater(V.Receive(p, m, nows[0], c.log), AfterItem(f, x), nonce, epoch, nonce', epoch', c);
        } else if x.gen == f.gen {
          ReadsOpening(p, f, m, x, nows[0], nonce, epoch, c);
        } else {
          ReadsForeign(p, f, m, x, nows[0], nonce, epoch, c, draws);
        }
      }
      nonce', epoch' := DrainMeets(V.Receive(p, m, nows[0], c.log), AfterItem(f, x), q[1..], xs[1..], nows[1..],
                                   nonce', epoch', c, draws);
    }
  }

  lemma MeetsLater(p: V.Phase, f: Fate, nonce: nat, epoch: nat, nonce': nat, epoch': nat, c: Context)
    requires Meets(p, f, nonce, epoch, c) && nonce <= nonce' && epoch <= epoch'
    ensures Meets(p, f, nonce', epoch', c)
  {}

  // ----- the steps

  /** Where handleSPAKE2 is with the viewer: before RegisterViewer, the unicast or the map entry, or past all. */
  datatype Admission = Before | Registered(payload: S.Payload, gen: nat) | Delivered | Mapped

  /** A call of Revoke for another viewer: before its lookup of this one, before the unicast, past it. */
  datatype Revoker = Looking(payload: S.Payload, gen: nat) | Sending(payload: S.Payload, gen: nat) | Over

  /** A frame that is encrypted but not sent. */
  datatype Flight = Flight(item: Item, frame: Bytes)

  /**
   * `queue` holds all that was sent to the viewer, `items` what it carries; `keys` the stream keys by
   * generation and `gen` the current one; `since` the generation in which the viewer was registered; `skipped`
   * those whose rekey was never sent, because the lookup found the viewer unmapped or Revoke had returned on a
   * failed send.
   */
  datatype World = World(
    id: Id, auth: Bytes, sess: S.State, adm: Admission, revokers: seq<Revoker>, flight: Option<Flight>,
    queue: seq<Bytes>, items: seq<Item>, keys: seq<Bytes>, gen: nat, since: nat, skipped: set<nat>, unix: int)

  datatype Event =
    | Register(at: int, clientType: S.ClientType)
    | Deliver
    | Map
    | Rotate(target: Id, kNew: Bytes, order: seq<Id>)
    | Lookup(r: nat)
    | SendRekey(r: nat)
    | GiveUp(r: nat)
    | Encrypt(tag: Byte, plain: Bytes, at: int)
    | SendFrame(full: bool)
    | Aside(op: S.Op)

  function Start(streamKey: Bytes, id: Id, auth: Bytes, unix: int): World
  {
    World(id, auth, S.Initial(streamKey), Before, [], None, [], [], [streamKey], 0, 0, {}, unix)
  }

  /** What else happens in the session: others come and go, nonces are drawn. */
  predicate IsAside(w: World, op: S.Op)
  {
    match op
    case OpRegister(_, id, _, _) => id != w.id
    case OpRemove(id) => id != w.id
    case OpRevokeUnkeyed(id) => id != w.id
    case OpDraw => true
    case _ => false
  }

  /** One frame is encrypted and sent at a time; new keys are new; the clock does not go back. */
  predicate Possible(w: World, e: Event)
  {
    match e
    case Register(at, _) => w.adm.Before? && w.unix <= at < U64
    case Deliver => w.adm.Registered?
    case Map => w.adm.Delivered?
    case Rotate(target, kNew, order) =>
      && target != w.id && target in w.sess.viewers && |kNew| == KEY_LEN && kNew !in w.keys
      && S.Enumerates(order, w.sess.viewers.Keys - {target}) && S.GoodKeys(w.sess) && !w.sess.closed
    case Lookup(r) => r < |w.revokers| && w.revokers[r].Looking?
    case SendRekey(r) => r < |w.revokers| && w.revokers[r].Sending?
    case GiveUp(r) => r < |w.revokers| && !w.revokers[r].Over?
    case Encrypt(tag, plain, at) =>
      && w.flight.None? && w.unix <= at < U64 && !w.sess.closed
      && (tag == TAG_STREAM || (tag == TAG_TERM_SIZE && |plain| >= 4))
    case SendFrame(_) => w.flight.Some?
    case Aside(op) => IsAside(w, op) && S.Possible(w.sess, op)
  }

  function Next(w: World, e: Event): World
    requires Possible(w, e)
  {
    match e
    case Register(at, ct) =>
      var (t, r) := S.Register(w.sess, w.auth, w.id, at, ct);
      if r.Err? then w.(sess := t, unix := at)
      else w.(sess := t, unix := at, adm := Registered(r.value, w.gen), since := w.gen)
    case Deliver =>
      w.(adm := Delivered, queue := w.queue + [KeyDelivery(w.id, w.adm.payload)],
         items := w.items + [KeyItem(w.adm.gen)])
    case Map => w.(adm := Mapped)
    case Rotate(target, kNew, order) =>
      var (t, r) := S.Revoke(w.sess, target, kNew, order);
      S.RevokeNeverFails(w.sess, target, kNew, order);
      w.(sess := t, keys := w.keys + [kNew], gen := w.gen + 1,
         revokers := if w.id in r.value then w.revokers + [Looking(r.value[w.id], w.gen + 1)] else w.revokers)
    case Lookup(r) =>
      var x := w.revokers[r];
      if w.adm.Mapped? then w.(revokers := w.revokers[r := Sending(x.payload, x.gen)])
      else w.(revokers := w.revokers[r := Over], skipped := w.skipped + {x.gen})
    case SendRekey(r) =>
      var x := w.revokers[r];
      w.(revokers := w.revokers[r := Over], queue := w.queue + [KeyDelivery(w.id, x.payload)],
         items := w.items + [KeyItem(x.gen)])
    case GiveUp(r) => w.(revokers := w.revokers[r := Over], skipped := w.skipped + {w.revokers[r].gen})
    case Encrypt(tag, plain, at) =>
      var (t, r) := S.EncryptFrame(w.sess, plain, at);
      if r.Err? then w.(sess := t, unix := at)
      else w.(sess := t, unix := at, flight := Some(Flight(FrameItem(w.gen, tag, plain), FrameBytes(tag, r.value))))
    case SendFrame(full) =>
      if full then w.(flight := None)
      else w.(flight := None, queue := w.queue + [w.flight.value.frame], items := w.items + [w.flight.value.item])
    case Aside(op) => w.(sess := S.Apply(w.sess, op))
  }

  ghost predicate Run(w: World, es: seq<Event>, t: World)
    decreases |es|
  {
    if es == [] then w == t
    else Possible(w, es[0]) && Next(w, es[0]).sess.draws < U64 && Run(Next(w, es[0]), es[1..], t)
  }

  // ----- the bytes on the way are what the items say

  function ContextOf(w: World): Context
  {
    Context(w.id, w.auth, w.keys, w.sess.log)
  }

  /** A sealed stream key of that generation, not yet on its way. */
  predicate Holds(p: S.Payload, g: nat, c: Context)
  {
    && g < |c.keys| && |p.nonce| == NONCE_LEN && |p.cipher| == KEY_LEN + GCM_TAG_LEN
    && Open(c.log, Auth(c.auth), p.nonce, p.cipher) == Some(c.keys[g])
  }

  /** Every frame is at most this new. */
  predicate Below(q: seq<Bytes>, nonce: nat, epoch: nat)
  {
    forall m :: m in q && IsFrame(m) && |m| >= MIN_FRAME ==>
      Nonces.NonceVal(FrameNonce(m)) <= nonce && FrameEpoch(m) <= epoch
  }

  predicate InFlight(f: Flight, q: seq<Bytes>, draws: nat, epoch: nat, c: Context)
  {
    && f.item.FrameItem? && Carries(f.frame, f.item, c) && IsFrame(f.frame) && |f.frame| >= MIN_FRAME
    && 1 <= Nonces.NonceVal(FrameNonce(f.frame)) <= draws && FrameEpoch(f.frame) <= epoch
    && Below(q, Nonces.NonceVal(FrameNonce(f.frame)) - 1, FrameEpoch(f.frame))
  }

  predicate SessionGood(w: World)
  {
    && S.Inv(w.sess) && !w.sess.closed && w.sess.draws < U64 && 0 <= w.unix < U64
    && |w.keys| == w.gen + 1 && w.keys[w.gen] == w.sess.streamKey && Distinct(w.keys)
    && IsViewerId(w.id) && |w.auth| == KEY_LEN
    && (if w.adm.Before? then w.id !in w.sess.viewers
        else w.id in w.sess.viewers && w.sess.viewers[w.id].authKey == w.auth)
  }

  predicate PayloadsGood(w: World)
  {
    && (w.adm.Registered? ==> Holds(w.adm.payload, w.adm.gen, ContextOf(w)))
    && forall r :: 0 <= r < |w.revokers| && !w.revokers[r].Over? ==>
         Holds(w.revokers[r].payload, w.revokers[r].gen, ContextOf(w))
  }

  predicate FlowGood(w: World)
  {
    && Flow(w.queue, w.items, 0, 0, ContextOf(w)) && Below(w.queue, w.sess.draws, S.EpochAt(w.unix))
    && (w.flight.Some? ==> InFlight(w.flight.value, w.queue, w.sess.draws, S.EpochAt(w.unix), ContextOf(w)))
  }

  predicate Good(w: World)
  {
    SessionGood(w) && PayloadsGood(w) && FlowGood(w)
  }

  predicate Grows(c: Context, d: Context)
  {
    d.id == c.id && d.auth == c.auth && c.keys <= d.keys && c.log <= d.log
  }

  lemma OpenGrows(c: Context, d: Context, key: Key, nonce: Bytes, cipher: Bytes)
    requires Grows(c, d) && Open(c.log, key, nonce, cipher).Some?
    ensures Open(d.log, key, nonce, cipher) == Open(c.log, key, nonce, cipher)
  {
    assert d.log == c.log + d.log[|c.log|..];
    OpenStable(c.log, d.log[|c.log|..], key, nonce, cipher);
  }

  lemma CarriesGrows(m: Bytes, x: Item, c: Context, d: Context)
    requires Carries(m, x, c) && Grows(c, d)
    ensures Carries(m, x, d)
  {
    hide Open;
    if x.KeyItem? {
      OpenGrows(c, d, Auth(c.auth), m[6..18], m[18..]);
    } else {
      OpenGrows(c, d, EpochKey(c.keys[x.gen], FrameEpoch(m)), FrameNonce(m), FrameCipher(m));
    }
  }

  lemma {:induction false} FlowGrows(q: seq<Bytes>, xs: seq<Item>, nonce: nat, epoch: nat, c: Context, d: Context)
    requires Flow(q, xs, nonce, epoch, c) && Grows(c, d)
    ensures Flow(q, xs, nonce, epoch, d)
    decreases |q|
  {
    hide Carries, Nonces.NonceVal, FrameNonce, FrameEpoch;
    if q != [] {
      CarriesGrows(q[0], xs[0], c, d);
      CarriesShape(q[0], xs[0], c);
      if xs[0].KeyItem? {
        FlowGrows(q[1..], xs[1..], nonce, epoch, c, d);
      } else {
        FlowGrows(q[1..], xs[1..], Nonces.NonceVal(FrameNonce(q[0])), FrameEpoch(q[0]), c, d);
      }
    }
  }

  lemma {:induction false} FlowMore(
    q: seq<Bytes>, xs: seq<Item>, nonce: nat, epoch: nat, c: Context, m: Bytes, x: Item)
    requires Flow(q, xs, nonce, epoch, c) && Carries(m, x, c)
    requires x.FrameItem? ==>
      && |m| >= MIN_FRAME && Nonces.NonceVal(FrameNonce(m)) >= 1
      && Below(q, Nonces.NonceVal(FrameNonce(m)) - 1, FrameEpoch(m))
      && Nonces.NonceVal(FrameNonce(m)) > nonce && FrameEpoch(m) >= epoch
    ensures Flow(q + [m], xs + [x], nonce, epoch, c)
    decreases |q|
  {
    hide Carries, Nonces.NonceVal, FrameNonce, FrameEpoch;
    if q == [] {
      assert (q + [m])[1..] == [] && (xs + [x])[1..] == [];
    } else {
      assert (q + [m])[0] == q[0] && (q + [m])[1..] == q[1..] + [m];
      assert (xs + [x])[0] == xs[0] && (xs + [x])[1..] == xs[1..] + [x];
      CarriesShape(q[0], xs[0], c);
      assert q[0] in q;
      if xs[0].KeyItem? {
        FlowMore(q[1..], xs[1..], nonce, epoch, c, m, x);
      } else {
        FlowMore(q[1..], xs[1..], Nonces.NonceVal(FrameNonce(q[0])), FrameEpoch(q[0]), c, m, x);
      }
    }
  }

  /** A sealed stream key, once sent, is what its generation says. */
  lemma SentKey(id: Id, p: S.Payload, g: nat, c: Context)
    requires IsViewerId(id) && id == c.id && Holds(p, g, c)
    ensures Carries(KeyDelivery(id, p), KeyItem(g), c) && !IsFrame(KeyDelivery(id, p))
  {
    hide Open;
    DeliveryRoundTrip(id, p);
  }

  lemma PayloadsGrow(w: World, t: World)
    requires PayloadsGood(w) && Grows(ContextOf(w), ContextOf(t)) && t.adm == w.adm && t.revokers == w.revokers
    ensures PayloadsGood(t)
  {
    hide Open;
    var c, d := ContextOf(w), ContextOf(t);
    if w.adm.Registered? {
      OpenGrows(c, d, Auth(c.auth), w.adm.payload.nonce, w.adm.payload.cipher);
    }
    forall r | 0 <= r < |t.revokers| && !t.revokers[r].Over?
      ensures Holds(t.revokers[r].payload, t.revokers[r].gen, d)
    {
      OpenGrows(c, d, Auth(c.auth), w.revokers[r].payload.nonce, w.revokers[r].payload.cipher);
    }
  }

  lemma FlowsGrow(w: World, t: World)
    requires FlowGood(w) && Grows(ContextOf(w), ContextOf(t)) && t.queue == w.queue && t.items == w.items
    requires t.flight == w.flight && w.sess.draws <= t.sess.draws && 0 <= w.unix <= t.unix < U64
    ensures FlowGood(t)
  {
    hide Carries, Nonces.NonceVal, FrameNonce, FrameEpoch, S.EpochAt;
    FlowGrows(w.queue, w.items, 0, 0, ContextOf(w), ContextOf(t));
    Honest.EpochMonotone(w.unix, t.unix);
    if w.flight.Some? {
      CarriesGrows(w.flight.value.frame, w.flight.value.item, ContextOf(w), ContextOf(t));
    }
  }

  lemma RegisterGood(w: World, e: Event)
    requires Good(w) && Possible(w, e) && e.Register? && Next(w, e).sess.draws < U64
    ensures Good(Next(w, e)) && Next(w, e).adm.Registered?
  {
    hide S.Register, S.Inv, Flow, Below, InFlight, Open, S.EpochAt;
    RegisterDraws(w.sess, w.auth, w.id, e.at, e.clientType);
    Honest.RegisterFacts(w.sess, w.auth, w.id, e.at, e.clientType);
    FlowsGrow(w, Next(w, e));
    PayloadsGrow(w.(adm := Before), Next(w, e).(adm := Before));
  }

  lemma RegisterDraws(s: S.State, key: Bytes, id: Id, at: int, ct: S.ClientType)
    requires !s.closed && |key| == KEY_LEN
    ensures S.Register(s, key, id, at, ct).0.draws == s.draws + 1
  {
    hide Nonces.NonceOf;
  }

  lemma DeliverGood(w: World)
    requires Good(w) && Possible(w, Deliver)
    ensures Good(Next(w, Deliver))
  {
    hide S.Inv, Flow, Carries, Open, S.EpochAt, KeyDelivery, Nonces.NonceVal, FrameNonce, FrameEpoch, IsViewerId;
    SentKey(w.id, w.adm.payload, w.adm.gen, ContextOf(w));
    FlowMore(w.queue, w.items, 0, 0, ContextOf(w), KeyDelivery(w.id, w.adm.payload), KeyItem(w.adm.gen));
  }

  lemma SendRekeyGood(w: World, r: nat)
    requires Good(w) && Possible(w, SendRekey(r))
    ensures Good(Next(w, SendRekey(r)))
  {
    hide S.Inv, Flow, Carries, Open, S.EpochAt, KeyDelivery, Nonces.NonceVal, FrameNonce, FrameEpoch, IsViewerId;
    var x := w.revokers[r];
    SentKey(w.id, x.payload, x.gen, ContextOf(w));
    FlowMore(w.queue, w.items, 0, 0, ContextOf(w), KeyDelivery(w.id, x.payload), KeyItem(x.gen));
  }

  lemma RotateSession(w: World, e: Event)
    requires Good(w) && Possible(w, e) && e.Rotate? && Next(w, e).sess.draws < U64
    ensures SessionGood(Next(w, e)) && Grows(ContextOf(w), ContextOf(Next(w, e)))
    ensures w.sess.draws <= Next(w, e).sess.draws
  {
    hide S.Revoke, S.Inv, Flow, PayloadsGood, FlowGood, S.Rekeys, S.Handed, S.EpochAt, S.GoodKeys;
    S.RevokeNeverFails(w.sess, e.target, e.kNew, e.order);
    S.RevokeOutcome(w.sess, e.target, e.kNew, e.order);
    S.StepKeepsInv(w.sess, S.OpRevoke(e.target, e.kNew, e.order));
  }

  lemma RotateGood(w: World, e: Event)
    requires Good(w) && Possible(w, e) && e.Rotate? && Next(w, e).sess.draws < U64
    ensures Good(Next(w, e))
  {
    hide S.Revoke, S.Inv, Flow, Below, InFlight, Open, S.EpochAt, Grows, IsViewerId, S.GoodKeys;
    RotateSession(w, e);
    var t := Next(w, e);
    S.RevokeNeverFails(w.sess, e.target, e.kNew, e.order);
    FlowsGrow(w, t);
    PayloadsGrow(w, t.(revokers := w.revokers));
    if w.id in w.sess.viewers {
      Honest.RevokeFacts(w.sess, e.target, e.kNew, e.order, w.id);
    }
  }

  lemma EncryptGood(w: World, e: Event)
    requires Good(w) && Possible(w, e) && e.Encrypt? && Next(w, e).sess.draws < U64
    ensures Good(Next(w, e)) && Next(w, e).flight.Some?
  {
    hide S.EncryptFrame, S.Inv, Flow, Open, S.EpochAt, FrameBytes, FrameEpoch, FrameNonce, FrameCipher,
      Nonces.NonceVal, IsViewerId;
    Honest.FrameDraws(H.State(w.sess, map[], map[], 0, 0, [], {}, {}), e.tag, e.plain, e.at);
    Honest.FrameFacts(w.sess, e.tag, e.plain, e.at);
    Honest.EpochMonotone(w.unix, e.at);
    FlowsGrow(w, Next(w, e).(flight := None));
    PayloadsGrow(w, Next(w, e));
  }

  lemma SendFrameGood(w: World, full: bool)
    requires Good(w) && Possible(w, SendFrame(full))
    ensures Good(Next(w, SendFrame(full)))
  {
    hide S.Inv, Flow, Carries, Open, S.EpochAt, Nonces.NonceVal, FrameNonce, FrameEpoch, IsViewerId;
    if !full {
      FlowMore(w.queue, w.items, 0, 0, ContextOf(w), w.flight.value.frame, w.flight.value.item);
    }
  }

  lemma AsideShape(w: World, op: S.Op)
    requires IsAside(w, op) && !w.sess.closed
    ensures var t := S.Apply(w.sess, op);
      && t.streamKey == w.sess.streamKey && !t.closed && (w.id in t.viewers <==> w.id in w.sess.viewers)
      && (w.id in w.sess.viewers ==> t.viewers[w.id] == w.sess.viewers[w.id])
  {
    hide Nonces.NonceOf;
  }

  lemma AsideGood(w: World, op: S.Op)
    requires Good(w) && Possible(w, Aside(op)) && Next(w, Aside(op)).sess.draws < U64
    ensures Good(Next(w, Aside(op)))
  {
    hide S.Apply, S.Inv, Flow, Below, InFlight, Open, S.EpochAt, Carries, IsViewerId;
    AsideShape(w, op);
    S.StepKeepsInv(w.sess, op);
    FlowsGrow(w, Next(w, Aside(op)));
    PayloadsGrow(w, Next(w, Aside(op)));
  }

  /** The steps that seal and send nothing. */
  lemma BookkeepingGood(w: World, e: Event)
    requires Good(w) && Possible(w, e) && (e.Map? || e.Lookup? || e.GiveUp?)
    ensures Good(Next(w, e))
  {
    hide Holds, S.Inv, FlowGood, IsViewerId, S.Register, S.Revoke, S.EncryptFrame, S.Apply;
    FlowsGrow(w, Next(w, e));
  }

  lemma NextGood(w: World, e: Event)
    requires Good(w) && Possible(w, e) && Next(w, e).sess.draws < U64
    ensures Good(Next(w, e))
  {
    hide Good, Next, Possible;
    match e
    case Register(_, _) => RegisterGood(w, e);
    case Deliver => DeliverGood(w);
    case Rotate(_, _, _) => RotateGood(w, e);
    case SendRekey(r) => SendRekeyGood(w, r);
    case Encrypt(_, _, _) => EncryptGood(w, e);
    case SendFrame(full) => SendFrameGood(w, full);
    case Aside(op) => AsideGood(w, op);
    case _ => BookkeepingGood(w, e);
  }

  lemma StartGood(streamKey: Bytes, id: Id, auth: Bytes, unix: int)
    requires |streamKey| == |auth| == KEY_LEN && IsViewerId(id) && 0 <= unix < U64
    ensures Good(Start(streamKey, id, auth, unix))
  {}

  lemma {:induction false} RunGood(w: World, es: seq<Event>, t: World)
    requires Good(w) && Run(w, es, t)
    ensures Good(t) && t.auth == w.auth
    decreases |es|
  {
    hide Good, Next, Possible;
    if es != [] {
      NextGood(w, es[0]);
      SameViewer(w, es[0]);
      RunGood(Next(w, es[0]), es[1..], t);
    }
  }

  lemma SameViewer(w: World, e: Event)
    requires Possible(w, e)
    ensures Next(w, e).auth == w.auth && Next(w, e).id == w.id
  {
    hide S.Register, S.Revoke, S.EncryptFrame, S.Apply;
  }

  /**
   * Whatever the interleaving, and whenever the viewer reads: what it comes to is decided by the order in which
   * key messages and frames were sent, and by the generations of their keys.
   */
  lemma FateDecides(
    streamKey: Bytes, id: Id, auth: Bytes, unix: int, es: seq<Event>, t: World, nows: seq<int>)
    requires |streamKey| == |auth| == KEY_LEN && IsViewerId(id) && 0 <= unix < U64
    requires Run(Start(streamKey, id, auth, unix), es, t) && |nows| == |t.queue|
    ensures var p := Drain(V.AwaitKey(auth), t.queue, nows, t.sess.log);
      match FateOf(Unkeyed, t.items)
      case Unkeyed => p == V.AwaitKey(auth)
      case Holding(g, n, shown) =>
        g < |t.keys| && p.Streaming? && p.v.streamKey == t.keys[g] && p.v.failures == n && OutputOf(p) == shown
      case Out(shown) => p.Stopped? && p.why == V.AccessRevoked && OutputOf(p) == shown
  {
    hide Run, Flow, Drain, Carries, S.Ordered, OutputOf, AfterItem;
    StartGood(streamKey, id, auth, unix);
    RunGood(Start(streamKey, id, auth, unix), es, t);
    var n, e := DrainMeets(V.AwaitKey(auth), Unkeyed, t.queue, t.items, nows, 0, 0, ContextOf(t), t.sess.draws);
  }

  // ----- which key messages were sent

  predicate Sent(xs: seq<Item>, g: nat)
  {
    KeyItem(g) in xs
  }

  predicate KeysOnce(xs: seq<Item>)
  {
    forall i, j :: 0 <= i < j < |xs| && xs[i].KeyItem? ==> xs[i] != xs[j]
  }

  lemma SentMore(xs: seq<Item>, x: Item)
    ensures forall g :: Sent(xs + [x], g) <==> Sent(xs, g) || x == KeyItem(g)
    ensures KeysOnce(xs) && (x.KeyItem? ==> !Sent(xs, x.gen)) ==> KeysOnce(xs + [x])
  {
    if KeysOnce(xs) && (x.KeyItem? ==> !Sent(xs, x.gen)) {
      assert forall i :: 0 <= i < |xs| ==> xs[i] in xs;
    }
  }

  predicate PendingFor(w: World, g: nat)
  {
    exists r :: 0 <= r < |w.revokers| && !w.revokers[r].Over? && w.revokers[r].gen == g
  }

  predicate Live(r: Revoker)
  {
    !r.Over?
  }

  /** The key of every generation since the registration was sent, is about to be, or was skipped. */
  ghost predicate AllAccounted(w: World)
  {
    forall g: nat :: w.since < g <= w.gen && !w.adm.Before? ==> Sent(w.items, g) || PendingFor(w, g) || g in w.skipped
  }

  ghost predicate SentAccounted(w: World)
  {
    && KeysOnce(w.items)
    && (w.adm.Delivered? || w.adm.Mapped? ==> Sent(w.items, w.since))
    && forall g: nat :: Sent(w.items, g) ==> w.since <= g <= w.gen && (w.adm.Delivered? || w.adm.Mapped?)
  }

  predicate SkippedAccounted(w: World)
  {
    forall g :: g in w.skipped ==> w.since < g <= w.gen && !Sent(w.items, g) && !w.adm.Before?
  }

  predicate RevokerOk(w: World, x: Revoker)
  {
    Live(x) ==>
      && w.since < x.gen <= w.gen && !Sent(w.items, x.gen) && x.gen !in w.skipped
      && !w.adm.Before? && (x.Sending? ==> w.adm.Mapped?)
  }

  predicate RevokersAccounted(w: World)
  {
    && (forall r :: 0 <= r < |w.revokers| ==> RevokerOk(w, w.revokers[r]))
    && forall q, r :: 0 <= q < r < |w.revokers| && Live(w.revokers[q]) && Live(w.revokers[r]) ==>
         w.revokers[q].gen != w.revokers[r].gen
  }

  /** Each key message once, and none unaccounted for. */
  ghost predicate Accounted(w: World)
  {
    && AllAccounted(w) && SentAccounted(w) && SkippedAccounted(w) && RevokersAccounted(w)
    && w.since <= w.gen && (w.adm.Registered? ==> w.adm.gen == w.since)
    && (w.adm.Before? <==> w.id !in w.sess.viewers)
  }

  /** The fields that the accounts depend on, apart from the session. */
  predicate SameBooks(w: World, t: World)
  {
    && t.id == w.id && t.adm == w.adm && t.revokers == w.revokers && t.items == w.items && t.gen == w.gen
    && t.since == w.since && t.skipped == w.skipped && (t.id in t.sess.viewers <==> w.id in w.sess.viewers)
  }

  lemma SameBooksKeep(w: World, t: World)
    requires Accounted(w) && SameBooks(w, t)
    ensures Accounted(t)
  {
    assert forall g :: PendingFor(w, g) ==> PendingFor(t, g);
  }

  lemma EncryptBooks(w: World, e: Event)
    requires Possible(w, e) && e.Encrypt?
    ensures SameBooks(w, Next(w, e))
  {
    S.EncryptShape(w.sess, e.plain, e.at);
    hide S.EncryptFrame, S.Register, S.Revoke, S.Apply, FrameBytes;
  }

  lemma RegisterBooks(w: World, e: Event)
    requires Accounted(w) && Good(w) && Possible(w, e) && e.Register?
    ensures Accounted(Next(w, e))
  {
    hide S.Inv, FlowGood, PayloadsGood, S.Register, S.Revoke, S.EncryptFrame, S.Apply, S.EpochAt;
    RegisterFailsNot(w, e);
  }

  lemma RegisterFailsNot(w: World, e: Event)
    requires Good(w) && Possible(w, e) && e.Register?
    ensures var (t, r) := S.Register(w.sess, w.auth, w.id, e.at, e.clientType); r.Ok? && w.id in t.viewers
  {
    S.RegisterShape(w.sess, w.auth, w.id, e.at, e.clientType);
    hide S.Ordered, FlowGood, PayloadsGood, S.Register;
  }

  lemma DeliverBooks(w: World)
    requires Accounted(w) && Possible(w, Deliver)
    ensures Accounted(Next(w, Deliver))
  {
    hide Sent, KeysOnce;
    var t := Next(w, Deliver);
    SentMore(w.items, KeyItem(w.since));
    forall r | 0 <= r < |t.revokers| ensures RevokerOk(t, t.revokers[r]) {
      assert RevokerOk(w, w.revokers[r]);
    }
    assert forall g :: PendingFor(w, g) ==> PendingFor(t, g);
  }

  lemma PendingPrefix(w: World, t: World)
    requires w.revokers <= t.revokers
    ensures forall g :: PendingFor(w, g) ==> PendingFor(t, g)
  {
    forall g | PendingFor(w, g) ensures PendingFor(t, g) {
      var r :| 0 <= r < |w.revokers| && !w.revokers[r].Over? && w.revokers[r].gen == g;
      assert t.revokers[r] == w.revokers[r];
    }
  }

  lemma RotateBooks(w: World, e: Event)
    requires Accounted(w) && Good(w) && Possible(w, e) && e.Rotate?
    ensures Accounted(Next(w, e))
  {
    hide S.Inv, FlowGood, PayloadsGood, S.Register, S.Revoke, S.EncryptFrame, S.Apply, S.EpochAt, S.GoodKeys;
    S.RevokeNeverFails(w.sess, e.target, e.kNew, e.order);
    hide Sent, KeysOnce;
    var t := Next(w, e);
    assert t.id in t.sess.viewers <==> w.id in w.sess.viewers;
    forall r | 0 <= r < |t.revokers| ensures RevokerOk(t, t.revokers[r]) {
      assert r < |w.revokers| ==> RevokerOk(w, w.revokers[r]) && t.revokers[r] == w.revokers[r];
    }
    PendingPrefix(w, t);
    if w.id in w.sess.viewers {
      assert w.id in t.sess.viewers && |t.revokers| == |w.revokers| + 1;
      assert t.revokers[|w.revokers|].Looking? && t.revokers[|w.revokers|].gen == t.gen;
      assert PendingFor(t, t.gen);
    }
  }

  lemma SkipBooks(w: World, e: Event, r: nat)
    requires Accounted(w) && Possible(w, e) && r < |w.revokers| && Live(w.revokers[r])
    requires Next(w, e) == w.(revokers := w.revokers[r := Over], skipped := w.skipped + {w.revokers[r].gen})
    ensures Accounted(Next(w, e))
  {
    var t := Next(w, e);
    forall g | PendingFor(w, g) ensures PendingFor(t, g) || g in t.skipped {
      var q :| 0 <= q < |w.revokers| && !w.revokers[q].Over? && w.revokers[q].gen == g;
      assert q != r ==> t.revokers[q] == w.revokers[q];
    }
    hide Possible, Next;
  }

  lemma LookupBooks(w: World, r: nat)
    requires Accounted(w) && Possible(w, Lookup(r))
    ensures Accounted(Next(w, Lookup(r)))
  {
    if w.adm.Mapped? {
      var t := Next(w, Lookup(r));
      forall g | PendingFor(w, g) ensures PendingFor(t, g) {
        var q :| 0 <= q < |w.revokers| && !w.revokers[q].Over? && w.revokers[q].gen == g;
        assert !t.revokers[q].Over? && t.revokers[q].gen == g;
      }
    } else {
      SkipBooks(w, Lookup(r), r);
    }
  }

  lemma SendRekeyBooks(w: World, r: nat)
    requires Accounted(w) && Possible(w, SendRekey(r))
    ensures Accounted(Next(w, SendRekey(r)))
  {
    hide Sent, KeysOnce;
    var t := Next(w, SendRekey(r));
    SentMore(w.items, KeyItem(w.revokers[r].gen));
    forall g | PendingFor(w, g) ensures PendingFor(t, g) || g == w.revokers[r].gen {
      var q :| 0 <= q < |w.revokers| && !w.revokers[q].Over? && w.revokers[q].gen == g;
      assert q != r ==> t.revokers[q] == w.revokers[q];
    }
  }

  lemma SendFrameBooks(w: World, full: bool)
    requires Accounted(w) && Good(w) && Possible(w, SendFrame(full))
    ensures Accounted(Next(w, SendFrame(full)))
  {
    hide SessionGood, PayloadsGood, Flow, Carries, Below, S.EpochAt;
    hide Sent, KeysOnce;
    var t := Next(w, SendFrame(full));
    SentMore(w.items, w.flight.value.item);
    assert forall g :: PendingFor(w, g) ==> PendingFor(t, g);
  }

  lemma NextBooks(w: World, e: Event)
    requires Accounted(w) && Good(w) && Possible(w, e)
    ensures Accounted(Next(w, e))
  {
    match e
    case Register(_, _) => hide *; RegisterBooks(w, e);
    case Deliver => hide *; DeliverBooks(w);
    case Map => MapBooks(w);
    case Rotate(_, _, _) => hide *; RotateBooks(w, e);
    case Lookup(r) => hide *; LookupBooks(w, r);
    case SendRekey(r) => hide *; SendRekeyBooks(w, r);
    case GiveUp(r) => hide Accounted, Good; SkipBooks(w, e, r);
    case Encrypt(_, _, _) => hide *; EncryptBooks(w, e); SameBooksKeep(w, Next(w, e));
    case SendFrame(full) => hide *; SendFrameBooks(w, full);
    case Aside(op) => AsideBooks(w, op);
  }

  lemma MapBooks(w: World)
    requires Accounted(w) && Possible(w, Map)
    ensures Accounted(Next(w, Map))
  {
    assert forall g :: PendingFor(w, g) ==> PendingFor(Next(w, Map), g);
  }

  lemma AsideBooks(w: World, op: S.Op)
    requires Accounted(w) && Good(w) && Possible(w, Aside(op))
    ensures Accounted(Next(w, Aside(op)))
  {
    hide S.Apply, Accounted, FlowGood, PayloadsGood, S.Inv;
    AsideShape(w, op);
    SameBooksKeep(w, Next(w, Aside(op)));
  }

  lemma {:induction false} RunBooks(w: World, es: seq<Event>, t: World)
    requires Accounted(w) && Good(w) && Run(w, es, t)
    ensures Accounted(t) && Good(t)
    decreases |es|
  {
    hide Good, Next, Possible, Accounted;
    if es != [] {
      NextGood(w, es[0]);
      NextBooks(w, es[0]);
      RunBooks(Next(w, es[0]), es[1..], t);
    }
  }

  // ----- a viewer without the current key

  function LastKey(xs: seq<Item>): Option<nat>
  {
    if xs == [] then None
    else if xs[|xs| - 1].KeyItem? then Some(xs[|xs| - 1].gen)
    else LastKey(xs[..|xs| - 1])
  }

  lemma {:induction false} FateLast(xs: seq<Item>)
    ensures match FateOf(Unkeyed, xs)
      case Unkeyed => LastKey(xs) == None
      case Holding(g, _, _) => LastKey(xs) == Some(g)
      case Out(_) => LastKey(xs).Some?
  {
    if xs != [] {
      var n := |xs| - 1;
      FateLast(xs[..n]);
      FateMore(Unkeyed, xs[..n], xs[n]);
      assert xs[..n] + [xs[n]] == xs;
    }
  }

  /** Another key message was sent after that of the generation. */
  predicate Overtaken(xs: seq<Item>, g: nat)
  {
    exists i, j :: 0 <= i < j < |xs| && xs[i] == KeyItem(g) && xs[j].KeyItem?
  }

  lemma {:induction false} LastKeyIs(xs: seq<Item>)
    ensures match LastKey(xs)
      case None => forall i :: 0 <= i < |xs| ==> !xs[i].KeyItem?
      case Some(g) => exists i :: 0 <= i < |xs| && xs[i] == KeyItem(g) && forall j :: i < j < |xs| ==> !xs[j].KeyItem?
  {
    if xs != [] {
      var n := |xs| - 1;
      if xs[n].KeyItem? {
        assert xs[n] == KeyItem(xs[n].gen);
      } else {
        LastKeyIs(xs[..n]);
        if LastKey(xs[..n]).Some? {
          var i :| 0 <= i < n && xs[..n][i] == KeyItem(LastKey(xs[..n]).value)
            && forall j :: i < j < n ==> !xs[..n][j].KeyItem?;
          assert xs[i] == KeyItem(LastKey(xs).value);
          assert forall j :: i < j < n ==> xs[j] == xs[..n][j];
        } else {
          assert forall i :: 0 <= i < n ==> xs[i] == xs[..n][i];
        }
      }
    }
  }

  lemma LastKeyIff(xs: seq<Item>, g: nat)
    requires KeysOnce(xs)
    ensures LastKey(xs) == Some(g) <==> Sent(xs, g) && !Overtaken(xs, g)
  {
    LastKeyIs(xs);
    if Sent(xs, g) {
      var k :| 0 <= k < |xs| && xs[k] == KeyItem(g);
      assert LastKey(xs).Some?;
      var i :| 0 <= i < |xs| && xs[i] == KeyItem(LastKey(xs).value) && forall j :: i < j < |xs| ==> !xs[j].KeyItem?;
      assert k <= i;
      assert k < i ==> Overtaken(xs, g);
    }
  }

  /** The viewer is admitted and no call of Revoke is under way. */
  predicate Settled(w: World)
  {
    w.adm.Mapped? && forall r :: 0 <= r < |w.revokers| ==> w.revokers[r].Over?
  }

  lemma SettledKey(w: World)
    requires Accounted(w) && Settled(w)
    ensures LastKey(w.items).Some?
    ensures LastKey(w.items) == Some(w.gen) <==> w.gen !in w.skipped && !Overtaken(w.items, w.gen)
  {
    hide Overtaken;
    LastKeyIff(w.items, w.gen);
    LastKeyIs(w.items);
    assert Sent(w.items, w.since);
    assert !PendingFor(w, w.gen);
  }

  lemma StartBooks(streamKey: Bytes, id: Id, auth: Bytes, unix: int)
    ensures Accounted(Start(streamKey, id, auth, unix))
  {}

  /**
   * Once the viewer is admitted and no revocation is under way, it ends up with the current key, unless it is
   * thrown out before, if and only if the rekey of the last rotation was not skipped - its lookup came after
   * the viewer was mapped, and no send of that call had failed - and was not overtaken by an older one.
   */
  lemma StaleIff(streamKey: Bytes, id: Id, auth: Bytes, unix: int, es: seq<Event>, t: World, nows: seq<int>)
    requires |streamKey| == |auth| == KEY_LEN && IsViewerId(id) && 0 <= unix < U64
    requires Run(Start(streamKey, id, auth, unix), es, t) && Settled(t) && |nows| == |t.queue|
    ensures var p := Drain(V.AwaitKey(auth), t.queue, nows, t.sess.log);
      && (p.Streaming? || (p.Stopped? && p.why == V.AccessRevoked))
      && (p.Streaming? ==>
            (p.v.streamKey == t.sess.streamKey <==> t.gen !in t.skipped && !Overtaken(t.items, t.gen)))
  {
    hide Run, Drain, Settled, Accounted, Overtaken, PayloadsGood, FlowGood, S.Inv, FateOf;
    StartGood(streamKey, id, auth, unix);
    StartBooks(streamKey, id, auth, unix);
    RunBooks(Start(streamKey, id, auth, unix), es, t);
    FateDecides(streamKey, id, auth, unix, es, t, nows);
    FateLast(t.items);
    SettledKey(t);
  }

  /** Each lookup came after the viewer was mapped, and every send of a call of Revoke succeeded. */
  ghost predicate PunctualRun(w: World, es: seq<Event>)
    decreases |es|
  {
    es == [] || (Possible(w, es[0]) && !es[0].GiveUp? && (es[0].Lookup? ==> w.adm.Mapped?)
                 && PunctualRun(Next(w, es[0]), es[1..]))
  }

  lemma SkippedStep(w: World, e: Event)
    requires Possible(w, e)
    ensures w.skipped <= Next(w, e).skipped
    ensures Next(w, e).skipped != w.skipped ==> e.GiveUp? || (e.Lookup? && !w.adm.Mapped?)
    ensures e.GiveUp? || (e.Lookup? && !w.adm.Mapped?) ==> Next(w, e).skipped != {}
  {
    hide S.Register, S.Revoke, S.EncryptFrame, S.Apply;
    if e.GiveUp? || e.Lookup? {
      assert w.revokers[e.r].gen in w.skipped + {w.revokers[e.r].gen};
    }
  }

  lemma {:induction false} SkippedIff(w: World, es: seq<Event>, t: World)
    requires Run(w, es, t)
    ensures w.skipped <= t.skipped
    ensures w.skipped == {} ==> (t.skipped == {} <==> PunctualRun(w, es))
    decreases |es|
  {
    hide Next, Possible;
    if es != [] {
      SkippedStep(w, es[0]);
      SkippedIff(Next(w, es[0]), es[1..], t);
    }
  }

  /** One call of Revoke at a time. */
  ghost predicate SerialRun(w: World, es: seq<Event>)
    decreases |es|
  {
    es == [] || (Possible(w, es[0]) && (es[0].Rotate? ==> forall r :: 0 <= r < |w.revokers| ==> w.revokers[r].Over?)
                 && SerialRun(Next(w, es[0]), es[1..]))
  }

  /** Key messages in the order of their generations; only the current one is still to come. */
  predicate InSequence(w: World)
  {
    && (forall i, j :: 0 <= i < j < |w.items| && w.items[i].KeyItem? && w.items[j].KeyItem? ==>
          w.items[i].gen < w.items[j].gen)
    && forall r :: 0 <= r < |w.revokers| && Live(w.revokers[r]) ==> w.revokers[r].gen == w.gen
  }

  lemma SequenceMore(w: World, t: World, x: Item)
    requires InSequence(w) && t.items == w.items + [x]
    requires x.KeyItem? ==> forall g: nat :: Sent(w.items, g) ==> g < x.gen
    requires t.gen == w.gen
    requires forall r :: 0 <= r < |t.revokers| && Live(t.revokers[r]) ==> t.revokers[r].gen == t.gen
    ensures InSequence(t)
  {
    if x.KeyItem? {
      forall i | 0 <= i < |w.items| && w.items[i].KeyItem? ensures w.items[i].gen < x.gen {
        assert w.items[i] == KeyItem(w.items[i].gen);
        assert Sent(w.items, w.items[i].gen);
      }
    }
  }

  lemma SequenceStep(w: World, e: Event)
    requires Good(w) && Accounted(w) && InSequence(w) && Possible(w, e)
    requires e.Rotate? ==> forall r :: 0 <= r < |w.revokers| ==> w.revokers[r].Over?
    ensures InSequence(Next(w, e))
  {
    hide S.Register, S.Revoke, S.EncryptFrame, S.Apply, SessionGood, PayloadsGood, Flow, Carries, Below, S.EpochAt,
      AllAccounted, SkippedAccounted;
    match e
    case Deliver => SequenceMore(w, Next(w, e), KeyItem(w.adm.gen));
    case SendRekey(r) =>
      assert RevokerOk(w, w.revokers[r]);
      SequenceMore(w, Next(w, e), KeyItem(w.revokers[r].gen));
    case SendFrame(full) =>
      if !full {
        SequenceMore(w, Next(w, e), w.flight.value.item);
      }
    case _ =>
  }

  lemma {:induction false} SerialSequence(w: World, es: seq<Event>, t: World)
    requires Good(w) && Accounted(w) && InSequence(w) && Run(w, es, t) && SerialRun(w, es)
    ensures InSequence(t)
    decreases |es|
  {
    hide Good, Next, Possible, Accounted, InSequence;
    if es != [] {
      NextGood(w, es[0]);
      NextBooks(w, es[0]);
      SequenceStep(w, es[0]);
      SerialSequence(Next(w, es[0]), es[1..], t);
    }
  }

  /**
   * With one call of Revoke at a time: a viewer that is not thrown out holds the current key if and only if the
   * last rekey was not skipped; and no rekey is ever skipped if and only if no lookup comes between registering
   * and mapping the viewer and no send of a call of Revoke fails.
   */
  lemma SerialStaleIff(streamKey: Bytes, id: Id, auth: Bytes, unix: int, es: seq<Event>, t: World, nows: seq<int>)
    requires |streamKey| == |auth| == KEY_LEN && IsViewerId(id) && 0 <= unix < U64
    requires Run(Start(streamKey, id, auth, unix), es, t) && Settled(t) && |nows| == |t.queue|
    requires SerialRun(Start(streamKey, id, auth, unix), es)
    ensures var p := Drain(V.AwaitKey(auth), t.queue, nows, t.sess.log);
      p.Streaming? ==> (p.v.streamKey == t.sess.streamKey <==> t.gen !in t.skipped)
    ensures t.skipped == {} <==> PunctualRun(Start(streamKey, id, auth, unix), es)
  {
    hide Run, Drain, Settled, SerialRun, PunctualRun, Good;
    var w := Start(streamKey, id, auth, unix);
    StartGood(streamKey, id, auth, unix);
    StartBooks(streamKey, id, auth, unix);
    StaleIff(streamKey, id, auth, unix, es, t, nows);
    SkippedIff(w, es, t);
    SerialSequence(w, es, t);
    RunBooks(w, es, t);
    NotOvertaken(t);
  }

  lemma NotOvertaken(w: World)
    requires InSequence(w) && Accounted(w)
    ensures !Overtaken(w.items, w.gen)
  {
    if Overtaken(w.items, w.gen) {
      var i, j :| 0 <= i < j < |w.items| && w.items[i] == KeyItem(w.gen) && w.items[j].KeyItem?;
      assert w.items[j] == KeyItem(w.items[j].gen);
      assert Sent(w.items, w.items[j].gen);
      assert false;
    }
  }

  // ----- a viewer thrown out by mistake

  /** The stream frames of a generation that were sent before its key. */
  function Ahead(xs: seq<Item>, g: nat): nat
    decreases |xs|
  {
    if xs == [] || xs[0] == KeyItem(g) then 0
    else (if xs[0].FrameItem? && xs[0].gen == g && xs[0].tag == TAG_STREAM then 1 else 0) + Ahead(xs[1..], g)
  }

  lemma {:induction false} AheadMore(xs: seq<Item>, x: Item, g: nat)
    ensures Ahead(xs + [x], g) == Ahead(xs, g) +
      if !Sent(xs, g) && x.FrameItem? && x.gen == g && x.tag == TAG_STREAM then 1 else 0
    decreases |xs|
  {
    if xs == [] {
      assert (xs + [x])[1..] == [];
    } else {
      assert (xs + [x])[0] == xs[0] && (xs + [x])[1..] == xs[1..] + [x];
      assert xs == [xs[0]] + xs[1..];
      AheadMore(xs[1..], x, g);
    }
  }

  /** What the viewer has come to while generation `c` gives way to the next, `ahead` frames being ahead of its key. */
  predicate Between(f: Fate, ahead: nat, keySent: bool, inFlight: bool, c: nat)
  {
    && (f.Out? <==> ahead >= REVOCATION_FAILURE_THRESHOLD)
    && (!f.Out? ==>
          && f.Holding?
          && if keySent then f.gen == c + 1 && f.fails <= (if inFlight then 0 else 1)
             else f.gen == c && f.fails == ahead && (inFlight ==> ahead == 0))
  }

  /** The items from the `k`-th on belong to the change from generation `c` to the next. */
  ghost predicate InPhase(w: World, k: nat, c: nat)
  {
    && k <= |w.items| && w.adm.Mapped? && c <= w.gen <= c + 1
    && (w.flight.Some? ==> c <= w.flight.value.item.gen <= w.gen)
    && (forall r :: 0 <= r < |w.revokers| && Live(w.revokers[r]) ==> w.revokers[r].gen == c + 1)
    && (w.gen == c ==> Ahead(w.items[k..], c + 1) == 0 && !Sent(w.items[k..], c + 1))
    && Between(FateOf(Unkeyed, w.items), Ahead(w.items[k..], c + 1), Sent(w.items[k..], c + 1), OldFlight(w, c), c)
  }

  predicate OldFlight(w: World, c: nat)
  {
    w.flight.Some? && w.flight.value.item.gen == c
  }

  lemma PhaseItem(w: World, t: World, k: nat, c: nat, x: Item)
    requires InPhase(w, k, c) && t.items == w.items + [x] && t.adm == w.adm && t.gen == w.gen
    requires forall r :: 0 <= r < |t.revokers| && Live(t.revokers[r]) ==> t.revokers[r].gen == c + 1
    requires if x.KeyItem? then t.flight == w.flight && x.gen == c + 1 && !Sent(w.items[k..], c + 1) && w.gen == c + 1
             else w.flight.Some? && w.flight.value.item == x && t.flight.None?
    ensures InPhase(t, k, c)
  {
    hide Ahead, FateOf, Sent, KeysOnce, Between, AfterItem;
    var xs := w.items[k..];
    assert t.items[k..] == xs + [x];
    AheadMore(xs, x, c + 1);
    SentMore(xs, x);
    FateMore(Unkeyed, w.items, x);
    BetweenMore(FateOf(Unkeyed, w.items), Ahead(xs, c + 1), Sent(xs, c + 1), OldFlight(w, c), c, x);
  }

  lemma BetweenMore(f: Fate, ahead: nat, keySent: bool, inFlight: bool, c: nat, x: Item)
    requires Between(f, ahead, keySent, inFlight, c) && c <= x.gen <= c + 1
    requires if x.KeyItem? then x.gen == c + 1 && !keySent else inFlight == (x.gen == c)
    ensures Between(
      AfterItem(f, x), if !keySent && x.FrameItem? && x.gen == c + 1 && x.tag == TAG_STREAM then ahead + 1 else ahead,
      keySent || x.KeyItem?, if x.KeyItem? then inFlight else false, c)
  {}

  lemma PhaseStep(w: World, e: Event, k: nat, c: nat)
    requires Good(w) && Accounted(w) && InPhase(w, k, c) && Possible(w, e) && Next(w, e).gen <= c + 1
    ensures InPhase(Next(w, e), k, c)
  {
    hide S.Register, S.Revoke, S.EncryptFrame, S.Apply, SessionGood, PayloadsGood, Flow, Carries, Below, S.EpochAt,
      Ahead, FateOf, AllAccounted, SkippedAccounted, KeysOnce, Between, Sent;
    match e
    case SendRekey(r) =>
      assert RevokerOk(w, w.revokers[r]);
      SentSuffix(w.items, k, c + 1);
      PhaseItem(w, Next(w, e), k, c, KeyItem(w.revokers[r].gen));
    case SendFrame(full) =>
      if full {
        FlightChanges(w, Next(w, e), k, c);
      } else {
        PhaseItem(w, Next(w, e), k, c, w.flight.value.item);
      }
    case Encrypt(_, _, _) => FlightChanges(w, Next(w, e), k, c);
    case Rotate(_, _, _) => NothingLive(w, c);
    case _ =>
  }

  lemma FlightChanges(w: World, t: World, k: nat, c: nat)
    requires InPhase(w, k, c) && t.items == w.items
    requires OldFlight(t, c) ==> w.gen == c
    ensures Between(FateOf(Unkeyed, t.items), Ahead(t.items[k..], c + 1), Sent(t.items[k..], c + 1), OldFlight(t, c), c)
  {
    hide Ahead, FateOf, Sent;
  }

  lemma SentSuffix(xs: seq<Item>, k: nat, g: nat)
    requires k <= |xs| && !Sent(xs, g)
    ensures !Sent(xs[k..], g)
  {
    assert forall x :: x in xs[k..] ==> x in xs;
  }

  lemma NothingLive(w: World, c: nat)
    requires RevokersAccounted(w) && w.gen == c
    requires forall r :: 0 <= r < |w.revokers| && Live(w.revokers[r]) ==> w.revokers[r].gen == c + 1
    ensures forall r :: 0 <= r < |w.revokers| ==> !Live(w.revokers[r])
  {
    forall r | 0 <= r < |w.revokers| ensures !Live(w.revokers[r]) {
      assert RevokerOk(w, w.revokers[r]);
    }
  }

  lemma GenStep(w: World, e: Event)
    requires Possible(w, e)
    ensures w.gen <= Next(w, e).gen && w.items <= Next(w, e).items
  {
    hide S.Register, S.Revoke, S.EncryptFrame, S.Apply;
  }

  lemma {:induction false} GenGrows(w: World, es: seq<Event>, t: World)
    requires Run(w, es, t)
    ensures w.gen <= t.gen && w.items <= t.items
    decreases |es|
  {
    hide Next, Possible;
    if es != [] {
      GenStep(w, es[0]);
      GenGrows(Next(w, es[0]), es[1..], t);
    }
  }

  lemma {:induction false} PhaseRun(w: World, es: seq<Event>, t: World, k: nat, c: nat)
    requires Good(w) && Accounted(w) && InPhase(w, k, c) && Run(w, es, t) && t.gen <= c + 1
    ensures InPhase(t, k, c)
    decreases |es|
  {
    hide Good, Next, Possible, Accounted, InPhase;
    if es != [] {
      NextGood(w, es[0]);
      NextBooks(w, es[0]);
      GenGrows(Next(w, es[0]), es[1..], t);
      PhaseStep(w, es[0], k, c);
      PhaseRun(Next(w, es[0]), es[1..], t, k, c);
    }
  }

  /** An admitted viewer that holds the current key, with nothing under way. */
  ghost predicate InStep(w: World)
  {
    && Settled(w) && w.flight.None?
    && FateOf(Unkeyed, w.items).Holding? && FateOf(Unkeyed, w.items).gen == w.gen && FateOf(Unkeyed, w.items).fails == 0
  }

  /**
   * One revocation of another viewer, in any interleaving with frames: a viewer that was in step reports that its
   * access was revoked if and only if ten stream frames or more, encrypted after the rotation, were sent before
   * its rekey, or in place of it; otherwise it goes on, with at most one more frame that it could not open.
   */
  lemma ThrownOutIff(
    streamKey: Bytes, id: Id, auth: Bytes, unix: int, before: seq<Event>, w: World, es: seq<Event>, t: World,
    nows: seq<int>)
    requires |streamKey| == |auth| == KEY_LEN && IsViewerId(id) && 0 <= unix < U64
    requires Run(Start(streamKey, id, auth, unix), before, w) && InStep(w)
    requires Run(w, es, t) && t.gen == w.gen + 1 && |nows| == |t.queue|
    ensures w.items <= t.items
    ensures var p := Drain(V.AwaitKey(auth), t.queue, nows, t.sess.log);
      var sent := t.items[|w.items|..];
      && (p.Streaming? || (p.Stopped? && p.why == V.AccessRevoked))
      && (p.Stopped? <==> Ahead(sent, t.gen) >= REVOCATION_FAILURE_THRESHOLD)
      && (p.Streaming? && Sent(sent, t.gen) ==> p.v.streamKey == t.sess.streamKey && p.v.failures <= 1)
  {
    hide Run, Drain, Good, Accounted, Ahead, Sent;
    StartGood(streamKey, id, auth, unix);
    StartBooks(streamKey, id, auth, unix);
    var start := Start(streamKey, id, auth, unix);
    RunBooks(start, before, w);
    GenGrows(w, es, t);
    assert w.items[|w.items|..] == [];
    assert Ahead([], w.gen + 1) == 0 && !Sent([], w.gen + 1) by { NothingAhead(w.gen + 1); }
    PhaseRun(w, es, t, |w.items|, w.gen);
    RunJoin(start, before, w, es, t);
    FateDecides(streamKey, id, auth, unix, before + es, t, nows);
    RunBooks(w, es, t);
    CurrentKey(t);
  }

  lemma CurrentKey(w: World)
    requires Good(w)
    ensures w.gen < |w.keys| && w.keys[w.gen] == w.sess.streamKey
  {
    hide PayloadsGood, FlowGood, S.Inv;
  }

  lemma NothingAhead(g: nat)
    ensures Ahead([], g) == 0 && !Sent([], g)
  {}

  lemma {:induction false} RunJoin(w: World, a: seq<Event>, m: World, b: seq<Event>, t: World)
    requires Run(w, a, m) && Run(m, b, t)
    ensures Run(w, a + b, t)
    decreases |a|
  {
    hide Next, Possible;
    if a == [] {
      assert a + b == b;
    } else {
      assert (a + b)[0] == a[0] && (a + b)[1..] == a[1..] + b;
      RunJoin(Next(w, a[0]), a[1..], m, b, t);
    }
  }

  /** Frames under keys that the viewer does not hold: they throw it out exactly when they make up ten failures. */
  lemma {:induction false} ForeignFrames(f: Fate, xs: seq<Item>)
    requires f.Holding? && f.fails < REVOCATION_FAILURE_THRESHOLD
    requires forall x :: x in xs ==> x.FrameItem? && x.gen != f.gen
    ensures FateOf(f, xs) == if f.fails + StreamsIn(xs) < REVOCATION_FAILURE_THRESHOLD
      then f.(fails := f.fails + StreamsIn(xs)) else Out(f.shown)
    decreases |xs|
  {
    if xs != [] {
      assert xs[0] in xs;
      if AfterItem(f, xs[0]).Holding? {
        ForeignFrames(AfterItem(f, xs[0]), xs[1..]);
      } else {
        StaysOut(AfterItem(f, xs[0]), xs[1..]);
      }
    }
  }

  lemma {:induction false} StaysOut(f: Fate, xs: seq<Item>)
    requires f.Out?
    ensures FateOf(f, xs) == f
    decreases |xs|
  {
    if xs != [] {
      StaysOut(f, xs[1..]);
    }
  }

  function StreamsIn(xs: seq<Item>): nat
    decreases |xs|
  {
    if xs == [] then 0 else (if xs[0].FrameItem? && xs[0].tag == TAG_STREAM then 1 else 0) + StreamsIn(xs[1..])
  }

  lemma Then(w: World, e: Event, rest: seq<Event>, t: World) returns (es: seq<Event>)
    requires Possible(w, e) && Next(w, e).sess.draws < U64 && Run(Next(w, e), rest, t)
    ensures es == [e] + rest && Run(w, es, t)
  {
    es := [e] + rest;
    assert es[0] == e && es[1..] == rest;
  }

  lemma NoMore(w: World) returns (es: seq<Event>)
    ensures es == [] && Run(w, es, w)
  {
    es := [];
  }

  /** The session lists the viewer and another, which is to be revoked. */
  lemma TwoListed(w: World, target: Id, other: Bytes, at: int) returns (w1: World, w2: World)
    requires Good(w) && w.adm.Before? && w.revokers == [] && w.sess.viewers == map[] && w.sess.draws == 0
    requires target != w.id && |other| == KEY_LEN && w.unix <= at < U64
    ensures var op := S.OpRegister(other, target, at, S.CLI);
      Possible(w, Aside(op)) && w1 == Next(w, Aside(op)) && w1.sess.draws < U64
    ensures Possible(w1, Register(at, S.CLI)) && w2 == Next(w1, Register(at, S.CLI)) && w2.sess.draws == 2
    ensures w2 == w.(sess := w2.sess, unix := at, adm := w2.adm, since := w.gen) && w2.adm.Registered?
    ensures w2.adm.gen == w.gen && w2.sess.viewers.Keys == {target, w.id} && Good(w2)
  {
    hide S.Register, S.Inv, FlowGood, PayloadsGood;
    SessionKeys(w);
    S.RegisterShape(w.sess, other, target, at, S.CLI);
    RegisterDraws(w.sess, other, target, at, S.CLI);
    w1 := Next(w, Aside(S.OpRegister(other, target, at, S.CLI)));
    AsideGood(w, S.OpRegister(other, target, at, S.CLI));
    S.RegisterShape(w1.sess, w.auth, w.id, at, S.CLI);
    RegisterDraws(w1.sess, w.auth, w.id, at, S.CLI);
    w2 := Next(w1, Register(at, S.CLI));
    NextGood(w1, Register(at, S.CLI));
  }

  lemma SessionKeys(w: World)
    requires Good(w)
    ensures S.GoodKeys(w.sess) && !w.sess.closed && |w.auth| == KEY_LEN && |w.keys| == w.gen + 1
  {
    hide FlowGood, PayloadsGood, S.Ordered;
  }

  /** A rotation between registering and mapping the viewer leaves it with the old key, although nothing failed. */
  lemma StaleRun(streamKey: Bytes, id: Id, auth: Bytes, unix: int, target: Id, other: Bytes, kNew: Bytes)
    returns (es: seq<Event>, t: World)
    requires |streamKey| == |auth| == |other| == |kNew| == KEY_LEN && IsViewerId(id) && 0 <= unix < U64
    requires target != id && kNew != streamKey
    ensures Run(Start(streamKey, id, auth, unix), es, t) && Settled(t) && InSequence(t)
    ensures t.gen == 1 && t.skipped == {1} && t.items == [KeyItem(0)]
    ensures t.keys == [streamKey, kNew] && t.sess.streamKey == kNew
  {
    hide Run, Next, Possible, Good, S.Enumerates;
    var w := Start(streamKey, id, auth, unix);
    StartGood(streamKey, id, auth, unix);
    var w1, w2 := TwoListed(w, target, other, unix);
    var e := Rotate(target, kNew, [id]);
    var w3 := StaleRotation(w2, target, kNew);
    t := StaleRest(w3);
    es := NoMore(t);
    var w4 := Next(w3, Lookup(0));
    var w5 := Next(w4, Deliver);
    es := Then(w5, Map, es, t);
    es := Then(w4, Deliver, es, t);
    es := Then(w3, Lookup(0), es, t);
    es := Then(w2, e, es, t);
    es := Then(w1, Register(unix, S.CLI), es, t);
    es := Then(w, Aside(S.OpRegister(other, target, unix, S.CLI)), es, t);
    SessionKeys(w2);
  }

  lemma StaleRotation(w: World, target: Id, kNew: Bytes) returns (t: World)
    requires Good(w) && w.adm.Registered? && w.revokers == [] && w.sess.viewers.Keys == {target, w.id}
    requires target != w.id && |kNew| == KEY_LEN && kNew !in w.keys && w.sess.draws == 2
    ensures Possible(w, Rotate(target, kNew, [w.id])) && t == Next(w, Rotate(target, kNew, [w.id]))
    ensures t == w.(sess := t.sess, keys := w.keys + [kNew], gen := w.gen + 1, revokers := t.revokers)
    ensures |t.revokers| == 1 && t.revokers[0].Looking? && t.revokers[0].gen == w.gen + 1
    ensures t.sess.streamKey == kNew && t.sess.draws == 3
  {
    hide S.Revoke, FlowGood, PayloadsGood, S.Inv, S.GoodKeys;
    SessionKeys(w);
    assert w.sess.viewers.Keys - {target} == {w.id};
    S.RevokeNeverFails(w.sess, target, kNew, [w.id]);
    t := Next(w, Rotate(target, kNew, [w.id]));
  }

  lemma StaleRest(w: World) returns (t: World)
    requires w.adm.Registered? && |w.revokers| == 1 && w.revokers[0].Looking? && w.sess.draws < U64
    ensures Possible(w, Lookup(0)) && Next(w, Lookup(0)).sess.draws < U64
    ensures var w1 := Next(w, Lookup(0));
      && Possible(w1, Deliver) && Next(w1, Deliver).sess.draws < U64
      && var w2 := Next(w1, Deliver);
         && Possible(w2, Map) && t == Next(w2, Map)
    ensures t.adm.Mapped? && t.revokers == [Over] && t.items == w.items + [KeyItem(w.adm.gen)]
    ensures t.gen == w.gen && t.skipped == w.skipped + {w.revokers[0].gen} && t.keys == w.keys && t.sess == w.sess
  {
    hide S.Register, S.Revoke, S.EncryptFrame, S.Apply, KeyDelivery;
    t := Next(Next(Next(w, Lookup(0)), Deliver), Map);
  }
}
