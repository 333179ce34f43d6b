/**
 * How a viewer ends that was revoked but stays attached at an honest relay, over all runs: the frames sealed
 * before the revocation still reach its output, none of the later ones does, and the tenth later stream frame
 * that it reads makes it report that its access was revoked.
 */
module Revoked {
  import opened ByteStrings
  import opened Aead
  import opened FramesOnly
  import opened Honest
  import opened ViewerFold
  import opened Wire
  import Nonces
  import H = SharerState
  import Routing = SharerRouting
  import S = SessionState
  import V = ViewerState

  /** Frames in the order of their nonces and epochs, newer than `nonce` and `epoch`, that do not open under `key`. */
  predicate SealedForOthers(q: seq<Bytes>, key: Bytes, nonce: nat, epoch: nat, log: seq<Sealed>)
    decreases |q|
  {
    q == [] ||
    (var m := q[0];
     && IsFrame(m) && |m| >= MIN_FRAME && Nonces.NonceVal(FrameNonce(m)) > nonce && FrameEpoch(m) >= epoch
     && Open(log, EpochKey(key, FrameEpoch(m)), FrameNonce(m), FrameCipher(m)).None?
     && SealedForOthers(q[1..], key, Nonces.NonceVal(FrameNonce(m)), FrameEpoch(m), log))
  }

  function StreamFrames(q: seq<Bytes>): nat
    decreases |q|
  {
    if q == [] then 0 else (if q[0] != [] && q[0][0] == TAG_STREAM then 1 else 0) + StreamFrames(q[1..])
  }

  predicate NotAhead(v: V.State, nonce: nat, epoch: nat)
  {
    v.lastNonce <= nonce && (v.clock.initialized ==> v.clock.current <= epoch)
  }

  /** One frame that the viewer cannot open: nothing is shown; a stream frame counts as a failure. */
  lemma DoomedStep(v: V.State, m: Bytes, now: int, log: seq<Sealed>, nonce: nat, epoch: nat)
    requires NotAhead(v, nonce, epoch) && IsFrame(m) && |m| >= MIN_FRAME
    requires Nonces.NonceVal(FrameNonce(m)) > nonce && FrameEpoch(m) >= epoch
    requires Open(log, EpochKey(v.streamKey, FrameEpoch(m)), FrameNonce(m), FrameCipher(m)).None?
    ensures var (w, out) := V.Step(v, m, now, log);
      && w.accepted == v.accepted && w.streamKey == v.streamKey && w.authKey == v.authKey && w.id == v.id
      && NotAhead(w, Nonces.NonceVal(FrameNonce(m)), FrameEpoch(m))
      && w.failures == v.failures + (if m[0] == TAG_STREAM then 1 else 0)
      && out == if m[0] == TAG_STREAM && w.failures >= REVOCATION_FAILURE_THRESHOLD then V.Stop(V.AccessRevoked)
                else V.Continue
  {
    hide Nonces.NonceVal, Open, FrameEpoch, FrameNonce, FrameCipher;
  }

  lemma {:induction false} StoppedStays(p: V.Phase, q: seq<Bytes>, nows: seq<int>, log: seq<Sealed>)
    requires |nows| == |q| && p.Stopped?
    ensures Drain(p, q, nows, log) == p
    decreases |q|
  {
    if q != [] {
      StoppedStays(p, q[1..], nows[1..], log);
    }
  }

  /** A queue of such frames shows nothing, and ends the viewer exactly with its last missing failure. */
  lemma {:induction false} DoomedDrain(
      v: V.State, q: seq<Bytes>, nows: seq<int>, log: seq<Sealed>, nonce: nat, epoch: nat)
    requires |nows| == |q| && NotAhead(v, nonce, epoch) && SealedForOthers(q, v.streamKey, nonce, epoch, log)
    requires v.failures < REVOCATION_FAILURE_THRESHOLD
    ensures var t := Drain(V.Streaming(v), q, nows, log);
      && V.History(t) == v.accepted
      && if v.failures + StreamFrames(q) < REVOCATION_FAILURE_THRESHOLD
         then t.Streaming? && t.v.failures == v.failures + StreamFrames(q) && t.v.streamKey == v.streamKey
         else t.Stopped? && t.why == V.AccessRevoked
    decreases |q|
  {
    hide V.Step, NotAhead, Open;
    if q != [] {
      var m := q[0];
      DoomedStep(v, m, nows[0], log, nonce, epoch);
      var (w, out) := V.Step(v, m, nows[0], log);
      if out.Stop? {
        StoppedStays(V.Stopped(Some(w), V.AccessRevoked), q[1..], nows[1..], log);
      } else {
        DoomedDrain(w, q[1..], nows[1..], log, Nonces.NonceVal(FrameNonce(m)), FrameEpoch(m));
      }
    }
  }

  lemma {:induction false} DrainSplit(
      p: V.Phase, a: seq<Bytes>, b: seq<Bytes>, na: seq<int>, nb: seq<int>, log: seq<Sealed>)
    requires |na| == |a| && |nb| == |b|
    ensures Drain(p, a + b, na + nb, log) == Drain(Drain(p, a, na, log), b, nb, log)
    decreases |a|
  {
    hide V.Receive;
    if a == [] {
      assert a + b == b && na + nb == nb;
    } else {
      assert (a + b)[0] == a[0] && (a + b)[1..] == a[1..] + b;
      assert (na + nb)[0] == na[0] && (na + nb)[1..] == na[1..] + nb;
      DrainSplit(V.Receive(p, a[0], na[0], log), a[1..], b, na[1..], nb, log);
    }
  }

  lemma {:induction false} OpensNot(log: seq<Sealed>, key: Key, nonce: Bytes, cipher: Bytes)
    requires forall i :: 0 <= i < |log| ==> !(log[i].key == key && log[i].nonce == nonce)
    ensures Open(log, key, nonce, cipher).None?
  {
    if log != [] {
      OpensNot(log[1..], key, nonce, cipher);
    }
  }

  /** A frame sealed under another key does not open, because its nonce was drawn only once. */
  lemma ForeignFrame(log: seq<Sealed>, draws: nat, i: nat, key: Bytes, epoch: nat, cipher: Bytes)
    requires S.Ordered(log, draws) && i < |log| && log[i].key.EpochKey? && log[i].key.stream != key
    ensures Open(log, EpochKey(key, epoch), log[i].nonce, cipher).None?
  {
    OrderedDistinct(log, draws, i);
    OpensNot(log, EpochKey(key, epoch), log[i].nonce, cipher);
  }

  // ----- what a revoked viewer may still receive

  /** The frame of a log entry from index `h` on, sealed under another key. */
  predicate SealedLater(m: Bytes, h: nat, key: Bytes, log: seq<Sealed>)
  {
    && IsFrame(m) && |m| >= MIN_FRAME
    && exists i :: h <= i < |log| && log[i].nonce == FrameNonce(m)
                   && log[i].key.EpochKey? && log[i].key.stream != key && log[i].key.epoch == FrameEpoch(m)
  }

  predicate AllLater(q: seq<Bytes>, h: nat, key: Bytes, log: seq<Sealed>)
  {
    forall m :: m in q ==> SealedLater(m, h, key, log)
  }

  /** Frames in the order of their nonces and epochs, beyond `nonce` and `epoch`. */
  predicate Rising(q: seq<Bytes>, nonce: nat, epoch: nat)
    decreases |q|
  {
    q == [] ||
    (var m := q[0];
     && IsFrame(m) && |m| >= MIN_FRAME && Nonces.NonceVal(FrameNonce(m)) > nonce && FrameEpoch(m) >= epoch
     && Rising(q[1..], Nonces.NonceVal(FrameNonce(m)), FrameEpoch(m)))
  }

  predicate Within(q: seq<Bytes>, draws: nat, epoch: nat)
  {
    forall m :: m in q ==> |m| >= MIN_FRAME && Nonces.NonceVal(FrameNonce(m)) <= draws && FrameEpoch(m) <= epoch
  }

  lemma {:induction false} RisingMore(q: seq<Bytes>, nonce: nat, epoch: nat, m: Bytes, draws: nat, at: nat)
    requires Rising(q, nonce, epoch) && Within(q, draws, at) && nonce <= draws && epoch <= at
    requires IsFrame(m) && |m| >= MIN_FRAME && Nonces.NonceVal(FrameNonce(m)) > draws && FrameEpoch(m) >= at
    ensures Rising(q + [m], nonce, epoch)
    decreases |q|
  {
    hide Nonces.NonceVal, FrameNonce, FrameEpoch;
    if q == [] {
      assert (q + [m])[0] == m && (q + [m])[1..] == [];
    } else {
      assert (q + [m])[0] == q[0] && (q + [m])[1..] == q[1..] + [m];
      assert q[0] in q;
      RisingMore(q[1..], Nonces.NonceVal(FrameNonce(q[0])), FrameEpoch(q[0]), m, draws, at);
    }
  }

  lemma {:induction false} RisingLower(q: seq<Bytes>, nonce: nat, epoch: nat, nonce': nat, epoch': nat)
    requires Rising(q, nonce, epoch) && nonce' <= nonce && epoch' <= epoch
    ensures Rising(q, nonce', epoch')
  {}

  lemma {:induction false} StreamFramesMore(q: seq<Bytes>, m: Bytes)
    ensures StreamFrames(q + [m]) == StreamFrames(q) + (if m != [] && m[0] == TAG_STREAM then 1 else 0)
    decreases |q|
  {
    if q == [] {
      assert (q + [m])[1..] == [];
    } else {
      assert (q + [m])[0] == q[0] && (q + [m])[1..] == q[1..] + [m];
      StreamFramesMore(q[1..], m);
    }
  }

  /** A frame sealed later does not open. */
  lemma LaterOpensNot(m: Bytes, h: nat, key: Bytes, log: seq<Sealed>, draws: nat)
    requires S.Ordered(log, draws) && SealedLater(m, h, key, log)
    ensures Open(log, EpochKey(key, FrameEpoch(m)), FrameNonce(m), FrameCipher(m)).None?
  {
    hide Open, S.Ordered;
    var i :| h <= i < |log| && log[i].nonce == FrameNonce(m)
      && log[i].key.EpochKey? && log[i].key.stream != key && log[i].key.epoch == FrameEpoch(m);
    ForeignFrame(log, draws, i, key, FrameEpoch(m), FrameCipher(m));
  }

  lemma {:induction false} LaterAreForeign(
    q: seq<Bytes>, h: nat, key: Bytes, log: seq<Sealed>, draws: nat, nonce: nat, epoch: nat)
    requires S.Ordered(log, draws) && AllLater(q, h, key, log) && Rising(q, nonce, epoch)
    ensures SealedForOthers(q, key, nonce, epoch, log)
    decreases |q|
  {
    hide Nonces.NonceVal, Open, FrameEpoch, FrameNonce, FrameCipher, SealedLater, S.Ordered;
    if q != [] {
      assert q[0] in q;
      LaterOpensNot(q[0], h, key, log, draws);
      LaterAreForeign(q[1..], h, key, log, draws, Nonces.NonceVal(FrameNonce(q[0])), FrameEpoch(q[0]));
    }
  }

  // ----- the viewer, before and after it meets the first of these frames

  /** The session when the viewer was revoked, and the epoch of its clock. */
  datatype Cut = Cut(sess: S.State, epoch: nat)

  function EpochOf(v: V.State): nat
  {
    if v.clock.initialized then v.clock.current else 0
  }

  /** It still has `a` of before the revocation to read, and has read `g`. */
  predicate Reading(p: V.Phase, a: seq<Bytes>, g: seq<Bytes>, cut: Cut, log: seq<Sealed>)
  {
    && !p.Stopped? && AllSealed(g, cut.sess.log)
    && var s := Fold(SumOf(p), a, cut.sess.log);
    && s.Some? && s.value.Keyed? && s.value.key == cut.sess.streamKey
    && s.value.lastNonce <= cut.sess.draws && (s.value.epoch.Some? ==> s.value.epoch.value <= cut.epoch)
    && (if p.Streaming? then p.v.failures == 0 && Shows(p.v, g, log) else g == [])
  }

  /** It has read `g` of before the revocation and `f` of after it. */
  predicate Failing(p: V.Phase, g: seq<Bytes>, f: seq<Bytes>, cut: Cut, log: seq<Sealed>)
  {
    && AllSealed(g, cut.sess.log) && V.StateOf(p).Some?
    && var v := V.StateOf(p).value;
    && v.streamKey == cut.sess.streamKey && Shows(v, g, log) && v.failures == StreamFrames(f)
    && if p.Stopped? then p.why == V.AccessRevoked && v.failures == REVOCATION_FAILURE_THRESHOLD
       else v.failures < REVOCATION_FAILURE_THRESHOLD
  }

  /**
   * `a` and `b` are on its way, sealed before and after the revocation; `g` and `f` it has read since it holds
   * a key, likewise.
   */
  predicate Doomed(
    p: V.Phase, a: seq<Bytes>, b: seq<Bytes>, g: seq<Bytes>, f: seq<Bytes>, cut: Cut, sess: S.State, epoch: nat)
  {
    && AllLater(b, |cut.sess.log|, cut.sess.streamKey, sess.log)
    && AllLater(f, |cut.sess.log|, cut.sess.streamKey, sess.log)
    && Within(b, sess.draws, epoch) && cut.sess.draws <= sess.draws && cut.epoch <= epoch && cut.sess.log <= sess.log
    && ((f == [] && Reading(p, a, g, cut, sess.log) && Rising(b, cut.sess.draws, cut.epoch))
        || (a == [] && Failing(p, g, f, cut, sess.log)
            && (p.Streaming? ==> Rising(b, p.v.lastNonce, EpochOf(p.v))
                                 && p.v.lastNonce <= sess.draws && EpochOf(p.v) <= epoch)))
  }

  lemma LaterGrows(q: seq<Bytes>, h: nat, key: Bytes, log: seq<Sealed>, more: seq<Sealed>)
    requires AllLater(q, h, key, log)
    ensures AllLater(q, h, key, log + more)
  {
    forall m | m in q ensures SealedLater(m, h, key, log + more) {
      var i :| h <= i < |log| && log[i].nonce == FrameNonce(m)
        && log[i].key.EpochKey? && log[i].key.stream != key && log[i].key.epoch == FrameEpoch(m);
      assert (log + more)[i] == log[i];
    }
  }

  lemma PhaseGrows(
    p: V.Phase, a: seq<Bytes>, g: seq<Bytes>, f: seq<Bytes>, cut: Cut, log: seq<Sealed>, more: seq<Sealed>)
    ensures Reading(p, a, g, cut, log) ==> Reading(p, a, g, cut, log + more)
    ensures Failing(p, g, f, cut, log) ==> Failing(p, g, f, cut, log + more)
  {
    hide Shows, Fold, AllSealed;
    if V.StateOf(p).Some? && Shows(V.StateOf(p).value, g, log) {
      ShowsStable(V.StateOf(p).value, g, log, more);
    }
  }

  lemma NewIsLater(m: Bytes, was: S.State, sess: S.State, unix: int, h: nat, key: Bytes)
    requires NewFrame(m, was, sess, unix) && h <= |was.log| && sess.streamKey != key
    ensures SealedLater(m, h, key, sess.log)
  {
    hide Nonces.NonceVal;
  }

  /** The session seals and broadcasts at most one more frame, under another key. */
  lemma DoomedWaits(
    p: V.Phase, a: seq<Bytes>, b: seq<Bytes>, g: seq<Bytes>, f: seq<Bytes>, cut: Cut, sess: S.State, epoch: nat,
    added: seq<Bytes>, t: S.State, unix: int)
    requires Doomed(p, a, b, g, f, cut, sess, epoch)
    requires sess.log <= t.log && sess.draws <= t.draws < U64 && epoch <= S.EpochAt(unix)
    requires |added| <= 1 && forall m :: m in added ==> NewFrame(m, sess, t, unix)
    requires added != [] ==> t.streamKey != cut.sess.streamKey
    ensures Doomed(p, a, b + added, g, f, cut, t, S.EpochAt(unix))
  {
    hide Reading, Failing, NewFrame, SealedLater, Nonces.NonceVal, S.EpochAt;
    var more := t.log[|sess.log|..];
    assert t.log == sess.log + more;
    PhaseGrows(p, a, g, f, cut, sess.log, more);
    LaterGrows(b, |cut.sess.log|, cut.sess.streamKey, sess.log, more);
    LaterGrows(f, |cut.sess.log|, cut.sess.streamKey, sess.log, more);
    if added == [] {
      assert b + added == b;
    } else {
      var m := added[0];
      assert added == [m] && m in added;
      NewIsLater(m, sess, t, unix, |cut.sess.log|, cut.sess.streamKey);
      NewBounds(m, sess, t, unix);
      if Rising(b, cut.sess.draws, cut.epoch) {
        RisingMore(b, cut.sess.draws, cut.epoch, m, sess.draws, epoch);
      }
      if p.Streaming? && Rising(b, p.v.lastNonce, EpochOf(p.v)) && p.v.lastNonce <= sess.draws
         && EpochOf(p.v) <= epoch {
        RisingMore(b, p.v.lastNonce, EpochOf(p.v), m, sess.draws, epoch);
      }
    }
  }

  lemma NewBounds(m: Bytes, was: S.State, sess: S.State, unix: int)
    requires NewFrame(m, was, sess, unix) && sess.draws < U64
    ensures IsFrame(m) && |m| >= MIN_FRAME && FrameEpoch(m) == S.EpochAt(unix)
    ensures was.draws < Nonces.NonceVal(FrameNonce(m)) <= sess.draws
  {}

  /** It reads a message of before the revocation: everything as usual. */
  lemma ReadsOn(p: V.Phase, a: seq<Bytes>, g: seq<Bytes>, cut: Cut, sess: S.State, now: int)
    requires Reading(p, a, g, cut, sess.log) && a != [] && S.Ordered(sess.log, sess.draws) && cut.sess.log <= sess.log
    requires S.Ordered(cut.sess.log, cut.sess.draws)
    ensures Reading(V.Receive(p, a[0], now, sess.log), a[1..], if p.Streaming? then g + [a[0]] else g, cut, sess.log)
  {
    hide V.Receive, SumStep, Shows, S.Ordered, AllSealed, V.Output, Sent, SizeAfter;
    var m := a[0];
    var more := sess.log[|cut.sess.log|..];
    assert sess.log == cut.sess.log + more;
    SumStepStable(SumOf(p), m, cut.sess.log, more);
    StepFollowsFold(p, m, now, sess.log);
    if p.Streaming? {
      ShowsOneMore(p, g, m, now, sess.log, sess.draws);
      StaysStreaming(p, m, now, sess.log);
      OutputFollowsFold(p, m, now, cut.sess.log, cut.sess.draws);
      AllSealedOneMore(g, m, cut.sess.log);
    } else {
      ShowsNothing(p.auth, m, now, sess.log);
    }
    hide SumOf;
  }

  /** With nothing of before the revocation left, it is a viewer that holds the old key. */
  lemma ReadAll(p: V.Phase, g: seq<Bytes>, cut: Cut, log: seq<Sealed>, b: seq<Bytes>)
    requires Reading(p, [], g, cut, log) && Rising(b, cut.sess.draws, cut.epoch)
    ensures p.Streaming? && Failing(p, g, [], cut, log) && Rising(b, p.v.lastNonce, EpochOf(p.v))
    ensures p.v.lastNonce <= cut.sess.draws && EpochOf(p.v) <= cut.epoch
  {
    hide Shows, AllSealed;
    RisingLower(b, cut.sess.draws, cut.epoch, p.v.lastNonce, EpochOf(p.v));
  }

  /** It reads a frame sealed later. */
  lemma FailsOn(p: V.Phase, b: seq<Bytes>, g: seq<Bytes>, f: seq<Bytes>, cut: Cut, sess: S.State, epoch: nat, now: int)
    requires Failing(p, g, f, cut, sess.log) && b != [] && S.Ordered(sess.log, sess.draws) && p.Streaming?
    requires AllLater(b, |cut.sess.log|, cut.sess.streamKey, sess.log) && Rising(b, p.v.lastNonce, EpochOf(p.v))
    requires Within(b, sess.draws, epoch)
    ensures var q := V.Receive(p, b[0], now, sess.log);
      && Failing(q, g, f + [b[0]], cut, sess.log)
      && (q.Streaming? ==> Rising(b[1..], q.v.lastNonce, EpochOf(q.v))
                           && q.v.lastNonce <= sess.draws && EpochOf(q.v) <= epoch)
  {
    hide V.Step, Open, AllSealed, V.Output, Sent, SizeAfter, Nonces.NonceVal, FrameNonce, FrameEpoch, FrameCipher,
      SealedLater, S.Ordered;
    var m := b[0];
    assert m in b;
    LaterOpensNot(m, |cut.sess.log|, cut.sess.streamKey, sess.log, sess.draws);
    DoomedStep(p.v, m, now, sess.log, p.v.lastNonce, EpochOf(p.v));
    SizeUntouched(p.v, m, now, sess.log);
    StreamFramesMore(f, m);
    var w := V.Step(p.v, m, now, sess.log).0;
    RisingLower(b[1..], Nonces.NonceVal(FrameNonce(m)), FrameEpoch(m), w.lastNonce, EpochOf(w));
  }

  lemma SizeUntouched(v: V.State, m: Bytes, now: int, log: seq<Sealed>)
    requires IsFrame(m) && |m| >= MIN_FRAME
    requires Open(log, EpochKey(v.streamKey, FrameEpoch(m)), FrameNonce(m), FrameCipher(m)).None?
    ensures var w := V.Step(v, m, now, log).0; (w.cols, w.rows) == (v.cols, v.rows)
  {
    hide Nonces.NonceVal, Open, FrameEpoch, FrameNonce, FrameCipher, V.ValidateEpoch;
  }

  /** One message read, of either kind. */
  lemma DoomedReads(
    p: V.Phase, a: seq<Bytes>, b: seq<Bytes>, g: seq<Bytes>, f: seq<Bytes>, cut: Cut, sess: S.State, epoch: nat,
    now: int)
    requires Doomed(p, a, b, g, f, cut, sess, epoch) && a + b != []
    requires S.Ordered(sess.log, sess.draws) && S.Ordered(cut.sess.log, cut.sess.draws)
    ensures var m := (a + b)[0];
      var q := V.Receive(p, m, now, sess.log);
      if a != [] then Doomed(q, a[1..], b, if p.Streaming? then g + [m] else g, f, cut, sess, epoch)
      else Doomed(q, a, b[1..], g, if p.Streaming? then f + [m] else f, cut, sess, epoch)
  {
    hide Reading, Failing, SealedLater, V.Receive, S.Ordered;
    if a != [] {
      ReadsOn(p, a, g, cut, sess, now);
    } else {
      if f == [] && Reading(p, a, g, cut, sess.log) && Rising(b, cut.sess.draws, cut.epoch) {
        ReadAll(p, g, cut, sess.log, b);
      }
      assert b[0] in b;
      if p.Streaming? {
        FailsOn(p, b, g, f, cut, sess, epoch, now);
      } else {
        StoppedReads(p, g, f, cut, sess.log, b[0], now);
      }
    }
  }

  lemma StoppedReads(p: V.Phase, g: seq<Bytes>, f: seq<Bytes>, cut: Cut, log: seq<Sealed>, m: Bytes, now: int)
    requires Failing(p, g, f, cut, log) && !p.Streaming?
    ensures V.Receive(p, m, now, log) == p
  {}

  // ----- runs

  /** A revoked viewer, still attached; `n` messages on its way and the first `j` it has read are from before. */
  predicate Cast(w: World, rid: Id, cut: Cut, n: nat, j: nat)
  {
    && Unserved(w, rid) && StageOf(w.sharer, rid) == 3 && rid in w.relay.viewers
    && w.sharer.sess.streamKey != cut.sess.streamKey && S.Ordered(cut.sess.log, cut.sess.draws)
    && n <= |Way(w, rid)| && j <= |w.got[rid]|
    && (!w.ends[rid].Quit? ==>
          && w.ends[rid].Ready?
          && Doomed(w.ends[rid].p, Way(w, rid)[..n], Way(w, rid)[n..], w.got[rid][..j], w.got[rid][j..],
                    cut, w.sharer.sess, S.EpochAt(w.unix)))
  }

  lemma CastWaits(w: World, t: World, rid: Id, cut: Cut, n: nat, j: nat, added: seq<Bytes>)
    requires Cast(w, rid, cut, n, j) && Unserved(t, rid) && rid in t.wire && Broadcasts(w, t, rid, added)
    requires 0 <= w.unix <= t.unix < U64 && t.sharer.sess.draws < U64
    requires t.sharer.sess.streamKey != cut.sess.streamKey
    ensures Cast(t, rid, cut, n, j)
  {
    hide Doomed, NewFrame, Way, FromRid, StageOf, H.Hits, S.Ordered, S.EpochAt;
    EpochMonotone(w.unix, t.unix);
    if !w.ends[rid].Quit? {
      DoomedWaits(w.ends[rid].p, Way(w, rid)[..n], Way(w, rid)[n..], w.got[rid][..j], w.got[rid][j..],
        cut, w.sharer.sess, S.EpochAt(w.unix), added, t.sharer.sess, t.unix);
      assert (Way(w, rid) + added)[..n] == Way(w, rid)[..n];
      assert (Way(w, rid) + added)[n..] == Way(w, rid)[n..] + added;
    }
  }

  lemma LogOrdered(w: World)
    requires Inv(w)
    ensures S.Ordered(w.sharer.sess.log, w.sharer.sess.draws) && w.sharer.sess.draws < U64 && 0 <= w.unix < U64
  {
    hide PerViewer, Known, Routing.Routed, Routing.Exact, S.Ordered;
  }

  lemma CastReads(w: World, e: Event, rid: Id, cut: Cut, n: nat, j: nat) returns (n': nat, j': nat)
    requires Inv(w) && Legal(w, e) && e.ViewerReads? && e.rid == rid && Cast(w, rid, cut, n, j)
    ensures Cast(Next(w, e), rid, cut, n', j')
  {
    hide Inv, Doomed, FromRid, StageOf, H.Hits, S.Ordered, S.EpochAt, V.Receive, V.RecvHandshake, Addressed;
    LogOrdered(w);
    var way, got := Way(w, rid), w.got[rid];
    var m := w.wire[rid][0];
    var t := Next(w, e);
    assert way == [m] + Way(t, rid);
    n', j' := if n > 0 then n - 1 else 0, j;
    if !w.ends[rid].Quit? {
      var p := w.ends[rid].p;
      assert way[..n] + way[n..] == way;
      DoomedReads(p, way[..n], way[n..], got[..j], got[j..], cut, w.sharer.sess, S.EpochAt(w.unix), e.now);
      assert n > 0 ==> way[..n][1..] == Way(t, rid)[..n'] && way[n..] == Way(t, rid)[n'..];
      assert n == 0 ==> way[n..][1..] == Way(t, rid)[n'..] && way[..n] == Way(t, rid)[..n'];
      if n > 0 {
        NothingAfter(p, way[..n], way[n..], got[..j], got[j..], cut, w.sharer.sess, S.EpochAt(w.unix));
        j' := |t.got[rid]|;
        assert j == |got|;
        assert p.Streaming? ==> got[..j] + [m] == t.got[rid][..j'] && got[j..] == t.got[rid][j'..];
        assert !p.Streaming? ==> got[..j] == t.got[rid][..j'] && got[j..] == t.got[rid][j'..];
      } else {
        assert p.Streaming? ==> got[j..] + [m] == t.got[rid][j'..] && got[..j] == t.got[rid][..j'];
      }
    }
  }

  lemma NothingAfter(
    p: V.Phase, a: seq<Bytes>, b: seq<Bytes>, g: seq<Bytes>, f: seq<Bytes>, cut: Cut, sess: S.State, epoch: nat)
    requires Doomed(p, a, b, g, f, cut, sess, epoch) && a != []
    ensures f == []
  {
    hide Reading, Failing, AllLater, Within;
  }

  predicate OtherKey(e: Event, key: Bytes)
  {
    e.Revocation? ==> e.kNew != key
  }

  lemma CastStep(w: World, e: Event, rid: Id, cut: Cut, n: nat, j: nat) returns (n': nat, j': nat)
    requires Inv(w) && Legal(w, e) && Next(w, e).sharer.sess.draws < U64 && Cast(w, rid, cut, n, j)
    requires OtherKey(e, cut.sess.streamKey) && rid in Next(w, e).relay.viewers
    ensures Cast(Next(w, e), rid, cut, n', j')
  {
    hide Inv, Doomed, Next, Broadcasts, S.Ordered, StageOf, S.EpochAt;
    n', j' := n, j;
    LogOrdered(w);
    if OfSharer(e) {
      NextKeeps(w, e);
      LogOrdered(Next(w, e));
      var added := SharerStays(w, e, rid);
      BroadcastsClock(w, Next(w, e), rid, added);
      CastWaits(w, Next(w, e), rid, cut, n, j, added);
    } else if e.ViewerReads? && e.rid == rid {
      n', j' := CastReads(w, e, rid, cut, n, j);
    } else {
      OtherStays(w, e, rid);
    }
  }

  lemma BroadcastsClock(w: World, t: World, rid: Id, added: seq<Bytes>)
    requires rid in w.wire && rid in t.wire && Broadcasts(w, t, rid, added)
    ensures w.unix <= t.unix
  {
    hide Way, NewFrame;
  }

  ghost predicate OtherKeys(es: seq<Event>, key: Bytes)
    decreases |es|
  {
    es == [] || (OtherKey(es[0], key) && OtherKeys(es[1..], key))
  }

  /** A viewer that has left does not come back. */
  lemma {:induction false} Detached(w: World, es: seq<Event>, t: World, rid: Id)
    requires Inv(w) && Run(w, es, t) && Unserved(w, rid) && StageOf(w.sharer, rid) == 3 && rid !in w.relay.viewers
    ensures rid !in t.relay.viewers
    decreases |es|
  {
    hide Inv, Next, Legal, Unserved, StageOf;
    if es != [] {
      NextKeeps(w, es[0]);
      DetachedStep(w, es[0], rid);
      UnservedStep(w, es[0], rid);
      Detached(Next(w, es[0]), es[1..], t, rid);
    }
  }

  lemma {:induction false} CastRun(w: World, es: seq<Event>, t: World, rid: Id, cut: Cut, n: nat, j: nat)
    returns (n': nat, j': nat)
    requires Inv(w) && Run(w, es, t) && Cast(w, rid, cut, n, j)
    requires OtherKeys(es, cut.sess.streamKey) && rid in t.relay.viewers
    ensures Cast(t, rid, cut, n', j') && Inv(t)
    decreases |es|
  {
    hide Inv, Next, Legal, Doomed, StageOf, Way, S.Ordered, H.Hits;
    n', j' := n, j;
    if es != [] {
      NextKeeps(w, es[0]);
      UnservedStep(w, es[0], rid);
      if rid !in Next(w, es[0]).relay.viewers {
        Detached(Next(w, es[0]), es[1..], t, rid);
        assert false;
      }
      var n1, j1 := CastStep(w, es[0], rid, cut, n, j);
      n', j' := CastRun(Next(w, es[0]), es[1..], t, rid, cut, n1, j1);
    }
  }

  function CutOf(w: World): Cut
  {
    Cut(w.sharer.sess, S.EpochAt(w.unix))
  }

  /** What a watching viewer is about to read, all of it sealed before the revocation. */
  lemma WatchingReads(w: World, sid: Id, rid: Id)
    requires Inv(w) && Watching(w, sid, rid)
    ensures w.ends[rid].Ready? && Reading(w.ends[rid].p, Pending(w, rid), w.got[rid], CutOf(w), w.sharer.sess.log)
  {
    hide Known, S.Inv, Routing.Routed, Routing.Exact, Fold, Sent, SizeAfter, V.Output, Token,
      Pending, S.EpochAt, FromRid, StageOf, SealedAs;
    assert PerViewer(w, rid) && sid in H.Hits(w.sharer, rid);
  }

  lemma MappedOnce(w: World, sid: Id, rid: Id)
    requires Inv(w) && Watching(w, sid, rid)
    ensures H.Hits(w.sharer, rid) == {sid} && StageOf(w.sharer, rid) == 3 && Way(w, rid) == Pending(w, rid)
  {
    hide PerViewer, Known, S.Inv, Routing.Routed, Routing.Exact;
    RoutedFacts(w.sharer);
    HitsAreComplete(w.sharer, rid);
    assert sid in H.Hits(w.sharer, rid);
  }

  lemma CastStart(w: World, sid: Id, rid: Id, kNew: Bytes, sealing: seq<Id>, sending: seq<Id>)
    requires Inv(w) && Watching(w, sid, rid) && Legal(w, Revocation(sid, kNew, sealing, sending))
    requires kNew != w.sharer.sess.streamKey
    requires Next(w, Revocation(sid, kNew, sealing, sending)).sharer.sess.draws < U64
    ensures var t := Next(w, Revocation(sid, kNew, sealing, sending));
      Cast(t, rid, CutOf(w), |Pending(w, rid)|, |w.got[rid]|)
  {
    hide Inv, Reading, Failing, Way, H.Revoke, StageOf, SendAll, S.Ordered, Pending, S.EpochAt, FromRid, H.Hits;
    LogOrdered(w);
    WatchingReads(w, sid, rid);
    MappedOnce(w, sid, rid);
    RevokeSendsElsewhere(w, sid, kNew, sealing, sending, rid);
    var (s, sent) := H.Revoke(w.sharer, sid, kNew, sealing, sending);
    var w1 := w.(sharer := s);
    SendElsewhere(w1, sent, rid);
    SameWay(w, w1, rid);
    SameStage(w.sharer, s, rid);
    var t := Next(w, Revocation(sid, kNew, sealing, sending));
    var more := t.sharer.sess.log[|w.sharer.sess.log|..];
    assert t.sharer.sess.log == w.sharer.sess.log + more;
    PhaseGrows(w.ends[rid].p, Way(w, rid), w.got[rid], [], CutOf(w), w.sharer.sess.log, more);
    assert Way(t, rid)[..|Way(w, rid)|] == Way(w, rid) && Way(t, rid)[|Way(w, rid)|..] == [];
    assert w.got[rid][..|w.got[rid]|] == w.got[rid] && w.got[rid][|w.got[rid]|..] == [];
  }

  lemma NothingDrained(p: V.Phase, a: seq<Bytes>, na: seq<int>, g: seq<Bytes>, log: seq<Sealed>)
    requires p.Streaming? && a == [] && na == [] && Shows(p.v, g, log)
    ensures Drain(p, a, na, log) == p && OutputOf(p) == Sent(g, log) + Sent(a, log)
  {
    SentNothing(log);
    hide Sent, SizeAfter, V.Output, AllSealed;
    assert Sent(g, log) + [] == Sent(g, log);
  }

  /** Reading everything that is still on its way, whenever it does so. */
  lemma DoomedDrains(
    p: V.Phase, a: seq<Bytes>, b: seq<Bytes>, g: seq<Bytes>, f: seq<Bytes>, cut: Cut, sess: S.State, epoch: nat,
    na: seq<int>, nb: seq<int>)
    requires Doomed(p, a, b, g, f, cut, sess, epoch) && |na| == |a| && |nb| == |b|
    requires S.Ordered(sess.log, sess.draws)
    ensures var t := Drain(p, a + b, na + nb, sess.log);
      && (p.Streaming? ==> OutputOf(t) == Sent(g, sess.log) + Sent(a, sess.log))
      && (t.Stopped? <==> p.Stopped? || StreamFrames(f) + StreamFrames(b) >= REVOCATION_FAILURE_THRESHOLD)
      && (t.Stopped? ==> t.why == V.AccessRevoked)
      && (t.Streaming? ==> t.v.streamKey == cut.sess.streamKey)
  {
    hide Drain, Sent, S.Ordered, SumStep, AllSealed, SizeAfter, V.Output;
    DrainSplit(p, a, b, na, nb, sess.log);
    if p.Stopped? {
      StoppedStays(p, a + b, na + nb, sess.log);
    } else if f == [] && Reading(p, a, g, cut, sess.log) && Rising(b, cut.sess.draws, cut.epoch) {
      FoldFrame(SumOf(p), a, cut.sess, sess);
      DrainFollowsFold(p, a, na, sess.log, sess.draws);
      var d := Drain(p, a, na, sess.log).v;
      LaterAreForeign(b, |cut.sess.log|, d.streamKey, sess.log, sess.draws, cut.sess.draws, cut.epoch);
      DoomedDrain(d, b, nb, sess.log, cut.sess.draws, cut.epoch);
    } else {
      NothingDrained(p, a, na, g, sess.log);
      LaterAreForeign(b, |cut.sess.log|, p.v.streamKey, sess.log, sess.draws, p.v.lastNonce, EpochOf(p.v));
      DoomedDrain(p.v, b, nb, sess.log, p.v.lastNonce, EpochOf(p.v));
    }
  }

  lemma {:induction false} LaterStreamed(f: seq<Bytes>)
    ensures StreamFrames(f) <= |f|
    decreases |f|
  {
    if f != [] {
      LaterStreamed(f[1..]);
    }
  }

  /** What is claimed of a revoked viewer that is still attached, `cut` being the session when it was revoked. */
  ghost predicate Ends(w: World, rid: Id, cut: Cut, n: nat, j: nat)
    requires rid in w.ends && rid in w.wire && rid in w.got && w.ends[rid].Ready?
    requires n <= |Way(w, rid)| && j <= |w.got[rid]|
  {
    var p, log := w.ends[rid].p, w.sharer.sess.log;
    var before, after := w.got[rid][..j], w.got[rid][j..];
    && AllSealed(before, cut.sess.log) && AllLater(after, |cut.sess.log|, cut.sess.streamKey, log)
    && OutputOf(p) == Sent(before, log)
    && (p.Streaming? ==> (p.v.cols, p.v.rows) == SizeAfter((0, 0), before, log))
    && (V.StateOf(p).Some? ==> V.StateOf(p).value.streamKey == cut.sess.streamKey
                               || (n > 0 && after == []))
    && StreamFrames(after) <= REVOCATION_FAILURE_THRESHOLD
    && (p.Stopped? <==> StreamFrames(after) == REVOCATION_FAILURE_THRESHOLD)
    && (p.Stopped? ==> p.why == V.AccessRevoked)
    && AllLater(Way(w, rid)[n..], |cut.sess.log|, cut.sess.streamKey, log)
    && forall na: seq<int>, nb: seq<int> :: |na| == n && |nb| == |Way(w, rid)| - n ==>
         var t := Drain(p, Way(w, rid), na + nb, log);
         && (p.Streaming? ==> OutputOf(t) == Sent(before, log) + Sent(Way(w, rid)[..n], log))
         && (t.Stopped? <==>
               StreamFrames(after) + StreamFrames(Way(w, rid)[n..]) >= REVOCATION_FAILURE_THRESHOLD)
         && (t.Stopped? ==> t.why == V.AccessRevoked)
         && (t.Streaming? ==> t.v.streamKey == cut.sess.streamKey)
  }

  lemma DoomedNow(
    p: V.Phase, a: seq<Bytes>, b: seq<Bytes>, g: seq<Bytes>, f: seq<Bytes>, cut: Cut, sess: S.State, epoch: nat)
    requires Doomed(p, a, b, g, f, cut, sess, epoch)
    ensures AllSealed(g, cut.sess.log) && OutputOf(p) == Sent(g, sess.log)
    ensures p.Streaming? ==> (p.v.cols, p.v.rows) == SizeAfter((0, 0), g, sess.log)
    ensures V.StateOf(p).Some? ==> V.StateOf(p).value.streamKey == cut.sess.streamKey || (a != [] && f == [])
    ensures StreamFrames(f) <= REVOCATION_FAILURE_THRESHOLD
    ensures p.Stopped? <==> StreamFrames(f) == REVOCATION_FAILURE_THRESHOLD
    ensures p.Stopped? ==> p.why == V.AccessRevoked
  {
    hide AllSealed, SizeAfter, SumStep, Rising, Within, AllLater;
  }

  lemma CastEnds(w: World, rid: Id, cut: Cut, n: nat, j: nat)
    requires Inv(w) && Cast(w, rid, cut, n, j) && !w.ends[rid].Quit?
    ensures w.ends[rid].Ready? && Ends(w, rid, cut, n, j)
  {
    hide Inv, Drain, Sent, S.Ordered, AllSealed, AllLater, Way, V.Output, Reading, Failing, Within, Rising;
    LogOrdered(w);
    var p, way, got := w.ends[rid].p, Way(w, rid), w.got[rid];
    assert way[..n] + way[n..] == way;
    DoomedNow(p, way[..n], way[n..], got[..j], got[j..], cut, w.sharer.sess, S.EpochAt(w.unix));
    forall na: seq<int>, nb: seq<int> | |na| == n && |nb| == |way| - n
      ensures var t := Drain(p, way, na + nb, w.sharer.sess.log);
        && (p.Streaming? ==> OutputOf(t) == Sent(got[..j], w.sharer.sess.log) + Sent(way[..n], w.sharer.sess.log))
        && (t.Stopped? <==>
              p.Stopped? || StreamFrames(got[j..]) + StreamFrames(way[n..]) >= REVOCATION_FAILURE_THRESHOLD)
        && (t.Stopped? ==> t.why == V.AccessRevoked)
        && (t.Streaming? ==> t.v.streamKey == cut.sess.streamKey)
    {
      DoomedDrains(p, way[..n], way[n..], got[..j], got[j..], cut, w.sharer.sess, S.EpochAt(w.unix), na, nb);
    }
  }

  /**
   * A viewer that is watching in a reachable state is revoked, and stays attached and is not stopped by its
   * user during any run after that in which no new key equals the old one.  Then what it has read falls into
   * `j` messages sealed before the revocation and frames sealed after it under other keys; its output is
   * exactly what was sealed for the former; and it has stopped, for revoked access, exactly when ten of the
   * latter are stream frames.  The same holds of everything that is still on its way, whenever it reads that.
   */
  lemma RevokedViewerEnds(
      streamKey: Bytes, maxViewers: nat, unix: int, before: seq<Event>, w: World, sid: Id, rid: Id,
      kNew: Bytes, sealing: seq<Id>, sending: seq<Id>, after: seq<Event>, t: World)
    returns (n: nat, j: nat)
    requires |streamKey| == KEY_LEN && 0 <= unix < U64 && Run(Start(streamKey, maxViewers, unix), before, w)
    requires Watching(w, sid, rid) && Legal(w, Revocation(sid, kNew, sealing, sending))
    requires Next(w, Revocation(sid, kNew, sealing, sending)).sharer.sess.draws < U64
    requires Run(Next(w, Revocation(sid, kNew, sealing, sending)), after, t)
    requires OtherKeys([Revocation(sid, kNew, sealing, sending)] + after, w.sharer.sess.streamKey)
    requires rid in t.relay.viewers && rid in t.ends && !t.ends[rid].Quit?
    ensures rid in t.wire && rid in t.got && t.ends[rid].Ready? && n <= |Way(t, rid)| && j <= |t.got[rid]|
    ensures Ends(t, rid, CutOf(w), n, j)
  {
    hide Inv, Run, Next, Cast, Ends, Way, Pending;
    var e := Revocation(sid, kNew, sealing, sending);
    StartInv(streamKey, maxViewers, unix);
    RunKeeps(Start(streamKey, maxViewers, unix), before, w);
    NextKeeps(w, e);
    assert ([e] + after)[0] == e && ([e] + after)[1..] == after;
    CastStart(w, sid, rid, kNew, sealing, sending);
    n, j := CastRun(Next(w, e), after, t, rid, CutOf(w), |Pending(w, rid)|, |w.got[rid]|);
    CastDefined(t, rid, CutOf(w), n, j);
    CastEnds(t, rid, CutOf(w), n, j);
  }

  lemma CastDefined(w: World, rid: Id, cut: Cut, n: nat, j: nat)
    requires Cast(w, rid, cut, n, j)
    ensures rid in w.ends && rid in w.wire && rid in w.got && n <= |Way(w, rid)| && j <= |w.got[rid]|
  {
    hide Doomed, Way;
  }
}
