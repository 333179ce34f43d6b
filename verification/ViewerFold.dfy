/**
 * Folding pending messages over a viewer: which key, nonce and epoch it will hold once they are consumed,
 * provided none of them is rejected.  The fold forgets the clock, so it does not depend on when the viewer
 * gets round to reading.
 */
module ViewerFold {
  import opened ByteStrings
  import opened Aead
  import opened Nonces
  import opened Wire
  import S = SessionState
  import V = ViewerState

  datatype Sum =
    | Waiting(auth: Bytes)
    | Keyed(key: Bytes, auth: Bytes, id: Id, lastNonce: nat, epoch: Option<nat>)

  function SumOf(p: V.Phase): Sum
    requires !p.Stopped?
  {
    match p
    case AwaitKey(auth) => Waiting(auth)
    case Streaming(v) =>
      Keyed(v.streamKey, v.authKey, v.id, v.lastNonce, if v.clock.initialized then Some(v.clock.current) else None)
  }

  /** The plaintext that a frame carries under the given key, if the viewer's filters let it through. */
  function FramePlain(s: Sum, m: Bytes, log: seq<Sealed>): Option<Bytes>
    requires s.Keyed? && m != []
  {
    if |m| < MIN_FRAME + (if m[0] == TAG_TERM_SIZE then 4 else 0) then None
    else if s.epoch.Some? && FrameEpoch(m) < s.epoch.value then None
    else if NonceVal(FrameNonce(m)) <= s.lastNonce then None
    else Open(log, EpochKey(s.key, FrameEpoch(m)), FrameNonce(m), FrameCipher(m))
  }

  /** One message; None when the viewer would reject it or end. */
  function SumStep(s: Sum, m: Bytes, log: seq<Sealed>): Option<Sum>
  {
    if m == [] then None
    else if s.Waiting? then
      if IsFrame(m) then Some(s)
      else if !IsDefault(m) || |m| < MIN_DELIVERY then None
      else
        match Open(log, Auth(s.auth), m[6..18], m[18..])
        case None => None
        case Some(k) => Some(Keyed(k, s.auth, m[..6], 0, None))
    else if IsFrame(m) then
      if FramePlain(s, m, log).None? then None
      else Some(s.(lastNonce := NonceVal(FrameNonce(m)), epoch := Some(FrameEpoch(m))))
    else if !IsDefault(m) || |m| < MIN_REKEY || m[..6] != s.id then None
    else
      match Open(log, Auth(s.auth), m[6..18], m[18..])
      case None => None
      case Some(k) => Some(s.(key := k))
  }

  function Fold(s: Sum, q: seq<Bytes>, log: seq<Sealed>): Option<Sum>
    decreases |q|
  {
    if q == [] then Some(s) else
      var r := SumStep(s, q[0], log);
      if r.None? then None else Fold(r.value, q[1..], log)
  }

  lemma {:induction false} FoldAppend(s: Sum, q: seq<Bytes>, m: Bytes, log: seq<Sealed>)
    requires Fold(s, q, log).Some?
    ensures Fold(s, q + [m], log) == SumStep(Fold(s, q, log).value, m, log)
    decreases |q|
  {
    hide SumStep;
    if q == [] {
      assert (q + [m])[1..] == [];
    } else {
      assert (q + [m])[0] == q[0] && (q + [m])[1..] == q[1..] + [m];
      FoldAppend(SumStep(s, q[0], log).value, q[1..], m, log);
    }
  }

  lemma SumStepStable(s: Sum, m: Bytes, log: seq<Sealed>, more: seq<Sealed>)
    requires SumStep(s, m, log).Some?
    ensures SumStep(s, m, log + more) == SumStep(s, m, log)
  {
    hide NonceVal;
    if s.Keyed? && IsFrame(m) {
      OpenStable(log, more, EpochKey(s.key, FrameEpoch(m)), FrameNonce(m), FrameCipher(m));
    } else if IsDefault(m) {
      OpenStable(log, more, Auth(s.auth), m[6..18], m[18..]);
    }
  }

  lemma {:induction false} FoldStable(s: Sum, q: seq<Bytes>, log: seq<Sealed>, more: seq<Sealed>)
    requires Fold(s, q, log).Some?
    ensures Fold(s, q, log + more) == Fold(s, q, log)
    decreases |q|
  {
    if q != [] {
      SumStepStable(s, q[0], log, more);
      FoldStable(SumStep(s, q[0], log).value, q[1..], log, more);
      hide SumStep;
    }
  }

  /** While it waits for its key the viewer skips frames. */
  lemma {:induction false} FoldSkips(auth: Bytes, q: seq<Bytes>, log: seq<Sealed>)
    requires forall m :: m in q ==> IsFrame(m)
    ensures Fold(Waiting(auth), q, log) == Some(Waiting(auth))
  {
    if q != [] {
      assert q[0] in q;
      FoldSkips(auth, q[1..], log);
    }
  }

  /** The plaintext that was sealed with this nonce. */
  function PlainAt(log: seq<Sealed>, nonce: Bytes): Bytes
  {
    if log == [] then [] else if log[0].nonce == nonce then log[0].plain else PlainAt(log[1..], nonce)
  }

  /** What was passed to EncryptFrame for the stream frames among `got`, in order. */
  function Sent(got: seq<Bytes>, log: seq<Sealed>): Bytes
  {
    if got == [] then [] else
      Sent(got[..|got| - 1], log) + SentOf(got[|got| - 1], log)
  }

  function SentOf(m: Bytes, log: seq<Sealed>): Bytes
  {
    if m != [] && m[0] == TAG_STREAM && |m| >= MIN_FRAME then PlainAt(log, FrameNonce(m)) else []
  }

  /** The columns and rows in a size plaintext. */
  function SizeIn(plain: Bytes): (nat, nat)
  {
    if |plain| >= 4 then (FromBE(plain[0..2]), FromBE(plain[2..4])) else (0, 0)
  }

  predicate IsSizeFrame(m: Bytes)
  {
    m != [] && m[0] == TAG_TERM_SIZE && |m| >= MIN_FRAME + 4
  }

  /** The terminal size after `got`, starting from `size`: what was passed to EncryptFrame for the last size frame. */
  function SizeAfter(size: (nat, nat), got: seq<Bytes>, log: seq<Sealed>): (nat, nat)
  {
    if got == [] then size
    else if IsSizeFrame(got[|got| - 1]) then SizeIn(PlainAt(log, FrameNonce(got[|got| - 1])))
    else SizeAfter(size, got[..|got| - 1], log)
  }

  /** Every frame among `got` has been sealed. */
  predicate AllSealed(got: seq<Bytes>, log: seq<Sealed>)
  {
    forall m :: m in got && IsFrame(m) && |m| >= MIN_FRAME ==> SealedAs(m, log)
  }

  predicate SealedAs(m: Bytes, log: seq<Sealed>)
    requires |m| >= MIN_FRAME
  {
    exists i :: 0 <= i < |log| && log[i].nonce == FrameNonce(m)
  }

  /** What a viewer that has read `got` shows: exactly what was sealed for it, nothing else. */
  predicate Shows(v: V.State, got: seq<Bytes>, log: seq<Sealed>)
  {
    AllSealed(got, log) && V.Output(v.accepted) == Sent(got, log) && (v.cols, v.rows) == SizeAfter((0, 0), got, log)
  }

  lemma {:induction false} PlainAtStable(log: seq<Sealed>, more: seq<Sealed>, nonce: Bytes, i: nat)
    requires i < |log| && log[i].nonce == nonce
    ensures PlainAt(log + more, nonce) == PlainAt(log, nonce)
  {
    if log[0].nonce != nonce {
      assert (log + more)[1..] == log[1..] + more;
      PlainAtStable(log[1..], more, nonce, i - 1);
    }
  }

  lemma PlainAtOfFrame(m: Bytes, log: seq<Sealed>, more: seq<Sealed>)
    requires |m| >= MIN_FRAME && SealedAs(m, log)
    ensures PlainAt(log + more, FrameNonce(m)) == PlainAt(log, FrameNonce(m)) && SealedAs(m, log + more)
  {
    var i :| 0 <= i < |log| && log[i].nonce == FrameNonce(m);
    assert (log + more)[i] == log[i];
    PlainAtStable(log, more, FrameNonce(m), i);
  }

  lemma {:induction false} SentStable(got: seq<Bytes>, size: (nat, nat), log: seq<Sealed>, more: seq<Sealed>)
    requires AllSealed(got, log)
    ensures Sent(got, log + more) == Sent(got, log) && SizeAfter(size, got, log + more) == SizeAfter(size, got, log)
    ensures AllSealed(got, log + more)
  {
    hide PlainAt, SealedAs;
    forall m | m in got && IsFrame(m) && |m| >= MIN_FRAME ensures SealedAs(m, log + more) {
      PlainAtOfFrame(m, log, more);
    }
    if got != [] {
      var m := got[|got| - 1];
      assert m in got;
      SentStable(got[..|got| - 1], size, log, more);
      if IsFrame(m) && |m| >= MIN_FRAME {
        PlainAtOfFrame(m, log, more);
      }
    }
  }

  lemma ShowsStable(v: V.State, got: seq<Bytes>, log: seq<Sealed>, more: seq<Sealed>)
    requires Shows(v, got, log)
    ensures Shows(v, got, log + more)
  {
    hide AllSealed, Sent, SizeAfter, V.Output;
    SentStable(got, (0, 0), log, more);
  }

  lemma {:induction false} PlainAtIs(log: seq<Sealed>, i: nat)
    requires i < |log|
    requires forall j :: 0 <= j < |log| && j != i ==> log[j].nonce != log[i].nonce
    ensures PlainAt(log, log[i].nonce) == log[i].plain
  {
    if i > 0 {
      PlainAtIs(log[1..], i - 1);
    }
  }

  /** Ordered logs have no two entries with one nonce. */
  lemma OrderedDistinct(log: seq<Sealed>, draws: nat, i: nat)
    requires S.Ordered(log, draws) && i < |log|
    ensures forall j :: 0 <= j < |log| && j != i ==> log[j].nonce != log[i].nonce
  {
    forall j | 0 <= j < |log| && j != i ensures log[j].nonce != log[i].nonce {
      assert NonceVal(log[j].nonce) != NonceVal(log[i].nonce);
    }
  }

  /** A message that the fold accepts is accepted by the viewer, whatever its clock says. */
  lemma StepFollowsFold(p: V.Phase, m: Bytes, now: int, log: seq<Sealed>)
    requires !p.Stopped? && SumStep(SumOf(p), m, log).Some?
    requires p.Streaming? ==> p.v.failures == 0
    ensures var q := V.Receive(p, m, now, log);
      && !q.Stopped? && SumOf(q) == SumStep(SumOf(p), m, log).value
      && (q.Streaming? ==> q.v.failures == 0)
      && (p.AwaitKey? && q.Streaming? ==> q.v.accepted == [])
  {
    hide NonceVal;
  }

  lemma SentOneMore(got: seq<Bytes>, m: Bytes, log: seq<Sealed>)
    ensures Sent(got + [m], log) == Sent(got, log) + Sent([m], log)
  {
    assert (got + [m])[..|got|] == got;
    assert [m][..0] == [];
  }

  lemma SizeOneMore(size: (nat, nat), got: seq<Bytes>, m: Bytes, log: seq<Sealed>)
    ensures SizeAfter(size, got + [m], log) == SizeAfter(SizeAfter(size, got, log), [m], log)
  {
    assert (got + [m])[..|got|] == got;
    assert [m][..0] == [];
  }

  /** A stream frame that the fold accepts carries the plaintext sealed with its nonce. */
  lemma FramePlainIs(s: Sum, m: Bytes, log: seq<Sealed>, draws: nat)
    requires s.Keyed? && m != [] && FramePlain(s, m, log).Some? && S.Ordered(log, draws)
    ensures FramePlain(s, m, log).value == PlainAt(log, FrameNonce(m))
    ensures SealedAs(m, log) && |FramePlain(s, m, log).value| + MIN_FRAME == |m|
  {
    hide NonceVal;
    var i := OpenSound(log, EpochKey(s.key, FrameEpoch(m)), FrameNonce(m), FrameCipher(m));
    OrderedDistinct(log, draws, i);
    PlainAtIs(log, i);
  }

  /** What a streaming viewer shows after a message that the fold accepts. */
  lemma OutputFollowsFold(p: V.Phase, m: Bytes, now: int, log: seq<Sealed>, draws: nat)
    requires p.Streaming? && SumStep(SumOf(p), m, log).Some? && S.Ordered(log, draws)
    ensures var q := V.Receive(p, m, now, log);
      && V.Output(V.History(q)) == V.Output(p.v.accepted) + Sent([m], log)
      && (q.Streaming? ==> (q.v.cols, q.v.rows) == SizeAfter((p.v.cols, p.v.rows), [m], log))
    ensures AllSealed([m], log)
  {
    hide NonceVal, V.Output, Sent, SizeAfter, FromBE;
    var h := V.History(V.Receive(p, m, now, log));
    OfOne(m, (p.v.cols, p.v.rows), log);
    if IsFrame(m) {
      FramePlainIs(SumOf(p), m, log, draws);
      var plain := FramePlain(SumOf(p), m, log).value;
      V.OutputOneMore(p.v.accepted, V.Accepted(NonceVal(FrameNonce(m)), plain, V.Written));
      V.OutputOneMore(p.v.accepted, V.Accepted(NonceVal(FrameNonce(m)), plain, V.Applied));
    }
  }

  lemma OfOne(m: Bytes, size: (nat, nat), log: seq<Sealed>)
    ensures Sent([m], log) ==
      if m != [] && m[0] == TAG_STREAM && |m| >= MIN_FRAME then PlainAt(log, FrameNonce(m)) else []
    ensures SizeAfter(size, [m], log) == if IsSizeFrame(m) then SizeIn(PlainAt(log, FrameNonce(m))) else size
  {
    assert [m][..0] == [];
  }

  lemma AllSealedOneMore(got: seq<Bytes>, m: Bytes, log: seq<Sealed>)
    requires AllSealed(got, log) && AllSealed([m], log)
    ensures AllSealed(got + [m], log)
  {
    hide SealedAs;
    forall x | x in got + [m] && IsFrame(x) && |x| >= MIN_FRAME ensures SealedAs(x, log) {
      assert x in got || x in [m];
    }
  }

  /** A viewer that shows exactly what was sealed for what it has read goes on doing so. */
  lemma ShowsOneMore(p: V.Phase, got: seq<Bytes>, m: Bytes, now: int, log: seq<Sealed>, draws: nat)
    requires p.Streaming? && SumStep(SumOf(p), m, log).Some? && S.Ordered(log, draws) && Shows(p.v, got, log)
    ensures var q := V.Receive(p, m, now, log); q.Streaming? ==> Shows(q.v, got + [m], log)
  {
    hide V.Receive, V.Output, Sent, SizeAfter, SumStep, AllSealed, S.Ordered;
    OutputFollowsFold(p, m, now, log, draws);
    SentOneMore(got, m, log);
    SizeOneMore((0, 0), got, m, log);
    AllSealedOneMore(got, m, log);
  }

  /** A viewer that has just received its key shows nothing yet. */
  lemma ShowsNothing(auth: Bytes, m: Bytes, now: int, log: seq<Sealed>)
    ensures var q := V.Receive(V.AwaitKey(auth), m, now, log); q.Streaming? ==> Shows(q.v, [], log)
  {}

  /** The viewer's own code run over `q`, reading its clock as `nows` says. */
  function Drain(p: V.Phase, q: seq<Bytes>, nows: seq<int>, log: seq<Sealed>): V.Phase
    requires |nows| == |q|
    decreases |q|
  {
    if q == [] then p else Drain(V.Receive(p, q[0], nows[0], log), q[1..], nows[1..], log)
  }

  function OutputOf(p: V.Phase): Bytes
  {
    V.Output(V.History(p))
  }

  /** Draining a queue that the fold accepts, whatever the clock says: nothing is rejected or lost. */
  lemma {:induction false} DrainFollowsFold(p: V.Phase, q: seq<Bytes>, nows: seq<int>, log: seq<Sealed>, draws: nat)
    requires |nows| == |q| && !p.Stopped? && (p.Streaming? ==> p.v.failures == 0)
    requires Fold(SumOf(p), q, log).Some? && S.Ordered(log, draws)
    ensures var t := Drain(p, q, nows, log);
      && !t.Stopped? && SumOf(t) == Fold(SumOf(p), q, log).value
      && (t.Streaming? ==> t.v.failures == 0)
      && (p.Streaming? ==> OutputOf(t) == OutputOf(p) + Sent(q, log))
      && (p.Streaming? && t.Streaming? ==> (t.v.cols, t.v.rows) == SizeAfter((p.v.cols, p.v.rows), q, log))
    decreases |q|
  {
    hide V.Receive, V.Output, SumStep, SumOf, S.Ordered, Sent, SizeAfter;
    if q == [] {
      SentNothing(log);
    } else {
      var p1 := V.Receive(p, q[0], nows[0], log);
      StepFollowsFold(p, q[0], nows[0], log);
      DrainFollowsFold(p1, q[1..], nows[1..], log, draws);
      if p.Streaming? {
        StaysStreaming(p, q[0], nows[0], log);
        OutputFollowsFold(p, q[0], nows[0], log, draws);
        SentHead(q, log);
        SizeHead((p.v.cols, p.v.rows), q, log);
      }
    }
  }

  lemma SentNothing(log: seq<Sealed>)
    ensures Sent([], log) == [] && forall size :: SizeAfter(size, [], log) == size
  {}

  lemma StaysStreaming(p: V.Phase, m: Bytes, now: int, log: seq<Sealed>)
    requires p.Streaming?
    ensures !V.Receive(p, m, now, log).Stopped? ==> V.Receive(p, m, now, log).Streaming?
  {
    hide V.Step;
  }

  lemma {:induction false} SentHead(q: seq<Bytes>, log: seq<Sealed>)
    requires q != []
    ensures Sent(q, log) == Sent([q[0]], log) + Sent(q[1..], log)
  {
    hide SentOf;
    var n := |q| - 1;
    if n == 0 {
      SentNothing(log);
      assert q == [q[0]];
    } else {
      SentHead(q[..n], log);
      assert q[1..][..n - 1] == q[..n][1..];
    }
  }

  lemma {:induction false} SizeHead(size: (nat, nat), q: seq<Bytes>, log: seq<Sealed>)
    requires q != []
    ensures SizeAfter(size, q, log) == SizeAfter(SizeAfter(size, [q[0]], log), q[1..], log)
  {
    hide PlainAt, SizeIn;
    var n := |q| - 1;
    if n == 0 {
      SentNothing(log);
      assert q == [q[0]];
    } else {
      SizeHead(size, q[..n], log);
      assert q[1..][..n - 1] == q[..n][1..];
    }
  }
}
