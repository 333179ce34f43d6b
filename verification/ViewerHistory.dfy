/**
 * The receive loop of the viewer over whole inboxes: its counters tell the truth about what it has seen.
 * An inbox lists, for each message, the clock reading and everything sealed by then; it ends when the
 * connection is lost.
 */
module ViewerHistory {
  import opened ByteStrings
  import opened Aead
  import opened Nonces
  import opened Wire
  import opened ViewerState
  import SharerState

  datatype Arrival = Arrival(m: Bytes, now: int, log: seq<Sealed>)

  function Loop(v: State, inbox: seq<Arrival>): (State, Option<Exit>)
  {
    if inbox == [] then (v, None) else
      var n := |inbox| - 1;
      var (v1, e) := Loop(v, inbox[..n]);
      if e.Some? then (v1, e) else
        var (v2, out) := Step(v1, inbox[n].m, inbox[n].now, inbox[n].log);
        (v2, if out.Stop? then Some(out.why) else None)
  }

  /** The loop reaches the last message of the inbox. */
  predicate ReadsAll(v: State, inbox: seq<Arrival>)
  {
    inbox != [] ==> Loop(v, inbox[..|inbox| - 1]).1.None?
  }

  // ----- the epoch clock

  /** A passed check: not older than the newest epoch, or one behind it during the grace period. */
  lemma ValidateEpochIff(c: EpochClock, epoch: nat, now: int)
    requires epoch < U64 && c.current < U64
    ensures ValidateEpoch(c, epoch, now).1 <==>
      !c.initialized || epoch >= c.current || (epoch + 1 == c.current && now - c.since <= 5_000_000_000)
  {}

  /** The epoch a message makes the viewer check, and when. */
  function Check(a: Arrival): seq<(nat, int)>
  {
    if a.m != [] && |a.m| >= MIN_FRAME
       && (a.m[0] == TAG_STREAM || (a.m[0] == TAG_TERM_SIZE && |a.m| >= MIN_FRAME + 4))
    then [(FrameEpoch(a.m), a.now)] else []
  }

  function Checks(inbox: seq<Arrival>): seq<(nat, int)>
  {
    if inbox == [] then [] else Checks(inbox[..|inbox| - 1]) + Check(inbox[|inbox| - 1])
  }

  /** The check at i is the first one of the clock's epoch, at the time the clock remembers. */
  predicate FirstAt(c: EpochClock, checks: seq<(nat, int)>, i: int)
  {
    && 0 <= i < |checks| && checks[i] == (c.current, c.since)
    && forall j :: 0 <= j < i ==> checks[j].0 < c.current
  }

  /** The clock holds the largest epoch checked so far and the time of its first appearance. */
  ghost predicate Newest(c: EpochClock, checks: seq<(nat, int)>)
  {
    && (c.initialized <==> checks != [])
    && (checks != [] ==>
          && (forall i :: 0 <= i < |checks| ==> checks[i].0 <= c.current)
          && exists i :: FirstAt(c, checks, i))
  }

  lemma NewestOneMore(c: EpochClock, checks: seq<(nat, int)>, epoch: nat, now: int)
    requires Newest(c, checks)
    ensures Newest(ValidateEpoch(c, epoch, now).0, checks + [(epoch, now)])
  {
    var d, more := ValidateEpoch(c, epoch, now).0, checks + [(epoch, now)];
    if d == c {
      var i :| FirstAt(c, checks, i);
      assert FirstAt(d, more, i);
    } else {
      assert FirstAt(d, more, |checks|);
    }
  }

  lemma {:induction false} EpochClockRefines(v: State, inbox: seq<Arrival>)
    requires !v.clock.initialized && ReadsAll(v, inbox)
    ensures Newest(Loop(v, inbox).0.clock, Checks(inbox))
  {
    if inbox != [] {
      hide Newest;
      var n := |inbox| - 1;
      ReadsAllShorter(v, inbox);
      EpochClockRefines(v, inbox[..n]);
      var v1, a := Loop(v, inbox[..n]).0, inbox[n];
      StepClock(v1, a);
      if Check(a) != [] {
        NewestOneMore(v1.clock, Checks(inbox[..n]), FrameEpoch(a.m), a.now);
      } else {
        assert Checks(inbox) == Checks(inbox[..n]);
      }
    } else {
      assert Checks(inbox) == [];
    }
  }

  lemma ReadsAllShorter(v: State, inbox: seq<Arrival>)
    requires inbox != [] && ReadsAll(v, inbox)
    ensures ReadsAll(v, inbox[..|inbox| - 1])
  {
    hide Step;
  }

  lemma StepClock(v: State, a: Arrival)
    ensures Step(v, a.m, a.now, a.log).0.clock ==
      if Check(a) == [] then v.clock else ValidateEpoch(v.clock, FrameEpoch(a.m), a.now).0
  {
    hide ValidateEpoch;
  }

  // ----- the failure counter

  datatype Verdict = Good | Bad | Neutral

  /** Good: a stream frame was written or the key rotated.  Bad: a stream frame failed, and not for its epoch. */
  function VerdictOf(v: State, a: Arrival): Verdict
  {
    if a.m == [] then Neutral
    else if a.m[0] == TAG_STREAM then
      var e := DecryptAndWrite(v, a.m, a.now, a.log).1;
      if e.None? then Good else if e.value.EpochExpired? then Neutral else Bad
    else if IsDefault(a.m) && ProcessRekey(v, a.m, a.log).1.None? then Good
    else Neutral
  }

  function Verdicts(v: State, inbox: seq<Arrival>): (vs: seq<Verdict>)
    ensures |vs| == |inbox|
  {
    if inbox == [] then [] else
      var n := |inbox| - 1;
      Verdicts(v, inbox[..n]) + [VerdictOf(Loop(v, inbox[..n]).0, inbox[n])]
  }

  function Bads(vs: seq<Verdict>): nat
  {
    if vs == [] then 0 else Bads(vs[..|vs| - 1]) + (if vs[|vs| - 1].Bad? then 1 else 0)
  }

  /** The verdicts since the last good one begin at k. */
  predicate SinceLastGood(vs: seq<Verdict>, k: nat)
  {
    && k <= |vs| && (k > 0 ==> vs[k - 1].Good?)
    && forall i :: k <= i < |vs| ==> !vs[i].Good?
  }

  ghost predicate Counts(failures: nat, vs: seq<Verdict>)
  {
    exists k: nat :: SinceLastGood(vs, k) && failures == Bads(vs[k..])
  }

  lemma BadsOneMore(vs: seq<Verdict>, x: Verdict)
    ensures Bads(vs + [x]) == Bads(vs) + (if x.Bad? then 1 else 0)
  {
    assert (vs + [x])[..|vs|] == vs;
  }

  lemma CountsOneMore(failures: nat, vs: seq<Verdict>, x: Verdict)
    requires Counts(failures, vs)
    ensures Counts(if x.Good? then 0 else if x.Bad? then failures + 1 else failures, vs + [x])
  {
    hide Bads;
    var k: nat :| SinceLastGood(vs, k) && failures == Bads(vs[k..]);
    var more := vs + [x];
    if x.Good? {
      NoBads();
      assert SinceLastGood(more, |more|) && more[|more|..] == [];
    } else {
      BadsOneMore(vs[k..], x);
      assert SinceLastGood(more, k) && more[k..] == vs[k..] + [x];
    }
  }

  lemma NoBads()
    ensures Bads([]) == 0
  {}

  lemma StepFailures(v: State, a: Arrival)
    ensures var (w, out) := Step(v, a.m, a.now, a.log);
      && w.failures == (match VerdictOf(v, a) case Good => 0 case Bad => v.failures + 1 case Neutral => v.failures)
      && (out == Stop(AccessRevoked) <==> VerdictOf(v, a).Bad? && w.failures >= 10)
  {
    hide ValidateEpoch;
  }

  /** A stream frame whose epoch is current, or the previous one during the grace period, or the first ever. */
  predicate InTime(v: State, a: Arrival)
    requires |a.m| >= 37
  {
    var epoch := FromBE(a.m[1..9]);
    !v.clock.initialized || epoch >= v.clock.current
    || (epoch + 1 == v.clock.current && a.now - v.clock.since <= 5_000_000_000)
  }

  /** A frame whose nonce is newer than the floor and whose ciphertext opens. */
  predicate Genuine(v: State, a: Arrival)
    requires |a.m| >= 37
  {
    && FromBE(a.m[9..21][4..12]) > v.lastNonce
    && Open(a.log, EpochKey(v.streamKey, FromBE(a.m[1..9])), a.m[9..21], a.m[21..]).Some?
  }

  lemma EpochBelow(m: Bytes)
    requires |m| >= 37
    ensures FromBE(m[1..9]) < U64
  {
    ToFromBE(m[1..9]);
    Pow256Of8();
  }

  /**
   * A message counts as a failure exactly if it is a stream frame that is too short, or in time but replayed or
   * not authentic; exactly the genuine ones in time are written, the late ones are ignored.
   */
  lemma VerdictIff(v: State, a: Arrival)
    requires v.clock.current < U64
    ensures var stream := a.m != [] && a.m[0] == 2;
      && (VerdictOf(v, a).Bad? <==> stream && (|a.m| < 37 || (InTime(v, a) && !Genuine(v, a))))
      && (stream ==> (VerdictOf(v, a).Good? <==> |a.m| >= 37 && InTime(v, a) && Genuine(v, a)))
  {
    if |a.m| >= 37 {
      EpochBelow(a.m);
      ValidateEpochIff(v.clock, FromBE(a.m[1..9]), a.now);
    }
    hide ValidateEpoch, Open, FromBE, ProcessRekey;
  }

  /** Exactly the authentic, newer size frames in time with four bytes or more are applied. */
  lemma AppliedIff(v: State, a: Arrival)
    requires v.clock.current < U64
    ensures var w := Step(v, a.m, a.now, a.log).0;
      var size := |a.m| >= 41 && a.m[0] == 7;
      && (size && InTime(v, a) && Genuine(v, a) ==>
            && |w.accepted| == |v.accepted| + 1 && w.accepted[|v.accepted|].kind == Applied
            && Open(a.log, EpochKey(v.streamKey, FromBE(a.m[1..9])), a.m[9..21], a.m[21..])
                 == Some(w.accepted[|v.accepted|].plain))
      && (a.m != [] && a.m[0] == 7 && !(size && InTime(v, a) && Genuine(v, a)) ==> w.accepted == v.accepted)
  {
    if |a.m| >= 41 {
      EpochBelow(a.m);
      ValidateEpochIff(v.clock, FromBE(a.m[1..9]), a.now);
      if Open(a.log, EpochKey(v.streamKey, FromBE(a.m[1..9])), a.m[9..21], a.m[21..]).Some? {
        var i := OpenSound(a.log, EpochKey(v.streamKey, FromBE(a.m[1..9])), a.m[9..21], a.m[21..]);
      }
    }
    hide ValidateEpoch, Open, FromBE;
  }

  /** A message that no tag captures rekeys the viewer exactly if it bears its identifier and opens under its key. */
  lemma RekeyedIff(v: State, a: Arrival)
    requires a.m != [] && a.m[0] !in {2, 5, 6, 7}
    ensures var w := Step(v, a.m, a.now, a.log).0;
      if |a.m| >= 35 && a.m[..6] == v.id && Open(a.log, Auth(v.authKey), a.m[6..18], a.m[18..]).Some?
      then w == v.(streamKey := Open(a.log, Auth(v.authKey), a.m[6..18], a.m[18..]).value, failures := 0)
      else w == v
  {
    hide Open;
  }

  /**
   * The counter is the number of bad verdicts since the last good one, and the loop reports a revoked
   * access exactly when that number reaches ten.
   */
  lemma {:induction false} FailuresRefine(v: State, inbox: seq<Arrival>)
    requires v.failures == 0 && ReadsAll(v, inbox)
    ensures Counts(Loop(v, inbox).0.failures, Verdicts(v, inbox))
    ensures Loop(v, inbox).0.failures <= 10
    ensures Loop(v, inbox).1 == Some(AccessRevoked) <==> Loop(v, inbox).0.failures == 10
  {
    if inbox == [] {
      var none: seq<Verdict> := [];
      assert SinceLastGood(none, 0) && none[0..] == [];
    } else {
      hide Counts, Step, VerdictOf;
      var n := |inbox| - 1;
      ReadsAllShorter(v, inbox);
      FailuresRefine(v, inbox[..n]);
      var v1 := Loop(v, inbox[..n]).0;
      StepFailures(v1, inbox[n]);
      CountsOneMore(v1.failures, Verdicts(v, inbox[..n]), VerdictOf(v1, inbox[n]));
    }
  }

  // ----- the end of the run

  /** The relay's notice that the session is over, and that there is none. */
  predicate SaysEnded(m: Bytes)
  {
    |m| >= 2 && m[0] == 6 && m[1] == 4
  }

  predicate SaysNotFound(m: Bytes)
  {
    |m| >= 2 && m[0] == 6 && m[1] == 3
  }

  lemma StepEnds(v: State, a: Arrival)
    ensures var out := Step(v, a.m, a.now, a.log).1;
      && (out == Stop(SessionEnded) <==> SaysEnded(a.m))
      && (out.Stop? ==> out.why.SessionEnded? || out.why.AccessRevoked?)
  {
    hide DecryptAndWrite, DecryptAndApplySize, ProcessRekey;
  }

  /** The loop ends for no other reason than revoked access, and reports the session's end exactly on that notice. */
  lemma {:induction false} EndsRefine(v: State, inbox: seq<Arrival>)
    requires ReadsAll(v, inbox)
    ensures Loop(v, inbox).1 == Some(SessionEnded) <==> inbox != [] && SaysEnded(inbox[|inbox| - 1].m)
    ensures forall i :: 0 <= i < |inbox| - 1 ==> !SaysEnded(inbox[i].m)
    ensures Loop(v, inbox).1.Some? ==> Loop(v, inbox).1.value.SessionEnded? || Loop(v, inbox).1.value.AccessRevoked?
  {
    if inbox != [] {
      hide Step, SaysEnded;
      var n := |inbox| - 1;
      ReadsAllShorter(v, inbox);
      EndsRefine(v, inbox[..n]);
      StepEnds(Loop(v, inbox[..n]).0, inbox[n]);
      assert forall i :: 0 <= i < n ==> inbox[i] == inbox[..n][i];
      assert n > 0 ==> !SaysEnded(inbox[n - 1].m);
    }
  }

  /** Which messages end the handshake, and how; every other one is taken or skipped. */
  lemma HandshakeEndsIff(m: Bytes)
    ensures RecvHandshake(m) == Fail(SessionEnded) <==> SaysEnded(m)
    ensures RecvHandshake(m) == Fail(SessionNotFound) <==> SaysNotFound(m)
    ensures RecvHandshake(m).Fail? <==> SaysEnded(m) || SaysNotFound(m)
    ensures RecvHandshake(m).Take? <==> m != [] && m[0] !in {2, 5, 6, 7}
  {}

  // ----- the nonce floor

  /** The nonce that a message spends if it is newer: of a stream frame, opened or not; of a size frame that opens. */
  function Offer(v: State, a: Arrival): seq<nat>
  {
    if Check(a) == [] || !ValidateEpoch(v.clock, FrameEpoch(a.m), a.now).1 then []
    else if a.m[0] == TAG_TERM_SIZE
         && Open(a.log, EpochKey(v.streamKey, FrameEpoch(a.m)), FrameNonce(a.m), FrameCipher(a.m)).None? then []
    else [NonceVal(FrameNonce(a.m))]
  }

  function Offers(v: State, inbox: seq<Arrival>): seq<nat>
  {
    if inbox == [] then [] else
      var n := |inbox| - 1;
      Offers(v, inbox[..n]) + Offer(Loop(v, inbox[..n]).0, inbox[n])
  }

  /** Frames in order pass it, replayed and reordered ones do not. */
  predicate IsFloor(floor: nat, start: nat, offers: seq<nat>)
  {
    && start <= floor && (floor == start || floor in offers)
    && forall n :: n in offers ==> n <= floor
  }

  lemma StepFloor(v: State, a: Arrival)
    ensures var w := Step(v, a.m, a.now, a.log).0;
      w.lastNonce == if Offer(v, a) == [] then v.lastNonce else Larger(v.lastNonce, Offer(v, a)[0])
  {
    hide ValidateEpoch, Open, FrameEpoch, FrameNonce, FrameCipher, NonceVal, FromBE;
  }

  function Larger(a: nat, b: nat): nat
  {
    if a >= b then a else b
  }

  /** What a frame must exceed is the highest nonce spent so far. */
  lemma {:induction false} FloorRefines(v: State, inbox: seq<Arrival>)
    requires ReadsAll(v, inbox)
    ensures IsFloor(Loop(v, inbox).0.lastNonce, v.lastNonce, Offers(v, inbox))
  {
    if inbox != [] {
      hide Step, Offer;
      var n := |inbox| - 1;
      ReadsAllShorter(v, inbox);
      FloorRefines(v, inbox[..n]);
      StepFloor(Loop(v, inbox[..n]).0, inbox[n]);
      OneOffer(Loop(v, inbox[..n]).0, inbox[n]);
    }
  }

  lemma OneOffer(v: State, a: Arrival)
    ensures |Offer(v, a)| <= 1
  {
    hide ValidateEpoch, Open, FrameEpoch, FrameNonce, FrameCipher, NonceVal;
  }

  // ----- the terminal size

  /** The size announced by the last size frame that was applied. */
  function LastSize(h: seq<Accepted>): (nat, nat)
    requires forall i :: 0 <= i < |h| && h[i].kind.Applied? ==> |h[i].plain| >= 4
  {
    if h == [] then (0, 0)
    else if h[|h| - 1].kind.Applied? then (FromBE(h[|h| - 1].plain[0..2]), FromBE(h[|h| - 1].plain[2..4]))
    else LastSize(h[..|h| - 1])
  }

  predicate WholeSizes(h: seq<Accepted>)
  {
    forall i :: 0 <= i < |h| && h[i].kind.Applied? ==> |h[i].plain| >= 4
  }

  /** What one message adds to the history, if anything. */
  lemma StepHistory(v: State, a: Arrival)
    ensures var w := Step(v, a.m, a.now, a.log).0;
      if w.accepted == v.accepted then (w.cols, w.rows) == (v.cols, v.rows)
      else
        && |w.accepted| == |v.accepted| + 1 && w.accepted[..|v.accepted|] == v.accepted
        && var last := w.accepted[|v.accepted|];
           if last.kind.Written? then (w.cols, w.rows) == (v.cols, v.rows)
           else |last.plain| >= 4 && (w.cols, w.rows) == (FromBE(last.plain[0..2]), FromBE(last.plain[2..4]))
  {
    hide ValidateEpoch, FromBE, Open, FrameEpoch, FrameNonce, FrameCipher;
  }

  /** What a viewer has applied, and whether it shows the last of it. */
  predicate SizeTrue(v: State)
  {
    WholeSizes(v.accepted) && (v.cols, v.rows) == LastSize(v.accepted)
  }

  lemma SizeTrueStep(v: State, a: Arrival)
    requires SizeTrue(v)
    ensures SizeTrue(Step(v, a.m, a.now, a.log).0)
  {
    hide Step, FromBE;
    StepHistory(v, a);
    var w := Step(v, a.m, a.now, a.log).0;
    if w.accepted != v.accepted {
      assert w.accepted == v.accepted + [w.accepted[|v.accepted|]];
    }
  }

  /** The viewer's idea of the sharer's terminal is the last size it applied. */
  lemma {:induction false} SizeRefines(v: State, inbox: seq<Arrival>)
    requires v.accepted == [] && v.cols == 0 && v.rows == 0
    ensures var w := Loop(v, inbox).0; WholeSizes(w.accepted) && (w.cols, w.rows) == LastSize(w.accepted)
  {
    SizeHolds(v, inbox);
  }

  lemma {:induction false} SizeHolds(v: State, inbox: seq<Arrival>)
    requires SizeTrue(v)
    ensures SizeTrue(Loop(v, inbox).0)
  {
    hide Step, SizeTrue;
    if inbox != [] {
      SizeHolds(v, inbox[..|inbox| - 1]);
      SizeTrueStep(Loop(v, inbox[..|inbox| - 1]).0, inbox[|inbox| - 1]);
    }
  }

  /** A size frame carries what the sharer was told. */
  lemma SizeRoundTrip(cols: nat, rows: nat)
    requires cols < 65536 && rows < 65536
    ensures var p := SharerState.SizePlain(cols, rows); FromBE(p[0..2]) == cols && FromBE(p[2..4]) == rows
  {
    assert Pow256(2) == 65536;
    FromToBE(cols, 2);
    FromToBE(rows, 2);
    var p := SharerState.SizePlain(cols, rows);
    assert p[0..2] == ToBE(cols, 2) && p[2..4] == ToBE(rows, 2);
  }

  /** The first message that no tag captures gives the viewer its key, if it is long enough and opens, or ends it. */
  lemma KeyTakenIff(auth: Bytes, m: Bytes, now: int, log: seq<Sealed>)
    requires m != [] && m[0] !in {2, 5, 6, 7}
    ensures if |m| >= 19 && Open(log, Auth(auth), m[6..18], m[18..]).Some?
      then Receive(AwaitKey(auth), m, now, log).Streaming?
      else Receive(AwaitKey(auth), m, now, log) == Stopped(None, BadDelivery)
  {
    hide Open;
  }

  /** A viewer that has just taken its key has seen and shown nothing, and holds what the delivery carried. */
  lemma FreshViewer(auth: Bytes, m: Bytes, now: int, log: seq<Sealed>)
    requires Receive(AwaitKey(auth), m, now, log).Streaming?
    ensures var v := Receive(AwaitKey(auth), m, now, log).v;
      && v.authKey == auth && v.id == m[..6] && Open(log, Auth(auth), m[6..18], m[18..]) == Some(v.streamKey)
      && v.lastNonce == 0 && v.failures == 0 && !v.clock.initialized && v.clock.current == 0
      && v.accepted == [] && (v.cols, v.rows) == (0, 0)
  {
    hide Open;
  }
}
