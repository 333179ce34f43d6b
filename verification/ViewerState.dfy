/**
 * What the Go viewer does with a message it receives (internal/viewer/viewer.go), as functions on values.
 * `now` is the clock reading in nanoseconds; `log` is everything sealed so far (see Aead.Open).
 */
module ViewerState {
  import opened ByteStrings
  import opened Aead
  import opened Nonces
  import opened Wire

  /** A plaintext the viewer wrote to its output, or applied as a terminal size. */
  datatype Kind = Written | Applied
  datatype Accepted = Accepted(nonce: nat, plain: Bytes, kind: Kind)

  /** currentEpoch, epochTransitionTime, epochInitialized */
  datatype EpochClock = EpochClock(initialized: bool, current: nat, since: int)

  /** `accepted` is the history of everything written and applied. */
  datatype State = State(
    streamKey: Bytes, authKey: Bytes, id: Id, lastNonce: nat, failures: nat,
    clock: EpochClock, cols: nat, rows: nat, accepted: seq<Accepted>)

  datatype Error = TooShort | EpochExpired | Replayed | NotAuthentic | WrongId
  datatype Exit =
    SessionEnded | SessionNotFound | AccessRevoked | BadDelivery | HandshakeFailed | HandshakeTimeout | ConnectionLost
  datatype Outcome = Continue | Stop(why: Exit)

  /** The viewer between joining and the end of its run, from the moment it waits for its key. */
  datatype Phase = AwaitKey(auth: Bytes) | Streaming(v: State) | Stopped(last: Option<State>, why: Exit)

  // ----- the receive loop

  function ValidateEpoch(c: EpochClock, epoch: nat, now: int): (r: (EpochClock, bool))
  {
    if !c.initialized then (EpochClock(true, epoch, now), true)
    else if epoch > c.current then (EpochClock(true, epoch, now), true)
    else if epoch == c.current then (c, true)
    else if epoch == (c.current - 1) % U64 && now - c.since <= EPOCH_GRACE_NANOS then (c, true)
    else (c, false)
  }

  /** The nonce is spent before the frame is opened. */
  function DecryptAndWrite(v: State, m: Bytes, now: int, log: seq<Sealed>): (r: (State, Option<Error>))
  {
    if |m| < MIN_FRAME then (v, Some(TooShort)) else
      var (clock, ok) := ValidateEpoch(v.clock, FrameEpoch(m), now);
      var v1 := v.(clock := clock);
      if !ok then (v1, Some(EpochExpired)) else
        var n := NonceVal(FrameNonce(m));
        if n <= v.lastNonce then (v1, Some(Replayed)) else
          var v2 := v1.(lastNonce := n);
          match Open(log, EpochKey(v.streamKey, FrameEpoch(m)), FrameNonce(m), FrameCipher(m))
          case None => (v2, Some(NotAuthentic))
          case Some(plain) => (v2.(accepted := v.accepted + [Accepted(n, plain, Written)]), None)
  }

  /** The nonce is spent only by a size frame that opens. */
  function DecryptAndApplySize(v: State, m: Bytes, now: int, log: seq<Sealed>): State
  {
    if |m| < MIN_FRAME + 4 then v else
      var (clock, ok) := ValidateEpoch(v.clock, FrameEpoch(m), now);
      var v1 := v.(clock := clock);
      if !ok then v1 else
        var n := NonceVal(FrameNonce(m));
        if n <= v.lastNonce then v1 else
          match Open(log, EpochKey(v.streamKey, FrameEpoch(m)), FrameNonce(m), FrameCipher(m))
          case None => v1
          case Some(plain) =>
            var v2 := v1.(lastNonce := n);
            if |plain| < 4 then v2 else
              v2.(cols := FromBE(plain[0..2]), rows := FromBE(plain[2..4]),
                  accepted := v.accepted + [Accepted(n, plain, Applied)])
  }

  function ProcessRekey(v: State, m: Bytes, log: seq<Sealed>): (State, Option<Error>)
  {
    if |m| < MIN_REKEY then (v, Some(TooShort))
    else if m[..6] != v.id then (v, Some(WrongId))
    else
      match Open(log, Auth(v.authKey), m[6..18], m[18..])
      case None => (v, Some(NotAuthentic))
      case Some(k) => (v.(streamKey := k, failures := 0), None)
  }

  /** One turn of streamLoop. */
  function Step(v: State, m: Bytes, now: int, log: seq<Sealed>): (State, Outcome)
  {
    if m == [] then (v, Continue)
    else if m[0] == TAG_STREAM then
      var (v1, e) := DecryptAndWrite(v, m, now, log);
      if e.None? then (v1.(failures := 0), Continue)
      else if e.value.EpochExpired? then (v1, Continue)
      else
        var v2 := v1.(failures := v1.failures + 1);
        (v2, if v2.failures >= REVOCATION_FAILURE_THRESHOLD then Stop(AccessRevoked) else Continue)
    else if m[0] == TAG_TERM_SIZE then (DecryptAndApplySize(v, m, now, log), Continue)
    else if m[0] == TAG_CONTROL then
      (v, if |m| >= 2 && m[1] == CTRL_SESSION_ENDED then Stop(SessionEnded) else Continue)
    else if m[0] == TAG_PONG then (v, Continue)
    else (ProcessRekey(v, m, log).0, Continue)
  }

  // ----- the last message of the handshake

  datatype Handshake = Skip | Fail(why: Exit) | Take

  /** recvHandshakeMsg: which message it returns, which it discards, which ends the run. */
  function RecvHandshake(m: Bytes): Handshake
  {
    if m == [] then Skip
    else if m[0] == TAG_STREAM || m[0] == TAG_TERM_SIZE || m[0] == TAG_PONG then Skip
    else if m[0] == TAG_CONTROL then
      if |m| >= 2 && m[1] == CTRL_SESSION_ENDED then Fail(SessionEnded)
      else if |m| >= 2 && m[1] == CTRL_SESSION_NOT_FOUND then Fail(SessionNotFound)
      else Skip
    else Take
  }

  function ProcessKeyDelivery(auth: Bytes, m: Bytes, log: seq<Sealed>): Option<State>
  {
    if |m| < MIN_DELIVERY then None else
      match Open(log, Auth(auth), m[6..18], m[18..])
      case None => None
      case Some(k) => Some(State(k, auth, m[..6], 0, 0, EpochClock(false, 0, 0), 0, 0, []))
  }

  function Receive(p: Phase, m: Bytes, now: int, log: seq<Sealed>): Phase
  {
    match p
    case Stopped(_, _) => p
    case AwaitKey(auth) =>
      (match RecvHandshake(m)
       case Skip => p
       case Fail(why) => Stopped(None, why)
       case Take =>
         match ProcessKeyDelivery(auth, m, log)
         case None => Stopped(None, BadDelivery)
         case Some(v) => Streaming(v))
    case Streaming(v) =>
      var (v1, out) := Step(v, m, now, log);
      if out.Stop? then Stopped(Some(v1), out.why) else Streaming(v1)
  }

  /** The viewer's state, if it ever got a key. */
  function StateOf(p: Phase): Option<State>
  {
    match p
    case AwaitKey(_) => None
    case Streaming(v) => Some(v)
    case Stopped(last, _) => last
  }

  function History(p: Phase): seq<Accepted>
  {
    match StateOf(p) case None => [] case Some(v) => v.accepted
  }

  /** Everything on the output, in order. */
  function Output(h: seq<Accepted>): Bytes
  {
    if h == [] then [] else
      Output(h[..|h| - 1]) + (if h[|h| - 1].kind.Written? then h[|h| - 1].plain else [])
  }

  lemma OutputOneMore(h: seq<Accepted>, a: Accepted)
    ensures Output(h + [a]) == Output(h) + (if a.kind.Written? then a.plain else [])
  {
    assert (h + [a])[..|h|] == h;
  }

  /** The handshake loop takes exactly the messages that no tag of the dispatch captures. */
  lemma TakesIffDefault(m: Bytes)
    ensures RecvHandshake(m).Take? <==> IsDefault(m)
  {}
}
