/**
 * The Go viewer as the program keeps it (internal/viewer/viewer.go): one object whose receive loop updates
 * nonce, failure and epoch fields, swaps key buffers on a rekey and zeroes them.  Each method refines a
 * function of ViewerState.  A message arrives with the clock reading and everything sealed by then.
 */
module ViewerHeap {
  import opened ByteStrings
  import opened Aead
  import opened Nonces
  import opened Wire
  import opened ViewerState
  import opened ViewerHistory
  import SessionHeap

  class Viewer {
    var streamKey: array<Byte>
    var authKey: array<Byte>
    var viewerID: Id
    var lastNonce: nat
    var consecutiveFailures: nat
    var currentEpoch: nat
    var epochTransitionTime: int
    var epochInitialized: bool
    var sharerCols: nat
    var sharerRows: nat
    var output: Bytes
    ghost var accepted: seq<Accepted>

    ghost predicate Valid()
      reads this
    {
      streamKey != authKey && output == Output(accepted)
    }

    ghost function Clock(): EpochClock
      reads this
    {
      EpochClock(epochInitialized, currentEpoch, epochTransitionTime)
    }

    ghost function Abs(): State
      reads this, streamKey, authKey
    {
      State(streamKey[..], authKey[..], viewerID, lastNonce, consecutiveFailures, Clock(), sharerCols, sharerRows,
            accepted)
    }

    /** processKeyDelivery has opened the delivery: the viewer adopts the keys. */
    constructor (k: Bytes, auth: Bytes, id: Id)
      ensures Valid() && fresh(streamKey) && fresh(authKey)
      ensures Abs() == State(k, auth, id, 0, 0, EpochClock(false, 0, 0), 0, 0, [])
    {
      streamKey := new Byte[|k|](i requires 0 <= i < |k| => k[i]);
      authKey := new Byte[|auth|](i requires 0 <= i < |auth| => auth[i]);
      viewerID, lastNonce, consecutiveFailures := id, 0, 0;
      currentEpoch, epochTransitionTime, epochInitialized := 0, 0, false;
      sharerCols, sharerRows, output, accepted := 0, 0, [], [];
      new;
      assert streamKey[..] == k && authKey[..] == auth;
    }

    method ValidateEpoch(epoch: nat, now: int) returns (ok: bool)
      modifies this`currentEpoch, this`epochTransitionTime, this`epochInitialized
      ensures (Clock(), ok) == ViewerState.ValidateEpoch(old(Clock()), epoch, now)
    {
      if !epochInitialized {
        currentEpoch, epochTransitionTime, epochInitialized := epoch, now, true;
        return true;
      }
      if epoch >= currentEpoch {
        if epoch > currentEpoch {
          currentEpoch, epochTransitionTime := epoch, now;
        }
        return true;
      }
      if epoch == (currentEpoch - 1) % U64 {
        if now - epochTransitionTime <= EPOCH_GRACE_NANOS {
          return true;
        }
      }
      return false;
    }

    /** Records what was accepted; a written plaintext is already on the output. */
    ghost method Note(a: Accepted)
      requires streamKey != authKey && output == Output(accepted) + (if a.kind.Written? then a.plain else [])
      modifies this`accepted
      ensures Valid() && accepted == old(accepted) + [a]
    {
      hide Output;
      OutputOneMore(accepted, a);
      assert a.kind.Written? || output + [] == output;
      accepted := accepted + [a];
    }

    method DecryptAndWrite(frame: Bytes, now: int, log: seq<Sealed>) returns (err: Option<Error>)
      requires Valid()
      modifies this
      ensures Valid() && streamKey == old(streamKey) && authKey == old(authKey)
      ensures (Abs(), err) == ViewerState.DecryptAndWrite(old(Abs()), frame, now, log)
    {
      hide NonceVal, Open, ViewerState.ValidateEpoch, Output, FromBE, FrameEpoch, FrameNonce, FrameCipher;
      if |frame| < MIN_FRAME {
        return Some(TooShort);
      }
      var epoch := FrameEpoch(frame);
      var ok := ValidateEpoch(epoch, now);
      if !ok {
        return Some(EpochExpired);
      }
      var nonceVal := ReadNonce(FrameNonce(frame));
      if nonceVal <= lastNonce {
        return Some(Replayed);
      }
      lastNonce := nonceVal;
      match Open(log, EpochKey(streamKey[..], epoch), FrameNonce(frame), FrameCipher(frame))
      case None => err := Some(NotAuthentic);
      case Some(plain) =>
        output := output + plain;
        Note(Accepted(nonceVal, plain, Written));
        err := None;
    }

    method DecryptAndApplySize(frame: Bytes, now: int, log: seq<Sealed>)
      requires Valid()
      modifies this
      ensures Valid() && streamKey == old(streamKey) && authKey == old(authKey)
      ensures Abs() == ViewerState.DecryptAndApplySize(old(Abs()), frame, now, log)
    {
      hide NonceVal, Open, ViewerState.ValidateEpoch, Output, FromBE, FrameEpoch, FrameNonce, FrameCipher;
      if |frame| < MIN_FRAME + 4 {
        return;
      }
      var epoch := FrameEpoch(frame);
      var ok := ValidateEpoch(epoch, now);
      if !ok {
        return;
      }
      var nonceVal := ReadNonce(FrameNonce(frame));
      if nonceVal <= lastNonce {
        return;
      }
      match Open(log, EpochKey(streamKey[..], epoch), FrameNonce(frame), FrameCipher(frame))
      case None =>
      case Some(plain) =>
        lastNonce := nonceVal;
        if |plain| >= 4 {
          sharerCols, sharerRows := FromBE(plain[0..2]), FromBE(plain[2..4]);
          Note(Accepted(nonceVal, plain, Applied));
        }
    }

    /** The old stream key is zeroed before the new one takes its place. */
    method ProcessRekey(data: Bytes, log: seq<Sealed>) returns (err: Option<Error>)
      requires Valid()
      modifies this, streamKey
      ensures Valid() && authKey == old(authKey) && (streamKey == old(streamKey) || fresh(streamKey))
      ensures (Abs(), err) == ViewerState.ProcessRekey(old(Abs()), data, log)
      ensures err.None? ==> SessionHeap.AllZero(old(streamKey))
    {
      hide Open;
      if |data| < MIN_REKEY {
        return Some(TooShort);
      }
      if data[..VIEWER_ID_LEN] != viewerID {
        return Some(WrongId);
      }
      match Open(log, Auth(authKey[..]), data[6..18], data[18..])
      case None => err := Some(NotAuthentic);
      case Some(k) =>
        SessionHeap.ZeroBytes(streamKey);
        streamKey := new Byte[|k|](i requires 0 <= i < |k| => k[i]);
        assert streamKey[..] == k;
        consecutiveFailures := 0;
        err := None;
    }

    /** One turn of streamLoop. */
    method Turn(a: Arrival) returns (out: Outcome)
      requires Valid()
      modifies this, streamKey
      ensures Valid() && authKey == old(authKey) && (streamKey == old(streamKey) || fresh(streamKey))
      ensures (Abs(), out) == Step(old(Abs()), a.m, a.now, a.log)
    {
      hide ViewerState.DecryptAndWrite, ViewerState.DecryptAndApplySize, ViewerState.ProcessRekey;
      out := Continue;
      var data := a.m;
      if data == [] {
        return;
      }
      if data[0] == TAG_STREAM {
        var err := DecryptAndWrite(data, a.now, a.log);
        if err.Some? {
          if !err.value.EpochExpired? {
            consecutiveFailures := consecutiveFailures + 1;
            if consecutiveFailures >= REVOCATION_FAILURE_THRESHOLD {
              out := Stop(AccessRevoked);
            }
          }
        } else {
          consecutiveFailures := 0;
        }
      } else if data[0] == TAG_TERM_SIZE {
        DecryptAndApplySize(data, a.now, a.log);
      } else if data[0] == TAG_CONTROL {
        if |data| >= 2 && data[1] == CTRL_SESSION_ENDED {
          out := Stop(SessionEnded);
        }
      } else if data[0] != TAG_PONG {
        var err := ProcessRekey(data, a.log);
      }
    }

    /** The receive loop, until it ends or the connection is lost after the last message. */
    method StreamLoop(inbox: seq<Arrival>) returns (exit: Option<Exit>)
      requires Valid()
      modifies this, streamKey
      ensures Valid() && authKey == old(authKey)
      ensures exists n :: 0 <= n <= |inbox| && (exit.None? ==> n == |inbox|)
                && ReadsAll(old(Abs()), inbox[..n]) && (Abs(), exit) == Loop(old(Abs()), inbox[..n])
    {
      hide Step;
      exit := None;
      var i := 0;
      ghost var key := streamKey;
      while i < |inbox| && exit.None?
        invariant 0 <= i <= |inbox|
        invariant Valid() && authKey == old(authKey) && (streamKey == key || fresh(streamKey))
        invariant ReadsAll(old(Abs()), inbox[..i]) && (Abs(), exit) == Loop(old(Abs()), inbox[..i])
      {
        var out := Turn(inbox[i]);
        if out.Stop? {
          exit := Some(out.why);
        }
        i := i + 1;
        assert inbox[..i][..i - 1] == inbox[..i - 1];
      }
    }

    /** zeroKeys, at the end of the run. */
    method ZeroKeys()
      requires Valid()
      modifies streamKey, authKey
      ensures SessionHeap.AllZero(streamKey) && SessionHeap.AllZero(authKey)
      ensures Valid()
    {
      SessionHeap.ZeroBytes(streamKey);
      SessionHeap.ZeroBytes(authKey);
    }
  }

  /**
   * recvHandshakeMsg: skips to the first message that is taken or ends the handshake; `end` is the error of
   * the receive after the last message, a handshake timeout or a lost connection.
   */
  method RecvHandshakeMsg(inbox: seq<Bytes>, end: Exit) returns (n: nat, r: Handshake)
    ensures n <= |inbox| && forall i :: 0 <= i < n ==> RecvHandshake(inbox[i]).Skip?
    ensures if n < |inbox| then r == RecvHandshake(inbox[n]) && !r.Skip? else r == Fail(end)
  {
    n := 0;
    while n < |inbox|
      invariant 0 <= n <= |inbox|
      invariant forall i :: 0 <= i < n ==> RecvHandshake(inbox[i]).Skip?
    {
      var data := inbox[n];
      if data == [] {
      } else if data[0] == TAG_STREAM || data[0] == TAG_TERM_SIZE || data[0] == TAG_PONG {
      } else if data[0] == TAG_CONTROL {
        if |data| >= 2 && data[1] == CTRL_SESSION_ENDED {
          return n, Fail(SessionEnded);
        }
        if |data| >= 2 && data[1] == CTRL_SESSION_NOT_FOUND {
          return n, Fail(SessionNotFound);
        }
      } else {
        return n, Take;
      }
      n := n + 1;
    }
    r := Fail(end);
  }
}
