/**
 * Ideal authenticated encryption.  AES-256-GCM and the key derivations are foreign code; what the
 * theorems use of them is the types below and the definition of Open.
 */
module Aead {
  import opened ByteStrings

  /**
   * AEAD keys.  An epoch key is derived injectively from (stream key, epoch) and never equals a
   * per-viewer authentication key.
   */
  datatype Key = Auth(bytes: Bytes) | EpochKey(stream: Bytes, epoch: nat)

  type Cipher = f: (Key, Bytes, Bytes) -> Bytes
    | forall k, n, p :: |f(k, n, p)| == |p| + GCM_TAG_LEN
    witness (k: Key, n: Bytes, p: Bytes) => p + seq(16, _ => 0)

  /** The encryption function: arbitrary, except that the tag adds GCM_TAG_LEN bytes. */
  const Gcm: Cipher

  /** A record of one successful Seal call. */
  datatype Sealed = Sealed(key: Key, nonce: Bytes, plain: Bytes)

  /** The length check at the head of Seal; an epoch key always has KEY_LEN bytes. */
  predicate GoodKey(key: Key)
  {
    key.Auth? ==> |key.bytes| == KEY_LEN
  }

  predicate Match(s: Sealed, key: Key, nonce: Bytes, cipher: Bytes)
  {
    s.key == key && s.nonce == nonce && Gcm(s.key, s.nonce, s.plain) == cipher
  }

  /** Unforgeability: a ciphertext opens exactly when somebody sealed it under that key and nonce. */
  function Open(log: seq<Sealed>, key: Key, nonce: Bytes, cipher: Bytes): Option<Bytes>
  {
    if log == [] then None
    else if Match(log[0], key, nonce, cipher) then Some(log[0].plain)
    else Open(log[1..], key, nonce, cipher)
  }

  lemma {:induction false} OpenSound(log: seq<Sealed>, key: Key, nonce: Bytes, cipher: Bytes) returns (i: nat)
    requires Open(log, key, nonce, cipher).Some?
    ensures i < |log| && log[i] == Sealed(key, nonce, Open(log, key, nonce, cipher).value)
    ensures cipher == Gcm(key, nonce, log[i].plain)
  {
    if Match(log[0], key, nonce, cipher) {
      i := 0;
    } else {
      i := OpenSound(log[1..], key, nonce, cipher);
      i := i + 1;
    }
  }

  /** A sealed plaintext opens, to itself when no other entry shares its nonce. */
  lemma {:induction false} OpenSealed(log: seq<Sealed>, i: nat)
    requires i < |log|
    requires forall j :: 0 <= j < |log| && j != i ==> log[j].nonce != log[i].nonce
    ensures Open(log, log[i].key, log[i].nonce, Gcm(log[i].key, log[i].nonce, log[i].plain)) == Some(log[i].plain)
  {
    if i > 0 {
      OpenSealed(log[1..], i - 1);
    }
  }

  /** Later seals never change what an earlier ciphertext opens to. */
  lemma {:induction false} OpenStable(log: seq<Sealed>, more: seq<Sealed>, key: Key, nonce: Bytes, cipher: Bytes)
    requires Open(log, key, nonce, cipher).Some?
    ensures Open(log + more, key, nonce, cipher) == Open(log, key, nonce, cipher)
  {
    assert (log + more)[0] == log[0];
    if !Match(log[0], key, nonce, cipher) {
      assert (log + more)[1..] == log[1..] + more;
      OpenStable(log[1..], more, key, nonce, cipher);
    }
  }
}
