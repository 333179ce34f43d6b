/**
 * The session as the program keeps it (internal/session/session.go): key buffers on the heap, allocated,
 * copied, shared with nobody and zeroed in place.  Each method refines a function of SessionState; the
 * buffers it ever allocated are tracked to say who still holds key material.
 */
module SessionHeap {
  import opened ByteStrings
  import opened Aead
  import opened Nonces
  import opened SessionState

  ghost predicate AllZero(b: array<Byte>)
    reads b
  {
    forall i :: 0 <= i < b.Length ==> b[i] == 0
  }

  predicate IsZero(key: Bytes)
  {
    forall i :: 0 <= i < |key| ==> key[i] == 0
  }

  method ZeroBytes(b: array<Byte>)
    modifies b
    ensures AllZero(b)
  {
    for i := 0 to b.Length
      invariant forall k :: 0 <= k < i ==> b[k] == 0
    {
      b[i] := 0;
    }
  }

  /** NewSecureBuffer refuses a size that is not positive; the page lock is left out. */
  method NewSecureBuffer(size: nat) returns (buf: Option<array<Byte>>)
    ensures buf.None? <==> size == 0
    ensures buf.Some? ==> fresh(buf.value) && buf.value.Length == size && AllZero(buf.value)
  {
    if size == 0 {
      buf := None;
    } else {
      var b := new Byte[size](_ => 0);
      buf := Some(b);
    }
  }

  method SecureCopy(key: array<Byte>) returns (buf: Option<array<Byte>>)
    ensures buf.None? <==> key.Length == 0
    ensures buf.Some? ==> fresh(buf.value) && buf.value[..] == key[..]
  {
    buf := NewSecureBuffer(key.Length);
    if buf.Some? {
      Copy(buf.value, 0, key.Length, key[..]);
    }
  }

  /** A buffer of fresh random bytes. */
  method NewStreamKey(random: Bytes) returns (k: array<Byte>)
    requires |random| == KEY_LEN
    ensures fresh(k) && k[..] == random
  {
    k := new Byte[KEY_LEN](i requires 0 <= i < KEY_LEN => random[i]);
  }

  datatype Viewer = Viewer(authKey: array<Byte>, joinTime: int, clientType: ClientType)
  datatype ViewerInfo = ViewerInfo(id: Id, joinTime: int, clientType: ClientType)

  class Session {
    var streamKey: array<Byte>
    const counter: NonceCounter
    var viewers: map<Id, Viewer>
    var revokedIDs: set<Id>
    var closed: bool

    /**
     * Everything sealed so far; every key buffer ever allocated; those that lost their last reference unzeroed,
     * with the key that they go on holding.
     */
    ghost var log: seq<Sealed>
    ghost var buffers: set<array<Byte>>
    ghost var leaked: map<array<Byte>, Bytes>

    /** The buffers the session still refers to. */
    ghost function Owned(): set<array<Byte>>
      reads `viewers, `streamKey
    {
      {streamKey} + set id | id in viewers :: viewers[id].authKey
    }

    /** Owned buffers are distinct and of key length, and key material lives nowhere else but in leaked ones. */
    ghost predicate Valid()
      reads this, counter, buffers
    {
      && counter.Valid()
      && Owned() <= buffers && leaked.Keys <= buffers && leaked.Keys !! Owned()
      && (forall b :: b in leaked ==> b[..] == leaked[b])
      && streamKey.Length == KEY_LEN
      && (forall id :: id in viewers ==> viewers[id].authKey.Length == KEY_LEN && viewers[id].authKey != streamKey)
      && (forall a, b :: a in viewers && b in viewers && a != b ==> viewers[a].authKey != viewers[b].authKey)
      && (forall b :: b in buffers && b !in Owned() && b !in leaked ==> AllZero(b))
      && (closed ==> viewers == map[] && AllZero(streamKey))
    }

    /**
     * As long as no identifier was given out twice: key material lives only in the current stream key and the
     * keys of listed viewers, and these are pairwise distinct buffers.
     */
    lemma KeyMaterialAccountedFor(b: array<Byte>)
      requires Valid() && leaked == map[] && b in buffers && !AllZero(b)
      ensures b == streamKey || exists id :: id in viewers && viewers[id].authKey == b
      ensures b == streamKey ==> forall id :: id in viewers ==> viewers[id].authKey != b
      ensures forall x, y | x in viewers && y in viewers :: viewers[x].authKey == viewers[y].authKey == b ==> x == y
    {
      assert b in Owned();
    }

    ghost function Members(): map<Id, Member>
      reads `viewers, set id | id in viewers :: viewers[id].authKey
    {
      map id | id in viewers :: Member(viewers[id].authKey[..], viewers[id].joinTime, viewers[id].clientType)
    }

    ghost function Abs(): State
      requires Valid()
      reads this, counter, buffers
    {
      assert forall id :: id in viewers ==> viewers[id].authKey in Owned();
      State(streamKey[..], counter.draws, Members(), revokedIDs, closed, log)
    }

    constructor (random: Bytes)
      requires |random| == KEY_LEN
      ensures Valid() && fresh(buffers) && fresh(counter) && leaked == map[]
      ensures Abs() == Initial(random)
    {
      var k := NewStreamKey(random);
      streamKey := k;
      counter := new NonceCounter();
      viewers, revokedIDs, closed := map[], {}, false;
      log, buffers, leaked := [], {k}, map[];
    }

    /** Draws a nonce and seals. */
    method SealNext(key: Key, plain: Bytes) returns (r: Result<Payload>)
      requires Valid()
      modifies this`log, counter
      ensures Valid()
      ensures (Abs(), r) == SessionState.SealNext(old(Abs()), key, plain)
    {
      var nonce := counter.Next();
      if GoodKey(key) {
        log := log + [Sealed(key, nonce, plain)];
        r := Ok(Payload(nonce, Gcm(key, nonce, plain)));
      } else {
        r := Err(BadKeyLength);
      }
      assert Members() == old(Members());
    }

    /**
     * The caller keeps its own buffer `authKey`; the session keeps a copy.  `drawn` is None when no
     * identifier can be drawn, and then nothing changes.
     */
    method RegisterViewer(authKey: array<Byte>, drawn: Option<Id>, now: int, ct: ClientType)
      returns (info: ViewerInfo, r: Result<Payload>)
      requires Valid()
      modifies this, counter
      ensures Valid() && buffers >= old(buffers) && fresh(buffers - old(buffers))
      ensures if drawn.None? then
          Abs() == old(Abs()) && r == Err(if closed then SessionClosed else NoRandomness) && leaked == old(leaked)
        else
          && (Abs(), r) == Register(old(Abs()), authKey[..], drawn.value, now, ct)
          && info == ViewerInfo(drawn.value, now, ct)
          && leaked == if r.Ok? && drawn.value in old(viewers)
               then old(leaked)[old(viewers[drawn.value].authKey) := old(viewers[drawn.value].authKey[..])]
               else old(leaked)
    {
      hide Valid, Members, NonceOf;
      AbsFacts();
      info := ViewerInfo(if drawn.Some? then drawn.value else [], now, ct);
      if closed {
        return info, Err(SessionClosed);
      }
      if drawn.None? {
        return info, Err(NoRandomness);
      }
      var id := drawn.value;
      var copy := SecureCopy(authKey);
      if copy.None? {
        return info, Err(EmptyBuffer);
      }
      r := SealNext(Auth(authKey[..]), streamKey[..]);
      if r.Err? {
        ZeroBytes(copy.value);
        Discard(copy.value);
      } else {
        Adopt(id, Viewer(copy.value, now, ct));
      }
    }

    /** Forgets a buffer that has been zeroed and was never listed. */
    ghost method Discard(b: array<Byte>)
      requires Valid() && b !in buffers && AllZero(b)
      modifies this`buffers
      ensures Valid() && buffers == old(buffers) + {b} && Abs() == old(Abs())
    {
      buffers := buffers + {b};
      assert Members() == old(Members());
    }

    /** Lists a viewer under `id`, replacing one that is already there. */
    method Adopt(id: Id, v: Viewer)
      requires Valid() && !closed && v.authKey !in buffers && v.authKey.Length == KEY_LEN
      modifies this`viewers, this`buffers, this`leaked
      ensures Valid() && buffers == old(buffers) + {v.authKey}
      ensures Abs() == old(Abs()).(viewers := old(Members())[id := Member(v.authKey[..], v.joinTime, v.clientType)])
      ensures leaked == if id in old(viewers)
        then old(leaked)[old(viewers[id].authKey) := old(viewers[id].authKey[..])] else old(leaked)
    {
      hide NonceCounter.Valid, Members, Owned;
      OwnedFacts();
      ghost var lost := if id in viewers then leaked[viewers[id].authKey := viewers[id].authKey[..]] else leaked;
      Put(id, v);
      leaked := lost;
      buffers := buffers + {v.authKey};
    }

    lemma OwnedFacts()
      ensures streamKey in Owned() && forall id :: id in viewers ==> viewers[id].authKey in Owned()
    {}

    /** The map update alone. */
    method Put(id: Id, v: Viewer)
      requires v.authKey !in Owned() && forall x :: x in viewers ==> viewers[x].authKey != streamKey
      requires forall a, b :: a in viewers && b in viewers && a != b ==> viewers[a].authKey != viewers[b].authKey
      modifies this`viewers
      ensures viewers == old(viewers)[id := v]
      ensures Members() == old(Members())[id := Member(v.authKey[..], v.joinTime, v.clientType)]
      ensures Owned() <= old(Owned()) + {v.authKey} && v.authKey in Owned()
      ensures forall b :: b in old(Owned()) && (id in old(viewers) ==> b != old(viewers[id].authKey)) ==> b in Owned()
      ensures id in old(viewers) ==> old(viewers[id].authKey) !in Owned()
      ensures forall x :: x in viewers ==> viewers[x].authKey != streamKey
      ensures forall a, b :: a in viewers && b in viewers && a != b ==> viewers[a].authKey != viewers[b].authKey
    {
      viewers := viewers[id := v];
      assert Members() == old(Members())[id := Member(v.authKey[..], v.joinTime, v.clientType)];
      forall b | b in old(Owned()) && (id in old(viewers) ==> b != old(viewers[id].authKey)) ensures b in Owned() {
        if b != streamKey {
          var x :| x in old(viewers) && old(viewers[x].authKey) == b;
          assert viewers[x].authKey == b;
        }
      }
      assert viewers[id].authKey == v.authKey;
    }

    /** Zeroes a listed viewer's key and forgets the viewer. */
    method Drop(id: Id)
      requires Valid() && id in viewers
      modifies this`viewers, viewers[id].authKey
      ensures Valid() && AllZero(old(viewers[id].authKey))
      ensures viewers == old(viewers) - {id} && Members() == old(Members()) - {id}
      ensures streamKey[..] == old(streamKey[..])
    {
      var key := viewers[id].authKey;
      ghost var was := Owned();
      ZeroBytes(key);
      viewers := viewers - {id};
      assert Owned() == was - {key} by {
        forall b | b in was - {key} ensures b in Owned() {
          if b != streamKey {
            var x :| x in old(viewers) && old(viewers[x].authKey) == b;
            assert viewers[x].authKey == b;
          }
        }
      }
      assert Members() == old(Members()) - {id};
    }

    method RemoveViewer(id: Id)
      requires Valid()
      modifies this`viewers, Owned()
      ensures Valid() && Abs() == Remove(old(Abs()), id)
      ensures id in old(viewers) ==> AllZero(old(viewers[id].authKey))
    {
      if id in viewers {
        Drop(id);
      } else {
        assert Members() - {id} == Members();
      }
    }

    method EncryptFrame(plain: Bytes, unix: int) returns (r: Result<Frame>)
      requires Valid()
      modifies this`log, counter
      ensures Valid() && (Abs(), r) == SessionState.EncryptFrame(old(Abs()), plain, unix)
      ensures r.Ok? && 0 <= unix < U64 ==> 60 * r.value.epoch <= unix < 60 * r.value.epoch + 60
    {
      if 0 <= unix < U64 {
        EpochMinute(unix);
      }
      if closed {
        return Err(SessionClosed);
      }
      var epoch := EpochAt(unix);
      var p := SealNext(EpochKey(streamKey[..], epoch), plain);
      r := if p.Err? then Err(p.error) else Ok(Frame(p.value.cipher, p.value.nonce, epoch));
    }

    /** Zeroes the stream key and every listed key, and forgets the viewers. */
    method Close()
      requires Valid()
      modifies this`viewers, this`closed, Owned()
      ensures Valid() && Abs() == SessionState.Close(old(Abs()))
      ensures closed && leaked == old(leaked) && (forall b :: b in buffers && b !in leaked ==> AllZero(b))
      ensures (forall b :: b in buffers ==> AllZero(b)) <==> forall b :: b in leaked ==> IsZero(leaked[b])
    {
      if closed {
        assert forall b :: b in buffers && b !in leaked && b in Owned() ==> b == streamKey;
        LeakedIffZero();
        return;
      }
      ZeroBytes(streamKey);
      ZeroViewers();
      forall b | b in Owned() ensures AllZero(b) {
        if b != streamKey {
          var x :| x in viewers && viewers[x].authKey == b;
        }
      }
      viewers := map[];
      closed := true;
      assert Members() == map[];
      LeakedIffZero();
    }

    /** Once everything that is accounted for is zeroed, what is left is what has leaked. */
    lemma LeakedIffZero()
      requires Valid() && forall b :: b in buffers && b !in leaked ==> AllZero(b)
      ensures (forall b :: b in buffers ==> AllZero(b)) <==> forall b :: b in leaked ==> IsZero(leaked[b])
    {
      forall b | b in leaked ensures AllZero(b) <==> IsZero(leaked[b]) {
        assert b[..] == leaked[b];
        assert forall i :: 0 <= i < b.Length ==> b[i] == leaked[b][i];
      }
    }

    /** The loop over the listed keys. */
    method ZeroViewers()
      modifies set id | id in viewers :: viewers[id].authKey
      ensures forall id :: id in viewers ==> AllZero(viewers[id].authKey)
    {
      var pending := viewers.Keys;
      while pending != {}
        invariant pending <= viewers.Keys
        invariant forall id :: id in viewers && id !in pending ==> AllZero(viewers[id].authKey)
      {
        var id :| id in pending;
        ZeroBytes(viewers[id].authKey);
        pending := pending - {id};
      }
    }

    /**
     * Revokes a listed viewer: its key is zeroed, every other viewer gets the new key sealed, and the old
     * stream key is zeroed.  `order` is the order in which the map iteration visits the viewers; `random` is
     * None when no key can be drawn, and then the viewer is gone but the stream key stays.
     */
    method RevokeViewer(id: Id, random: Option<Bytes>) returns (r: Result<map<Id, Payload>>, ghost order: seq<Id>)
      requires Valid() && (random.Some? ==> |random.value| == KEY_LEN)
      modifies this, counter, Owned()
      ensures Valid() && buffers >= old(buffers) && fresh(buffers - old(buffers)) && leaked == old(leaked)
      ensures random.None? ==>
        Abs() == RevokeUnkeyed(old(Abs()), id).0 && r == Err(RevokeUnkeyed(old(Abs()), id).1)
      ensures old(closed) || id !in old(viewers) ==>
        Abs() == old(Abs()) && r == Err(if old(closed) then SessionClosed else ViewerNotFound)
      ensures !old(closed) && id in old(viewers) ==> AllZero(old(viewers[id].authKey))
      ensures !old(closed) && id in old(viewers) && random.Some? ==>
        && r.Ok? && Enumerates(order, old(viewers.Keys) - {id})
        && (Abs(), r) == Revoke(old(Abs()), id, random.value, order) && AllZero(old(streamKey))
    {
      hide Valid, Members, Enumerates, RekeyAll;
      ghost var before := Abs();
      AbsFacts();
      order := [];
      if closed {
        return Err(SessionClosed), [];
      }
      if id !in viewers {
        return Err(ViewerNotFound), [];
      }
      Banish(id);
      if random.None? {
        return Err(NoRandomness), [];
      }
      var kPrime := NewStreamKey(random.value);
      AbsFacts();
      var rekeys;
      rekeys, order := SealForAll(kPrime);
      AbsFacts();
      Rotate(kPrime);
      r := Ok(rekeys);
    }

    lemma AbsFacts()
      requires Valid()
      ensures Abs().closed == closed && Abs().viewers.Keys == viewers.Keys && streamKey.Length == KEY_LEN
      ensures forall id :: id in viewers ==> viewers[id].authKey != streamKey
    {}

    method Banish(id: Id)
      requires Valid() && id in viewers
      modifies this`viewers, this`revokedIDs, viewers[id].authKey
      ensures Valid() && AllZero(old(viewers[id].authKey)) && Abs() == Without(old(Abs()), id)
      ensures viewers == old(viewers) - {id}
    {
      Drop(id);
      revokedIDs := revokedIDs + {id};
    }

    /** The rekey loop.  Sealing cannot fail on key length, so the source's error exit is not reached. */
    method SealForAll(kPrime: array<Byte>) returns (rekeys: map<Id, Payload>, ghost order: seq<Id>)
      requires Valid() && kPrime !in buffers
      modifies this`log, counter
      ensures Valid() && Enumerates(order, viewers.Keys)
      ensures (Abs(), Ok(rekeys)) == RekeyAll(old(Abs()), kPrime[..], order)
    {
      hide Enumerates, NonceOf;
      rekeys, order := map[], [];
      var pending := viewers.Keys;
      EnumeratesNone();
      assert viewers.Keys - pending == {} && viewers.Keys - {} == viewers.Keys;
      while pending != {}
        invariant Valid() && pending <= viewers.Keys
        invariant Enumerates(order, viewers.Keys - pending) && forall id :: id in order ==> id in viewers
        invariant (Abs(), Ok(rekeys)) == RekeyAll(old(Abs()), kPrime[..], order)
      {
        var id :| id in pending;
        var p := SealNext(Auth(viewers[id].authKey[..]), kPrime[..]);
        assert p.Ok?;
        rekeys := rekeys[id := p.value];
        EnumeratesMore(order, viewers.Keys - pending, id);
        assert viewers.Keys - (pending - {id}) == viewers.Keys - pending + {id};
        assert (order + [id])[..|order|] == order;
        order := order + [id];
        pending := pending - {id};
      }
    }

    /** Zeroes the stream key and puts the new one in its place. */
    method Rotate(kPrime: array<Byte>)
      requires Valid() && !closed && kPrime.Length == KEY_LEN && kPrime !in buffers
      modifies this`streamKey, this`buffers, streamKey
      ensures Valid() && buffers == old(buffers) + {kPrime} && AllZero(old(streamKey))
      ensures Abs() == old(Abs()).(streamKey := kPrime[..])
    {
      ghost var was := Owned();
      ZeroBytes(streamKey);
      streamKey := kPrime;
      buffers := buffers + {kPrime};
      assert Owned() == was - {old(streamKey)} + {kPrime};
      assert Members() == old(Members());
    }
  }
}
