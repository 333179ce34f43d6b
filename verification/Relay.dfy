/**
 * One session of the relay as the program keeps it (internal/relay/relay.go): a map of viewers, each with a
 * bounded send channel.  Each method is one critical section of the session lock and refines a function of
 * RelayState; that no channel is sent to after it was closed, and none closed twice, is part of the contracts.
 */
module RelayHeap {
  import opened ByteStrings
  import opened RelayState
  import Wire

  /** A Go channel of capacity SEND_BUF_SIZE.  Sending on a closed channel and closing twice both panic. */
  class Chan {
    var buf: seq<Bytes>
    var open: bool

    constructor ()
      ensures open && buf == []
    {
      buf, open := [], true;
    }

    /** select with a default branch */
    method TrySend(msg: Bytes) returns (sent: bool)
      requires open
      modifies this`buf
      ensures sent == (|old(buf)| < SEND_BUF_SIZE)
      ensures buf == Offer(old(buf), msg)
    {
      sent := |buf| < SEND_BUF_SIZE;
      if sent {
        buf := buf + [msg];
      }
    }

    method Close()
      requires open
      modifies this`open
      ensures !open
    {
      open := false;
    }

    method Receive() returns (msg: Bytes)
      requires buf != []
      modifies this`buf
      ensures [msg] + buf == old(buf)
    {
      msg := buf[0];
      buf := buf[1..];
    }
  }

  lemma ListedSize<T>(m: map<Id, T>, id: Id, v: T)
    ensures |m[id := v]| <= |m| + 1
  {
    assert m[id := v].Keys == m.Keys + {id};
  }

  class Session {
    var viewers: map<Id, Chan>
    var closed: bool
    const maxViewers: nat

    /** Listed channels are open, bounded and distinct. */
    ghost predicate Valid()
      reads this, viewers.Values
    {
      && (forall id :: id in viewers ==> viewers[id].open && |viewers[id].buf| <= SEND_BUF_SIZE)
      && (forall a, b :: a in viewers && b in viewers && a != b ==> viewers[a] != viewers[b])
      && (closed ==> viewers == map[])
      && |viewers| <= maxViewers
    }

    ghost function Queues(): map<Id, seq<Bytes>>
      reads `viewers, viewers.Values
    {
      map id | id in viewers :: viewers[id].buf
    }

    ghost function Abs(): State
      reads this, viewers.Values
    {
      State(Queues(), closed, maxViewers)
    }

    lemma CountQueues()
      ensures |Queues()| == |viewers|
    {
      assert Queues().Keys == viewers.Keys;
    }

    twostate lemma Listed(id: Id, new c: Chan)
      requires old(Valid()) && !closed && |old(viewers)| < maxViewers && c.open && c.buf == [] && fresh(c)
      requires viewers == old(viewers)[id := c] && closed == old(closed)
      requires forall i :: i in old(viewers) ==> unchanged(old(viewers)[i])
      ensures Valid() && Queues() == old(Queues())[id := []]
    {
      ListedSize(old(viewers), id, c);
      assert Queues().Keys == old(Queues()).Keys + {id};
    }

    constructor (maxViewers: nat)
      ensures Valid() && Abs() == State(map[], false, maxViewers)
    {
      viewers, closed, this.maxViewers := map[], false, maxViewers;
    }

    /** The second critical section of handleWatch; an identifier drawn again replaces the viewer listed under it. */
    method Join(id: Id) returns (vc: Option<Chan>, r: JoinResult)
      requires Valid()
      modifies this`viewers
      ensures Valid() && (Abs(), r) == RelayState.Join(old(Abs()), id)
      ensures r.Joined? <==> vc.Some?
      ensures r.Joined? ==> id in viewers && viewers[id] == vc.value && fresh(vc.value)
    {
      CountQueues();
      if closed {
        return None, Gone;
      }
      if |viewers| >= maxViewers {
        return None, Full;
      }
      var c := new Chan();
      viewers := viewers[id := c];
      Listed(id, c);
      return Some(c), Joined;
    }

    /** The fan-out loop. */
    method Broadcast(data: Bytes)
      requires Valid()
      modifies viewers.Values
      ensures Valid() && Abs() == RelayState.Broadcast(old(Abs()), data)
    {
      hide Offer;
      OfferAll(data);
      assert Queues() == map id | id in old(Queues()) :: Offer(old(Queues())[id], data);
    }

    method OfferAll(data: Bytes)
      requires Valid()
      modifies viewers.Values
      ensures forall id :: id in viewers ==> viewers[id].open && viewers[id].buf == Offer(old(viewers[id].buf), data)
    {
      hide Offer;
      var pending := viewers.Keys;
      ghost var was := Queues();
      while pending != {}
        invariant pending <= viewers.Keys
        invariant forall id :: id in viewers ==> viewers[id].open
        invariant forall id :: id in viewers ==>
          viewers[id].buf == if id in pending then was[id] else Offer(was[id], data)
      {
        var id :| id in pending;
        var vc := viewers[id];
        var sent := vc.TrySend(data);
        pending := pending - {id};
      }
    }

    method Unicast(target: Id, payload: Bytes)
      requires Valid()
      modifies this`viewers, viewers.Values
      ensures Valid() && Abs() == RelayState.Unicast(old(Abs()), target, payload)
      ensures target in old(viewers) && target !in viewers ==> !old(viewers[target]).open
    {
      if target in viewers {
        var vc := viewers[target];
        var sent := vc.TrySend(payload);
        if sent {
          assert Queues() == old(Queues())[target := vc.buf];
        } else {
          Unlist(target, vc);
        }
      }
    }

    /** One turn of the read loop of runSharer. */
    method FromSharer(data: Bytes)
      requires Valid()
      modifies this`viewers, viewers.Values
      ensures Valid() && Abs() == RelayState.FromSharer(old(Abs()), data)
    {
      if data == [] {
        return;
      }
      if data[0] == TAG_STREAM || data[0] == TAG_TERM_SIZE {
        Broadcast(data);
      } else if data[0] == TAG_UNICAST && |data| >= 1 + VIEWER_ID_LEN {
        Unicast(data[1..1 + VIEWER_ID_LEN], data[1 + VIEWER_ID_LEN..]);
      }
    }

    /** viewerWriter takes one message. */
    method Take(id: Id) returns (msg: Bytes)
      requires Valid() && id in viewers && viewers[id].buf != []
      modifies viewers[id]
      ensures Valid() && Abs() == RelayState.Take(old(Abs()), id) && msg == old(viewers[id].buf)[0]
    {
      msg := viewers[id].Receive();
      assert Queues() == old(Queues())[id := old(viewers[id].buf)[1..]];
    }

    /**
     * The deferred exit of runViewer: returns what the sharer is told.  `vc` is the leaving viewer's own
     * channel, which is not listed under another identifier; if its identifier is still listed, by itself or
     * by a newcomer, the channel must be open, or the program panics.
     */
    method Leave(id: Id, vc: Chan) returns (notice: Option<Bytes>)
      requires Valid() && (id in viewers ==> vc.open)
      requires forall other :: other in viewers && viewers[other] == vc ==> other == id
      modifies this`viewers, vc
      ensures Valid() && Abs() == RelayState.Leave(old(Abs()), id)
      ensures id in old(viewers) ==> !vc.open
      ensures notice == if closed then None else Some(Wire.Disconnected(id))
    {
      hide Wire.Disconnected, Valid;
      if id in viewers {
        Unlist(id, vc);
      } else {
        assert Queues() - {id} == Queues();
      }
      notice := None;
      if !closed {
        var msg := Wire.BuildDisconnected(id);
        notice := Some(msg);
      }
    }

    method Unlist(id: Id, vc: Chan)
      requires Valid() && id in viewers && vc.open
      requires forall other :: other in viewers && viewers[other] == vc ==> other == id
      modifies this`viewers, vc`open
      ensures Valid() && viewers == old(viewers) - {id} && Queues() == old(Queues()) - {id} && !vc.open
    {
      vc.Close();
      viewers := viewers - {id};
      assert Queues() == old(Queues()) - {id};
    }

    /** The deferred exit of runSharer closes every listed channel. */
    method Teardown()
      requires Valid() && !closed
      modifies this, viewers.Values
      ensures Valid() && Abs() == RelayState.Teardown(old(Abs()))
      ensures forall c :: c in old(viewers.Values) ==> !c.open
    {
      closed := true;
      var pending := viewers.Keys;
      ghost var was := viewers;
      while pending != {}
        invariant viewers == was && closed && pending <= was.Keys
        invariant forall id :: id in was ==> was[id].open == (id in pending)
        modifies was.Values
      {
        var id :| id in pending;
        viewers[id].Close();
        pending := pending - {id};
      }
      viewers := map[];
    }
  }
}
