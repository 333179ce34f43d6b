/**
 * What the relay queues for a viewer, over whole runs of one session: every broadcast and every unicast of
 * its own since it joined is offered once, in order; the fate of each offer is recorded from the buffers
 * before and after.
 */
module RelayDelivery {
  import opened ByteStrings
  import R = RelayState

  datatype Offer = Cast(msg: Bytes) | Own(msg: Bytes)

  /** What a message of the sharer means for one viewer; an own unicast arrives without its envelope. */
  function OfferOf(data: Bytes, id: Id): (r: seq<Offer>)
    ensures |r| <= 1
  {
    if data != [] && data[0] in {TAG_STREAM, TAG_TERM_SIZE} then [Cast(data)]
    else if |data| >= 1 + VIEWER_ID_LEN && data[0] == TAG_UNICAST && data[1..7] == id then [Own(data[7..])]
    else []
  }

  function Relevant(rx: seq<Bytes>, id: Id): seq<Offer>
  {
    if rx == [] then [] else Relevant(rx[..|rx| - 1], id) + OfferOf(rx[|rx| - 1], id)
  }

  /** `backlog` is how many messages were buffered when the offer was made. */
  datatype Fate = Fate(offer: Offer, backlog: nat, kept: bool)

  function Offers(fates: seq<Fate>): (r: seq<Offer>)
    ensures |r| == |fates| && forall i :: 0 <= i < |r| ==> r[i] == fates[i].offer
  {
    seq(|fates|, i requires 0 <= i < |fates| => fates[i].offer)
  }

  /** Everything ever put into the send channel. */
  function Queued(fates: seq<Fate>): seq<Bytes>
  {
    if fates == [] then [] else
      Queued(fates[..|fates| - 1]) + (if fates[|fates| - 1].kept then [fates[|fates| - 1].offer.msg] else [])
  }

  /**
   * One viewer: it saw the messages since..upto of the sharer; `taken` is what its writer has taken out of
   * the channel while the viewer was listed.
   */
  datatype Track = Track(since: nat, upto: nat, fates: seq<Fate>, taken: seq<Bytes>)

  datatype World = World(s: R.State, rx: seq<Bytes>, tracks: map<Id, Track>)

  datatype Event = Joins(id: Id) | Reads(data: Bytes) | Takes(id: Id) | Leaves(id: Id) | Ends

  function Start(maxViewers: nat): World
  {
    World(R.State(map[], false, maxViewers), [], map[])
  }

  /** The sharer's messages are read until its loop ends; a reused identifier starts a new track. */
  predicate Possible(w: World, e: Event)
  {
    match e
    case Joins(_) => true
    case Reads(_) => !w.s.closed
    case Takes(id) => id in w.s.viewers && w.s.viewers[id] != []
    case Leaves(_) => true
    case Ends => !w.s.closed
  }

  /** The fates of one message for one listed viewer, read off the buffers before and after. */
  function FatesOf(s: R.State, t: R.State, data: Bytes, id: Id): (r: seq<Fate>)
    requires id in s.viewers
    ensures |r| == |OfferOf(data, id)|
  {
    seq(|OfferOf(data, id)|, i requires 0 <= i < |OfferOf(data, id)| =>
      var o := OfferOf(data, id)[i];
      Fate(o, |s.viewers[id]|, id in t.viewers && t.viewers[id] == s.viewers[id] + [o.msg]))
  }

  function Observe(w: World, t: R.State, data: Bytes, id: Id): Track
    requires id in w.tracks
  {
    var tr := w.tracks[id];
    if id in w.s.viewers then tr.(upto := |w.rx| + 1, fates := tr.fates + FatesOf(w.s, t, data, id)) else tr
  }

  function Next(w: World, e: Event): World
    requires Possible(w, e)
  {
    match e
    case Joins(id) =>
      var (t, r) := R.Join(w.s, id);
      if r.Joined? then World(t, w.rx, w.tracks[id := Track(|w.rx|, |w.rx|, [], [])]) else w.(s := t)
    case Reads(data) =>
      var t := R.FromSharer(w.s, data);
      World(t, w.rx + [data], map id | id in w.tracks :: Observe(w, t, data, id))
    case Takes(id) =>
      var tracks := if id !in w.tracks then w.tracks else
        w.tracks[id := w.tracks[id].(taken := w.tracks[id].taken + [w.s.viewers[id][0]])];
      World(R.Take(w.s, id), w.rx, tracks)
    case Leaves(id) => w.(s := R.Leave(w.s, id))
    case Ends => w.(s := R.Teardown(w.s))
  }

  ghost predicate Run(w: World, es: seq<Event>, t: World)
    decreases |es|
  {
    if es == [] then w == t else Possible(w, es[0]) && Run(Next(w, es[0]), es[1..], t)
  }

  /** An offer is kept exactly when it fits; a unicast that does not fit is the last offer of an evicted viewer. */
  predicate Fair(tr: Track, listed: bool)
  {
    forall i :: 0 <= i < |tr.fates| ==>
      && tr.fates[i].backlog <= R.SEND_BUF_SIZE
      && (tr.fates[i].kept <==> tr.fates[i].backlog < R.SEND_BUF_SIZE)
      && (!tr.fates[i].kept && tr.fates[i].offer.Own? ==> i == |tr.fates| - 1 && !listed)
  }

  predicate Seen(tr: Track, rx: seq<Bytes>, id: Id)
  {
    tr.since <= tr.upto <= |rx| && Offers(tr.fates) == Relevant(rx[tr.since..tr.upto], id)
  }

  predicate InvOf(w: World, id: Id)
    requires id in w.tracks
  {
    var tr := w.tracks[id];
    && Seen(tr, w.rx, id) && Fair(tr, id in w.s.viewers)
    && (id in w.s.viewers ==>
          && tr.upto == |w.rx| && |w.s.viewers[id]| <= R.SEND_BUF_SIZE
          && Queued(tr.fates) == tr.taken + w.s.viewers[id])
  }

  predicate Inv(w: World)
  {
    && w.s.viewers.Keys <= w.tracks.Keys && |w.s.viewers| <= w.s.maxViewers
    && forall id :: id in w.tracks ==> InvOf(w, id)
  }

  lemma FromSharerShape(s: R.State, data: Bytes, id: Id)
    requires id in s.viewers
    ensures var t := R.FromSharer(s, data);
      if OfferOf(data, id) == [] then id in t.viewers && t.viewers[id] == s.viewers[id]
      else
        var o := OfferOf(data, id)[0];
        if |s.viewers[id]| < R.SEND_BUF_SIZE then id in t.viewers && t.viewers[id] == s.viewers[id] + [o.msg]
        else if o.Own? then id !in t.viewers
        else id in t.viewers && t.viewers[id] == s.viewers[id]
  {}

  lemma FromSharerBounds(s: R.State, data: Bytes)
    ensures var t := R.FromSharer(s, data);
      t.viewers.Keys <= s.viewers.Keys && |t.viewers| <= |s.viewers| && t.maxViewers == s.maxViewers
  {
    var t := R.FromSharer(s, data);
    assert t.viewers.Keys <= s.viewers.Keys;
    SubsetSize(t.viewers.Keys, s.viewers.Keys);
  }

  lemma SubsetSize(a: set<Id>, b: set<Id>)
    requires a <= b
    ensures |a| <= |b|
  {
    assert |b| == |a| + |b - a|;
  }

  lemma ReadKeepsSeen(tr: Track, rx: seq<Bytes>, data: Bytes, id: Id, more: seq<Fate>)
    requires Seen(tr, rx, id) && tr.upto == |rx| && Offers(more) == OfferOf(data, id)
    ensures Seen(tr.(upto := |rx| + 1, fates := tr.fates + more), rx + [data], id)
  {
    var rx' := rx + [data];
    var seen := rx'[tr.since..|rx| + 1];
    assert seen == rx[tr.since..tr.upto] + [data];
    assert seen[..|seen| - 1] == rx[tr.since..tr.upto];
    assert Offers(tr.fates + more) == Offers(tr.fates) + Offers(more);
  }

  lemma QueuedMore(fates: seq<Fate>, more: seq<Fate>)
    requires |more| <= 1
    ensures Queued(fates + more) == Queued(fates) + (if more != [] && more[0].kept then [more[0].offer.msg] else [])
  {
    if more != [] {
      assert (fates + more)[..|fates|] == fates;
    } else {
      assert fates + more == fates;
    }
  }

  lemma ReadKeeps(w: World, data: Bytes, id: Id)
    requires Inv(w) && Possible(w, Reads(data)) && id in w.tracks
    ensures InvOf(Next(w, Reads(data)), id)
  {
    hide R.FromSharer, Relevant, Queued, OfferOf;
    var t := Next(w, Reads(data));
    var tr := w.tracks[id];
    assert InvOf(w, id);
    if id in w.s.viewers {
      var more := FatesOf(w.s, t.s, data, id);
      FromSharerShape(w.s, data, id);
      assert Offers(more) == OfferOf(data, id);
      ReadKeepsSeen(tr, w.rx, data, id, more);
      QueuedMore(tr.fates, more);
    } else {
      FromSharerBounds(w.s, data);
      assert (w.rx + [data])[tr.since..tr.upto] == w.rx[tr.since..tr.upto];
    }
  }

  lemma NextKeeps(w: World, e: Event)
    requires Inv(w) && Possible(w, e)
    ensures Inv(Next(w, e)) && Next(w, e).s.maxViewers == w.s.maxViewers
  {
    hide R.FromSharer, Relevant, Queued, InvOf;
    var t := Next(w, e);
    if e.Reads? {
      FromSharerBounds(w.s, e.data);
      forall id | id in t.tracks ensures InvOf(t, id) {
        ReadKeeps(w, e.data, id);
      }
    } else {
      forall id | id in t.tracks ensures InvOf(t, id) {
        OtherKeeps(w, e, id);
      }
      SizeKept(w, e);
    }
  }

  lemma SizeKept(w: World, e: Event)
    requires Possible(w, e) && !e.Reads? && |w.s.viewers| <= w.s.maxViewers && w.s.viewers.Keys <= w.tracks.Keys
    ensures |Next(w, e).s.viewers| <= w.s.maxViewers
  {
    if e.Leaves? {
      SubsetSize((w.s.viewers - {e.id}).Keys, w.s.viewers.Keys);
    } else if e.Takes? {
      assert Next(w, e).s.viewers.Keys == w.s.viewers.Keys;
    }
  }

  lemma OtherKeeps(w: World, e: Event, id: Id)
    requires Inv(w) && Possible(w, e) && !e.Reads? && id in Next(w, e).tracks
    ensures InvOf(Next(w, e), id)
  {
    hide Queued, Relevant;
    if id in w.tracks {
      assert InvOf(w, id);
    }
    if id in w.tracks && !(e.Joins? && e.id == id && R.Join(w.s, id).1.Joined?) {
      if e.Takes? && e.id == id {
        var buf, taken := w.s.viewers[id], w.tracks[id].taken;
        assert taken + buf == taken + [buf[0]] + buf[1..];
      }
    } else {
      QueuedNone();
      assert w.rx[|w.rx|..|w.rx|] == [];
      assert Offers([]) == [];
    }
  }

  lemma QueuedNone()
    ensures Queued([]) == [] && forall id :: Relevant([], id) == []
  {}

  lemma {:induction false} RunKeeps(w: World, es: seq<Event>, t: World)
    requires Inv(w) && Run(w, es, t)
    ensures Inv(t) && t.s.maxViewers == w.s.maxViewers
    decreases |es|
  {
    hide Inv, Next;
    if es != [] {
      NextKeeps(w, es[0]);
      RunKeeps(Next(w, es[0]), es[1..], t);
    }
  }

  /** The positions of the kept offers, in order. */
  function Positions(fates: seq<Fate>): (at: seq<nat>)
    ensures |at| == |Queued(fates)|
  {
    if fates == [] then [] else
      Positions(fates[..|fates| - 1]) + (if fates[|fates| - 1].kept then [|fates| - 1] else [])
  }

  /** What was queued is what stands at those positions. */
  lemma {:induction false} QueuedPositions(fates: seq<Fate>, i: nat)
    requires i < |Queued(fates)|
    ensures var k := Positions(fates)[i];
      && k < |fates| && fates[k].kept && Queued(fates)[i] == fates[k].offer.msg
      && forall j :: 0 <= j < i ==> Positions(fates)[j] < k
  {
    var n := |fates| - 1;
    var prev := Positions(fates[..n]);
    if i < |prev| {
      QueuedPositions(fates[..n], i);
    } else {
      forall j | 0 <= j < i ensures Positions(fates)[j] < n {
        QueuedPositions(fates[..n], j);
      }
    }
  }

  /** Every kept offer stands at one of them. */
  lemma {:induction false} KeptIsQueued(fates: seq<Fate>, k: nat)
    requires k < |fates| && fates[k].kept
    ensures k in Positions(fates)
  {
    if k < |fates| - 1 {
      KeptIsQueued(fates[..|fates| - 1], k);
    }
  }

  /**
   * In every reachable state the offers a viewer has had are exactly the sharer's broadcasts and that
   * viewer's stripped unicasts since it joined, in order; a listed viewer's channel holds what was queued
   * and not yet taken; an offer is missing only if 256 messages were waiting, and then it is a broadcast
   * or the unicast that evicted the viewer; and the map respects its limit.
   */
  lemma DeliveryTheorem(maxViewers: nat, es: seq<Event>, w: World, id: Id)
    requires Run(Start(maxViewers), es, w) && id in w.tracks
    ensures var tr := w.tracks[id];
      && tr.since <= tr.upto <= |w.rx| && Offers(tr.fates) == Relevant(w.rx[tr.since..tr.upto], id)
      && (id in w.s.viewers ==> tr.upto == |w.rx| && Queued(tr.fates) == tr.taken + w.s.viewers[id])
      && (forall i :: 0 <= i < |tr.fates| && !tr.fates[i].kept ==>
            && tr.fates[i].backlog == 256
            && (tr.fates[i].offer.Cast? || (i == |tr.fates| - 1 && id !in w.s.viewers)))
      && (forall i :: 0 <= i < |tr.fates| && tr.fates[i].kept ==> tr.fates[i].backlog < 256)
    ensures w.s.viewers.Keys <= w.tracks.Keys && |w.s.viewers| <= maxViewers
  {
    RunKeeps(Start(maxViewers), es, w);
    hide Next, Relevant, Queued;
    assert InvOf(w, id);
  }

  /** A viewer is turned away exactly when the session is over, or when as many as allowed are listed already. */
  lemma AdmittedUpToLimit(maxViewers: nat, es: seq<Event>, w: World, id: Id)
    requires Run(Start(maxViewers), es, w)
    ensures var (t, r) := R.Join(w.s, id);
      && (r.Gone? <==> w.s.closed) && (r.Full? <==> !w.s.closed && |w.s.viewers| == maxViewers)
      && if !r.Joined? then t == w.s else
           id in t.viewers && t.viewers[id] == [] && t == w.s.(viewers := t.viewers)
           && t.viewers.Keys == w.s.viewers.Keys + {id}
           && forall other :: other in w.s.viewers && other != id ==> t.viewers[other] == w.s.viewers[other]
  {
    hide Next;
    RunKeeps(Start(maxViewers), es, w);
  }
}
