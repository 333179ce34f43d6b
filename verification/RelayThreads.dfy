/**
 * The relay's concurrency at lock granularity (internal/relay/relay.go): any number of sharer and viewer
 * handlers, each a thread whose atomic steps are its critical sections.  What panics in Go - a send on a
 * closed channel, a second close, an insertion into a nil map - sets a flag.
 */
module RelayThreads {
  import opened ByteStrings
  import SessionState

  /** A send channel with the viewer handler that made it and the number of times it was closed. */
  datatype Chan = Chan(session: nat, id: Id, watcher: nat, open: bool, closes: nat)

  /** A session object; `viewers` is None once the map is nil. */
  datatype Session = Session(sharer: nat, viewers: Option<map<Id, nat>>, closed: bool)

  /** handleShare and runSharer */
  datatype Sharer =
    | Arrived(sid: Bytes)
    | Rejected
    | Running(sid: Bytes, session: nat)
    | Closing(sid: Bytes, session: nat)   // between the two critical sections of the deferred exit
    | Finished(session: nat)

  /** handleWatch and runViewer */
  datatype Watcher =
    | Looking(sid: Bytes)
    | Joining(session: nat)
    | Watching(session: nat, id: Id, chan: nat)
    | Gone(last: Option<nat>)

  /** `offered` and `asked` are history: the session identifier each sharer and each viewer arrived with. */
  datatype System = System(
    registry: map<Bytes, nat>, sessions: seq<Session>, chans: seq<Chan>,
    sharers: seq<Sharer>, watchers: seq<Watcher>, offered: seq<Bytes>, asked: seq<Bytes>,
    maxViewers: nat, panicked: bool)

  datatype Event =
    | NewSharer(sid: Bytes)
    | NewWatcher(sid: Bytes)
    | Register(t: nat)
    | Broadcast(t: nat)
    | Unicast(t: nat, target: Id, full: bool)
    | Close(t: nat, order: seq<Id>)
    | Unregister(t: nat)
    | Lookup(w: nat)
    | Join(w: nat, id: Id)
    | Leave(w: nat)

  function Start(maxViewers: nat): System
  {
    System(map[], [], [], [], [], [], [], maxViewers, false)
  }

  /** Which thread can take which step; `order` is a map iteration order. */
  predicate Possible(s: System, e: Event)
  {
    match e
    case NewSharer(_) => true
    case NewWatcher(_) => true
    case Register(t) => t < |s.sharers| && s.sharers[t].Arrived?
    case Broadcast(t) => InLoop(s, t)
    case Unicast(t, _, _) => InLoop(s, t)
    case Close(t, order) => InLoop(s, t) && SessionState.Enumerates(order, Viewers(s, s.sharers[t].session).Keys)
    case Unregister(t) => t < |s.sharers| && s.sharers[t].Closing?
    case Lookup(w) => w < |s.watchers| && s.watchers[w].Looking?
    case Join(w, _) => w < |s.watchers| && s.watchers[w].Joining? && s.watchers[w].session < |s.sessions|
    case Leave(w) =>
      w < |s.watchers| && s.watchers[w].Watching?
      && s.watchers[w].session < |s.sessions| && s.watchers[w].chan < |s.chans|
  }

  predicate InLoop(s: System, t: nat)
  {
    && t < |s.sharers| && s.sharers[t].Running? && s.sharers[t].session < |s.sessions|
    && forall id :: id in Viewers(s, s.sharers[t].session) ==> Viewers(s, s.sharers[t].session)[id] < |s.chans|
  }

  /** The second critical section of handleWatch lists the viewer. */
  predicate Admits(s: System, w: nat)
    requires w < |s.watchers| && s.watchers[w].Joining? && s.watchers[w].session < |s.sessions|
  {
    var o := s.watchers[w].session;
    !s.sessions[o].closed && |Viewers(s, o)| < s.maxViewers
  }

  /** Reading a nil map finds nothing. */
  function Viewers(s: System, o: nat): map<Id, nat>
    requires o < |s.sessions|
  {
    if s.sessions[o].viewers.Some? then s.sessions[o].viewers.value else map[]
  }

  function SetViewers(s: System, o: nat, m: map<Id, nat>): System
    requires o < |s.sessions|
  {
    s.(sessions := s.sessions[o := s.sessions[o].(viewers := Some(m))])
  }

  function CloseChan(s: System, c: nat): (t: System)
    requires c < |s.chans|
    ensures |t.chans| == |s.chans|
  {
    s.(chans := s.chans[c := s.chans[c].(open := false, closes := s.chans[c].closes + 1)],
       panicked := s.panicked || !s.chans[c].open)
  }

  function CloseAll(s: System, m: map<Id, nat>, order: seq<Id>): (t: System)
    requires forall id :: id in order ==> id in m && m[id] < |s.chans|
    ensures |t.chans| == |s.chans|
    decreases |order|
  {
    if order == [] then s else CloseAll(CloseChan(s, m[order[0]]), m, order[1..])
  }

  function Next(s: System, e: Event): System
    requires Possible(s, e)
  {
    match e
    case NewSharer(sid) => s.(sharers := s.sharers + [Arrived(sid)], offered := s.offered + [sid])
    case NewWatcher(sid) => s.(watchers := s.watchers + [Looking(sid)], asked := s.asked + [sid])
    case Register(t) =>
      var sid := s.sharers[t].sid;
      if sid in s.registry then s.(sharers := s.sharers[t := Rejected])
      else
        var o := |s.sessions|;
        s.(sessions := s.sessions + [Session(t, Some(map[]), false)], registry := s.registry[sid := o],
           sharers := s.sharers[t := Running(sid, o)])
    case Broadcast(t) =>
      var m := Viewers(s, s.sharers[t].session);
      s.(panicked := s.panicked || exists id :: id in m && !s.chans[m[id]].open)
    case Unicast(t, target, full) =>
      var o := s.sharers[t].session;
      var m := Viewers(s, o);
      if target !in m then s
      else if !s.chans[m[target]].open then s.(panicked := true)
      else if full then CloseChan(SetViewers(s, o, m - {target}), m[target])
      else s
    case Close(t, order) =>
      var o := s.sharers[t].session;
      var s1 := CloseAll(s, Viewers(s, o), order);
      s1.(sessions := s.sessions[o := s.sessions[o].(viewers := None, closed := true)],
          sharers := s.sharers[t := Closing(s.sharers[t].sid, o)])
    case Unregister(t) =>
      s.(registry := s.registry - {s.sharers[t].sid}, sharers := s.sharers[t := Finished(s.sharers[t].session)])
    case Lookup(w) =>
      var sid := s.watchers[w].sid;
      s.(watchers := s.watchers[w := if sid in s.registry then Joining(s.registry[sid]) else Gone(None)])
    case Join(w, id) =>
      var o := s.watchers[w].session;
      if s.sessions[o].closed || |Viewers(s, o)| >= s.maxViewers then s.(watchers := s.watchers[w := Gone(None)])
      else if s.sessions[o].viewers.None? then s.(panicked := true)
      else
        var c := |s.chans|;
        SetViewers(s, o, Viewers(s, o)[id := c])
          .(chans := s.chans + [Chan(o, id, w, true, 0)], watchers := s.watchers[w := Watching(o, id, c)])
    case Leave(w) =>
      var v := s.watchers[w];
      var s1 := s.(watchers := s.watchers[w := Gone(Some(v.chan))]);
      if v.id in Viewers(s, v.session) then
        CloseChan(SetViewers(s1, v.session, Viewers(s, v.session) - {v.id}), v.chan)
      else s1
  }
  /** Any interleaving; what panics is recorded and the rest goes on. */
  ghost predicate Run(s: System, es: seq<Event>, t: System)
    decreases |es|
  {
    if es == [] then s == t else Possible(s, es[0]) && Run(Next(s, es[0]), es[1..], t)
  }

  // ----- what every interleaving keeps, whatever identifiers are drawn

  /** A sharer inside its loop or its exit holds the registration of its own session. */
  predicate SharerOk(s: System, t: nat)
    requires t < |s.sharers|
  {
    match s.sharers[t]
    case Arrived(_) => true
    case Rejected => true
    case Running(sid, o) => o < |s.sessions| && s.sessions[o].sharer == t && sid in s.registry && s.registry[sid] == o
    case Closing(sid, o) => o < |s.sessions| && s.sessions[o].sharer == t && sid in s.registry && s.registry[sid] == o
    case Finished(o) =>
      o < |s.sessions| && s.sessions[o].sharer == t && forall sid :: sid in s.registry ==> s.registry[sid] != o
  }

  predicate SessionOk(s: System, o: nat)
    requires o < |s.sessions|
  {
    var x := s.sessions[o];
    && x.sharer < |s.sharers|
    && (s.sharers[x.sharer].Running? || s.sharers[x.sharer].Closing? || s.sharers[x.sharer].Finished?)
    && s.sharers[x.sharer].session == o
    && (x.closed <==> !s.sharers[x.sharer].Running?)
    && (x.viewers.None? <==> x.closed)
    && |Viewers(s, o)| <= s.maxViewers
    && forall id :: id in Viewers(s, o) ==> Viewers(s, o)[id] < |s.chans| && s.chans[Viewers(s, o)[id]].id == id
                                            && s.chans[Viewers(s, o)[id]].session == o
  }

  predicate WatcherOk(s: System, w: nat)
    requires w < |s.watchers|
  {
    match s.watchers[w]
    case Looking(_) => true
    case Joining(o) => o < |s.sessions|
    case Watching(o, id, c) =>
      o < |s.sessions| && c < |s.chans| && s.chans[c].session == o && s.chans[c].id == id && s.chans[c].watcher == w
    case Gone(last) => last.Some? ==> last.value < |s.chans| && s.chans[last.value].watcher == w
  }

  predicate RegistryOk(s: System)
  {
    forall sid :: sid in s.registry ==>
      && s.registry[sid] < |s.sessions| && s.sessions[s.registry[sid]].sharer < |s.sharers|
      && var t := s.sharers[s.sessions[s.registry[sid]].sharer];
         t == Running(sid, s.registry[sid]) || t == Closing(sid, s.registry[sid])
  }

  predicate Core(s: System)
  {
    && (forall t :: 0 <= t < |s.sharers| ==> SharerOk(s, t))
    && (forall o :: 0 <= o < |s.sessions| ==> SessionOk(s, o))
    && (forall w :: 0 <= w < |s.watchers| ==> WatcherOk(s, w))
    && RegistryOk(s)
  }

  /** Channels are at most closed. */
  predicate SameChans(s: System, x: System)
  {
    |x.chans| == |s.chans| && forall c :: 0 <= c < |s.chans| ==>
      x.chans[c] == s.chans[c].(open := x.chans[c].open, closes := x.chans[c].closes)
  }

  predicate Shrunk(a: Session, b: Session)
  {
    b == a || (a.viewers.Some? && b.viewers.Some? && b == a.(viewers := b.viewers)
               && b.viewers.value.Keys <= a.viewers.value.Keys
               && forall id :: id in b.viewers.value ==> b.viewers.value[id] == a.viewers.value[id])
  }

  /** Viewers are unlisted or leave, and channels are closed; nothing else happens. */
  predicate Shrinks(s: System, x: System)
  {
    && x.sharers == s.sharers && x.registry == s.registry && x.maxViewers == s.maxViewers && SameChans(s, x)
    && |x.sessions| == |s.sessions| && |x.watchers| == |s.watchers|
    && (forall o :: 0 <= o < |s.sessions| ==> Shrunk(s.sessions[o], x.sessions[o]))
    && forall w :: 0 <= w < |s.watchers| ==>
         || x.watchers[w] == s.watchers[w]
         || (s.watchers[w].Watching? && x.watchers[w] == Gone(Some(s.watchers[w].chan)))
  }

  lemma Smaller(a: map<Id, nat>, b: map<Id, nat>)
    requires b.Keys <= a.Keys
    ensures |b| <= |a|
  {
    assert |a.Keys| == |b.Keys| + |a.Keys - b.Keys|;
  }

  lemma ShrinksSession(s: System, x: System, o: nat)
    requires Core(s) && Shrinks(s, x) && o < |s.sessions|
    ensures SessionOk(x, o)
  {
    hide SharerOk, WatcherOk, RegistryOk;
    assert SessionOk(s, o) && Shrunk(s.sessions[o], x.sessions[o]);
    Smaller(Viewers(s, o), Viewers(x, o));
  }

  lemma ShrinksKeeps(s: System, x: System)
    requires Core(s) && Shrinks(s, x)
    ensures Core(x)
  {
    hide SessionOk;
    forall o | 0 <= o < |x.sessions| ensures SessionOk(x, o) {
      ShrinksSession(s, x, o);
    }
    forall t | 0 <= t < |x.sharers| ensures SharerOk(x, t) {
      assert SharerOk(s, t);
    }
    forall w | 0 <= w < |x.watchers| ensures WatcherOk(x, w) {
      assert WatcherOk(s, w);
    }
  }

  lemma {:induction false} CloseAllSame(s: System, m: map<Id, nat>, order: seq<Id>)
    requires forall id :: id in order ==> id in m && m[id] < |s.chans|
    ensures var t := CloseAll(s, m, order); SameChans(s, t) && t == s.(chans := t.chans, panicked := t.panicked)
    decreases |order|
  {
    if order != [] {
      CloseAllSame(CloseChan(s, m[order[0]]), m, order[1..]);
    }
  }

  lemma LoopShrinks(s: System, e: Event)
    requires Core(s) && Possible(s, e) && (e.Broadcast? || e.Unicast?)
    ensures Shrinks(s, Next(s, e))
  {
    hide CloseAll, SharerOk, WatcherOk, RegistryOk, SessionOk, SessionState.Enumerates;
  }

  lemma LeaveShrinks(s: System, w: nat)
    requires Core(s) && Possible(s, Leave(w))
    ensures Shrinks(s, Next(s, Leave(w)))
  {
    hide CloseAll, SharerOk, WatcherOk, RegistryOk, SessionOk, SessionState.Enumerates;
  }

  lemma ArrivalCore(s: System, e: Event)
    requires Core(s) && (e.NewSharer? || e.NewWatcher? || e.Lookup?) && Possible(s, e)
    ensures Core(Next(s, e))
  {
    hide CloseAll, SessionState.Enumerates;
    var x := Next(s, e);
    forall t1 | 0 <= t1 < |x.sharers| ensures SharerOk(x, t1) {
      if t1 < |s.sharers| { assert SharerOk(s, t1); }
    }
    forall o1 | 0 <= o1 < |x.sessions| ensures SessionOk(x, o1) {
      if o1 < |s.sessions| { assert SessionOk(s, o1); }
    }
    forall w1 | 0 <= w1 < |x.watchers| ensures WatcherOk(x, w1) {
      if w1 < |s.watchers| { assert WatcherOk(s, w1); }
    }
  }

  /** Only sharers, their registrations and their sessions change. */
  lemma WatchersFrame(s: System, x: System)
    requires Core(s) && x.watchers == s.watchers && SameChans(s, x) && |s.sessions| <= |x.sessions|
    ensures forall w :: 0 <= w < |x.watchers| ==> WatcherOk(x, w)
  {
    hide SharerOk, SessionOk, RegistryOk;
    forall w | 0 <= w < |x.watchers| ensures WatcherOk(x, w) {
      assert WatcherOk(s, w);
    }
  }

  lemma CoreAt(s: System, t: nat, o: nat)
    requires Core(s)
    ensures t < |s.sharers| ==> SharerOk(s, t)
    ensures o < |s.sessions| ==> SessionOk(s, o)
  {
    hide SharerOk, SessionOk, WatcherOk, RegistryOk;
  }

  lemma RegisterSharer(s: System, t: nat, t1: nat)
    requires Core(s) && Possible(s, Register(t)) && t1 < |Next(s, Register(t)).sharers|
    ensures SharerOk(Next(s, Register(t)), t1)
  {
    hide WatcherOk, SessionOk, RegistryOk, CloseAll, SessionState.Enumerates;
    if t1 < |s.sharers| { assert SharerOk(s, t1); }
  }

  lemma RegisterSession(s: System, t: nat, o1: nat)
    requires Core(s) && Possible(s, Register(t)) && o1 < |Next(s, Register(t)).sessions|
    ensures SessionOk(Next(s, Register(t)), o1)
  {
    hide WatcherOk, CloseAll, SessionState.Enumerates;
    if o1 < |s.sessions| { assert SessionOk(s, o1); }
  }

  lemma RegisterRegistry(s: System, t: nat)
    requires Core(s) && Possible(s, Register(t))
    ensures RegistryOk(Next(s, Register(t)))
  {
    hide WatcherOk, SessionOk, CloseAll, SessionState.Enumerates;
  }

  lemma RegisterCore(s: System, t: nat)
    requires Core(s) && Possible(s, Register(t))
    ensures Core(Next(s, Register(t)))
  {
    hide WatcherOk, SharerOk, SessionOk, CloseAll, SessionState.Enumerates;
    var x := Next(s, Register(t));
    WatchersFrame(s, x);
    RegisterRegistry(s, t);
    forall t1 | 0 <= t1 < |x.sharers| ensures SharerOk(x, t1) {
      RegisterSharer(s, t, t1);
    }
    forall o1 | 0 <= o1 < |x.sessions| ensures SessionOk(x, o1) {
      RegisterSession(s, t, o1);
    }
  }

  lemma CloseStep(s: System, t: nat, order: seq<Id>)
    requires Core(s) && Possible(s, Close(t, order))
    ensures var o := s.sharers[t].session; var x := Next(s, Close(t, order));
      && s.sessions[o].sharer == t && s.sharers[t].sid in s.registry && s.registry[s.sharers[t].sid] == o
      && SameChans(s, x)
      && x == s.(chans := x.chans, panicked := x.panicked,
                 sessions := s.sessions[o := s.sessions[o].(viewers := None, closed := true)],
                 sharers := s.sharers[t := Closing(s.sharers[t].sid, o)])
  {
    assert SharerOk(s, t);
    CloseAllSame(s, Viewers(s, s.sharers[t].session), order);
    hide CloseAll, Core;
  }

  lemma CloseCore(s: System, t: nat, order: seq<Id>)
    requires Core(s) && Possible(s, Close(t, order))
    ensures Core(Next(s, Close(t, order)))
  {
    hide SessionOk, SessionState.Enumerates, Next;
    CloseStep(s, t, order);
    var x := Next(s, Close(t, order));
    WatchersFrame(s, x);
    forall t1 | 0 <= t1 < |x.sharers| ensures SharerOk(x, t1) {
      assert SharerOk(s, t1);
    }
    forall o1 | 0 <= o1 < |x.sessions| ensures SessionOk(x, o1) {
      CloseSession(s, t, order, o1);
    }
  }

  lemma CloseSession(s: System, t: nat, order: seq<Id>, o1: nat)
    requires Core(s) && Possible(s, Close(t, order)) && o1 < |Next(s, Close(t, order)).sessions|
    ensures SessionOk(Next(s, Close(t, order)), o1)
  {
    hide WatcherOk, SharerOk, RegistryOk, SessionState.Enumerates, Next;
    CloseStep(s, t, order);
    assert o1 < |s.sessions| ==> SessionOk(s, o1);
  }

  lemma UnregisterSharer(s: System, t: nat, t1: nat)
    requires Core(s) && Possible(s, Unregister(t)) && t1 < |Next(s, Unregister(t)).sharers|
    ensures SharerOk(Next(s, Unregister(t)), t1)
  {
    hide WatcherOk, SessionOk, CloseAll, SessionState.Enumerates;
    assert SharerOk(s, t);
    if t1 < |s.sharers| { assert SharerOk(s, t1); }
  }

  lemma UnregisterSession(s: System, t: nat, o1: nat)
    requires Core(s) && Possible(s, Unregister(t)) && o1 < |Next(s, Unregister(t)).sessions|
    ensures SessionOk(Next(s, Unregister(t)), o1)
  {
    hide Core, CloseAll, SessionState.Enumerates;
    CoreAt(s, t, o1);
    assert Viewers(Next(s, Unregister(t)), o1) == Viewers(s, o1);
  }

  lemma UnregisterRegistry(s: System, t: nat)
    requires Core(s) && Possible(s, Unregister(t))
    ensures RegistryOk(Next(s, Unregister(t)))
  {
    hide WatcherOk, SessionOk, CloseAll, SessionState.Enumerates;
    assert SharerOk(s, t);
  }

  lemma UnregisterCore(s: System, t: nat)
    requires Core(s) && Possible(s, Unregister(t))
    ensures Core(Next(s, Unregister(t)))
  {
    hide WatcherOk, SharerOk, SessionOk, CloseAll, SessionState.Enumerates;
    var x := Next(s, Unregister(t));
    WatchersFrame(s, x);
    UnregisterRegistry(s, t);
    forall t1 | 0 <= t1 < |x.sharers| ensures SharerOk(x, t1) {
      UnregisterSharer(s, t, t1);
    }
    forall o1 | 0 <= o1 < |x.sessions| ensures SessionOk(x, o1) {
      UnregisterSession(s, t, o1);
    }
  }

  lemma JoinSharers(s: System, w: nat, id: Id)
    requires Core(s) && Possible(s, Join(w, id))
    ensures RegistryOk(Next(s, Join(w, id)))
    ensures forall t1 :: 0 <= t1 < |Next(s, Join(w, id)).sharers| ==> SharerOk(Next(s, Join(w, id)), t1)
  {
    hide CloseAll, SessionState.Enumerates, WatcherOk, SessionOk;
    forall t1 | 0 <= t1 < |s.sharers| ensures SharerOk(Next(s, Join(w, id)), t1) {
      assert SharerOk(s, t1);
    }
  }

  lemma Larger(m: map<Id, nat>, id: Id, c: nat)
    ensures |m[id := c]| <= |m| + 1
  {
    assert m[id := c].Keys == m.Keys + {id};
  }

  lemma JoinLists(s: System, w: nat, id: Id, o1: nat)
    requires Possible(s, Join(w, id)) && o1 < |s.sessions|
    ensures var x := Next(s, Join(w, id));
      && x.sharers == s.sharers && x.maxViewers == s.maxViewers && s.chans <= x.chans && |x.sessions| == |s.sessions|
      && x.sessions[o1] == s.sessions[o1].(viewers := x.sessions[o1].viewers)
      && (x.sessions[o1] == s.sessions[o1]
          || (!s.sessions[o1].closed && s.sessions[o1].viewers.Some? && x.sessions[o1].viewers.Some?
              && |Viewers(s, o1)| < s.maxViewers && |x.chans| == |s.chans| + 1
              && Viewers(x, o1) == Viewers(s, o1)[id := |s.chans|]
              && x.chans[|s.chans|].id == id && x.chans[|s.chans|].session == o1))
  {
    hide CloseAll, SessionState.Enumerates;
  }

  lemma JoinSession(s: System, w: nat, id: Id, o1: nat)
    requires Core(s) && Possible(s, Join(w, id)) && o1 < |Next(s, Join(w, id)).sessions|
    ensures SessionOk(Next(s, Join(w, id)), o1)
  {
    hide SessionState.Enumerates, Core, Next, Possible;
    JoinCount(s, w, id);
    CoreAt(s, 0, o1);
    Larger(Viewers(s, o1), id, |s.chans|);
    JoinLists(s, w, id, o1);
  }

  lemma JoinCount(s: System, w: nat, id: Id)
    requires Possible(s, Join(w, id))
    ensures |Next(s, Join(w, id)).sessions| == |s.sessions|
  {
    hide CloseAll, SessionState.Enumerates;
  }

  lemma JoinWatcher(s: System, w: nat, id: Id, w1: nat)
    requires Core(s) && Possible(s, Join(w, id)) && w1 < |Next(s, Join(w, id)).watchers|
    ensures WatcherOk(Next(s, Join(w, id)), w1)
  {
    hide CloseAll, SessionState.Enumerates, SharerOk, RegistryOk, SessionOk;
    assert WatcherOk(s, w1);
  }

  lemma JoinCore(s: System, w: nat, id: Id)
    requires Core(s) && Possible(s, Join(w, id))
    ensures Core(Next(s, Join(w, id)))
  {
    hide CloseAll, SessionState.Enumerates, SharerOk, RegistryOk, WatcherOk, SessionOk;
    var x := Next(s, Join(w, id));
    JoinSharers(s, w, id);
    forall o1 | 0 <= o1 < |x.sessions| ensures SessionOk(x, o1) {
      JoinSession(s, w, id, o1);
    }
    forall w1 | 0 <= w1 < |x.watchers| ensures WatcherOk(x, w1) {
      JoinWatcher(s, w, id, w1);
    }
  }

  lemma CoreKeeps(s: System, e: Event)
    requires Core(s) && Possible(s, e)
    ensures Core(Next(s, e)) && Next(s, e).maxViewers == s.maxViewers
  {
    hide Core, SessionState.Enumerates, Shrunk, SameChans;
    match e
    case Register(t) => RegisterCore(s, t);
    case Broadcast(t) => LoopShrinks(s, e); ShrinksKeeps(s, Next(s, e));
    case Unicast(t, target, full) => LoopShrinks(s, e); ShrinksKeeps(s, Next(s, e));
    case Close(t, order) => CloseCore(s, t, order); CloseStep(s, t, order);
    case Unregister(t) => UnregisterCore(s, t);
    case Join(w, id) => JoinCore(s, w, id);
    case Leave(w) => LeaveShrinks(s, w); ShrinksKeeps(s, Next(s, e));
    case _ => ArrivalCore(s, e);
  }

  lemma {:induction false} RunKeeps(s: System, es: seq<Event>, t: System)
    requires Core(s) && Run(s, es, t)
    ensures Core(t) && t.maxViewers == s.maxViewers
    decreases |es|
  {
    hide Core, Next;
    if es != [] {
      CoreKeeps(s, es[0]);
      RunKeeps(Next(s, es[0]), es[1..], t);
    }
  }

  /** Under every interleaving every session respects the viewer limit. */
  lemma ViewerLimit(maxViewers: nat, es: seq<Event>, s: System, o: nat)
    requires Run(Start(maxViewers), es, s) && o < |s.sessions|
    ensures |Viewers(s, o)| <= maxViewers
  {
    RunKeeps(Start(maxViewers), es, s);
    assert SessionOk(s, o);
  }

  /**
   * A sharer between the two parts of its exit has closed its session, which lists nobody, and finds under
   * its identifier the session that it registered itself: what it deletes is its own.
   */
  lemma TeardownIsOwn(maxViewers: nat, es: seq<Event>, s: System, t: nat)
    requires Run(Start(maxViewers), es, s) && t < |s.sharers| && s.sharers[t].Closing?
    ensures var o := s.sharers[t].session;
      && s.sharers[t].sid in s.registry && s.registry[s.sharers[t].sid] == o < |s.sessions|
      && s.sessions[o].sharer == t && s.sessions[o].closed && s.sessions[o].viewers.None?
  {
    RunKeeps(Start(maxViewers), es, s);
    assert SharerOk(s, t);
    assert SessionOk(s, s.sharers[t].session);
  }

  /** The steps of the model are total where the code's are: what Possible says of indices always holds. */
  lemma StepsDefined(s: System, t: nat, w: nat)
    requires Core(s)
    ensures t < |s.sharers| && s.sharers[t].Running? ==> InLoop(s, t)
    ensures w < |s.watchers| && s.watchers[w].Watching? ==> Possible(s, Leave(w))
    ensures w < |s.watchers| && s.watchers[w].Joining? ==> s.watchers[w].session < |s.sessions|
  {
    assert t < |s.sharers| ==> SharerOk(s, t);
    assert w < |s.watchers| ==> WatcherOk(s, w);
    assert t < |s.sharers| && s.sharers[t].Running? ==> SessionOk(s, s.sharers[t].session);
  }

  // ----- a viewer reaches the session that it asked for

  /** The sharer whose session it is offered that identifier. */
  predicate IsSessionOf(s: System, o: nat, sid: Bytes)
  {
    o < |s.sessions| && s.sessions[o].sharer < |s.offered| && s.offered[s.sessions[o].sharer] == sid
  }

  predicate SharerTrue(s: System, t: nat)
    requires t < |s.sharers| == |s.offered|
  {
    match s.sharers[t]
    case Arrived(sid) => sid == s.offered[t]
    case Running(sid, _) => sid == s.offered[t]
    case Closing(sid, _) => sid == s.offered[t]
    case _ => true
  }

  predicate WatcherTrue(s: System, w: nat)
    requires w < |s.watchers| == |s.asked|
  {
    match s.watchers[w]
    case Looking(sid) => sid == s.asked[w]
    case Joining(o) => IsSessionOf(s, o, s.asked[w])
    case Watching(o, _, _) => IsSessionOf(s, o, s.asked[w])
    case Gone(_) => true
  }

  predicate ChanTrue(s: System, c: nat)
    requires c < |s.chans|
  {
    s.chans[c].watcher < |s.asked| && IsSessionOf(s, s.chans[c].session, s.asked[s.chans[c].watcher])
  }

  predicate Directed(s: System)
  {
    && |s.offered| == |s.sharers| && |s.asked| == |s.watchers|
    && (forall t :: 0 <= t < |s.sharers| ==> SharerTrue(s, t))
    && (forall w :: 0 <= w < |s.watchers| ==> WatcherTrue(s, w))
    && (forall c :: 0 <= c < |s.chans| ==> ChanTrue(s, c))
  }

  /** A registration found under an identifier is that of a sharer inside its loop or its exit that offered it. */
  lemma RegisteredOffered(s: System, sid: Bytes)
    requires Core(s) && Directed(s) && sid in s.registry
    ensures IsSessionOf(s, s.registry[sid], sid)
    ensures var t := s.sessions[s.registry[sid]].sharer;
      t < |s.sharers| && (s.sharers[t].Running? || s.sharers[t].Closing?) && s.sharers[t].session == s.registry[sid]
  {
    hide SharerOk, SessionOk, WatcherOk, WatcherTrue, ChanTrue;
    assert SharerTrue(s, s.sessions[s.registry[sid]].sharer);
  }

  lemma OldSessions(s: System, x: System, o: nat, sid: Bytes)
    requires IsSessionOf(s, o, sid) && |s.sessions| <= |x.sessions| && s.offered <= x.offered
    requires forall i :: 0 <= i < |s.sessions| ==> x.sessions[i].sharer == s.sessions[i].sharer
    ensures IsSessionOf(x, o, sid)
  {}

  /** Sessions keep their sharers, and arrivals are only added. */
  lemma SessionsStay(s: System, e: Event)
    requires Core(s) && Possible(s, e)
    ensures var x := Next(s, e);
      && |s.sessions| <= |x.sessions| && s.offered <= x.offered && s.asked <= x.asked
      && (forall i :: 0 <= i < |s.sessions| ==> x.sessions[i].sharer == s.sessions[i].sharer)
  {
    hide SharerOk, SessionOk, WatcherOk, RegistryOk, SessionState.Enumerates;
    if e.Close? {
      CloseStep(s, e.t, e.order);
    }
    hide CloseAll;
  }

  /** A sharer keeps its identifier as long as it holds one. */
  predicate SharerMoves(a: Sharer, b: Sharer)
  {
    || b == a || b.Rejected? || b.Finished?
    || (a.Arrived? && b.Running? && b.sid == a.sid)
    || (a.Running? && b.Closing? && b.sid == a.sid)
  }

  lemma SharerMovesOn(s: System, e: Event, t: nat)
    requires Core(s) && Possible(s, e) && t < |Next(s, e).sharers|
    ensures if t < |s.sharers| then SharerMoves(s.sharers[t], Next(s, e).sharers[t])
            else e.NewSharer? && t == |s.sharers| && Next(s, e).sharers[t] == Arrived(e.sid)
    ensures Next(s, e).offered == if e.NewSharer? then s.offered + [e.sid] else s.offered
  {
    hide Core, SessionState.Enumerates;
    if e.Close? {
      CloseStep(s, e.t, e.order);
    }
    hide CloseAll;
  }

  lemma SharersDirected(s: System, e: Event, t: nat)
    requires Core(s) && Directed(s) && Possible(s, e) && t < |Next(s, e).sharers|
    ensures |Next(s, e).offered| == |Next(s, e).sharers| && SharerTrue(Next(s, e), t)
  {
    hide Core, WatcherTrue, ChanTrue, Next, Possible;
    ArrivalsCount(s, e);
    SharerMovesOn(s, e, t);
    assert t < |s.sharers| ==> SharerTrue(s, t);
  }

  /** What a step does to one viewer: it stays, moves on within its session, leaves, or is looked up. */
  predicate Moves(s: System, a: Watcher, b: Watcher)
  {
    || b == a || b.Gone?
    || (a.Joining? && b.Watching? && b.session == a.session)
    || (a.Looking? && b.Joining? && a.sid in s.registry && b.session == s.registry[a.sid])
  }

  lemma WatcherMoves(s: System, e: Event, w: nat)
    requires Core(s) && Possible(s, e) && w < |Next(s, e).watchers|
    ensures if w < |s.watchers| then Moves(s, s.watchers[w], Next(s, e).watchers[w])
            else e.NewWatcher? && w == |s.watchers| && Next(s, e).watchers[w] == Looking(e.sid)
    ensures Next(s, e).asked == if e.NewWatcher? then s.asked + [e.sid] else s.asked
  {
    hide Core, SessionState.Enumerates;
    if e.Close? {
      CloseStep(s, e.t, e.order);
    }
    hide CloseAll;
  }

  lemma WatchersDirected(s: System, e: Event, w: nat)
    requires Core(s) && Directed(s) && Possible(s, e) && w < |Next(s, e).watchers|
    ensures |Next(s, e).asked| == |Next(s, e).watchers| && WatcherTrue(Next(s, e), w)
  {
    hide Core, SharerTrue, ChanTrue, IsSessionOf, Next, Possible;
    ArrivalsCount(s, e);
    SessionsStay(s, e);
    WatcherMoves(s, e, w);
    var x := Next(s, e);
    if w < |s.watchers| {
      assert WatcherTrue(s, w);
      var a, b := s.watchers[w], x.watchers[w];
      if a.Looking? && b.Joining? {
        RegisteredOffered(s, a.sid);
        OldSessions(s, x, b.session, s.asked[w]);
      } else if a.Joining? || a.Watching? {
        OldSessions(s, x, a.session, s.asked[w]);
      }
    }
  }

  /** A channel stays with its session and its viewer; a new one is the joining viewer's. */
  lemma ChanMoves(s: System, e: Event, c: nat)
    requires Core(s) && Possible(s, e) && c < |Next(s, e).chans|
    ensures if c < |s.chans| then
        Next(s, e).chans[c] == s.chans[c].(open := Next(s, e).chans[c].open, closes := Next(s, e).chans[c].closes)
      else
        && e.Join? && Next(s, e).chans[c].watcher == e.w && Next(s, e).chans[c].session == s.watchers[e.w].session
  {
    hide Core, SessionState.Enumerates;
    if e.Close? {
      CloseStep(s, e.t, e.order);
    }
    hide CloseAll;
  }

  lemma ChansDirected(s: System, e: Event, c: nat)
    requires Core(s) && Directed(s) && Possible(s, e) && c < |Next(s, e).chans|
    ensures ChanTrue(Next(s, e), c)
  {
    hide Core, SharerTrue, IsSessionOf, Next;
    SessionsStay(s, e);
    ChanMoves(s, e, c);
    var x := Next(s, e);
    if c < |s.chans| {
      assert ChanTrue(s, c);
      OldSessions(s, x, s.chans[c].session, s.asked[s.chans[c].watcher]);
    } else {
      assert WatcherTrue(s, e.w);
      OldSessions(s, x, s.watchers[e.w].session, s.asked[e.w]);
    }
  }

  lemma NextDirected(s: System, e: Event)
    requires Core(s) && Directed(s) && Possible(s, e)
    ensures Directed(Next(s, e))
  {
    var x := Next(s, e);
    ArrivalsCount(s, e);
    forall t | 0 <= t < |x.sharers| ensures SharerTrue(x, t) {
      SharersDirected(s, e, t);
    }
    forall w | 0 <= w < |x.watchers| ensures WatcherTrue(x, w) {
      WatchersDirected(s, e, w);
    }
    forall c | 0 <= c < |x.chans| ensures ChanTrue(x, c) {
      ChansDirected(s, e, c);
    }
    hide *;
  }

  lemma ArrivalsCount(s: System, e: Event)
    requires Core(s) && Directed(s) && Possible(s, e)
    ensures |Next(s, e).offered| == |Next(s, e).sharers| && |Next(s, e).asked| == |Next(s, e).watchers|
  {
    hide SharerOk, SessionOk, WatcherOk, RegistryOk, SharerTrue, WatcherTrue, ChanTrue, SessionState.Enumerates;
    if e.Close? {
      CloseStep(s, e.t, e.order);
    }
    hide CloseAll;
  }

  lemma {:induction false} RunDirected(s: System, es: seq<Event>, t: System)
    requires Core(s) && Directed(s) && Run(s, es, t)
    ensures Core(t) && Directed(t)
    decreases |es|
  {
    hide Core, Directed, Next;
    if es != [] {
      CoreKeeps(s, es[0]);
      NextDirected(s, es[0]);
      RunDirected(Next(s, es[0]), es[1..], t);
    }
  }

  /**
   * Over every interleaving: a viewer that is joining or watching, and whoever is listed, is in a session of a
   * sharer that offered the identifier the viewer arrived with; that sharer is in its loop, in its exit, or done.
   */
  lemma ReachesItsSession(maxViewers: nat, es: seq<Event>, s: System, w: nat, o: nat, id: Id)
    requires Run(Start(maxViewers), es, s)
    ensures w < |s.watchers| && (s.watchers[w].Joining? || s.watchers[w].Watching?) ==>
      var p := s.watchers[w].session;
      && p < |s.sessions| && s.sessions[p].sharer < |s.sharers| == |s.offered| && w < |s.asked|
      && s.offered[s.sessions[p].sharer] == s.asked[w]
      && (s.sharers[s.sessions[p].sharer].Running? || s.sharers[s.sessions[p].sharer].Closing?
          || s.sharers[s.sessions[p].sharer].Finished?)
      && s.sharers[s.sessions[p].sharer].session == p
    ensures o < |s.sessions| && id in Viewers(s, o) ==>
      && Viewers(s, o)[id] < |s.chans| && s.sessions[o].sharer < |s.offered|
      && s.chans[Viewers(s, o)[id]].watcher < |s.asked|
      && s.offered[s.sessions[o].sharer] == s.asked[s.chans[Viewers(s, o)[id]].watcher]
  {
    RunDirected(Start(maxViewers), es, s);
    hide SharerOk, WatcherOk, RegistryOk, SharerTrue;
    if w < |s.watchers| && (s.watchers[w].Joining? || s.watchers[w].Watching?) {
      assert WatcherTrue(s, w);
      assert SessionOk(s, s.watchers[w].session);
    }
    if o < |s.sessions| && id in Viewers(s, o) {
      assert SessionOk(s, o);
      assert ChanTrue(s, Viewers(s, o)[id]);
    }
  }

  /** A sharer that offered the identifier is in its loop or its exit. */
  predicate Served(s: System, sid: Bytes, t: nat)
  {
    t < |s.sharers| == |s.offered| && s.offered[t] == sid && (s.sharers[t].Running? || s.sharers[t].Closing?)
  }

  /**
   * Over every interleaving: at the look-up a viewer is turned away if and only if no sharer is in its loop or
   * its exit that offered the identifier the viewer arrived with; else it joins the session of such a sharer.
   */
  lemma LookupIff(maxViewers: nat, es: seq<Event>, s: System, w: nat)
    requires Run(Start(maxViewers), es, s) && Possible(s, Lookup(w))
    ensures w < |s.asked|
    ensures var x := Next(s, Lookup(w)).watchers[w];
      && (x == Gone(None) <==> forall t: nat :: !Served(s, s.asked[w], t))
      && (x != Gone(None) ==>
            && x.Joining? && x.session < |s.sessions| && Served(s, s.asked[w], s.sessions[x.session].sharer)
            && s.sharers[s.sessions[x.session].sharer].session == x.session)
  {
    RunDirected(Start(maxViewers), es, s);
    hide SessionOk, WatcherOk, ChanTrue;
    assert WatcherTrue(s, w);
    var sid := s.asked[w];
    if sid in s.registry {
      RegisteredOffered(s, sid);
      assert Served(s, sid, s.sessions[s.registry[sid]].sharer);
    } else {
      forall t: nat ensures !Served(s, sid, t) {
        assert t < |s.sharers| ==> SharerOk(s, t) && SharerTrue(s, t);
      }
    }
  }

  /**
   * Over every interleaving: a sharer is rejected if and only if another one that offered the same identifier is
   * in its loop or its exit.
   */
  lemma RegisterIff(maxViewers: nat, es: seq<Event>, s: System, t: nat)
    requires Run(Start(maxViewers), es, s) && Possible(s, Register(t))
    ensures t < |s.offered|
    ensures var x := Next(s, Register(t)).sharers[t];
      && (x == Rejected <==> exists u: nat :: Served(s, s.offered[t], u))
      && (x != Rejected ==> x == Running(s.offered[t], |s.sessions|))
  {
    RunDirected(Start(maxViewers), es, s);
    hide SessionOk, WatcherOk, ChanTrue, WatcherTrue;
    assert SharerTrue(s, t);
    var sid := s.offered[t];
    if sid in s.registry {
      RegisteredOffered(s, sid);
      assert Served(s, sid, s.sessions[s.registry[sid]].sharer);
    } else {
      forall u: nat ensures !Served(s, sid, u) {
        assert u < |s.sharers| ==> SharerOk(s, u) && SharerTrue(s, u);
      }
    }
  }

  /** There is never more than one of these. */
  lemma ServedOnce(maxViewers: nat, es: seq<Event>, s: System, sid: Bytes, t: nat, u: nat)
    requires Run(Start(maxViewers), es, s) && Served(s, sid, t) && Served(s, sid, u)
    ensures t == u
  {
    RunDirected(Start(maxViewers), es, s);
    hide SessionOk, WatcherOk, ChanTrue, WatcherTrue;
    assert SharerOk(s, t) && SharerTrue(s, t) && SharerOk(s, u) && SharerTrue(s, u);
  }
}
