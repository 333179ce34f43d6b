/**
 * Who is listed: as long as no identifier is drawn again while a viewer of the session that goes by it still
 * runs, a viewer is listed exactly while its channel is open, and every channel is closed exactly once.
 */
module RelayListing {
  import opened ByteStrings
  import opened RelayThreads
  import SessionState

  /** Some viewer of the session whose handler still runs goes by that identifier. */
  predicate InUse(s: System, o: nat, id: Id)
  {
    exists v :: 0 <= v < |s.watchers| && s.watchers[v].Watching? && s.watchers[v].session == o && s.watchers[v].id == id
  }

  /** An admitted viewer draws an identifier that is not in use. */
  predicate Fresh(s: System, e: Event)
    requires Possible(s, e)
  {
    e.Join? && Admits(s, e.w) ==> !InUse(s, s.watchers[e.w].session, e.id)
  }

  ghost predicate FreshRun(s: System, es: seq<Event>, t: System)
    decreases |es|
  {
    if es == [] then s == t else Possible(s, es[0]) && Fresh(s, es[0]) && FreshRun(Next(s, es[0]), es[1..], t)
  }

  /** Listed if and only if open; closed at most once. */
  predicate ChanOk(s: System, c: nat)
    requires c < |s.chans|
  {
    var x := s.chans[c];
    && x.session < |s.sessions| && x.watcher < |s.watchers|
    && (x.open <==> x.id in Viewers(s, x.session) && Viewers(s, x.session)[x.id] == c)
    && x.closes == (if x.open then 0 else 1)
    && (s.watchers[x.watcher] == Watching(x.session, x.id, c) || (s.watchers[x.watcher] == Gone(Some(c)) && !x.open))
  }

  predicate DistinctIds(s: System)
  {
    forall v, w | 0 <= v < w < |s.watchers| && s.watchers[v].Watching? && s.watchers[w].Watching? ::
      s.watchers[v].session == s.watchers[w].session ==> s.watchers[v].id != s.watchers[w].id
  }

  predicate Inv(s: System)
  {
    Core(s) && !s.panicked && DistinctIds(s) && forall c :: 0 <= c < |s.chans| ==> ChanOk(s, c)
  }

  ghost predicate Hit(m: map<Id, nat>, order: seq<Id>, c: nat)
    requires forall id :: id in order ==> id in m
  {
    exists id :: id in order && m[id] == c
  }

  /** A teardown of open, distinct channels closes exactly those, without a panic. */
  lemma {:induction false} CloseAllShape(s: System, m: map<Id, nat>, order: seq<Id>)
    requires forall id :: id in order ==> id in m && m[id] < |s.chans| && s.chans[m[id]].open && s.chans[m[id]].id == id
    requires forall i, j :: 0 <= i < j < |order| ==> order[i] != order[j]
    ensures var t := CloseAll(s, m, order);
      && t == s.(chans := t.chans)
      && forall c :: 0 <= c < |s.chans| ==>
           t.chans[c] == if Hit(m, order, c) then s.chans[c].(open := false, closes := s.chans[c].closes + 1)
                         else s.chans[c]
    decreases |order|
  {
    if order != [] {
      var s1 := CloseChan(s, m[order[0]]);
      assert order[0] in order;
      forall id | id in order[1..] ensures s1.chans[m[id]].open && s1.chans[m[id]].id == id {
        assert id in order && id != order[0];
      }
      CloseAllShape(s1, m, order[1..]);
      assert order == [order[0]] + order[1..];
    }
  }

  /** The steps that touch neither channels nor the viewers that are watching. */
  lemma OtherKeeps(s: System, e: Event)
    requires Inv(s) && Possible(s, e) && !e.Unicast? && !e.Close? && !e.Join? && !e.Leave?
    ensures Inv(Next(s, e))
  {
    hide Core, CloseAll, SessionState.Enumerates;
    CoreKeeps(s, e);
    if e.Broadcast? {
      BroadcastKeeps(s, e.t);
    }
    var x := Next(s, e);
    forall c | 0 <= c < |x.chans| ensures ChanOk(x, c) {
      assert ChanOk(s, c);
    }
  }

  /** A broadcast finds every listed channel open. */
  lemma BroadcastKeeps(s: System, t: nat)
    requires Inv(s) && Possible(s, Broadcast(t))
    ensures Next(s, Broadcast(t)) == s
  {
    var o := s.sharers[t].session;
    assert SessionOk(s, o);
    forall id | id in Viewers(s, o) ensures s.chans[Viewers(s, o)[id]].open {
      assert ChanOk(s, Viewers(s, o)[id]);
    }
  }

  /** The listed channel is open and its viewer is still watching. */
  lemma ListedFacts(s: System, o: nat, id: Id)
    requires Inv(s) && o < |s.sessions| && id in Viewers(s, o)
    ensures var c := Viewers(s, o)[id];
      && c < |s.chans| && s.chans[c].watcher < |s.watchers|
      && s.chans[c].open && s.chans[c].closes == 0 && s.chans[c].session == o && s.chans[c].id == id
      && s.watchers[s.chans[c].watcher] == Watching(o, id, c)
      && !s.sessions[o].closed && s.sessions[o].viewers.Some?
  {
    hide CloseAll, SessionState.Enumerates;
    assert SessionOk(s, o);
    assert ChanOk(s, Viewers(s, o)[id]);
  }

  lemma UnicastKeepsChan(s: System, t: nat, target: Id, full: bool, c1: nat)
    requires Inv(s) && Possible(s, Unicast(t, target, full)) && c1 < |s.chans|
    ensures c1 < |Next(s, Unicast(t, target, full)).chans| && ChanOk(Next(s, Unicast(t, target, full)), c1)
  {
    hide SharerOk, RegistryOk, SessionOk, WatcherOk, CloseAll, SessionState.Enumerates;
    if target in Viewers(s, s.sharers[t].session) {
      ListedFacts(s, s.sharers[t].session, target);
    }
    assert ChanOk(s, c1);
  }

  lemma UnicastKeeps(s: System, t: nat, target: Id, full: bool)
    requires Inv(s) && Possible(s, Unicast(t, target, full))
    ensures Inv(Next(s, Unicast(t, target, full)))
  {
    hide Core, CloseAll, SessionState.Enumerates, ChanOk;
    CoreKeeps(s, Unicast(t, target, full));
    if target in Viewers(s, s.sharers[t].session) {
      ListedFacts(s, s.sharers[t].session, target);
    }
    var x := Next(s, Unicast(t, target, full));
    forall c1 | 0 <= c1 < |x.chans| ensures ChanOk(x, c1) {
      UnicastKeepsChan(s, t, target, full, c1);
    }
  }

  /** Which channels a teardown closes: the open ones of its session. */
  lemma CloseShape(s: System, t: nat, order: seq<Id>)
    requires Inv(s) && Possible(s, Close(t, order))
    ensures var o := s.sharers[t].session; var x := Next(s, Close(t, order));
      && s.sessions[o].sharer == t && s.sharers[t].sid in s.registry && s.registry[s.sharers[t].sid] == o
      && x == s.(chans := x.chans, sessions := x.sessions, sharers := x.sharers) && |x.chans| == |s.chans|
      && forall c :: 0 <= c < |s.chans| ==>
           x.chans[c] == if s.chans[c].open && s.chans[c].session == o then s.chans[c].(open := false, closes := 1)
                         else s.chans[c]
  {
    var o := s.sharers[t].session;
    var m := Viewers(s, o);
    assert SharerOk(s, t);
    forall id | id in order ensures id in m && m[id] < |s.chans| && s.chans[m[id]].open && s.chans[m[id]].id == id {
      ListedFacts(s, o, id);
    }
    CloseAllShape(s, m, order);
    forall c | 0 <= c < |s.chans| ensures Hit(m, order, c) <==> s.chans[c].open && s.chans[c].session == o {
      assert ChanOk(s, c);
      if Hit(m, order, c) {
        var id :| id in order && m[id] == c;
        ListedFacts(s, o, id);
      }
    }
    forall c | 0 <= c < |s.chans| && s.chans[c].open ensures s.chans[c].closes == 0 {
      assert ChanOk(s, c);
    }
    hide CloseAll, Inv;
  }

  lemma CloseKeepsChan(s: System, t: nat, order: seq<Id>, c1: nat)
    requires Inv(s) && Possible(s, Close(t, order)) && c1 < |Next(s, Close(t, order)).chans|
    ensures ChanOk(Next(s, Close(t, order)), c1)
  {
    hide CloseAll, Core, SessionState.Enumerates;
    CloseShape(s, t, order);
    assert c1 < |s.chans| ==> ChanOk(s, c1);
  }

  lemma CloseKeeps(s: System, t: nat, order: seq<Id>)
    requires Inv(s) && Possible(s, Close(t, order))
    ensures Inv(Next(s, Close(t, order)))
  {
    hide CloseAll, Core, ChanOk, SessionState.Enumerates;
    CoreKeeps(s, Close(t, order));
    CloseShape(s, t, order);
    var x := Next(s, Close(t, order));
    forall c1 | 0 <= c1 < |x.chans| ensures ChanOk(x, c1) {
      CloseKeepsChan(s, t, order, c1);
    }
  }

  lemma JoinKeepsChan(s: System, w: nat, id: Id, c1: nat)
    requires Inv(s) && Possible(s, Join(w, id)) && Fresh(s, Join(w, id)) && c1 < |Next(s, Join(w, id)).chans|
    ensures ChanOk(Next(s, Join(w, id)), c1)
  {
    hide CloseAll, SessionState.Enumerates, WatcherOk, SharerOk, RegistryOk;
    assert SessionOk(s, s.watchers[w].session);
    if c1 < |s.chans| {
      assert ChanOk(s, c1);
    }
  }

  lemma JoinKeeps(s: System, w: nat, id: Id)
    requires Inv(s) && Possible(s, Join(w, id)) && Fresh(s, Join(w, id))
    ensures Inv(Next(s, Join(w, id)))
  {
    hide CloseAll, SessionState.Enumerates, ChanOk, SharerOk, RegistryOk, WatcherOk, Core;
    CoreKeeps(s, Join(w, id));
    var x := Next(s, Join(w, id));
    JoinDistinct(s, w, id);
    forall c1 | 0 <= c1 < |x.chans| ensures ChanOk(x, c1) {
      JoinKeepsChan(s, w, id, c1);
    }
  }

  lemma JoinDistinct(s: System, w: nat, id: Id)
    requires Inv(s) && Possible(s, Join(w, id)) && Fresh(s, Join(w, id))
    ensures !Next(s, Join(w, id)).panicked && DistinctIds(Next(s, Join(w, id)))
  {
    hide CloseAll, SessionState.Enumerates, ChanOk, SharerOk, RegistryOk, WatcherOk;
    assert SessionOk(s, s.watchers[w].session);
  }

  lemma LeaveKeepsChan(s: System, w: nat, c1: nat)
    requires Inv(s) && Possible(s, Leave(w)) && c1 < |s.chans|
    ensures var x := Next(s, Leave(w)); !x.panicked && c1 < |x.chans| && ChanOk(x, c1)
  {
    hide CloseAll, SessionState.Enumerates, SharerOk, RegistryOk, SessionOk;
    var v := s.watchers[w];
    assert WatcherOk(s, w) && ChanOk(s, v.chan) && ChanOk(s, c1);
    if v.id in Viewers(s, v.session) {
      ListedFacts(s, v.session, v.id);
      assert Viewers(s, v.session)[v.id] == v.chan;
    }
  }

  lemma LeaveKeeps(s: System, w: nat)
    requires Inv(s) && Possible(s, Leave(w))
    ensures Inv(Next(s, Leave(w)))
  {
    hide CloseAll, SessionState.Enumerates, ChanOk, Core;
    CoreKeeps(s, Leave(w));
    LeavesQuietly(s, w);
    var x := Next(s, Leave(w));
    forall c1 | 0 <= c1 < |x.chans| ensures ChanOk(x, c1) {
      LeaveKeepsChan(s, w, c1);
    }
  }

  lemma LeavesQuietly(s: System, w: nat)
    requires Inv(s) && Possible(s, Leave(w))
    ensures !Next(s, Leave(w)).panicked
  {
    LeaveKeepsChan(s, w, s.watchers[w].chan);
  }

  lemma NextKeeps(s: System, e: Event)
    requires Inv(s) && Possible(s, e) && Fresh(s, e)
    ensures Inv(Next(s, e))
  {
    hide Inv, SessionState.Enumerates, Next;
    match e
    case Unicast(t, target, full) => UnicastKeeps(s, t, target, full);
    case Close(t, order) => CloseKeeps(s, t, order);
    case Join(w, id) => JoinKeeps(s, w, id);
    case Leave(w) => LeaveKeeps(s, w);
    case _ => OtherKeeps(s, e);
  }

  lemma {:induction false} FreshRunKeeps(s: System, es: seq<Event>, t: System)
    requires Inv(s) && FreshRun(s, es, t)
    ensures Inv(t)
    decreases |es|
  {
    hide Inv, Next;
    if es != [] {
      NextKeeps(s, es[0]);
      FreshRunKeeps(Next(s, es[0]), es[1..], t);
    }
  }

  /** A viewer is listed exactly as long as its channel is open; a channel is closed at most once. */
  lemma ListedIffOpen(maxViewers: nat, es: seq<Event>, s: System, c: nat)
    requires FreshRun(Start(maxViewers), es, s) && c < |s.chans|
    ensures s.chans[c].session < |s.sessions| && s.chans[c].closes == (if s.chans[c].open then 0 else 1)
    ensures var m := Viewers(s, s.chans[c].session); s.chans[c].open <==> s.chans[c].id in m && m[s.chans[c].id] == c
  {
    FreshRunKeeps(Start(maxViewers), es, s);
    assert ChanOk(s, c);
  }

  /** By the time a viewer's handler ends, its channel has been closed exactly once. */
  lemma ClosedOnceAtTheEnd(maxViewers: nat, es: seq<Event>, s: System, w: nat)
    requires FreshRun(Start(maxViewers), es, s) && w < |s.watchers| && s.watchers[w].Gone? && s.watchers[w].last.Some?
    ensures var c := s.watchers[w].last.value; c < |s.chans| && !s.chans[c].open && s.chans[c].closes == 1
  {
    FreshRunKeeps(Start(maxViewers), es, s);
    assert WatcherOk(s, w);
    assert ChanOk(s, s.watchers[w].last.value);
  }

  /** Listed exactly while open. */
  predicate ListedOpen(s: System, c: nat)
    requires c < |s.chans| && s.chans[c].session < |s.sessions|
  {
    var m := Viewers(s, s.chans[c].session);
    s.chans[c].open <==> s.chans[c].id in m && m[s.chans[c].id] == c
  }

  /** Every channel is listed exactly while it is open, and no viewer would panic by leaving. */
  ghost predicate Intact(s: System)
  {
    && (forall c :: 0 <= c < |s.chans| ==> s.chans[c].session < |s.sessions| && ListedOpen(s, c))
    && forall w: nat :: Possible(s, Leave(w)) ==> !Next(s, Leave(w)).panicked
  }

  /**
   * When an identifier may be drawn again: an admission leaves the relay intact if and only if no viewer of
   * that session whose handler still runs goes by the same identifier.  Otherwise that viewer's open channel
   * is no longer listed, or, if it was evicted, its leaving closes a closed channel.
   */
  lemma AdmissionIff(s: System, w: nat, id: Id)
    requires Inv(s) && Possible(s, Join(w, id)) && Admits(s, w)
    ensures Intact(Next(s, Join(w, id))) <==> !InUse(s, s.watchers[w].session, id)
  {
    hide Inv, Intact, InUse;
    if InUse(s, s.watchers[w].session, id) {
      ReuseBreaks(s, w, id);
    } else {
      JoinKeeps(s, w, id);
      InvIntact(Next(s, Join(w, id)));
    }
  }

  lemma InvIntact(s: System)
    requires Inv(s)
    ensures Intact(s)
  {
    hide SharerOk, SessionOk, RegistryOk, DistinctIds, CloseAll, Next;
    forall c | 0 <= c < |s.chans| ensures s.chans[c].session < |s.sessions| && ListedOpen(s, c) {
      assert ChanOk(s, c);
    }
    forall w: nat | Possible(s, Leave(w)) ensures !Next(s, Leave(w)).panicked {
      LeaveKeeps(s, w);
    }
  }

  lemma ReuseBreaks(s: System, w: nat, id: Id)
    requires Inv(s) && Possible(s, Join(w, id)) && Admits(s, w) && InUse(s, s.watchers[w].session, id)
    ensures !Intact(Next(s, Join(w, id)))
  {
    hide SharerOk, RegistryOk, DistinctIds, CloseAll, SessionState.Enumerates;
    var o := s.watchers[w].session;
    var v: nat :| v < |s.watchers| && s.watchers[v].Watching? && s.watchers[v].session == o && s.watchers[v].id == id;
    var c := s.watchers[v].chan;
    assert WatcherOk(s, v) && ChanOk(s, c) && SessionOk(s, o);
    var t := Next(s, Join(w, id));
    assert Viewers(t, o) == Viewers(s, o)[id := |s.chans|];
    assert t.chans[c] == s.chans[c] && t.watchers[v] == s.watchers[v];
    if s.chans[c].open {
      assert !ListedOpen(t, c);
    } else {
      assert Possible(t, Leave(v)) && Next(t, Leave(v)).panicked;
    }
  }
}
