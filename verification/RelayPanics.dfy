/**
 * When the relay panics: exactly when a newcomer is listed under the identifier of a viewer that was evicted
 * but whose handler has not finished.  That handler then closes its channel a second time.
 */
module RelayPanics {
  import opened ByteStrings
  import opened RelayThreads
  import SessionState

  /** A viewer of the session whose channel is closed, but whose handler still runs, goes by that identifier. */
  predicate HeldClosed(s: System, o: nat, id: Id)
  {
    exists v :: 0 <= v < |s.watchers| && IsHolder(s, v, o, id) && !s.chans[s.watchers[v].chan].open
  }

  predicate IsHolder(s: System, v: nat, o: nat, id: Id)
    requires v < |s.watchers|
  {
    s.watchers[v].Watching? && s.watchers[v].session == o && s.watchers[v].id == id && s.watchers[v].chan < |s.chans|
  }

  /** An admitted viewer draws no identifier that is held with a closed channel. */
  predicate Calm(s: System, e: Event)
    requires Possible(s, e)
  {
    e.Join? && Admits(s, e.w) ==> !HeldClosed(s, s.watchers[e.w].session, e.id)
  }

  ghost predicate CalmRun(s: System, es: seq<Event>)
    decreases |es|
  {
    es == [] || (Possible(s, es[0]) && Calm(s, es[0]) && CalmRun(Next(s, es[0]), es[1..]))
  }

  /** Nothing has panicked, and no step that some thread can take would panic. */
  ghost predicate Safe(s: System)
  {
    !s.panicked && forall e :: Possible(s, e) ==> !Next(s, e).panicked
  }

  ghost predicate SafeRun(s: System, es: seq<Event>)
    decreases |es|
  {
    Safe(s) && (es == [] || (Possible(s, es[0]) && SafeRun(Next(s, es[0]), es[1..])))
  }

  predicate ListedAreOpen(s: System, o: nat)
    requires o < |s.sessions|
  {
    forall id :: id in Viewers(s, o) ==> Viewers(s, o)[id] < |s.chans| && s.chans[Viewers(s, o)[id]].open
  }

  /** A viewer whose channel is closed finds nobody listed under its identifier. */
  predicate LeavesQuietly(s: System, w: nat)
    requires w < |s.watchers|
  {
    match s.watchers[w]
    case Watching(o, id, c) => o < |s.sessions| && c < |s.chans| && (!s.chans[c].open ==> id !in Viewers(s, o))
    case _ => true
  }

  predicate Quiet(s: System)
  {
    && Core(s) && !s.panicked
    && (forall o :: 0 <= o < |s.sessions| ==> ListedAreOpen(s, o))
    && (forall w :: 0 <= w < |s.watchers| ==> LeavesQuietly(s, w))
  }

  /** Closing open channels of one session, each once, does not panic and touches no other session. */
  lemma {:induction false} CloseAllOpen(s: System, o: nat, m: map<Id, nat>, order: seq<Id>)
    requires forall id :: id in order ==> id in m && m[id] < |s.chans| && s.chans[m[id]].open && s.chans[m[id]].id == id
    requires forall id :: id in order ==> s.chans[m[id]].session == o
    requires forall i, j :: 0 <= i < j < |order| ==> order[i] != order[j]
    ensures CloseAll(s, m, order).panicked == s.panicked
    ensures forall c :: 0 <= c < |s.chans| && s.chans[c].session != o ==> CloseAll(s, m, order).chans[c] == s.chans[c]
    decreases |order|
  {
    if order != [] {
      var s1 := CloseChan(s, m[order[0]]);
      forall id | id in order[1..] ensures s1.chans[m[id]].open && s1.chans[m[id]].id == id {
        assert id in order && id != order[0];
      }
      CloseAllOpen(s1, o, m, order[1..]);
      assert order == [order[0]] + order[1..];
    }
  }

  /** Closing a session closes its channels, which are open, and no other. */
  lemma CloseQuiet(s: System, t: nat, order: seq<Id>)
    requires Quiet(s) && Possible(s, Close(t, order))
    ensures var x := Next(s, Close(t, order));
      && !x.panicked && |x.chans| == |s.chans|
      && forall c :: 0 <= c < |s.chans| && s.chans[c].session != s.sharers[t].session ==> x.chans[c] == s.chans[c]
  {
    var o := s.sharers[t].session;
    assert SessionOk(s, o) && ListedAreOpen(s, o);
    CloseAllOpen(s, o, Viewers(s, o), order);
    hide CloseAll, Quiet;
  }

  /** In a quiet state no step panics. */
  lemma QuietIsSafe(s: System)
    requires Quiet(s)
    ensures Safe(s)
  {
    hide CloseAll, SessionState.Enumerates;
    forall e | Possible(s, e) ensures !Next(s, e).panicked {
      match e
      case Broadcast(t) => assert ListedAreOpen(s, s.sharers[t].session);
      case Unicast(t, target, full) => assert ListedAreOpen(s, s.sharers[t].session);
      case Close(t, order) => CloseQuiet(s, t, order);
      case Join(w, id) => assert SessionOk(s, s.watchers[w].session);
      case Leave(w) => assert LeavesQuietly(s, w);
      case _ =>
    }
  }

  lemma UnicastQuiet(s: System, t: nat, target: Id, full: bool)
    requires Quiet(s) && Possible(s, Unicast(t, target, full))
    ensures var x := Next(s, Unicast(t, target, full));
      && (forall o1 :: 0 <= o1 < |x.sessions| ==> ListedAreOpen(x, o1))
      && (forall w1 :: 0 <= w1 < |x.watchers| ==> LeavesQuietly(x, w1))
  {
    hide CloseAll, SessionState.Enumerates, SharerOk, RegistryOk;
    var o := s.sharers[t].session;
    var x := Next(s, Unicast(t, target, full));
    assert SessionOk(s, o) && ListedAreOpen(s, o);
    forall o1 | 0 <= o1 < |x.sessions| ensures ListedAreOpen(x, o1) {
      assert SessionOk(s, o1) && ListedAreOpen(s, o1);
    }
    forall w1 | 0 <= w1 < |x.watchers| ensures LeavesQuietly(x, w1) {
      assert LeavesQuietly(s, w1) && WatcherOk(s, w1);
    }
  }

  lemma LeaveQuiet(s: System, w: nat)
    requires Quiet(s) && Possible(s, Leave(w))
    ensures var x := Next(s, Leave(w));
      && (forall o1 :: 0 <= o1 < |x.sessions| ==> ListedAreOpen(x, o1))
      && (forall w1 :: 0 <= w1 < |x.watchers| ==> LeavesQuietly(x, w1))
  {
    hide CloseAll, SessionState.Enumerates, SharerOk, RegistryOk;
    var x := Next(s, Leave(w));
    assert WatcherOk(s, w) && LeavesQuietly(s, w);
    forall o1 | 0 <= o1 < |x.sessions| ensures ListedAreOpen(x, o1) {
      assert SessionOk(s, o1) && ListedAreOpen(s, o1);
    }
    forall w1 | 0 <= w1 < |x.watchers| ensures LeavesQuietly(x, w1) {
      assert LeavesQuietly(s, w1) && WatcherOk(s, w1);
    }
  }

  lemma JoinListed(s: System, w: nat, id: Id, o1: nat)
    requires Quiet(s) && Possible(s, Join(w, id)) && o1 < |Next(s, Join(w, id)).sessions|
    ensures ListedAreOpen(Next(s, Join(w, id)), o1)
  {
    hide CloseAll, SessionState.Enumerates, SharerOk, RegistryOk, WatcherOk, LeavesQuietly;
    assert SessionOk(s, o1) && ListedAreOpen(s, o1);
    assert forall id1 :: id1 in Viewers(s, o1) ==> Viewers(s, o1)[id1] < |s.chans|;
  }

  lemma JoinLeaver(s: System, w: nat, id: Id, w1: nat)
    requires Quiet(s) && Possible(s, Join(w, id)) && Calm(s, Join(w, id)) && w1 < |Next(s, Join(w, id)).watchers|
    ensures LeavesQuietly(Next(s, Join(w, id)), w1)
  {
    hide CloseAll, SessionState.Enumerates, SharerOk, RegistryOk, WatcherOk;
    assert LeavesQuietly(s, w1);
    assert SessionOk(s, s.watchers[w].session);
  }

  lemma JoinQuiet(s: System, w: nat, id: Id)
    requires Quiet(s) && Possible(s, Join(w, id)) && Calm(s, Join(w, id))
    ensures var x := Next(s, Join(w, id));
      && (forall o1 :: 0 <= o1 < |x.sessions| ==> ListedAreOpen(x, o1))
      && (forall w1 :: 0 <= w1 < |x.watchers| ==> LeavesQuietly(x, w1))
  {
    forall o1 | 0 <= o1 < |Next(s, Join(w, id)).sessions| ensures ListedAreOpen(Next(s, Join(w, id)), o1) {
      JoinListed(s, w, id, o1);
    }
    forall w1 | 0 <= w1 < |Next(s, Join(w, id)).watchers| ensures LeavesQuietly(Next(s, Join(w, id)), w1) {
      JoinLeaver(s, w, id, w1);
    }
  }

  lemma OtherQuiet(s: System, e: Event)
    requires Quiet(s) && Possible(s, e) && !e.Unicast? && !e.Close? && !e.Join? && !e.Leave?
    ensures var x := Next(s, e);
      && (forall o1 :: 0 <= o1 < |x.sessions| ==> ListedAreOpen(x, o1))
      && (forall w1 :: 0 <= w1 < |x.watchers| ==> LeavesQuietly(x, w1))
  {
    hide CloseAll, SessionState.Enumerates, SharerOk, SessionOk, WatcherOk, RegistryOk;
    var x := Next(s, e);
    assert x.chans == s.chans && s.sessions <= x.sessions;
    forall o1 | 0 <= o1 < |x.sessions| ensures ListedAreOpen(x, o1) {
      if o1 < |s.sessions| {
        assert ListedAreOpen(s, o1) && x.sessions[o1] == s.sessions[o1];
        assert Viewers(x, o1) == Viewers(s, o1);
        assert ListedAreOpen(x, o1);
      } else {
        assert Viewers(x, o1) == map[];
      }
    }
    forall w1 | 0 <= w1 < |x.watchers| ensures LeavesQuietly(x, w1) {
      assert w1 < |s.watchers| ==> LeavesQuietly(s, w1);
    }
  }

  lemma CloseStaysQuiet(s: System, t: nat, order: seq<Id>)
    requires Quiet(s) && Possible(s, Close(t, order))
    ensures var x := Next(s, Close(t, order));
      && (forall o1 :: 0 <= o1 < |x.sessions| ==> ListedAreOpen(x, o1))
      && (forall w1 :: 0 <= w1 < |x.watchers| ==> LeavesQuietly(x, w1))
  {
    hide SessionState.Enumerates, SharerOk, RegistryOk, Next;
    CloseStep(s, t, order);
    CloseQuiet(s, t, order);
    var x := Next(s, Close(t, order));
    forall o1 | 0 <= o1 < |x.sessions| ensures ListedAreOpen(x, o1) {
      assert SessionOk(s, o1) && ListedAreOpen(s, o1);
    }
    forall w1 | 0 <= w1 < |x.watchers| ensures LeavesQuietly(x, w1) {
      assert LeavesQuietly(s, w1) && WatcherOk(s, w1);
    }
  }

  lemma NextQuiet(s: System, e: Event)
    requires Quiet(s) && Possible(s, e) && Calm(s, e)
    ensures Quiet(Next(s, e))
  {
    hide Core, Next, Calm, SessionState.Enumerates, ListedAreOpen, LeavesQuietly;
    CoreKeeps(s, e);
    QuietIsSafe(s);
    match e
    case Unicast(t, target, full) => UnicastQuiet(s, t, target, full);
    case Close(t, order) => CloseStaysQuiet(s, t, order);
    case Join(w, id) => JoinQuiet(s, w, id);
    case Leave(w) => LeaveQuiet(s, w);
    case _ => OtherQuiet(s, e);
  }

  /** A newcomer under a held identifier lets the handler that holds it panic. */
  lemma HeldBreaks(s: System, w: nat, id: Id)
    requires Quiet(s) && Possible(s, Join(w, id)) && !Calm(s, Join(w, id))
    ensures !Safe(Next(s, Join(w, id)))
  {
    hide SharerOk, RegistryOk, CloseAll, SessionState.Enumerates;
    var o := s.watchers[w].session;
    var v: nat :| v < |s.watchers| && IsHolder(s, v, o, id) && !s.chans[s.watchers[v].chan].open;
    assert SessionOk(s, o);
    var t := Next(s, Join(w, id));
    assert Possible(t, Leave(v)) && Next(t, Leave(v)).panicked;
  }

  lemma {:induction false} CalmIffSafe(s: System, es: seq<Event>, t: System)
    requires Quiet(s) && Run(s, es, t)
    ensures CalmRun(s, es) <==> SafeRun(s, es)
    ensures CalmRun(s, es) ==> Quiet(t)
    decreases |es|
  {
    hide Quiet, Next, Calm, Safe, Possible;
    QuietIsSafe(s);
    if es != [] {
      if Calm(s, es[0]) {
        NextQuiet(s, es[0]);
        CalmIffSafe(Next(s, es[0]), es[1..], t);
      } else {
        OnlyJoinsDisturb(s, es[0]);
        HeldBreaks(s, es[0].w, es[0].id);
      }
    }
  }

  lemma OnlyJoinsDisturb(s: System, e: Event)
    requires Possible(s, e)
    ensures e.Join? || Calm(s, e)
  {}

  /**
   * An interleaving is free of panics, up to and including the next step of any thread, if and only if in it
   * nobody is admitted under the identifier of a viewer whose channel is closed and whose handler still runs.
   */
  lemma NothingPanicsIff(maxViewers: nat, es: seq<Event>, s: System)
    requires Run(Start(maxViewers), es, s)
    ensures SafeRun(Start(maxViewers), es) <==> CalmRun(Start(maxViewers), es)
    ensures CalmRun(Start(maxViewers), es) ==> Safe(s)
  {
    hide Run, CalmRun, SafeRun, Safe;
    CalmIffSafe(Start(maxViewers), es, s);
    if CalmRun(Start(maxViewers), es) {
      QuietIsSafe(s);
    }
  }

  // ----- identifiers are never checked for reuse

  /** A viewer joins, is evicted before it leaves, and a second viewer is about to join. */
  function Scene(sid: Bytes, id: Id, k: nat): System
  {
    var s := System(map[sid := 0], [Session(0, Some(map[]), false)], [], [Running(sid, 0)], [], [sid], [], 10, false);
    var evicted := s.(chans := [Chan(0, id, 0, false, 1)]);
    if k == 0 then Start(10)
    else if k == 1 then Start(10).(sharers := [Arrived(sid)], offered := [sid])
    else if k == 2 then s
    else if k == 3 then s.(watchers := [Looking(sid)], asked := [sid])
    else if k == 4 then s.(watchers := [Joining(0)], asked := [sid])
    else if k == 5 then
      s.(sessions := [Session(0, Some(map[id := 0]), false)], chans := [Chan(0, id, 0, true, 0)],
         watchers := [Watching(0, id, 0)], asked := [sid])
    else if k == 6 then evicted.(watchers := [Watching(0, id, 0)], asked := [sid])
    else if k == 7 then evicted.(watchers := [Watching(0, id, 0), Looking(sid)], asked := [sid, sid])
    else evicted.(watchers := [Watching(0, id, 0), Joining(0)], asked := [sid, sid])
  }

  function Act(sid: Bytes, id: Id, k: nat): Event
  {
    if k == 0 then NewSharer(sid)
    else if k == 1 then Register(0)
    else if k == 2 then NewWatcher(sid)
    else if k == 3 then Lookup(0)
    else if k == 4 then Join(0, id)
    else if k == 5 then Unicast(0, id, true)
    else if k == 6 then NewWatcher(sid)
    else Lookup(1)
  }

  ghost predicate Steps(sid: Bytes, id: Id, k: nat)
  {
    var s, e := Scene(sid, id, k), Act(sid, id, k);
    Possible(s, e) && Calm(s, e) && Next(s, e) == Scene(sid, id, k + 1)
  }

  lemma SceneArrivals(sid: Bytes, id: Id, k: nat)
    requires k in {0, 1, 2, 3, 6, 7}
    ensures Steps(sid, id, k)
  {
    hide CloseAll, CloseChan, SetViewers, Viewers;
    var t, n := Scene(sid, id, k + 1), Next(Scene(sid, id, k), Act(sid, id, k));
    assert n.sharers == t.sharers && n.watchers == t.watchers && n.sessions == t.sessions && n.registry == t.registry
      && n.offered == t.offered && n.asked == t.asked;
  }

  lemma SceneJoin(sid: Bytes, id: Id)
    ensures Steps(sid, id, 4)
  {
    hide CloseAll, CloseChan;
    var t, n := Scene(sid, id, 5), Next(Scene(sid, id, 4), Join(0, id));
    assert n.watchers == t.watchers && n.sessions == t.sessions && n.chans == t.chans;
  }

  lemma SceneEviction(sid: Bytes, id: Id)
    ensures Steps(sid, id, 5)
  {
    hide CloseAll;
    var t, n := Scene(sid, id, 6), Next(Scene(sid, id, 5), Unicast(0, id, true));
    assert map[id := 0] - {id} == map[];
    assert n.sessions == t.sessions && n.chans == t.chans;
  }

  lemma {:induction false} SceneRun(sid: Bytes, id: Id, k: nat) returns (es: seq<Event>)
    requires k <= 8
    ensures Run(Scene(sid, id, k), es, Scene(sid, id, 8)) && CalmRun(Scene(sid, id, k), es)
    decreases 8 - k
  {
    hide Scene, Next, Possible, Calm;
    if k == 8 {
      es := [];
    } else {
      if k == 4 {
        SceneJoin(sid, id);
      } else if k == 5 {
        SceneEviction(sid, id);
      } else {
        SceneArrivals(sid, id, k);
      }
      var rest := SceneRun(sid, id, k + 1);
      es := [Act(sid, id, k)] + rest;
      assert es[1..] == rest;
    }
  }

  /**
   * Reuse of an identifier can crash the relay: a viewer that was evicted but has not left yet closes its
   * channel a second time when a newcomer of the same session was given the same identifier.
   */
  lemma ReusedIdentifierPanics(sid: Bytes, id: Id) returns (es: seq<Event>, s: System)
    ensures Run(Start(10), es, s) && CalmRun(Start(10), es) && Possible(s, Join(1, id)) && !Calm(s, Join(1, id))
    ensures var t := Next(s, Join(1, id)); Possible(t, Leave(0)) && Next(t, Leave(0)).panicked
  {
    hide CloseAll, Run, CalmRun;
    s := Scene(sid, id, 8);
    es := SceneRun(sid, id, 0);
    assert s.watchers[0] == Watching(0, id, 0);
    assert Viewers(Next(s, Join(1, id)), 0) == map[id := 1];
  }
}
