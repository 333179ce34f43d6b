/**
 * The rate limiter (internal/relay/ratelimit.go), as functions on values, and what its fixed-window
 * counters imply over whole runs.  Times are nanoseconds since Go's zero time, which 0 stands for; each
 * request carries the clock readings that it takes, in order.
 */
module RateLimit {
  const SECOND := 1_000_000_000
  const BAN_MULTIPLIER := 3
  const VIOLATION_BAN_COUNT := 3
  const VIOLATION_WINDOW := 3600 * SECOND
  const BAN_FIRST := 3600 * SECOND
  const BAN_SECOND := 86400 * SECOND

  type Ip = string

  /** EventType: 0 connection, 1 registration, 2 handshake failure; any other value has limit 0. */
  type Event = int

  datatype Config = Config(
    connectionLimit: int, connectionWindow: int, registrationLimit: int, registrationWindow: int,
    handshakeLimit: int, handshakeWindow: int)
  {
    function LimitFor(e: Event): int
    {
      if e == 0 then connectionLimit else if e == 1 then registrationLimit else if e == 2 then handshakeLimit else 0
    }

    function WindowFor(e: Event): int
    {
      if e == 0 then connectionWindow else if e == 1 then registrationWindow
      else if e == 2 then handshakeWindow else 60 * SECOND
    }
  }

  datatype Counter = Counter(count: int, start: nat)

  datatype State = State(
    counters: map<Event, Counter>, violations: seq<nat>, banCount: nat, bannedAt: nat, banExpiry: nat, permanent: bool)

  /** The clock as isBannedLocked, Allow and ban read it. */
  datatype Readings = Readings(check: nat, now: nat, ban: nat)

  const Initial := State(map[], [], 0, 0, 0, false)

  predicate IsBanned(s: State, check: nat)
  {
    s.permanent || (s.banExpiry != 0 && check < s.banExpiry)
  }

  function Ban(s: State, at: nat): State
  {
    var t := s.(banCount := s.banCount + 1, bannedAt := at);
    if t.banCount == 1 then t.(banExpiry := at + BAN_FIRST)
    else if t.banCount == 2 then t.(banExpiry := at + BAN_SECOND)
    else t.(permanent := true)
  }

  function Recent(violations: seq<nat>, now: nat): (r: seq<nat>)
    ensures |r| <= |violations|
  {
    if violations == [] then [] else
      var n := |violations| - 1;
      Recent(violations[..n], now) + (if now - violations[n] < VIOLATION_WINDOW then [violations[n]] else [])
  }

  function RecordViolation(s: State, now: nat, ban: nat): State
  {
    var t := s.(violations := Recent(s.violations, now) + [now]);
    if |t.violations| >= VIOLATION_BAN_COUNT then Ban(t, ban) else t
  }

  /** The counter of an event, restarted when its window is over. */
  function Window(s: State, e: Event, now: nat, window: int): Counter
  {
    var c := if e in s.counters then s.counters[e] else Counter(0, now);
    if now - c.start >= window then Counter(0, now) else c
  }

  function Allow(cfg: Config, s: State, e: Event, r: Readings): (State, bool)
  {
    if IsBanned(s, r.check) then (s, false) else
      var limit := cfg.LimitFor(e);
      var w := Window(s, e, r.now, cfg.WindowFor(e));
      var c := w.(count := w.count + 1);
      var t := s.(counters := s.counters[e := c]);
      if c.count >= limit * BAN_MULTIPLIER then (Ban(t, r.ban), false)
      else if c.count > limit then (if c.count == limit + 1 then RecordViolation(t, r.now, r.ban) else t, false)
      else (t, true)
  }

  // ----- runs of the limiter and of one address

  datatype Request = Request(ip: Ip, e: Event, r: Readings)

  function StateOf(ips: map<Ip, State>, ip: Ip): State
  {
    if ip in ips then ips[ip] else Initial
  }

  /** The limiter after a sequence of requests. */
  function After(cfg: Config, reqs: seq<Request>): map<Ip, State>
  {
    if reqs == [] then map[] else
      var n := |reqs| - 1;
      var ips := After(cfg, reqs[..n]);
      ips[reqs[n].ip := Allow(cfg, StateOf(ips, reqs[n].ip), reqs[n].e, reqs[n].r).0]
  }

  /** The answer to the i-th request. */
  function Answer(cfg: Config, reqs: seq<Request>, i: nat): bool
    requires i < |reqs|
  {
    Allow(cfg, StateOf(After(cfg, reqs[..i]), reqs[i].ip), reqs[i].e, reqs[i].r).1
  }

  /** The clock never goes back: not between readings, not between requests. */
  predicate Monotone(reqs: seq<Request>)
  {
    && (forall i :: 0 <= i < |reqs| ==> reqs[i].r.check <= reqs[i].r.now <= reqs[i].r.ban)
    && (forall i, j :: 0 <= i < j < |reqs| ==> reqs[i].r.ban <= reqs[j].r.check)
  }

  function Only(reqs: seq<Request>, ip: Ip): (r: seq<Request>)
  {
    if reqs == [] then [] else
      Only(reqs[..|reqs| - 1], ip) + (if reqs[|reqs| - 1].ip == ip then [reqs[|reqs| - 1]] else [])
  }

  /** An address is never affected by what other addresses do. */
  lemma {:induction false} Isolation(cfg: Config, reqs: seq<Request>, ip: Ip)
    ensures StateOf(After(cfg, reqs), ip) == StateOf(After(cfg, Only(reqs, ip)), ip)
  {
    hide Allow;
    if reqs != [] {
      var n := |reqs| - 1;
      Isolation(cfg, reqs[..n], ip);
      if reqs[n].ip == ip {
        var o := Only(reqs, ip);
        assert o == Only(reqs[..n], ip) + [reqs[n]] && o[..|o| - 1] == Only(reqs[..n], ip) && o[|o| - 1] == reqs[n];
      } else {
        assert Only(reqs, ip) == Only(reqs[..n], ip);
      }
    }
  }

  // ----- counting

  /** When requests of one address and event were made, and when they were allowed. */
  function Times(cfg: Config, reqs: seq<Request>, ip: Ip, e: Event, allowedOnly: bool): seq<nat>
  {
    if reqs == [] then [] else
      var n := |reqs| - 1;
      Times(cfg, reqs[..n], ip, e, allowedOnly)
      + (if reqs[n].ip == ip && reqs[n].e == e && (allowedOnly ==> Answer(cfg, reqs, n)) then [reqs[n].r.now] else [])
  }

  /** How many of the times lie in the half-open interval. */
  function CountIn(times: seq<nat>, lo: int, hi: int): nat
  {
    if times == [] then 0 else
      CountIn(times[..|times| - 1], lo, hi) + (if lo <= times[|times| - 1] < hi then 1 else 0)
  }

  lemma {:induction false} CountSplit(times: seq<nat>, lo: int, mid: int, hi: int)
    requires lo <= mid <= hi
    ensures CountIn(times, lo, hi) == CountIn(times, lo, mid) + CountIn(times, mid, hi)
  {
    if times != [] {
      CountSplit(times[..|times| - 1], lo, mid, hi);
    }
  }

  lemma CountOneMore(times: seq<nat>, x: nat, lo: int, hi: int)
    ensures CountIn(times + [x], lo, hi) == CountIn(times, lo, hi) + (if lo <= x < hi then 1 else 0)
  {
    assert (times + [x])[..|times|] == times;
  }

  lemma {:induction false} CountNone(times: seq<nat>, lo: int, hi: int)
    requires forall i :: 0 <= i < |times| ==> times[i] < lo
    ensures CountIn(times, lo, hi) == 0
  {
    if times != [] {
      CountNone(times[..|times| - 1], lo, hi);
    }
  }

  function CountFrom(times: seq<nat>, lo: int, len: int): nat
  {
    CountIn(times, lo, lo + len)
  }

  predicate UpTo(times: seq<nat>, t: int)
  {
    forall i :: 0 <= i < |times| ==> times[i] <= t
  }

  // ----- the sliding window

  /** The sharpest bound: a window opens with its first allowed request, so two windows never count in full. */
  function Bound(L: nat): nat
  {
    if L == 0 then 0 else 2 * L - 1
  }

  /**
   * With L the limit and W the window: the current window holds at most L allowed requests and no more than
   * its count, one of them at its very start; the stretch of length W - 1 before it holds fewer than L; and
   * every interval of length W at most the bound.
   */
  ghost predicate Sliding(times: seq<nat>, c: Counter, L: nat, W: int)
  {
    && UpTo(times, c.start + W - 1)
    && CountFrom(times, c.start, W) <= L && CountFrom(times, c.start, W) <= c.count
    && CountIn(times, c.start + 1, c.start + W) <= Less(L) && CountIn(times, c.start + 1, c.start + W) <= Less(c.count)
    && CountIn(times, c.start - W + 1, c.start) <= Less(L)
    && forall x: int :: CountFrom(times, x, W) <= Bound(L)
  }

  function Less(n: int): nat
  {
    if n <= 0 then 0 else n - 1
  }

  /** A new window starts where the old one is over. */
  lemma SlidingRestarts(times: seq<nat>, c: Counter, L: nat, W: int, now: nat)
    requires Sliding(times, c, L, W) && W > 0 && now - c.start >= W
    ensures Sliding(times, Counter(0, now), L, W)
  {
    CountNone(times, now, now + W);
    CountNone(times, now + 1, now + W);
    CountNone(times, c.start + W, now);
    CountSplit(times, c.start + 1, c.start + W, now);
    CountSplit(times, c.start + 1, now - W + 1, now);
  }

  /** One more allowed request in the current window. */
  lemma SlidingAllows(times: seq<nat>, c: Counter, L: nat, W: int, now: nat)
    requires Sliding(times, c, L, W) && 0 <= now - c.start < W && c.count + 1 <= L
    requires c.count >= 0 && (now == c.start || c.count >= 1)
    ensures Sliding(times + [now], Counter(c.count + 1, c.start), L, W)
  {
    var more := times + [now];
    CountOneMore(times, now, c.start, c.start + W);
    CountOneMore(times, now, c.start + 1, c.start + W);
    CountOneMore(times, now, c.start - W + 1, c.start);
    forall x: int ensures CountFrom(more, x, W) <= Bound(L) {
      CountOneMore(times, now, x, x + W);
      if x <= now < x + W {
        SlidingCovers(more, Counter(c.count + 1, c.start), L, W, x);
      } else {
        assert CountFrom(times, x, W) <= Bound(L);
      }
    }
  }

  /** An interval that reaches into the current window. */
  lemma SlidingCovers(times: seq<nat>, c: Counter, L: nat, W: int, x: int)
    requires UpTo(times, c.start + W - 1) && L >= 1
    requires CountFrom(times, c.start, W) <= L && CountIn(times, c.start - W + 1, c.start) <= L - 1
    requires c.start - W < x < c.start + W
    ensures CountFrom(times, x, W) <= Bound(L)
  {
    if x <= c.start {
      CountSplit(times, c.start - W + 1, x, c.start);
      CountSplit(times, x, c.start, x + W);
      CountSplit(times, c.start, x + W, c.start + W);
    } else {
      CountSplit(times, c.start, x, x + W);
      CountSplit(times, c.start, c.start + W, x + W);
      CountNone(times, c.start + W, x + W);
    }
  }

  /** What one request does to the counters. */
  lemma AllowCounters(cfg: Config, s: State, e: Event, r: Readings)
    ensures var (t, ok) := Allow(cfg, s, e, r);
      if IsBanned(s, r.check) then !ok && t == s
      else
        var w := Window(s, e, r.now, cfg.WindowFor(e));
        t.counters == s.counters[e := w.(count := w.count + 1)] && (ok ==> w.count < cfg.LimitFor(e))
  {}

  function Cap(limit: int): nat
  {
    if limit < 0 then 0 else limit
  }

  ghost predicate SlidingInv(cfg: Config, reqs: seq<Request>, ip: Ip, e: Event)
  {
    var s := StateOf(After(cfg, reqs), ip);
    var times := Times(cfg, reqs, ip, e, true);
    if e in s.counters then
      && Sliding(times, s.counters[e], Cap(cfg.LimitFor(e)), cfg.WindowFor(e)) && s.counters[e].count >= 1
      && reqs != [] && s.counters[e].start <= reqs[|reqs| - 1].r.now
    else times == []
  }

  lemma {:induction false} SlidingHolds(cfg: Config, reqs: seq<Request>, ip: Ip, e: Event)
    requires Monotone(reqs) && cfg.WindowFor(e) > 0
    ensures SlidingInv(cfg, reqs, ip, e)
  {
    if reqs != [] {
      hide Sliding, Allow, Answer, Window;
      var n := |reqs| - 1;
      SlidingHolds(cfg, reqs[..n], ip, e);
      SlidingStep(cfg, reqs, ip, e);
    }
  }

  lemma SlidingStep(cfg: Config, reqs: seq<Request>, ip: Ip, e: Event)
    requires reqs != [] && Monotone(reqs) && cfg.WindowFor(e) > 0
    requires SlidingInv(cfg, reqs[..|reqs| - 1], ip, e)
    ensures SlidingInv(cfg, reqs, ip, e)
  {
    hide Sliding, Allow;
    var n := |reqs| - 1;
    var q, L, W := reqs[n], Cap(cfg.LimitFor(e)), cfg.WindowFor(e);
    var s := StateOf(After(cfg, reqs[..n]), ip);
    var times := Times(cfg, reqs[..n], ip, e, true);
    assert e in s.counters ==> s.counters[e].start <= q.r.now;
    if q.ip == ip {
      AllowCounters(cfg, s, q.e, q.r);
      if q.e == e && !IsBanned(s, q.r.check) {
        var w := Window(s, e, q.r.now, W);
        if e !in s.counters {
          SlidingFirst(w, L, W);
        } else if q.r.now - s.counters[e].start >= W {
          SlidingRestarts(times, s.counters[e], L, W, q.r.now);
        }
        if Answer(cfg, reqs, n) {
          SlidingAllows(times, w, L, W, q.r.now);
        } else {
          SlidingCounts(times, w, L, W);
        }
        assert StateOf(After(cfg, reqs), ip).counters[e] == w.(count := w.count + 1);
        assert Times(cfg, reqs, ip, e, true) == if Answer(cfg, reqs, n) then times + [q.r.now] else times;
      } else {
        assert Times(cfg, reqs, ip, e, true) == times;
      }
    } else {
      assert Times(cfg, reqs, ip, e, true) == times;
    }
  }

  lemma SlidingFirst(c: Counter, L: nat, W: int)
    requires c.count >= 0
    ensures Sliding([], c, L, W)
  {}

  lemma SlidingCounts(times: seq<nat>, c: Counter, L: nat, W: int)
    requires Sliding(times, c, L, W)
    ensures Sliding(times, c.(count := c.count + 1), L, W)
  {}

  /**
   * Over any run with a clock that never goes back, any half-open interval as long as an event's window
   * contains fewer than twice the limit of allowed requests for one address and event.
   */
  lemma SlidingWindowBound(cfg: Config, reqs: seq<Request>, ip: Ip, e: Event, x: int)
    requires Monotone(reqs)
    ensures CountIn(Times(cfg, reqs, ip, e, true), x, x + cfg.WindowFor(e)) <= Bound(Cap(cfg.LimitFor(e)))
  {
    var times, W := Times(cfg, reqs, ip, e, true), cfg.WindowFor(e);
    if W > 0 {
      hide Times, After;
      SlidingHolds(cfg, reqs, ip, e);
      assert CountFrom(times, x, W) <= Bound(Cap(cfg.LimitFor(e)));
    } else {
      CountEmpty(times, x, x + W);
    }
  }

  /**
   * The bound, event by event: connections, registrations and handshake failures each have their own limit and
   * window, and no other event is ever allowed.
   */
  lemma BoundsByEvent(cfg: Config, reqs: seq<Request>, ip: Ip, e: Event, x: int)
    requires Monotone(reqs)
    ensures CountIn(Times(cfg, reqs, ip, 0, true), x, x + cfg.connectionWindow) <= Bound(Cap(cfg.connectionLimit))
    ensures CountIn(Times(cfg, reqs, ip, 1, true), x, x + cfg.registrationWindow) <= Bound(Cap(cfg.registrationLimit))
    ensures CountIn(Times(cfg, reqs, ip, 2, true), x, x + cfg.handshakeWindow) <= Bound(Cap(cfg.handshakeLimit))
    ensures e !in {0, 1, 2} ==> CountIn(Times(cfg, reqs, ip, e, true), x, x + 60 * SECOND) == 0
  {
    hide Times, CountIn;
    SlidingWindowBound(cfg, reqs, ip, 0, x);
    SlidingWindowBound(cfg, reqs, ip, 1, x);
    SlidingWindowBound(cfg, reqs, ip, 2, x);
    SlidingWindowBound(cfg, reqs, ip, e, x);
  }

  lemma {:induction false} CountEmpty(times: seq<nat>, lo: int, hi: int)
    requires hi <= lo
    ensures CountIn(times, lo, hi) == 0
  {
    if times != [] {
      CountEmpty(times[..|times| - 1], lo, hi);
    }
  }

  // ----- a request beyond the limit in the past window

  /** The guard of Allow. */
  lemma AllowedIff(cfg: Config, s: State, e: Event, r: Readings)
    requires cfg.LimitFor(e) >= 1 || Window(s, e, r.now, cfg.WindowFor(e)).count >= 0
    ensures Allow(cfg, s, e, r).1 <==>
      !IsBanned(s, r.check) && Window(s, e, r.now, cfg.WindowFor(e)).count < cfg.LimitFor(e)
  {
    hide Window;
  }

  /** As long as its window is not over the limit, a counter counts exactly the allowed requests of the window. */
  predicate Tallied(times: seq<nat>, c: Counter, L: int, W: int)
  {
    && c.count >= 0
    && (W > 0 ==> UpTo(times, c.start + W - 1) && (c.count <= L ==> CountFrom(times, c.start, W) == c.count))
  }

  predicate TallyInv(cfg: Config, reqs: seq<Request>, ip: Ip, e: Event)
  {
    var s, times := StateOf(After(cfg, reqs), ip), Times(cfg, reqs, ip, e, true);
    && UpTo(times, LastNow(reqs))
    && if e in s.counters then
         s.counters[e].start <= LastNow(reqs) && Tallied(times, s.counters[e], cfg.LimitFor(e), cfg.WindowFor(e))
       else times == []
  }

  function LastNow(reqs: seq<Request>): nat
  {
    if reqs == [] then 0 else reqs[|reqs| - 1].r.now
  }

  /** The window that the next request falls into. */
  lemma TallyWindow(times: seq<nat>, s: State, e: Event, now: nat, L: int, W: int)
    requires UpTo(times, now)
    requires if e in s.counters then s.counters[e].start <= now && Tallied(times, s.counters[e], L, W) else times == []
    ensures var w := Window(s, e, now, W);
      w.start <= now && Tallied(times, w, L, W) && (if W > 0 then now - w.start < W else w == Counter(0, now))
  {
    if W > 0 {
      if e in s.counters && now - s.counters[e].start >= W {
        CountNone(times, now, now + W);
      }
      assert CountFrom([], now, W) == 0;
    }
  }

  lemma TallyCounts(times: seq<nat>, w: Counter, L: int, W: int, now: nat)
    requires Tallied(times, w, L, W) && w.start <= now && (W > 0 ==> now - w.start < W)
    ensures w.count < L ==> Tallied(times + [now], w.(count := w.count + 1), L, W)
    ensures w.count >= L ==> Tallied(times, w.(count := w.count + 1), L, W)
  {
    CountOneMore(times, now, w.start, w.start + W);
  }

  lemma TallyStep(cfg: Config, reqs: seq<Request>, ip: Ip, e: Event)
    requires reqs != [] && Monotone(reqs) && TallyInv(cfg, reqs[..|reqs| - 1], ip, e)
    ensures TallyInv(cfg, reqs, ip, e)
  {
    hide Allow, Window, Tallied;
    var n := |reqs| - 1;
    var q, L, W := reqs[n], cfg.LimitFor(e), cfg.WindowFor(e);
    var s, times := StateOf(After(cfg, reqs[..n]), ip), Times(cfg, reqs[..n], ip, e, true);
    assert LastNow(reqs[..n]) <= q.r.now;
    if q.ip == ip {
      AllowCounters(cfg, s, q.e, q.r);
      if q.e == e && !IsBanned(s, q.r.check) {
        TallyWindow(times, s, e, q.r.now, L, W);
        var w := Window(s, e, q.r.now, W);
        TalliedCount(times, w, L, W);
        AllowedIff(cfg, s, e, q.r);
        TallyCounts(times, w, L, W, q.r.now);
        assert StateOf(After(cfg, reqs), ip).counters[e] == w.(count := w.count + 1);
        assert Times(cfg, reqs, ip, e, true) == if Answer(cfg, reqs, n) then times + [q.r.now] else times;
      } else {
        assert Times(cfg, reqs, ip, e, true) == times;
      }
    } else {
      assert Times(cfg, reqs, ip, e, true) == times;
    }
  }

  lemma TalliedCount(times: seq<nat>, c: Counter, L: int, W: int)
    requires Tallied(times, c, L, W)
    ensures c.count >= 0
  {}

  lemma {:induction false} TallyHolds(cfg: Config, reqs: seq<Request>, ip: Ip, e: Event)
    requires Monotone(reqs)
    ensures TallyInv(cfg, reqs, ip, e)
  {
    if reqs != [] {
      hide Tallied, After, Times;
      TallyHolds(cfg, reqs[..|reqs| - 1], ip, e);
      TallyStep(cfg, reqs, ip, e);
    }
  }

  /**
   * When the last request of a run is allowed although the window-long stretch up to it already holds the
   * limit of allowed requests: exactly when the address is not banned, the current fixed window holds fewer
   * than the limit, and the rest of the stretch, before that window began, makes up the difference.
   */
  lemma BeyondLimitIff(cfg: Config, reqs: seq<Request>)
    requires reqs != [] && Monotone(reqs)
    ensures var n := |reqs| - 1;
      var q := reqs[n];
      var s, before := StateOf(After(cfg, reqs[..n]), q.ip), Times(cfg, reqs[..n], q.ip, q.e, true);
      var L, W := cfg.LimitFor(q.e), cfg.WindowFor(q.e);
      var w := Window(s, q.e, q.r.now, W);
      Answer(cfg, reqs, n) && CountIn(before, q.r.now - W + 1, q.r.now + 1) >= L
      <==>
      !IsBanned(s, q.r.check) && w.count < L && CountIn(before, q.r.now - W + 1, w.start) >= L - w.count
  {
    hide Allow, Window, After, Times;
    var n := |reqs| - 1;
    var q := reqs[n];
    var s, before := StateOf(After(cfg, reqs[..n]), q.ip), Times(cfg, reqs[..n], q.ip, q.e, true);
    var L, W := cfg.LimitFor(q.e), cfg.WindowFor(q.e);
    var now := q.r.now;
    TallyHolds(cfg, reqs[..n], q.ip, q.e);
    assert LastNow(reqs[..n]) <= now;
    TallyWindow(before, s, q.e, now, L, W);
    var w := Window(s, q.e, now, W);
    AllowedIff(cfg, s, q.e, q.r);
    if W > 0 {
      CountSplit(before, now - W + 1, w.start, now + 1);
      CountSplit(before, w.start, now + 1, w.start + W);
      CountNone(before, now + 1, w.start + W);
    } else {
      CountEmpty(before, now - W + 1, now + 1);
      CountEmpty(before, now - W + 1, w.start);
    }
  }

  // ----- bans

  /** How many of the times lie less than an hour before `now`, or after it. */
  function PastHour(times: seq<nat>, now: int): nat
  {
    if times == [] then 0 else
      PastHour(times[..|times| - 1], now) + (if now - times[|times| - 1] < 3600 * SECOND then 1 else 0)
  }

  lemma PastHourMore(times: seq<nat>, x: nat, now: int)
    ensures PastHour(times + [x], now) == PastHour(times, now) + (if now - x < 3600 * SECOND then 1 else 0)
  {
    assert (times + [x])[..|times|] == times;
  }

  /** What is kept is what is less than an hour old, and dropping the rest never matters later. */
  lemma {:induction false} RecentCounts(violations: seq<nat>, now: int, later: int)
    requires 0 <= now <= later
    ensures |Recent(violations, now)| == PastHour(violations, now)
    ensures PastHour(Recent(violations, now), later) == PastHour(violations, later)
  {
    if violations != [] {
      var n := |violations| - 1;
      RecentCounts(violations[..n], now, later);
      PastHourMore(Recent(violations[..n], now), violations[n], later);
      assert Recent(violations[..n], now) + [] == Recent(violations[..n], now);
    }
  }

  /**
   * A request triggers a ban exactly when it is the one that fills a window three times over or goes beyond,
   * or the first refused one of its window while two violations are less than an hour old.
   */
  lemma BanIff(cfg: Config, s: State, e: Event, r: Readings)
    requires cfg.LimitFor(e) >= 1
    ensures var nth := Window(s, e, r.now, cfg.WindowFor(e)).count + 1;
      Allow(cfg, s, e, r).0.banCount == s.banCount + 1 <==>
      !IsBanned(s, r.check)
      && (nth >= 3 * cfg.LimitFor(e) || (nth == cfg.LimitFor(e) + 1 && PastHour(s.violations, r.now) >= 2))
  {
    hide Window, Recent, PastHour, Config.LimitFor, Config.WindowFor;
    RecentCounts(s.violations, r.now, r.now);
    var c := Window(s, e, r.now, cfg.WindowFor(e));
    ViolationBans(s.(counters := s.counters[e := c.(count := c.count + 1)]), r);
    hide RecordViolation;
  }

  lemma ViolationBans(s: State, r: Readings)
    ensures RecordViolation(s, r.now, r.ban).banCount
      == s.banCount + if |Recent(s.violations, r.now)| >= 2 then 1 else 0
  {
    hide Recent;
  }

  /** The request is the first one of its window beyond the limit, the address not being banned. */
  predicate IsStrike(cfg: Config, s: State, q: Request)
  {
    var L := cfg.LimitFor(q.e);
    !IsBanned(s, q.r.check) && L + 1 < 3 * L && Window(s, q.e, q.r.now, cfg.WindowFor(q.e)).count == L
  }

  /** When an address went over a limit, window by window and event by event. */
  function Strikes(cfg: Config, reqs: seq<Request>, ip: Ip): seq<nat>
  {
    if reqs == [] then [] else
      var n := |reqs| - 1;
      Strikes(cfg, reqs[..n], ip)
      + (if reqs[n].ip == ip && IsStrike(cfg, StateOf(After(cfg, reqs[..n]), ip), reqs[n]) then [reqs[n].r.now] else [])
  }

  /** What a request does to the record of violations. */
  lemma StrikeRecords(cfg: Config, s: State, q: Request)
    ensures Allow(cfg, s, q.e, q.r).0.violations ==
      if IsStrike(cfg, s, q) then Recent(s.violations, q.r.now) + [q.r.now] else s.violations
  {
    hide Window, Recent;
  }

  lemma StrikeStep(cfg: Config, s: State, q: Request, later: int)
    requires q.r.now <= later
    ensures PastHour(Allow(cfg, s, q.e, q.r).0.violations, later) ==
      PastHour(s.violations, later)
      + (if IsStrike(cfg, s, q) && later - q.r.now < 3600 * SECOND then 1 else 0)
  {
    hide Allow, IsStrike, Recent, PastHour;
    StrikeRecords(cfg, s, q);
    RecentCounts(s.violations, q.r.now, later);
    PastHourMore(Recent(s.violations, q.r.now), q.r.now, later);
  }

  lemma StrikesLast(cfg: Config, reqs: seq<Request>, ip: Ip)
    requires reqs != []
    ensures var n := |reqs| - 1;
      var s, t := StateOf(After(cfg, reqs[..n]), ip), StateOf(After(cfg, reqs), ip);
      && t == (if reqs[n].ip == ip then Allow(cfg, s, reqs[n].e, reqs[n].r).0 else s)
      && Strikes(cfg, reqs, ip) ==
           if reqs[n].ip == ip && IsStrike(cfg, s, reqs[n]) then Strikes(cfg, reqs[..n], ip) + [reqs[n].r.now]
           else Strikes(cfg, reqs[..n], ip)
  {
    hide Allow, IsStrike;
  }

  lemma MonotonePrefix(reqs: seq<Request>)
    requires reqs != [] && Monotone(reqs)
    ensures Monotone(reqs[..|reqs| - 1]) && LastNow(reqs[..|reqs| - 1]) <= LastNow(reqs)
  {}

  /** The record of violations is true to the run, as far as the past hour goes. */
  lemma {:induction false} StrikesHold(cfg: Config, reqs: seq<Request>, ip: Ip, later: int)
    requires Monotone(reqs) && LastNow(reqs) <= later
    ensures PastHour(StateOf(After(cfg, reqs), ip).violations, later) == PastHour(Strikes(cfg, reqs, ip), later)
  {
    if reqs != [] {
      hide Allow, IsStrike, PastHour, After, Strikes, Monotone, StateOf;
      var n := |reqs| - 1;
      MonotonePrefix(reqs);
      StrikesHold(cfg, reqs[..n], ip, later);
      StrikesLast(cfg, reqs, ip);
      if reqs[n].ip == ip {
        StrikeStep(cfg, StateOf(After(cfg, reqs[..n]), ip), reqs[n], later);
        PastHourMore(Strikes(cfg, reqs[..n], ip), reqs[n].r.now, later);
      }
    }
  }

  /**
   * Over any run: the last request bans its address if and only if that is not banned already and the request
   * fills its window three times over, or is its third strike within an hour.
   */
  lemma ThirdStrikeBans(cfg: Config, reqs: seq<Request>)
    requires reqs != [] && Monotone(reqs) && cfg.LimitFor(reqs[|reqs| - 1].e) >= 1
    ensures var n := |reqs| - 1;
      var q := reqs[n];
      var s := StateOf(After(cfg, reqs[..n]), q.ip);
      var nth := Window(s, q.e, q.r.now, cfg.WindowFor(q.e)).count + 1;
      StateOf(After(cfg, reqs), q.ip).banCount == s.banCount + 1 <==>
      !IsBanned(s, q.r.check)
      && (nth >= 3 * cfg.LimitFor(q.e)
          || (nth == cfg.LimitFor(q.e) + 1 && PastHour(Strikes(cfg, reqs, q.ip), q.r.now) >= 3))
  {
    hide Allow, PastHour, Window;
    var n := |reqs| - 1;
    var q := reqs[n];
    var s := StateOf(After(cfg, reqs[..n]), q.ip);
    assert LastNow(reqs[..n]) <= q.r.now;
    StrikesHold(cfg, reqs[..n], q.ip, q.r.now);
    PastHourMore(Strikes(cfg, reqs[..n], q.ip), q.r.now, q.r.now);
    BanIff(cfg, s, q.e, q.r);
  }

  // ----- the bound is reached: an interval of window length can hold more than the limit

  /** One request at time 1, limit - 1 at time 2, and limit more when the window is over. */
  function Burst(ip: Ip, e: Event, L: nat, W: nat): (r: seq<Request>)
    ensures |r| == 2 * L
  {
    seq(2 * L, i requires 0 <= i < 2 * L => Request(ip, e, At(BurstTime(i, L, W))))
  }

  function BurstTime(i: nat, L: nat, W: nat): nat
  {
    if i == 0 then 1 else if i < L then 2 else 1 + W
  }

  function At(t: nat): Readings
  {
    Readings(t, t, t)
  }

  function BurstState(e: Event, L: nat, W: nat, k: nat): State
  {
    if k == 0 then Initial else Initial.(counters := map[e := if k <= L then Counter(k, 1) else Counter(k - L, 1 + W)])
  }

  lemma BurstStep(cfg: Config, e: Event, L: nat, W: nat, k: nat)
    requires L == cfg.LimitFor(e) >= 1 && W == cfg.WindowFor(e) >= 2 && k < 2 * L
    ensures Allow(cfg, BurstState(e, L, W, k), e, At(BurstTime(k, L, W))) == (BurstState(e, L, W, k + 1), true)
  {
    var s, t := BurstState(e, L, W, k), BurstState(e, L, W, k + 1);
    assert s.counters[e := t.counters[e]] == t.counters;
  }

  lemma {:induction false} BurstAllowed(cfg: Config, ip: Ip, e: Event, L: nat, W: nat, k: nat)
    requires L == cfg.LimitFor(e) >= 1 && W == cfg.WindowFor(e) >= 2 && k <= 2 * L
    ensures StateOf(After(cfg, Burst(ip, e, L, W)[..k]), ip) == BurstState(e, L, W, k)
    ensures k > 0 ==> Answer(cfg, Burst(ip, e, L, W), k - 1)
  {
    hide Allow, BurstTime;
    var reqs := Burst(ip, e, L, W);
    if k > 0 {
      BurstAllowed(cfg, ip, e, L, W, k - 1);
      BurstStep(cfg, e, L, W, k - 1);
      hide BurstState;
      assert reqs[..k][..k - 1] == reqs[..k - 1];
      assert reqs[k - 1] == Request(ip, e, At(BurstTime(k - 1, L, W)));
    }
  }

  lemma BurstTimes(cfg: Config, ip: Ip, e: Event, L: nat, W: nat, k: nat)
    requires L == cfg.LimitFor(e) >= 1 && W == cfg.WindowFor(e) >= 2 && 1 <= k <= 2 * L
    ensures var reqs := Burst(ip, e, L, W);
      Times(cfg, reqs[..k], ip, e, true) == Times(cfg, reqs[..k - 1], ip, e, true) + [BurstTime(k - 1, L, W)]
  {
    var reqs := Burst(ip, e, L, W);
    BurstAllowed(cfg, ip, e, L, W, k);
    assert reqs[..k][..k - 1] == reqs[..k - 1];
    hide After, Allow, BurstState, BurstTime;
    assert reqs[k - 1] == Request(ip, e, At(BurstTime(k - 1, L, W)));
    assert Answer(cfg, reqs[..k], k - 1) == Answer(cfg, reqs, k - 1);
  }

  lemma NoTimes(cfg: Config, reqs: seq<Request>, ip: Ip, e: Event, lo: int, hi: int)
    requires reqs == []
    ensures CountIn(Times(cfg, reqs, ip, e, true), lo, hi) == 0
  {}

  lemma {:induction false} BurstCount(cfg: Config, ip: Ip, e: Event, L: nat, W: nat, k: nat)
    requires L == cfg.LimitFor(e) >= 1 && W == cfg.WindowFor(e) >= 2 && 1 <= k <= 2 * L
    ensures CountIn(Times(cfg, Burst(ip, e, L, W)[..k], ip, e, true), 2, 2 + W) == k - 1
  {
    hide After, Allow, BurstState, Answer, Times, CountIn;
    var reqs := Burst(ip, e, L, W);
    BurstTimes(cfg, ip, e, L, W, k);
    CountOneMore(Times(cfg, reqs[..k - 1], ip, e, true), BurstTime(k - 1, L, W), 2, 2 + W);
    if k > 1 {
      BurstCount(cfg, ip, e, L, W, k - 1);
    } else {
      NoTimes(cfg, reqs[..0], ip, e, 2, 2 + W);
    }
  }

  /** For every limit and window there is a run that reaches the bound. */
  lemma BoundIsReached(cfg: Config, ip: Ip, e: Event) returns (reqs: seq<Request>)
    requires cfg.LimitFor(e) >= 1 && cfg.WindowFor(e) >= 2
    ensures Monotone(reqs)
    ensures CountIn(Times(cfg, reqs, ip, e, true), 2, 2 + cfg.WindowFor(e)) == 2 * cfg.LimitFor(e) - 1
  {
    hide Times, CountIn;
    var L, W := cfg.LimitFor(e), cfg.WindowFor(e);
    reqs := Burst(ip, e, L, W);
    BurstCount(cfg, ip, e, L, W, 2 * L);
    assert reqs[..2 * L] == reqs;
  }

  // ----- no false denial

  /** The address stays within the limit, at least 1, of every event it requests, in every window-long interval. */
  ghost predicate Modest(cfg: Config, reqs: seq<Request>, ip: Ip)
  {
    forall i :: 0 <= i < |reqs| && reqs[i].ip == ip ==>
      cfg.LimitFor(reqs[i].e) >= 1 && WithinLimit(cfg, Times(cfg, reqs, ip, reqs[i].e, false), reqs[i].e)
  }

  ghost predicate WithinLimit(cfg: Config, times: seq<nat>, e: Event)
  {
    forall x: int :: CountFrom(times, x, cfg.WindowFor(e)) <= cfg.LimitFor(e)
  }

  predicate Clean(s: State)
  {
    s.violations == [] && s.banCount == 0 && s.banExpiry == 0 && !s.permanent
  }

  /** The counter is exactly the number of requests in its window. */
  predicate Exact(times: seq<nat>, c: Counter, W: int)
  {
    if W > 0 then UpTo(times, c.start + W - 1) && c.count == CountFrom(times, c.start, W) else c.count == 1
  }

  ghost predicate QuietInv(cfg: Config, reqs: seq<Request>, ip: Ip)
  {
    var s := StateOf(After(cfg, reqs), ip);
    && Clean(s)
    && forall e :: QuietFor(cfg, reqs, ip, e)
  }

  predicate QuietFor(cfg: Config, reqs: seq<Request>, ip: Ip, e: Event)
  {
    var s := StateOf(After(cfg, reqs), ip);
    var times := Times(cfg, reqs, ip, e, false);
    if e in s.counters then
      reqs != [] && s.counters[e].start <= reqs[|reqs| - 1].r.now && Exact(times, s.counters[e], cfg.WindowFor(e))
    else times == []
  }

  lemma ModestPrefix(cfg: Config, reqs: seq<Request>, ip: Ip)
    requires reqs != [] && Modest(cfg, reqs, ip)
    ensures Modest(cfg, reqs[..|reqs| - 1], ip)
  {
    hide Answer;
    var n := |reqs| - 1;
    forall i | 0 <= i < n && reqs[..n][i].ip == ip
      ensures WithinLimit(cfg, Times(cfg, reqs[..n], ip, reqs[i].e, false), reqs[i].e)
    {
      var e := reqs[i].e;
      var W, shorter, longer := cfg.WindowFor(e), Times(cfg, reqs[..n], ip, e, false), Times(cfg, reqs, ip, e, false);
      assert reqs[i].ip == ip && WithinLimit(cfg, longer, e);
      assert longer == shorter || longer == shorter + [reqs[n].r.now];
      forall x: int ensures CountFrom(shorter, x, W) <= cfg.LimitFor(e) {
        assert CountFrom(longer, x, W) <= cfg.LimitFor(e);
        CountOneMore(shorter, reqs[n].r.now, x, x + W);
      }
    }
  }

  /** One more request inside its window keeps the counter exact. */
  lemma ExactOneMore(times: seq<nat>, c: Counter, W: int, now: nat)
    requires Exact(times, c, W) && W > 0 && 0 <= now - c.start < W
    ensures Exact(times + [now], c.(count := c.count + 1), W)
  {
    CountOneMore(times, now, c.start, c.start + W);
  }

  lemma ExactRestarts(times: seq<nat>, now: nat, W: int)
    requires UpTo(times, now - 1) && W > 0
    ensures Exact(times, Counter(0, now), W)
  {
    CountNone(times, now, now + W);
  }

  /** What the counter becomes is the number of requests in its window, the new one included. */
  lemma WindowExact(cfg: Config, reqs: seq<Request>, ip: Ip, s: State, e: Event)
    requires reqs != [] && Monotone(reqs) && reqs[|reqs| - 1].ip == ip && reqs[|reqs| - 1].e == e
    requires QuietFor(cfg, reqs[..|reqs| - 1], ip, e) && s == StateOf(After(cfg, reqs[..|reqs| - 1]), ip)
    ensures var now := reqs[|reqs| - 1].r.now;
      var w := Window(s, e, now, cfg.WindowFor(e));
      w.start <= now && Exact(Times(cfg, reqs, ip, e, false), w.(count := w.count + 1), cfg.WindowFor(e))
  {
    hide After, Answer;
    var n := |reqs| - 1;
    var now, W, times := reqs[n].r.now, cfg.WindowFor(e), Times(cfg, reqs[..n], ip, e, false);
    if W > 0 {
      var w := Window(s, e, now, W);
      if e !in s.counters || now - s.counters[e].start >= W {
        ExactRestarts(times, now, W);
      }
      ExactOneMore(times, w, W, now);
    }
  }

  /** The request is allowed, and its counter is all that changes. */
  lemma QuietAnswer(cfg: Config, reqs: seq<Request>, ip: Ip)
    requires reqs != [] && Monotone(reqs) && Modest(cfg, reqs, ip) && reqs[|reqs| - 1].ip == ip
    requires QuietInv(cfg, reqs[..|reqs| - 1], ip)
    ensures Answer(cfg, reqs, |reqs| - 1)
    ensures var s := StateOf(After(cfg, reqs[..|reqs| - 1]), ip);
      var e := reqs[|reqs| - 1].e;
      var w := Window(s, e, reqs[|reqs| - 1].r.now, cfg.WindowFor(e));
      && StateOf(After(cfg, reqs), ip) == s.(counters := s.counters[e := w.(count := w.count + 1)])
      && w.start <= reqs[|reqs| - 1].r.now
      && Exact(Times(cfg, reqs, ip, e, false), w.(count := w.count + 1), cfg.WindowFor(e))
  {
    hide Window, Exact, UpTo, QuietFor, Times;
    var n := |reqs| - 1;
    var q, s := reqs[n], StateOf(After(cfg, reqs[..n]), ip);
    var W, times := cfg.WindowFor(q.e), Times(cfg, reqs, ip, q.e, false);
    assert QuietFor(cfg, reqs[..n], ip, q.e);
    WindowExact(cfg, reqs, ip, s, q.e);
    var w := Window(s, q.e, q.r.now, W);
    assert WithinLimit(cfg, times, q.e);
    assert CountFrom(times, w.start, W) <= cfg.LimitFor(q.e);
    ExactBound(times, w.(count := w.count + 1), W, cfg.LimitFor(q.e));
  }

  lemma QuietStep(cfg: Config, reqs: seq<Request>, ip: Ip)
    requires reqs != [] && Monotone(reqs) && Modest(cfg, reqs, ip)
    requires QuietInv(cfg, reqs[..|reqs| - 1], ip)
    ensures QuietInv(cfg, reqs, ip)
    ensures reqs[|reqs| - 1].ip == ip ==> Answer(cfg, reqs, |reqs| - 1)
  {
    hide Window, Exact, Answer, Allow, Modest;
    if reqs[|reqs| - 1].ip == ip {
      QuietAnswer(cfg, reqs, ip);
    }
    var n := |reqs| - 1;
    var s, t := StateOf(After(cfg, reqs[..n]), ip), StateOf(After(cfg, reqs), ip);
    assert reqs[n].ip != ip ==> t == s;
    forall e ensures QuietFor(cfg, reqs, ip, e) {
      assert QuietFor(cfg, reqs[..n], ip, e);
      if reqs[n].ip != ip || reqs[n].e != e {
        assert Times(cfg, reqs, ip, e, false) == Times(cfg, reqs[..n], ip, e, false);
        assert e in s.counters ==> s.counters[e].start <= reqs[n].r.now;
        assert e in t.counters <==> e in s.counters;
        assert e in t.counters ==> t.counters[e] == s.counters[e];
      } else {
        assert e in t.counters;
      }
    }
  }

  lemma ExactBound(times: seq<nat>, c: Counter, W: int, limit: int)
    requires Exact(times, c, W) && limit >= 1 && CountFrom(times, c.start, W) <= limit
    ensures c.count <= limit
  {}

  lemma {:induction false} QuietHolds(cfg: Config, reqs: seq<Request>, ip: Ip)
    requires Monotone(reqs) && Modest(cfg, reqs, ip)
    ensures QuietInv(cfg, reqs, ip)
  {
    hide QuietFor, Modest;
    if reqs != [] {
      ModestPrefix(cfg, reqs, ip);
      QuietHolds(cfg, reqs[..|reqs| - 1], ip);
      QuietStep(cfg, reqs, ip);
    } else {
      forall e ensures QuietFor(cfg, reqs, ip, e) {
        QuietNone(cfg, ip, e);
      }
    }
  }

  lemma QuietNone(cfg: Config, ip: Ip, e: Event)
    ensures QuietFor(cfg, [], ip, e)
  {}

  lemma {:induction false} ModestUpTo(cfg: Config, reqs: seq<Request>, ip: Ip, k: nat)
    requires k <= |reqs| && Modest(cfg, reqs, ip)
    ensures Modest(cfg, reqs[..k], ip)
    decreases |reqs| - k
  {
    hide Modest;
    if k < |reqs| {
      ModestUpTo(cfg, reqs, ip, k + 1);
      ModestPrefix(cfg, reqs[..k + 1], ip);
      assert reqs[..k + 1][..k] == reqs[..k];
    } else {
      assert reqs[..k] == reqs;
    }
  }

  /**
   * An address that stays within every limit is never denied, records no violation and is never banned,
   * whatever other addresses do.
   */
  lemma NoFalseDenial(cfg: Config, reqs: seq<Request>, ip: Ip)
    requires Monotone(reqs) && Modest(cfg, reqs, ip)
    ensures forall i :: 0 <= i < |reqs| && reqs[i].ip == ip ==> Answer(cfg, reqs, i)
    ensures Clean(StateOf(After(cfg, reqs), ip))
  {
    hide Modest, QuietFor, Clean, Allow, After;
    QuietHolds(cfg, reqs, ip);
    forall i | 0 <= i < |reqs| && reqs[i].ip == ip ensures Answer(cfg, reqs, i) {
      var upto := reqs[..i + 1];
      ModestUpTo(cfg, reqs, ip, i + 1);
      ModestPrefix(cfg, upto, ip);
      QuietHolds(cfg, upto[..i], ip);
      QuietStep(cfg, upto, ip);
      assert upto[..i] == reqs[..i];
    }
  }

  // ----- the ban lifecycle

  predicate AllIn(violations: seq<nat>, lo: int, hi: int)
  {
    forall i :: 0 <= i < |violations| ==> lo <= violations[i] <= hi
  }

  /**
   * banCount fixes expiry and permanence; the third ban began after the second expired; and the violation
   * list is either from before the last ban, or from after its expiry and too short for another one.
   */
  predicate Lifecycle(s: State, last: nat)
  {
    && s.banCount <= 3 && (s.permanent <==> s.banCount == 3)
    && (s.banCount == 0 ==> s.bannedAt == 0 && s.banExpiry == 0)
    && (s.banCount == 1 ==> s.banExpiry == s.bannedAt + BAN_FIRST)
    && (s.banCount == 2 ==> s.banExpiry == s.bannedAt + BAN_SECOND)
    && (s.banCount == 3 ==> s.bannedAt >= s.banExpiry >= BAN_SECOND)
    && s.bannedAt <= last
    && ((s.banCount > 0 && |s.violations| <= 3 && AllIn(s.violations, 0, s.bannedAt))
        || (!s.permanent && |s.violations| <= 2 && AllIn(s.violations, s.banExpiry, last)))
  }

  lemma {:induction false} RecentSound(violations: seq<nat>, now: nat, i: nat)
    requires i < |Recent(violations, now)|
    ensures Recent(violations, now)[i] in violations && now - Recent(violations, now)[i] < VIOLATION_WINDOW
  {
    var n := |violations| - 1;
    if i < |Recent(violations[..n], now)| {
      RecentSound(violations[..n], now, i);
    }
  }

  lemma RecentShape(violations: seq<nat>, now: nat, lo: int, hi: int)
    requires AllIn(violations, lo, hi)
    ensures AllIn(Recent(violations, now), lo, hi)
    ensures now - hi >= VIOLATION_WINDOW ==> Recent(violations, now) == []
  {
    hide Recent;
    forall i | 0 <= i < |Recent(violations, now)|
      ensures lo <= Recent(violations, now)[i] <= hi && now - Recent(violations, now)[i] < VIOLATION_WINDOW
    {
      RecentSound(violations, now, i);
    }
    if Recent(violations, now) != [] {
      assert Recent(violations, now)[0] <= hi;
    }
  }

  /** A recorded violation finds only violations from after the expiry of the last ban. */
  lemma RecordStep(s: State, r: Readings, last: nat)
    requires Lifecycle(s, last) && !IsBanned(s, r.check) && last <= r.check <= r.now <= r.ban
    ensures var t := s.(violations := Recent(s.violations, r.now) + [r.now]);
      |t.violations| <= 3 && AllIn(t.violations, s.banExpiry, r.now)
  {
    if s.banCount > 0 && AllIn(s.violations, 0, s.bannedAt) {
      RecentShape(s.violations, r.now, 0, s.bannedAt);
      assert Recent(s.violations, r.now) == [];
    } else {
      RecentShape(s.violations, r.now, s.banExpiry, last);
    }
  }

  /**
   * One request: a ban is the next in line, begins now, no earlier than the previous one's expiry, and
   * comes with a denial; a recorded violation is dated now and stands only beside violations from after the
   * last ban; a permanent ban denies and changes nothing.
   */
  lemma BanStep(cfg: Config, s: State, e: Event, r: Readings, last: nat)
    requires Lifecycle(s, last) && last <= r.check <= r.now <= r.ban
    ensures var (t, ok) := Allow(cfg, s, e, r);
      && Lifecycle(t, r.ban)
      && (t.banCount != s.banCount ==>
            t.banCount == s.banCount + 1 && t.bannedAt == r.ban && s.banExpiry <= r.ban && !ok)
      && (t.violations != s.violations ==>
            t.violations != [] && t.violations[|t.violations| - 1] == r.now && AllIn(t.violations, s.banExpiry, r.now))
      && (s.permanent ==> t == s && !ok)
  {
    hide Window, AllIn, Recent;
    AllInWider(s.violations, s.banExpiry, last, s.banExpiry, r.ban);
    AllInWider(s.violations, s.banExpiry, last, 0, r.ban);
    AllInWider(s.violations, 0, s.bannedAt, 0, r.ban);
    if !IsBanned(s, r.check) {
      RecordStep(s, r, last);
      var v := Recent(s.violations, r.now) + [r.now];
      AllInWider(v, s.banExpiry, r.now, 0, r.ban);
      AllInWider(v, s.banExpiry, r.now, s.banExpiry, r.ban);
    }
  }

  lemma AllInWider(violations: seq<nat>, lo: int, hi: int, lo1: int, hi1: int)
    requires lo1 <= lo && hi <= hi1
    ensures AllIn(violations, lo, hi) ==> AllIn(violations, lo1, hi1)
  {}

  function LastReading(reqs: seq<Request>): nat
  {
    if reqs == [] then 0 else reqs[|reqs| - 1].r.ban
  }

  /** The lifecycle holds in every reachable state of every address. */
  lemma {:induction false} LifecycleHolds(cfg: Config, reqs: seq<Request>, ip: Ip)
    requires Monotone(reqs)
    ensures Lifecycle(StateOf(After(cfg, reqs), ip), LastReading(reqs))
  {
    if reqs != [] {
      var n := |reqs| - 1;
      LifecycleHolds(cfg, reqs[..n], ip);
      var s := StateOf(After(cfg, reqs[..n]), ip);
      if reqs[n].ip == ip {
        hide Lifecycle;
        BanStep(cfg, s, reqs[n].e, reqs[n].r, LastReading(reqs[..n]));
      } else {
        AllInWider(s.violations, s.banExpiry, LastReading(reqs[..n]), s.banExpiry, LastReading(reqs));
        hide AllIn;
      }
    }
  }

  /** The same record with no ban on it. */
  function Unbanned(s: State): State
  {
    s.(banCount := 0, bannedAt := 0, banExpiry := 0, permanent := false)
  }

  /** How long the first two bans last, in seconds. */
  function BanSeconds(banCount: nat): int
  {
    if banCount == 1 then 3600 else 86400
  }

  /** Who is banned, in every reachable state: for good after a third ban, before that until the last one's end. */
  lemma BannedIff(cfg: Config, reqs: seq<Request>, ip: Ip, check: nat)
    requires Monotone(reqs)
    ensures var s := StateOf(After(cfg, reqs), ip);
      IsBanned(s, check) <==>
      s.banCount == 3 || (1 <= s.banCount <= 2 && check < s.bannedAt + BanSeconds(s.banCount) * 1_000_000_000)
  {
    LifecycleHolds(cfg, reqs, ip);
    hide AllIn, After;
  }

  lemma BanEndsFor(cfg: Config, s: State, e: Event, r: Readings, last: nat)
    requires Lifecycle(s, last) && 1 <= s.banCount <= 2
    ensures var until := s.bannedAt + BanSeconds(s.banCount) * 1_000_000_000;
      if r.check < until then Allow(cfg, s, e, r) == (s, false)
      else
        var (t, ok) := Allow(cfg, s, e, r);
        var (u, answer) := Allow(cfg, Unbanned(s), e, r);
        && ok == answer && t.counters == u.counters && t.violations == u.violations
        && t.banCount == s.banCount + u.banCount
  {
    SameWindow(s, Unbanned(s), e, r.now, cfg.WindowFor(e));
    hide Window, Recent;
  }

  lemma SameWindow(s: State, t: State, e: Event, now: nat, window: int)
    requires t.counters == s.counters
    ensures Window(t, e, now, window) == Window(s, e, now, window)
  {}

  /**
   * A first ban lasts one hour, a second one a day: until then every request is denied and changes nothing;
   * from that moment on a request gets exactly the answer that it would get with no ban on record.
   */
  lemma BanEnds(cfg: Config, reqs: seq<Request>, ip: Ip, e: Event, r: Readings)
    requires Monotone(reqs) && 1 <= StateOf(After(cfg, reqs), ip).banCount <= 2
    ensures var s := StateOf(After(cfg, reqs), ip);
      var until := s.bannedAt + BanSeconds(s.banCount) * 1_000_000_000;
      if r.check < until then Allow(cfg, s, e, r) == (s, false)
      else
        var (t, ok) := Allow(cfg, s, e, r);
        var (u, answer) := Allow(cfg, Unbanned(s), e, r);
        && ok == answer && t.counters == u.counters && t.violations == u.violations
        && t.banCount == s.banCount + u.banCount
  {
    hide Lifecycle, Allow;
    LifecycleHolds(cfg, reqs, ip);
    BanEndsFor(cfg, StateOf(After(cfg, reqs), ip), e, r, LastReading(reqs));
  }

  lemma PermanentStep(cfg: Config, s: State, e: Event, r: Readings)
    requires s.permanent
    ensures Allow(cfg, s, e, r) == (s, false)
  {}

  /** Once an address is banned for good, every later request of it is denied and changes nothing. */
  lemma {:induction false} PermanentForever(cfg: Config, reqs: seq<Request>, ip: Ip, k: nat)
    requires k <= |reqs| && StateOf(After(cfg, reqs[..k]), ip).permanent
    ensures StateOf(After(cfg, reqs), ip) == StateOf(After(cfg, reqs[..k]), ip)
    ensures forall i :: k <= i < |reqs| && reqs[i].ip == ip ==> !Answer(cfg, reqs, i)
  {
    hide Allow;
    if k < |reqs| {
      var n := |reqs| - 1;
      assert reqs[..n][..k] == reqs[..k];
      PermanentForever(cfg, reqs[..n], ip, k);
      PermanentStep(cfg, StateOf(After(cfg, reqs[..n]), ip), reqs[n].e, reqs[n].r);
      forall i | k <= i < n && reqs[i].ip == ip ensures !Answer(cfg, reqs, i) {
        assert reqs[..n][..i] == reqs[..i];
        assert !Answer(cfg, reqs[..n], i);
      }
    } else {
      assert reqs[..k] == reqs;
    }
  }
}
