/**
 * The rate limiter as the program keeps it (internal/relay/ratelimit.go): one record per address with its
 * window counters, updated in place.  Each method refines a function of RateLimit.
 */
module RateLimiterHeap {
  import R = RateLimit

  /** `owner` and `event` say which record and which of its entries refer to the counter. */
  class WindowCounter {
    var count: int
    var windowStart: nat
    ghost const owner: IpState
    ghost const event: R.Event

    constructor (now: nat, ghost owner: IpState, ghost event: R.Event)
      ensures Abs() == R.Counter(0, now) && this.owner == owner && this.event == event
    {
      count, windowStart := 0, now;
      this.owner, this.event := owner, event;
    }

    ghost function Abs(): R.Counter
      reads this
    {
      R.Counter(count, windowStart)
    }
  }

  class IpState {
    var counters: map<R.Event, WindowCounter>
    var violations: seq<nat>
    var banCount: nat
    var bannedAt: nat
    var banExpiry: nat
    var permanent: bool

    ghost predicate Valid()
      reads this
    {
      forall e :: e in counters ==> counters[e].owner == this && counters[e].event == e
    }

    ghost function Counters(): map<R.Event, R.Counter>
      reads this, counters.Values
    {
      map e | e in counters :: counters[e].Abs()
    }

    ghost function Abs(): R.State
      reads this, counters.Values
    {
      R.State(Counters(), violations, banCount, bannedAt, banExpiry, permanent)
    }

    constructor ()
      ensures Valid() && Abs() == R.Initial && counters == map[]
    {
      counters, violations, banCount, bannedAt, banExpiry, permanent := map[], [], 0, 0, 0, false;
    }

    method IsBannedLocked(check: nat) returns (banned: bool)
      ensures banned == R.IsBanned(Abs(), check)
    {
      if permanent {
        return true;
      }
      if banExpiry == 0 {
        return false;
      }
      return check < banExpiry;
    }

    method Ban(at: nat)
      modifies this`banCount, this`bannedAt, this`banExpiry, this`permanent
      ensures Abs() == R.Ban(old(Abs()), at)
    {
      banCount := banCount + 1;
      bannedAt := at;
      if banCount == 1 {
        banExpiry := bannedAt + R.BAN_FIRST;
      } else if banCount == 2 {
        banExpiry := bannedAt + R.BAN_SECOND;
      } else {
        permanent := true;
      }
      assert Counters() == old(Counters());
    }

    method RecordViolation(now: nat, ban: nat)
      modifies this`violations, this`banCount, this`bannedAt, this`banExpiry, this`permanent
      ensures Abs() == R.RecordViolation(old(Abs()), now, ban)
    {
      var recent: seq<nat> := [];
      for i := 0 to |violations|
        invariant recent == R.Recent(violations[..i], now)
      {
        assert violations[..i + 1][..i] == violations[..i];
        if now - violations[i] < R.VIOLATION_WINDOW {
          recent := recent + [violations[i]];
        }
      }
      assert violations[..|violations|] == violations;
      recent := recent + [now];
      violations := recent;
      assert Counters() == old(Counters());
      if |recent| >= R.VIOLATION_BAN_COUNT {
        Ban(ban);
      }
    }

    /** The counter of an event, created or restarted as needed, with this request counted. */
    method Count(e: R.Event, now: nat, window: int) returns (counter: WindowCounter)
      requires Valid()
      modifies this`counters, counters.Values
      ensures Valid() && e in counters && counters[e] == counter && counters.Keys == old(counters.Keys) + {e}
      ensures forall c :: c in counters.Values ==> c in old(counters.Values) || fresh(c)
      ensures var w := R.Window(old(Abs()), e, now, window);
        Abs() == old(Abs()).(counters := old(Counters())[e := w.(count := w.count + 1)])
    {
      if e !in counters {
        counter := new WindowCounter(now, this, e);
        counters := counters[e := counter];
      } else {
        counter := counters[e];
      }
      assert Counters() == old(Counters())[e := counter.Abs()];
      Bump(e, counter, now, window);
    }

    method Bump(e: R.Event, counter: WindowCounter, now: nat, window: int)
      requires Valid() && e in counters && counters[e] == counter
      modifies counter
      ensures Valid()
      ensures var w := if now - old(counter.windowStart) >= window then R.Counter(0, now) else old(counter.Abs());
        Abs() == old(Abs()).(counters := old(Counters())[e := w.(count := w.count + 1)])
    {
      if now - counter.windowStart >= window {
        counter.count := 0;
        counter.windowStart := now;
      }
      counter.count := counter.count + 1;
      assert forall f :: f in counters && f != e ==> counters[f] != counter;
      assert Counters() == old(Counters())[e := counter.Abs()];
    }

    /** Allow, past the look-up of the address. */
    method Decide(cfg: R.Config, e: R.Event, r: R.Readings) returns (ok: bool)
      requires Valid()
      modifies this, counters.Values
      ensures Valid() && forall c :: c in counters.Values ==> c in old(counters.Values) || fresh(c)
      ensures (Abs(), ok) == R.Allow(cfg, old(Abs()), e, r)
    {
      hide R.Window, R.Ban, R.RecordViolation;
      var banned := IsBannedLocked(r.check);
      if banned {
        return false;
      }
      var limit, window := cfg.LimitFor(e), cfg.WindowFor(e);
      var counter := Count(e, r.now, window);
      assert counter.Abs() == Counters()[e];
      var banThreshold := limit * R.BAN_MULTIPLIER;
      if counter.count >= banThreshold {
        Ban(r.ban);
        return false;
      }
      if counter.count > limit {
        if counter.count == limit + 1 {
          RecordViolation(r.now, r.ban);
        }
        return false;
      }
      return true;
    }
  }

  class RateLimiter {
    const config: R.Config
    var ips: map<R.Ip, IpState>
    ghost var owned: set<WindowCounter>

    /** No two addresses share a record or a counter. */
    ghost predicate Valid()
      reads this, ips.Values
    {
      && (forall ip :: ip in ips ==> ips[ip].Valid() && ips[ip].counters.Values <= owned)
      && (forall a, b :: a in ips && b in ips && a != b ==> ips[a] != ips[b])
    }

    ghost function Abs(): map<R.Ip, R.State>
      requires Valid()
      reads this, ips.Values, owned
    {
      map ip | ip in ips :: ips[ip].Abs()
    }

    constructor (config: R.Config)
      ensures Valid() && Abs() == map[] && this.config == config
    {
      this.config := config;
      ips, owned := map[], {};
    }

    method GetOrCreate(ip: R.Ip) returns (state: IpState)
      requires Valid()
      modifies this`ips
      ensures Valid() && ip in ips && ips[ip] == state
      ensures ips == old(ips)[ip := state]
      ensures if ip in old(ips) then state == old(ips)[ip] else fresh(state) && state.counters == map[]
      ensures state.Abs() == R.StateOf(old(Abs()), ip) && owned == old(owned)
      ensures Abs() == old(Abs())[ip := state.Abs()]
    {
      hide IpState.Abs, IpState.Valid;
      if ip in ips {
        state := ips[ip];
      } else {
        state := new IpState();
        ips := ips[ip := state];
      }
    }

    method IsBanned(ip: R.Ip, check: nat) returns (banned: bool)
      requires Valid()
      ensures banned == R.IsBanned(R.StateOf(Abs(), ip), check)
    {
      if ip !in ips {
        return false;
      }
      banned := ips[ip].IsBannedLocked(check);
    }

    method Allow(ip: R.Ip, e: R.Event, r: R.Readings) returns (ok: bool)
      requires Valid()
      modifies this, ips.Values, owned
      ensures Valid()
      ensures var (t, answer) := R.Allow(config, R.StateOf(old(Abs()), ip), e, r);
        ok == answer && Abs() == old(Abs())[ip := t]
    {
      hide R.Allow, R.StateOf, IpState.Abs, Valid, Abs;
      OwnedFact(ip);
      var state := GetOrCreate(ip);
      assert ip in old(ips) ==> state in old(ips.Values);
      ok := Answer(ip, state, e, r);
    }

    lemma OwnedFact(ip: R.Ip)
      requires Valid()
      ensures ip in ips ==> ips[ip].counters.Values <= owned
    {}

    lemma Apart(ip: R.Ip)
      requires Valid() && ip in ips
      ensures forall a :: a in ips && a != ip ==> ips[a] != ips[ip] && ips[a].counters.Values !! ips[ip].counters.Values
    {
      assert forall a, e :: a in ips && e in ips[a].counters ==> ips[a].counters[e].owner == ips[a];
    }

    method Answer(ip: R.Ip, state: IpState, e: R.Event, r: R.Readings) returns (ok: bool)
      requires Valid() && ip in ips && ips[ip] == state
      modifies this`owned, state, state.counters.Values
      ensures Valid()
      ensures var (t, answer) := R.Allow(config, old(state.Abs()), e, r);
        ok == answer && Abs() == old(Abs())[ip := t]
    {
      hide R.Allow, IpState.Abs, IpState.Valid;
      Apart(ip);
      ghost var others := ips - {ip};
      ok := state.Decide(config, e, r);
      owned := owned + state.counters.Values;
      assert forall other :: other in others ==> ips[other].Abs() == old(ips[other].Abs());
      assert forall other :: other in others ==> ips[other].Valid() && ips[other].counters.Values <= owned;
    }
  }
}
