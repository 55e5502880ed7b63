/** The rate limit check itself (internal/cache/cache.go), run by one process while others interfere.
    Every access is recorded as an action of `RateLimit`, so an execution of the code is part of a run
    there, and what the caller is told is the decision the theorems speak of. */
module RateLimiter {
  import opened Wrappers
  import BlockCache
  import opened RateLimit
  import opened RateRefinement

  /** One process: its block cache, the shared counters as it reaches them, and the history so far. */
  class Cache {
    const cfg: Config
    const proc: nat
    const blocked: BlockCache.BlockCache
    var counters: Counters
    var clock: nat
    ghost var states: seq<State>
    ghost var events: seq<Event>

    ghost predicate Valid()
      reads this, blocked
    {
      IsRun(cfg, states, events) && Initial(states[0]) && blocked.Valid() && blocked.maxEntries == cfg.maxEntries &&
      Now().redis == counters && Now().time <= clock && CacheOf(Now(), proc) == blocked.m
    }

    ghost function Now(): State
      requires |states| == |events| + 1
      reads this
    {
      states[|events|]
    }

    ghost predicate At(q: nat, r: Request)
      reads this
    {
      |states| == |events| + 1 && q in Now().requests && Now().requests[q] == r
    }

    ghost predicate Unknown(q: nat)
      reads this
    {
      |states| == |events| + 1 && q !in Now().requests
    }

    constructor (cfg: Config, proc: nat)
      ensures Valid() && this.cfg == cfg && this.proc == proc
    {
      this.cfg, this.proc := cfg, proc;
      blocked := new BlockCache.BlockCache(cfg.maxEntries);
      counters, clock := map[], 0;
      states, events := [State(0, map[], map[], map[], map[])], [];
    }

    /** Whatever other requests and other processes did meanwhile, with request `q` where it was. Callers
        know only this contract. */
    method Interfere(ghost q: nat)
      requires Valid()
      modifies this, blocked
      ensures Valid() && old(states) <= states && old(events) <= events && old(clock) <= clock
      ensures q !in old(Now().requests) ==> Unknown(q)
      ensures q in old(Now().requests) ==> At(q, old(Now().requests[q]))
    {
    }

    ghost method Record(t: nat, action: Action)
      requires IsRun(cfg, states, events) && Initial(states[0]) && Enabled(Now(), t, action) && t <= clock
      requires blocked.Valid() && blocked.maxEntries == cfg.maxEntries
      requires Apply(cfg, Now(), t, action).redis == counters
      requires CacheOf(Apply(cfg, Now(), t, action), proc) == blocked.m
      modifies this`states, this`events
      ensures Valid()
      ensures states == old(states) + [Apply(cfg, old(Now()), t, action)]
      ensures events == old(events) + [Event(t, action)]
    {
      RunExtends(cfg, states, events, Event(t, action));
      states, events := states + [Apply(cfg, Now(), t, action)], events + [Event(t, action)];
    }

    /** Captures the clock. */
    method Arrival(ghost q: nat, key: string) returns (now: nat)
      requires Valid() && Unknown(q)
      modifies this, blocked
      ensures Valid() && old(states) <= states && old(events) <= events && At(q, Looking(proc, key, now))
    {
      Interfere(q);
      now := clock;
      Record(now, Arrive(q, proc, key));
    }

    /** Looks into the block cache with that clock value. */
    method IsBlocked(ghost q: nat, key: string, now: nat) returns (isBlocked: bool)
      requires Valid() && At(q, Looking(proc, key, now))
      modifies this, blocked
      ensures Valid() && old(states) <= states && old(events) <= events
      ensures At(q, if isBlocked then Answered(Some(false)) else Counting(proc, key, now))
    {
      Interfere(q);
      isBlocked := blocked.IsBlocked(key, now);
      Record(clock, Lookup(q));
    }

    /** The counting script; `None` when the call failed. */
    method IncrWithTTL(ghost q: nat, key: string, now: nat) returns (current: Option<nat>)
      requires Valid() && At(q, Counting(proc, key, now))
      modifies this, blocked
      ensures Valid() && old(states) <= states && old(events) <= events
      ensures match current
              case None => At(q, Answered(None))
              case Some(n) => if n <= cfg.limit then At(q, Answered(Some(true)))
                              else exists expire: nat :: At(q, Refused(proc, key, now, expire))
    {
      Interfere(q);
      var lost: bool, applied: bool := *, *;
      if !lost || applied {
        counters := Incr(cfg, counters, key, clock);
      }
      if lost {
        Record(clock, CountLost(q, applied));
        return None;
      }
      current := Some(counters[key].count);
      Record(clock, Count(q));
      assert counters[key].count > cfg.limit ==> At(q, Refused(proc, key, now, counters[key].expire));
    }

    /** Event `i` is the request's reading of the remaining time, and `until` the end of the block that follows from
        it and from the clock value `now`. */
    ghost predicate ReadAt(q: nat, key: string, now: nat, until: int, i: nat)
      requires |states| == |events| + 1
      reads this
    {
      i < |events| && events[i].action.ReadTtl? && events[i].action.q == q &&
      var ttl := if events[i].action.failed then None else Some(Pttl(states[i].redis, key, events[i].t));
      until == now + BlockFor(cfg, ttl)
    }

    /** Event `j` sets the request's block. */
    ghost predicate SetAt(q: nat, key: string, until: int, j: nat)
      requires |states| == |events| + 1
      reads this
    {
      j < |events| && events[j].action == Block(q) && q in states[j].requests &&
      states[j].requests[q] == Blocking(proc, key, until)
    }

    /** Since event `from` the request has read the remaining time and then set the block that follows. */
    ghost predicate BlockedFor(q: nat, key: string, now: nat, from: nat)
      requires |states| == |events| + 1
      reads this
    {
      exists i, j, until :: from <= i < j && ReadAt(q, key, now, until, i) && SetAt(q, key, until, j)
    }

    /** PTTL, with the decision for how long to block. */
    method ReadRemaining(ghost q: nat, key: string, now: nat, ghost expire: nat) returns (until: int)
      requires Valid() && At(q, Refused(proc, key, now, expire))
      modifies this, blocked
      ensures Valid() && old(states) <= states && old(events) <= events && At(q, Blocking(proc, key, until))
      ensures |old(events)| < |events| && ReadAt(q, key, now, until, |events| - 1)
    {
      Interfere(q);
      var failed: bool := *;
      var ttl := if failed then None else Some(Pttl(counters, key, clock));
      until := now + BlockFor(cfg, ttl);
      Record(clock, ReadTtl(q, failed));
    }

    method SetBlock(ghost q: nat, key: string, until: int)
      requires Valid() && At(q, Blocking(proc, key, until))
      modifies this, blocked
      ensures Valid() && old(states) <= states && old(events) <= events && At(q, Answered(Some(false)))
      ensures |old(events)| < |events| && SetAt(q, key, until, |events| - 1)
    {
      Interfere(q);
      blocked.Block(key, until, clock);
      Record(clock, Block(q));
    }

    /** Asks for the remaining time and blocks the key locally until then. */
    method BlockUntilWindowReset(ghost q: nat, key: string, now: nat, ghost expire: nat)
      requires Valid() && At(q, Refused(proc, key, now, expire))
      modifies this, blocked
      ensures Valid() && old(states) <= states && old(events) <= events && At(q, Answered(Some(false)))
      ensures BlockedFor(q, key, now, |old(events)|)
    {
      var until := ReadRemaining(q, key, now, expire);
      ghost var i := |events| - 1;
      SetBlock(q, key, until);
      assert ReadAt(q, key, now, until, i) && SetAt(q, key, until, |events| - 1);
    }

    /** `CheckRateLimit`; the other three checks differ only in how they build the key. `None` is a
        failed count. A limit that is not positive lets everything through, uncounted. */
    method CheckRateLimit(ghost q: nat, key: string) returns (allowed: Option<bool>)
      requires Valid() && Unknown(q)
      modifies this, blocked
      ensures Valid() && old(states) <= states && old(events) <= events
      ensures cfg.limit <= 0 ==> allowed == Some(true) && states == old(states) && counters == old(counters)
      ensures cfg.limit > 0 ==> At(q, Answered(allowed))
    {
      if cfg.limit <= 0 {
        return Some(true);
      }
      var now := Arrival(q, key);
      var isBlocked := IsBlocked(q, key, now);
      if isBlocked {
        return Some(false);
      }
      allowed := Counted(q, key, now);
    }

    /** The rest of `CheckRateLimit`, for a request that is not blocked locally. */
    method Counted(ghost q: nat, key: string, now: nat) returns (allowed: Option<bool>)
      requires Valid() && At(q, Counting(proc, key, now))
      modifies this, blocked
      ensures Valid() && old(states) <= states && old(events) <= events && At(q, Answered(allowed))
      ensures allowed == Some(false) ==> BlockedFor(q, key, now, |old(events)|)
    {
      var current := IncrWithTTL(q, key, now);
      if current == None {
        return None;
      }
      if current.value <= cfg.limit {
        return Some(true);
      }
      ghost var expire: nat :| At(q, Refused(proc, key, now, expire));
      BlockUntilWindowReset(q, key, now, expire);
      allowed := Some(false);
    }
  }
}
