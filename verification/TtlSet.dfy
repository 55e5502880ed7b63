/** The set of addresses known not to exist, each for a while (internal/smtp/server.go, ttlSet). */
module TtlSet {
  import opened MapSize

  const SECOND := 1000000000

  /** Keys with the time, in nanoseconds, at which each expires. */
  type Entries = map<string, int>

  predicate Holds(m: Entries, key: string, now: int) {
    key in m && m[key] > now
  }

  function Live(m: Entries, now: int): Entries {
    map key | key in m && m[key] > now :: m[key]
  }

  class TtlSet {
    var m: Entries
    var size: int
    var lastSweepNS: int
    const maxEntries: int
    const sweepEvery: int

    /** The counter kept beside the map is its number of entries. */
    ghost predicate Valid()
      reads this
    {
      size == |m| && maxEntries > 0 && sweepEvery > 0
    }

    constructor (maxEntries: int, sweepEvery: int)
      ensures Valid() && m == map[] && lastSweepNS == 0
      ensures this.maxEntries == (if maxEntries <= 0 then 10000 else maxEntries)
      ensures this.sweepEvery == (if sweepEvery <= 0 then 30 * SECOND else sweepEvery)
    {
      m, size, lastSweepNS := map[], 0, 0;
      this.maxEntries := if maxEntries <= 0 then 10000 else maxEntries;
      this.sweepEvery := if sweepEvery <= 0 then 30 * SECOND else sweepEvery;
    }

    /** Whether a call at `now` sweeps: the first one, and then one per interval. */
    predicate SweepDue(now: int)
      reads this
    {
      lastSweepNS == 0 || now - lastSweepNS >= sweepEvery
    }

    method Contains(now: int, key: string) returns (found: bool)
      requires Valid()
      modifies this`m, this`size
      ensures Valid() && found == Holds(old(m), key, now)
      ensures m == if key in old(m) && !found then old(m) - {key} else old(m)
    {
      if key !in m {
        return false;
      }
      if m[key] <= now {
        RemoveSize(m, key);
        m := m - {key};
        size := size - 1;
        return false;
      }
      found := true;
    }

    /** Sets the key's expiry; if a sweep is due, what remains is unexpired and within the bound. */
    method Add(now: int, key: string, ttl: int)
      requires Valid()
      modifies this`m, this`size, this`lastSweepNS
      ensures Valid()
      ensures key == "" ==> m == old(m) && lastSweepNS == old(lastSweepNS)
      ensures key != "" ==>
                var added := old(m)[key := now + if ttl <= 0 then SECOND else ttl];
                if old(SweepDue(now)) then SweptTo(added, now) else m == added && lastSweepNS == old(lastSweepNS)
    {
      if key == "" {
        return;
      }
      var exp := now + if ttl <= 0 then SECOND else ttl;
      UpdateSize(m, key, exp);
      if key !in m {
        size := size + 1;
      }
      m := m[key := exp];
      MaybeSweep(now);
    }

    /** The outcome of a sweep of `before`: no expired entry, at most `maxEntries` entries, and nothing that is
        still live was given up unless there were more of these. */
    ghost predicate SweptTo(before: Entries, now: int)
      reads this
    {
      lastSweepNS == now && |m| <= maxEntries && m.Keys <= Live(before, now).Keys &&
      (forall key :: key in m ==> m[key] == before[key] && m[key] > now) &&
      |m| == (if |Live(before, now)| <= maxEntries then |Live(before, now)| else maxEntries)
    }

    method MaybeSweep(now: int)
      requires Valid()
      modifies this`m, this`size, this`lastSweepNS
      ensures Valid()
      ensures if old(SweepDue(now)) then SweptTo(old(m), now) else m == old(m) && lastSweepNS == old(lastSweepNS)
    {
      if lastSweepNS != 0 && now - lastSweepNS < sweepEvery {
        return;
      }
      lastSweepNS := now;
      DropExpired(now);
      ghost var live := m;
      var over := size - maxEntries;
      if over <= 0 {
        return;
      }
      var removed := 0;
      while removed < over
        invariant 0 <= removed <= over && lastSweepNS == now && size == |live| && |m| == |live| - removed
        invariant m.Keys <= live.Keys && forall key :: key in m ==> m[key] == live[key]
      {
        assert m.Keys != {};
        var key :| key in m;
        RemoveSize(m, key);
        m := m - {key};
        removed := removed + 1;
      }
      size := size - removed;
    }

    /** The first pass over the map, counting what it deletes. */
    method DropExpired(now: int)
      requires Valid()
      modifies this`m, this`size
      ensures Valid() && m == Live(old(m), now)
    {
      var rest := m.Keys;
      var expired := 0;
      while rest != {}
        invariant rest <= m.Keys && size == |m| + expired
        invariant forall key :: key in m ==> key in old(m) && m[key] == old(m)[key]
        invariant forall key :: key in old(m) && (key in rest || old(m)[key] > now) ==> key in m
        invariant forall key :: key in m && key !in rest ==> m[key] > now
        decreases rest
      {
        var key :| key in rest;
        if m[key] <= now {
          RemoveSize(m, key);
          m := m - {key};
          expired := expired + 1;
        }
        rest := rest - {key};
      }
      size := size - expired;
    }
  }
}
