/** The per-process cache of keys that are over their limit (internal/cache/cache.go). */
module BlockCache {
  import opened MapSize

  /** Expiry times in nanoseconds. */
  type Entries = map<string, int>

  predicate Blocks(m: Entries, key: string, now: int) {
    key in m && m[key] > now
  }

  /** A lookup drops the entry it finds expired. */
  function AfterLookup(m: Entries, key: string, now: int): Entries {
    if key in m && m[key] <= now then m - {key} else m
  }

  /** Room for a new key, or the key is there already. `maxEntries <= 0` means no bound. */
  predicate Admits(m: Entries, maxEntries: int, key: string) {
    maxEntries <= 0 || |m| < maxEntries || key in m
  }

  function AfterBlock(m: Entries, maxEntries: int, key: string, until: int, now: int): Entries {
    if until <= now || !Admits(m, maxEntries, key) then m else m[key := until]
  }

  function Unexpired(m: Entries, now: int): Entries {
    map key | key in m && m[key] > now :: m[key]
  }

  /** A sync map with a size counter kept beside it. */
  class BlockCache {
    var m: Entries
    var size: int
    const maxEntries: int

    /** The counter is the number of entries, and a positive bound is respected. */
    ghost predicate Valid()
      reads this
    {
      size == |m| && (maxEntries > 0 ==> |m| <= maxEntries)
    }

    constructor (maxEntries: int)
      ensures Valid() && m == map[] && this.maxEntries == maxEntries
    {
      m, size := map[], 0;
      this.maxEntries := maxEntries;
    }

    method IsBlocked(key: string, now: int) returns (blocked: bool)
      requires Valid()
      modifies this
      ensures Valid() && m == AfterLookup(old(m), key, now)
      ensures blocked == Blocks(old(m), key, now)
    {
      if key !in m {
        return false;
      }
      if m[key] > now {
        return true;
      }
      RemoveSize(m, key);
      m := m - {key};
      size := size - 1;
      blocked := false;
    }

    method Block(key: string, until: int, now: int)
      requires Valid()
      modifies this
      ensures Valid() && m == AfterBlock(old(m), maxEntries, key, until, now)
    {
      if until <= now {
        return;
      }
      if maxEntries > 0 && size >= maxEntries {
        if key !in m {
          return;
        }
      }
      if key !in m {
        m := m[key := until];
        size := size + 1;
      } else {
        UpdateSize(m, key, until);
        m := m[key := until];
      }
    }

    /** Drops every expired entry, counting each. */
    method Sweep(now: int)
      requires Valid()
      modifies this
      ensures Valid() && m == Unexpired(old(m), now)
    {
      var rest := m.Keys;
      while rest != {}
        invariant Valid()
        invariant rest <= m.Keys
        invariant forall key :: key in m ==> key in old(m) && m[key] == old(m)[key]
        invariant forall key :: key in old(m) && (key in rest || old(m)[key] > now) ==> key in m
        invariant forall key :: key in m && key !in rest ==> m[key] > now
        decreases rest
      {
        var key :| key in rest;
        if m[key] <= now {
          RemoveSize(m, key);
          m := m - {key};
          size := size - 1;
        }
        rest := rest - {key};
      }
    }
  }

  /** Expired entries take up no room: a sweep leaves exactly the keys that are blocked, and a lookup leaves its own
      key only if it is. */
  lemma ExpiredAreDropped(m: Entries, key: string, now: int, other: string)
    ensures other in Unexpired(m, now) <==> Blocks(m, other, now)
    ensures key in AfterLookup(m, key, now) <==> Blocks(m, key, now)
    ensures other != key ==> (other in AfterLookup(m, key, now) <==> other in m)
  {
  }

  /** No lookup succeeds on an expired entry, and none is lost before its time: after any operation
      at time `now` a key is blocked exactly as before, except the key just blocked. */
  lemma OperationsKeepBlocks(m: Entries, maxEntries: int, key: string, until: int, now: int, other: string, later: int)
    requires now <= later
    ensures Blocks(AfterLookup(m, key, now), other, later) <==> Blocks(m, other, later)
    ensures Blocks(Unexpired(m, now), other, later) <==> Blocks(m, other, later)
    ensures Blocks(AfterBlock(m, maxEntries, key, until, now), other, later) <==>
              if other == key && until > now && Admits(m, maxEntries, key) then until > later
              else Blocks(m, other, later)
  {
    if other in m && m[other] > later {
      assert other in Unexpired(m, now);
    }
  }
}
