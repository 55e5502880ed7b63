/** The cache of validated tokens (internal/auth/token_cache.go). */
module TokenCache {
  import opened Wrappers
  import opened MapSize

  /** Instants in nanoseconds since Go's zero time. */
  type Time = int
  const UNIX_EPOCH: Time := 62135596800000000000

  /** The claims that matter: whose token it is, and the exp and nbf claims (sections 4.1.4 and 4.1.5 of
      RFC 7519). */
  datatype Claims = Claims(accountId: string, address: string, exp: Option<Time>, nbf: Option<Time>)

  datatype Entry = Entry(claims: Claims, expires: Time)

  type Entries = map<string, Entry>

  datatype State = State(entries: Entries, lastSweep: int)

  // ---- what the operations do -----------------------------------------------------------

  function Found(m: Entries, token: string, now: Time): Option<Claims> {
    if token in m && now < m[token].expires then Some(m[token].claims) else None
  }

  function Unexpired(m: Entries, now: Time): Entries {
    map token | token in m && now < m[token].expires :: m[token]
  }

  function Sweep(s: State, interval: int, now: Time): State {
    var unix := now - UNIX_EPOCH;
    if s.lastSweep != 0 && unix - s.lastSweep < interval then s else State(Unexpired(s.entries, now), unix)
  }

  function AfterGet(s: State, interval: int, token: string, now: Time): State {
    var m := if token in s.entries && s.entries[token].expires <= now then s.entries - {token} else s.entries;
    Sweep(State(m, s.lastSweep), interval, now)
  }

  /** Claims without an expiry, or with one that is past, are not kept, and a full cache takes no new token. */
  function AfterPut(s: State, maxEntries: int, interval: int, token: string, claims: Claims, now: Time): State {
    if token == "" || claims.exp == None || claims.exp == Some(0) || claims.exp.value <= now then s
    else if |s.entries| >= maxEntries && token !in s.entries then Sweep(s, interval, now)
    else Sweep(State(s.entries[token := Entry(claims, claims.exp.value)], s.lastSweep), interval, now)
  }

  // ---- in place -------------------------------------------------------------------------

  class TokenCache {
    var m: Entries
    var size: int
    var lastSweepUnix: int
    const maxEntries: int
    const sweepInterval: int

    function Value(): State
      reads this
    {
      State(m, lastSweepUnix)
    }

    /** The counter is the number of entries, the bound is respected, and no entry lacks an expiry. */
    ghost predicate Valid()
      reads this
    {
      size == |m| && |m| <= maxEntries && maxEntries > 0 && forall token :: token in m ==> m[token].expires != 0
    }

    constructor (maxEntries: int, sweepInterval: int)
      ensures Valid() && Value() == State(map[], 0)
      ensures this.maxEntries == (if maxEntries <= 0 then 1 else maxEntries)
      ensures this.sweepInterval == (if sweepInterval <= 0 then 30000000000 else sweepInterval)
    {
      m, size, lastSweepUnix := map[], 0, 0;
      this.maxEntries := if maxEntries <= 0 then 1 else maxEntries;
      this.sweepInterval := if sweepInterval <= 0 then 30000000000 else sweepInterval;
    }

    method Get(token: string, now: Time) returns (claims: Option<Claims>)
      requires Valid()
      modifies this
      ensures Valid() && claims == Found(old(m), token, now)
      ensures Value() == AfterGet(old(Value()), sweepInterval, token, now)
    {
      if token !in m {
        MaybeSweep(now);
        return None;
      }
      var e := m[token];
      if e.expires != 0 && !(now < e.expires) {
        RemoveSize(m, token);
        m := m - {token};
        size := size - 1;
        MaybeSweep(now);
        return None;
      }
      claims := Some(e.claims);
      MaybeSweep(now);
    }

    /** A null `claims` is not modelled: `ValidateToken` never passes one. */
    method Put(token: string, claims: Claims, now: Time)
      requires Valid()
      modifies this
      ensures Valid()
      ensures Value() == AfterPut(old(Value()), maxEntries, sweepInterval, token, claims, now)
    {
      if token == "" {
        return;
      }
      var expires := 0;
      if claims.exp != None {
        expires := claims.exp.value;
      }
      if expires == 0 {
        return;
      }
      if !(now < expires) {
        return;
      }
      if maxEntries > 0 && size >= maxEntries {
        if token !in m {
          MaybeSweep(now);
          return;
        }
      }
      var e := Entry(claims, expires);
      UpdateSize(m, token, e);
      if token !in m {
        size := size + 1;
      }
      m := m[token := e];
      MaybeSweep(now);
    }

    method MaybeSweep(now: Time)
      requires Valid()
      modifies this
      ensures Valid() && Value() == Sweep(old(Value()), sweepInterval, now)
    {
      var nowUnix := now - UNIX_EPOCH;
      if lastSweepUnix != 0 && nowUnix - lastSweepUnix < sweepInterval {
        return;
      }
      lastSweepUnix := nowUnix;
      var rest := m.Keys;
      while rest != {}
        invariant Valid() && rest <= m.Keys && lastSweepUnix == nowUnix
        invariant forall token :: token in m ==> token in old(m) && m[token] == old(m)[token]
        invariant forall token :: token in old(m) && (token in rest || now < old(m)[token].expires) ==> token in m
        invariant forall token :: token in m && token !in rest ==> now < m[token].expires
        decreases rest
      {
        var token :| token in rest;
        var e := m[token];
        if e.expires != 0 && !(now < e.expires) {
          RemoveSize(m, token);
          m := m - {token};
          size := size - 1;
        }
        rest := rest - {token};
      }
      assert m == Unexpired(old(m), now);
    }
  }

  /** What is found later: a token just stored, if it was taken, until its expiry; every other one as before. No
      lookup and no sweep loses an entry before its time. */
  lemma OperationsKeepTokens(s: State, maxEntries: int, interval: int, token: string, claims: Claims, now: Time,
                             other: string, later: Time)
    requires now <= later
    ensures Found(AfterGet(s, interval, token, now).entries, other, later) == Found(s.entries, other, later)
    ensures var taken := token != "" && claims.exp.Some? && claims.exp.value != 0 && now < claims.exp.value &&
                         (|s.entries| < maxEntries || token in s.entries);
            Found(AfterPut(s, maxEntries, interval, token, claims, now).entries, other, later) ==
            if taken && other == token then (if later < claims.exp.value then Some(claims) else None)
            else Found(s.entries, other, later)
  {
  }

  /** The first call sweeps and leaves exactly the unexpired tokens; after that calls sweep again once an interval
      has passed, and no earlier. */
  lemma SweepsOncePerInterval(m: Entries, interval: int, first: Time, more: Entries, later: Time, token: string)
    requires first != UNIX_EPOCH
    ensures var s := Sweep(State(m, 0), interval, first);
            var t := Sweep(State(more, s.lastSweep), interval, later);
            (token in s.entries <==> Found(m, token, first).Some?) &&
            if later < first + interval then t.entries == more
            else token in t.entries <==> Found(more, token, later).Some?
  {
  }
}
