/** The fixed-window rate limiter with local block caches, several processes sharing one Redis, next to
    the plain limiter that counts every request (internal/cache/cache.go). */
module RateLimit {
  import opened Wrappers
  import opened BlockCache

  /** Process clocks count nanoseconds, Redis counts whole milliseconds of the same clock. */
  const NS_PER_MS := 1_000_000

  function Ms(t: nat): nat {
    t / NS_PER_MS
  }

  /** A positive limit and a positive window length. */
  datatype Config = Config(limit: int, window: nat, maxEntries: int)

  /** The expiry given to a key: whole milliseconds, at least one. */
  function WindowMs(cfg: Config): nat {
    if cfg.window / NS_PER_MS <= 0 then 1 else cfg.window / NS_PER_MS
  }

  // ---- Redis ----------------------------------------------------------------------------

  /** A counter key: it expires when the clock has passed `expire`. */
  datatype Window = Window(expire: nat, count: nat)

  type Counters = map<string, Window>

  predicate Live(c: Counters, key: string, t: nat) {
    key in c && Ms(t) <= c[key].expire
  }

  /** The script: INCR, and PEXPIRE when this was the first. */
  function Incr(cfg: Config, c: Counters, key: string, t: nat): Counters {
    if Live(c, key, t) then c[key := c[key].(count := c[key].count + 1)]
    else c[key := Window(Ms(t) + WindowMs(cfg), 1)]
  }

  /** PTTL in nanoseconds; not positive when the key is gone. */
  function Pttl(c: Counters, key: string, t: nat): int {
    if Live(c, key, t) then (c[key].expire - Ms(t)) * NS_PER_MS else -2
  }

  /** The time to block for: the whole window when the answer is no use. */
  function BlockFor(cfg: Config, ttl: Option<int>): int {
    match ttl
    case Some(v) => if v <= 0 || v > cfg.window then cfg.window else v
    case None => cfg.window
  }

  // ---- requests -------------------------------------------------------------------------

  /** One request after it read the clock: about to look into the local cache, on its way to Redis, over the
      limit and about to ask for the remaining time (`expire` is the window that refused it), about to block, or
      answered. */
  datatype Request =
    | Looking(proc: nat, key: string, now: nat)
    | Counting(proc: nat, key: string, now: nat)
    | Refused(proc: nat, key: string, now: nat, expire: nat)
    | Blocking(proc: nat, key: string, until: int)
    | Answered(allowed: Option<bool>)

  /** `plain` is the counter of the limiter without caches, fed with the same requests. */
  datatype State = State(
    time: nat,
    redis: Counters,
    plain: Counters,
    caches: map<nat, Entries>,
    requests: map<nat, Request>)

  datatype Action =
    | Arrive(q: nat, proc: nat, key: string)
    | Lookup(q: nat)
    | Count(q: nat)
    | CountLost(q: nat, applied: bool)
    | ReadTtl(q: nat, failed: bool)
    | Block(q: nat)
    | Sweep(proc: nat)

  function CacheOf(s: State, proc: nat): Entries {
    if proc in s.caches then s.caches[proc] else map[]
  }

  predicate Enabled(s: State, t: nat, action: Action) {
    s.time <= t &&
    match action
    case Arrive(q, _, _) => q !in s.requests
    case Lookup(q) => q in s.requests && s.requests[q].Looking?
    case Count(q) => q in s.requests && s.requests[q].Counting?
    case CountLost(q, _) => q in s.requests && s.requests[q].Counting?
    case ReadTtl(q, _) => q in s.requests && s.requests[q].Refused?
    case Block(q) => q in s.requests && s.requests[q].Blocking?
    case Sweep(_) => true
  }

  /** What one action at time `t` does. A request looks into the cache with the clock value it captured on
      arrival. The plain limiter counts a request at the moment the cached limiter counts it, or refuses it by a
      block still in force; a block that has run out since the arrival is answered for by an earlier moment. */
  function Apply(cfg: Config, s: State, t: nat, action: Action): State
    requires Enabled(s, t, action)
  {
    match action
    case Arrive(q, proc, key) => s.(time := t, requests := s.requests[q := Looking(proc, key, t)])
    case Lookup(q) =>
      var r := s.requests[q];
      var cache := CacheOf(s, r.proc);
      if Blocks(cache, r.key, r.now) then
        s.(time := t, plain := if Blocks(cache, r.key, t) then Incr(cfg, s.plain, r.key, t) else s.plain,
           requests := s.requests[q := Answered(Some(false))])
      else
        s.(time := t, caches := s.caches[r.proc := AfterLookup(cache, r.key, r.now)],
           requests := s.requests[q := Counting(r.proc, r.key, r.now)])
    case Count(q) =>
      var r := s.requests[q];
      var redis := Incr(cfg, s.redis, r.key, t);
      s.(time := t, redis := redis, plain := Incr(cfg, s.plain, r.key, t),
         requests := s.requests[q := if redis[r.key].count <= cfg.limit then Answered(Some(true))
                                     else Refused(r.proc, r.key, r.now, redis[r.key].expire)])
    case CountLost(q, applied) =>
      var r := s.requests[q];
      s.(time := t,
         redis := if applied then Incr(cfg, s.redis, r.key, t) else s.redis,
         plain := if applied then Incr(cfg, s.plain, r.key, t) else s.plain,
         requests := s.requests[q := Answered(None)])
    case ReadTtl(q, failed) =>
      var r := s.requests[q];
      var ttl := if failed then None else Some(Pttl(s.redis, r.key, t));
      s.(time := t, requests := s.requests[q := Blocking(r.proc, r.key, r.now + BlockFor(cfg, ttl))])
    case Block(q) =>
      var r := s.requests[q];
      s.(time := t,
         caches := s.caches[r.proc := AfterBlock(CacheOf(s, r.proc), cfg.maxEntries, r.key, r.until, t)],
         requests := s.requests[q := Answered(Some(false))])
    case Sweep(proc) => s.(time := t, caches := s.caches[proc := Unexpired(CacheOf(s, proc), t)])
  }

  // ---- decisions ------------------------------------------------------------------------

  /** The answer the cached limiter settles on in this action, if it settles on one. */
  function Decision(cfg: Config, s: State, t: nat, action: Action): Option<bool>
    requires Enabled(s, t, action)
  {
    match action
    case Lookup(q) =>
      var r := s.requests[q];
      if Blocks(CacheOf(s, r.proc), r.key, r.now) then Some(false) else None
    case Count(q) => Some(Incr(cfg, s.redis, s.requests[q].key, t)[s.requests[q].key].count <= cfg.limit)
    case _ => None
  }

  /** The plain limiter would let a request for `key` through at time `t`. */
  predicate PlainAllows(cfg: Config, s: State, t: nat, key: string) {
    Incr(cfg, s.plain, key, t)[key].count <= cfg.limit
  }

  // ---- the invariant --------------------------------------------------------------------

  /** The first nanosecond at which a key with this expiry is gone. */
  function EndOf(expire: nat): nat {
    (expire + 1) * NS_PER_MS
  }

  lemma LiveBeforeEnd(c: Counters, key: string, t: nat)
    requires key in c
    ensures Live(c, key, t) <==> t < EndOf(c[key].expire)
  {
  }

  /** Both counters have the same windows; they differ only once the limit is reached. */
  ghost predicate CountersAgree(cfg: Config, s: State) {
    s.redis.Keys == s.plain.Keys &&
    forall key :: key in s.redis ==>
      s.redis[key].expire == s.plain[key].expire &&
      s.redis[key].count <= s.plain[key].count &&
      (s.redis[key].count < cfg.limit ==> s.plain[key].count == s.redis[key].count)
  }

  /** Up to `until` the key's window is full. */
  ghost predicate Justified(cfg: Config, s: State, key: string, until: int) {
    until > s.time ==>
      key in s.redis && s.redis[key].count >= cfg.limit && until <= EndOf(s.redis[key].expire)
  }

  ghost predicate CachesJustified(cfg: Config, s: State) {
    forall proc, key :: proc in s.caches && key in s.caches[proc] ==> Justified(cfg, s, key, s.caches[proc][key])
  }

  ghost predicate RequestJustified(cfg: Config, s: State, r: Request) {
    match r
    case Refused(_, key, now, expire) => now <= s.time && Justified(cfg, s, key, EndOf(expire))
    case Blocking(_, key, until) => Justified(cfg, s, key, until)
    case Looking(_, _, now) => now <= s.time
    case Counting(_, _, now) => now <= s.time
    case Answered(_) => true
  }

  ghost predicate Inv(cfg: Config, s: State) {
    CountersAgree(cfg, s) && CachesJustified(cfg, s) &&
    forall q :: q in s.requests ==> RequestJustified(cfg, s, s.requests[q])
  }

  /** The end of the block a request will set, when it reads the remaining time at `t`. */
  function BlockEnd(cfg: Config, s: State, t: nat, q: nat, failed: bool): int
    requires q in s.requests && s.requests[q].Refused?
  {
    s.requests[q].now + BlockFor(cfg, if failed then None else Some(Pttl(s.redis, s.requests[q].key, t)))
  }

  /** A block is about to be set that is over already, or lies within a window that is full. */
  ghost predicate Harmless(cfg: Config, s: State, t: nat, action: Action)
    requires Enabled(s, t, action)
  {
    action.ReadTtl? ==>
      var key, until := s.requests[action.q].key, BlockEnd(cfg, s, t, action.q, action.failed);
      until <= t || (Live(s.redis, key, t) && s.redis[key].count >= cfg.limit && until <= EndOf(s.redis[key].expire))
  }

  // ---- preservation ---------------------------------------------------------------------

  lemma IncrAgrees(cfg: Config, s: State, t: nat, key: string)
    requires cfg.limit > 0 && CountersAgree(cfg, s)
    ensures CountersAgree(cfg, s.(time := t, redis := Incr(cfg, s.redis, key, t), plain := Incr(cfg, s.plain, key, t)))
    ensures Incr(cfg, s.redis, key, t)[key].count <= cfg.limit <==> Incr(cfg, s.plain, key, t)[key].count <= cfg.limit
  {
  }

  /** Counting never ends a window early: what was justified stays justified. */
  lemma IncrJustified(cfg: Config, s: State, u: State, t: nat, key: string, other: string, until: int)
    requires s.time <= t == u.time && (u.redis == s.redis || u.redis == Incr(cfg, s.redis, key, t))
    requires Justified(cfg, s, other, until)
    ensures Justified(cfg, u, other, until)
  {
    if until > t && other == key {
      LiveBeforeEnd(s.redis, key, t);
    }
  }

  lemma CachesKept(cfg: Config, s: State, u: State, t: nat, key: string)
    requires s.time <= t == u.time && (u.redis == s.redis || u.redis == Incr(cfg, s.redis, key, t))
    requires CachesJustified(cfg, s)
    requires forall proc, k :: proc in u.caches && k in u.caches[proc] ==>
               proc in s.caches && k in s.caches[proc] && u.caches[proc][k] == s.caches[proc][k]
    ensures CachesJustified(cfg, u)
  {
    forall proc, k | proc in u.caches && k in u.caches[proc] ensures Justified(cfg, u, k, u.caches[proc][k]) {
      IncrJustified(cfg, s, u, t, key, k, s.caches[proc][k]);
    }
  }

  lemma RequestKept(cfg: Config, s: State, u: State, t: nat, key: string, r: Request)
    requires s.time <= t == u.time && (u.redis == s.redis || u.redis == Incr(cfg, s.redis, key, t))
    requires RequestJustified(cfg, s, r)
    ensures RequestJustified(cfg, u, r)
  {
    match r {
      case Refused(_, k, _, expire) => IncrJustified(cfg, s, u, t, key, k, EndOf(expire));
      case Blocking(_, k, until) => IncrJustified(cfg, s, u, t, key, k, until);
      case _ =>
    }
  }

  /** A justified block in force means that the plain limiter refuses, and counting that changes nothing. */
  lemma BlockedIsOver(cfg: Config, s: State, t: nat, key: string, until: int)
    requires cfg.limit > 0 && CountersAgree(cfg, s) && Justified(cfg, s, key, until) && s.time <= t < until
    ensures !PlainAllows(cfg, s, t, key)
    ensures CountersAgree(cfg, s.(time := t, plain := Incr(cfg, s.plain, key, t)))
  {
    LiveBeforeEnd(s.redis, key, t);
  }
}
