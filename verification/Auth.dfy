/** Token validation with and without the cache (internal/auth/auth.go). */
module Auth {
  import opened Wrappers
  import opened TokenCache

  datatype AuthError = InvalidToken | ExpiredToken

  /** What decoding a token and checking its signature against the fixed secret gives. */
  type Parse = string -> Option<Claims>

  /** Validation without a cache: the token must parse, `now` must be before exp and not before nbf. */
  function Validate(parse: Parse, token: string, now: Time): Result<Claims, AuthError> {
    if token == "" then Err(InvalidToken) else
    match parse(token)
    case None => Err(InvalidToken)
    case Some(c) =>
      if c.exp.Some? && now >= c.exp.value then Err(ExpiredToken)
      else if c.nbf.Some? && now < c.nbf.value then Err(InvalidToken)
      else Ok(c)
  }

  /** The entry holds what the token says. */
  predicate Genuine(parse: Parse, token: string, e: Entry) {
    token != "" && parse(token) == Some(e.claims) && e.claims.exp == Some(e.expires)
  }

  predicate AllGenuine(parse: Parse, m: Entries) {
    forall token :: token in m ==> Genuine(parse, token, m[token])
  }

  /** The token may be used at `clock`, as far as nbf goes. */
  predicate Begun(c: Claims, clock: Time) {
    c.nbf.None? || c.nbf.value <= clock
  }

  /** Every cached token could be used at `clock` already. */
  predicate AllBegun(m: Entries, clock: Time) {
    forall token :: token in m ==> Begun(m[token].claims, clock)
  }

  /** The three times one call reads the clock: looking up, validating, storing. */
  datatype Request = Request(token: string, lookup: Time, check: Time, store: Time)

  /** One call with the cache: its answer, and the time at which validation without the cache gives the same. */
  function Decided(parse: Parse, s: State, r: Request): Time {
    if r.token != "" && Found(s.entries, r.token, r.lookup).Some? then r.lookup else r.check
  }

  function Answer(parse: Parse, s: State, r: Request): Result<Claims, AuthError> {
    if r.token == "" then Err(InvalidToken) else
    match Found(s.entries, r.token, r.lookup)
    case Some(c) => Ok(c)
    case None => Validate(parse, r.token, r.check)
  }

  function AfterCall(parse: Parse, maxEntries: int, interval: int, s: State, r: Request): State {
    if r.token == "" then s else
    var got := AfterGet(s, interval, r.token, r.lookup);
    if Found(s.entries, r.token, r.lookup).Some? then got else
    match Validate(parse, r.token, r.check)
    case Err(_) => got
    case Ok(c) => AfterPut(got, maxEntries, interval, r.token, c, r.store)
  }

  class Auth {
    const parse: Parse
    const cache: TokenCache?

    constructor (parse: Parse, cache: TokenCache?)
      ensures this.parse == parse && this.cache == cache
    {
      this.parse, this.cache := parse, cache;
    }

    /** The library's parser and validator at time `now`. */
    method ParseWithClaims(token: string, now: Time) returns (r: Result<Claims, AuthError>)
      requires token != ""
      ensures r == Validate(parse, token, now)
    {
      var parsed := parse(token);
      if parsed.None? {
        return Err(InvalidToken);
      }
      var c := parsed.value;
      if c.exp.Some? && !(now < c.exp.value) {
        return Err(ExpiredToken);
      }
      if c.nbf.Some? && now < c.nbf.value {
        return Err(InvalidToken);
      }
      r := Ok(c);
    }

    method ValidateToken(r: Request) returns (answer: Result<Claims, AuthError>)
      requires cache != null ==> cache.Valid()
      modifies cache
      ensures cache == null ==> answer == Validate(parse, r.token, r.check)
      ensures cache != null ==>
                cache.Valid() && answer == Answer(parse, old(cache.Value()), r) &&
                cache.Value() == AfterCall(parse, cache.maxEntries, cache.sweepInterval, old(cache.Value()), r)
    {
      if r.token == "" {
        return Err(InvalidToken);
      }
      if cache != null {
        var c := cache.Get(r.token, r.lookup);
        if c.Some? {
          return Ok(c.value);
        }
      }
      answer := ParseWithClaims(r.token, r.check);
      if answer.Err? {
        return;
      }
      if cache != null {
        cache.Put(r.token, answer.value, r.store);
      }
    }
  }

  // ---- the cache changes no answer ------------------------------------------------------

  /** Whatever holds of every entry is kept by lookups and sweeps, which only drop entries. */
  lemma GetKeeps(s: State, interval: int, token: string, now: Time)
    ensures forall t :: t in AfterGet(s, interval, token, now).entries ==>
              t in s.entries && AfterGet(s, interval, token, now).entries[t] == s.entries[t]
  {
  }

  /** A store adds at most the one entry. */
  lemma PutKeeps(s: State, maxEntries: int, interval: int, token: string, c: Claims, now: Time)
    ensures var m := AfterPut(s, maxEntries, interval, token, c, now).entries;
            forall t :: t in m ==>
              (t in s.entries && m[t] == s.entries[t]) ||
              (t == token && c.exp.Some? && m[t] == Entry(c, c.exp.value))
  {
  }

  lemma CallGenuine(parse: Parse, maxEntries: int, interval: int, s: State, r: Request)
    requires AllGenuine(parse, s.entries)
    ensures AllGenuine(parse, AfterCall(parse, maxEntries, interval, s, r).entries)
  {
    if r.token != "" {
      var got := AfterGet(s, interval, r.token, r.lookup);
      GetKeeps(s, interval, r.token, r.lookup);
      var v := Validate(parse, r.token, r.check);
      if v.Ok? {
        PutKeeps(got, maxEntries, interval, r.token, v.value, r.store);
      }
    }
  }

  lemma CallBegun(parse: Parse, maxEntries: int, interval: int, s: State, r: Request, clock: Time)
    requires AllBegun(s.entries, clock) && clock <= r.lookup <= r.check <= r.store
    ensures AllBegun(AfterCall(parse, maxEntries, interval, s, r).entries, r.store)
  {
    if r.token != "" {
      var got := AfterGet(s, interval, r.token, r.lookup);
      GetKeeps(s, interval, r.token, r.lookup);
      var v := Validate(parse, r.token, r.check);
      if v.Ok? {
        PutKeeps(got, maxEntries, interval, r.token, v.value, r.store);
      }
    }
  }

  /** The cache after the first `n` calls. */
  function After(parse: Parse, maxEntries: int, interval: int, rs: seq<Request>, n: nat): State
    requires n <= |rs|
  {
    if n == 0 then State(map[], 0)
    else AfterCall(parse, maxEntries, interval, After(parse, maxEntries, interval, rs, n - 1), rs[n - 1])
  }

  lemma {:induction false} AfterGenuine(parse: Parse, maxEntries: int, interval: int, rs: seq<Request>, n: nat)
    requires n <= |rs|
    ensures AllGenuine(parse, After(parse, maxEntries, interval, rs, n).entries)
  {
    if n > 0 {
      AfterGenuine(parse, maxEntries, interval, rs, n - 1);
      CallGenuine(parse, maxEntries, interval, After(parse, maxEntries, interval, rs, n - 1), rs[n - 1]);
    }
  }

  /** A cache hit before the token's nbf. */
  predicate HitsEarly(s: State, r: Request) {
    r.token != "" && Found(s.entries, r.token, r.lookup).Some? &&
      !Begun(Found(s.entries, r.token, r.lookup).value, r.lookup)
  }

  /** On every run from an empty cache, whatever the clock does: a call answers what validation without the cache
      answers at one of the times the call itself read, exactly unless it hits a token whose nbf is still to come. */
  lemma AnswerExactly(parse: Parse, maxEntries: int, interval: int, rs: seq<Request>, n: nat)
    requires n < |rs|
    ensures var s, r := After(parse, maxEntries, interval, rs, n), rs[n];
            Answer(parse, s, r) == Validate(parse, r.token, Decided(parse, s, r)) <==> !HitsEarly(s, r)
    ensures Decided(parse, After(parse, maxEntries, interval, rs, n), rs[n]) in {rs[n].lookup, rs[n].check}
  {
    var s, r := After(parse, maxEntries, interval, rs, n), rs[n];
    AfterGenuine(parse, maxEntries, interval, rs, n);
    if Found(s.entries, r.token, r.lookup).Some? {
      assert Genuine(parse, r.token, s.entries[r.token]);
    }
  }

  /** Clock readings never go back, within a call and from call to call. */
  predicate Monotone(rs: seq<Request>) {
    (forall i :: 0 <= i < |rs| ==> rs[i].lookup <= rs[i].check <= rs[i].store) &&
    (forall i :: 0 < i < |rs| ==> rs[i - 1].store <= rs[i].lookup)
  }

  lemma {:induction false} AfterBegun(parse: Parse, maxEntries: int, interval: int, rs: seq<Request>, n: nat,
                                      clock: Time)
    requires Monotone(rs) && n <= |rs| && (n > 0 ==> clock == rs[n - 1].store)
    ensures AllBegun(After(parse, maxEntries, interval, rs, n).entries, clock)
  {
    if n > 0 {
      var earlier := if n > 1 then rs[n - 2].store else rs[0].lookup;
      AfterBegun(parse, maxEntries, interval, rs, n - 1, earlier);
      CallBegun(parse, maxEntries, interval, After(parse, maxEntries, interval, rs, n - 1), rs[n - 1], earlier);
    }
  }

  /** Under a clock that does not go back there is no such hit, and every call answers what validation without the
      cache answers at one of the times the call itself read. */
  lemma CacheIsTransparent(parse: Parse, maxEntries: int, interval: int, rs: seq<Request>, n: nat)
    requires Monotone(rs) && n < |rs|
    ensures var s := After(parse, maxEntries, interval, rs, n);
            Answer(parse, s, rs[n]) == Validate(parse, rs[n].token, Decided(parse, s, rs[n])) &&
            Decided(parse, s, rs[n]) in {rs[n].lookup, rs[n].check}
  {
    var clock := if n > 0 then rs[n - 1].store else rs[0].lookup;
    AfterBegun(parse, maxEntries, interval, rs, n, clock);
    AnswerExactly(parse, maxEntries, interval, rs, n);
  }

  // ---- what is accepted -----------------------------------------------------------------

  /** The claims may be used at `at`: not expired, and begun. */
  predicate Usable(c: Claims, at: Time) {
    (c.exp == None || at < c.exp.value) && (c.nbf == None || c.nbf.value <= at)
  }

  /** On every run an accepted token parses to the claims answered, and it had not expired at a time the call read;
      under a clock that does not go back it had also begun by then. */
  lemma AcceptedIsUsable(parse: Parse, maxEntries: int, interval: int, rs: seq<Request>, n: nat, c: Claims)
    requires n < |rs| && Answer(parse, After(parse, maxEntries, interval, rs, n), rs[n]) == Ok(c)
    ensures rs[n].token != "" && parse(rs[n].token) == Some(c)
    ensures c.exp == None || rs[n].lookup < c.exp.value || rs[n].check < c.exp.value
    ensures Monotone(rs) ==> Usable(c, rs[n].lookup) || Usable(c, rs[n].check)
  {
    var s, r := After(parse, maxEntries, interval, rs, n), rs[n];
    AfterGenuine(parse, maxEntries, interval, rs, n);
    if Found(s.entries, r.token, r.lookup).Some? {
      assert Genuine(parse, r.token, s.entries[r.token]);
    }
    if Monotone(rs) {
      CacheIsTransparent(parse, maxEntries, interval, rs, n);
    }
  }

  /** Conversely a token that parses and is usable when it is checked is accepted, one that has expired by both
      readings is answered as expired, and one that does not parse, or has not begun by either reading of a clock
      that does not go back, is answered as invalid. */
  lemma UsableIsAccepted(parse: Parse, maxEntries: int, interval: int, rs: seq<Request>, n: nat)
    requires n < |rs|
    ensures var r, answer := rs[n], Answer(parse, After(parse, maxEntries, interval, rs, n), rs[n]);
            if r.token == "" || parse(r.token) == None then answer == Err(InvalidToken) else
            var c := parse(r.token).value;
            (Usable(c, r.check) ==> answer == Ok(c)) &&
            (c.exp.Some? && c.exp.value <= r.lookup && c.exp.value <= r.check ==> answer == Err(ExpiredToken)) &&
            (Monotone(rs) && c.nbf.Some? && r.check < c.nbf.value && (c.exp.Some? ==> r.check < c.exp.value) ==>
               answer == Err(InvalidToken))
  {
    var s, r := After(parse, maxEntries, interval, rs, n), rs[n];
    AfterGenuine(parse, maxEntries, interval, rs, n);
    if r.token != "" && Found(s.entries, r.token, r.lookup).Some? {
      assert Genuine(parse, r.token, s.entries[r.token]);
    }
    if Monotone(rs) {
      CacheIsTransparent(parse, maxEntries, interval, rs, n);
    }
  }

  /** So the cache could change an answer only for a token that expires or becomes valid between the two
      readings: for every other one it makes no difference. */
  lemma SameAnswer(parse: Parse, maxEntries: int, interval: int, rs: seq<Request>, n: nat)
    requires Monotone(rs) && n < |rs|
    requires Validate(parse, rs[n].token, rs[n].lookup) == Validate(parse, rs[n].token, rs[n].check)
    ensures Answer(parse, After(parse, maxEntries, interval, rs, n), rs[n]) == Validate(parse, rs[n].token, rs[n].check)
  {
    CacheIsTransparent(parse, maxEntries, interval, rs, n);
  }

  /** The monotone clock is needed: set back before nbf, the cache still accepts a token it has seen. */
  lemma ClockSetBack(claims: Claims, token: string, seen: Time, back: Time)
    requires token != "" && claims.exp.Some? && claims.nbf.Some? && back < claims.nbf.value <= seen < claims.exp.value
    requires claims.exp.value != 0
    ensures var parse: Parse := t => if t == token then Some(claims) else None;
            var rs := [Request(token, seen, seen, seen), Request(token, back, back, back)];
            Answer(parse, After(parse, 1, 30, rs, 1), rs[1]) == Ok(claims) &&
            Validate(parse, token, back) == Err(InvalidToken)
  {
    var parse: Parse := t => if t == token then Some(claims) else None;
    var r := Request(token, seen, seen, seen);
    var empty := State(map[], 0);
    var e := Entry(claims, claims.exp.value);
    assert token in Unexpired(map[token := e], seen);
    var s := AfterCall(parse, 1, 30, empty, r);
    assert token in s.entries && s.entries[token] == e;
  }
}
