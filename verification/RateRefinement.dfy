/** The block caches change no decision exactly when every block lies within a full window: then each answer of
    the cached limiter is the plain one's at a moment of the call, and a block that does not is followed by an
    answer the plain limiter would have given at no moment of the call. */
module RateRefinement {
  import opened Wrappers
  import opened BlockCache
  import opened RateLimit

  /** Putting one entry into one cache. */
  lemma CacheStored(cfg: Config, s: State, u: State, proc: nat, m: Entries)
    requires CachesJustified(cfg, s) && u.time == s.time && u.redis == s.redis
    requires u.caches == s.caches[proc := m]
    requires forall key :: key in m ==> Justified(cfg, s, key, m[key])
    ensures CachesJustified(cfg, u)
  {
    forall p, key | p in u.caches && key in u.caches[p] ensures Justified(cfg, u, key, u.caches[p][key]) {
      assert p != proc ==> Justified(cfg, s, key, s.caches[p][key]);
    }
  }

  /** Requests other than `q` keep their justification, `q` gets the given one. */
  lemma RequestsKept(cfg: Config, s: State, u: State, t: nat, key: string, q: nat, r: Request)
    requires s.time <= t == u.time && (u.redis == s.redis || u.redis == Incr(cfg, s.redis, key, t))
    requires forall p :: p in s.requests ==> RequestJustified(cfg, s, s.requests[p])
    requires u.requests == s.requests[q := r] && RequestJustified(cfg, u, r)
    ensures forall p :: p in u.requests ==> RequestJustified(cfg, u, u.requests[p])
  {
    forall p | p in u.requests ensures RequestJustified(cfg, u, u.requests[p]) {
      if p != q {
        RequestKept(cfg, s, u, t, key, s.requests[p]);
      }
    }
  }

  lemma ArriveStep(cfg: Config, s: State, t: nat, q: nat, proc: nat, key: string)
    requires cfg.limit > 0 && Inv(cfg, s) && Enabled(s, t, Arrive(q, proc, key))
    ensures Inv(cfg, Apply(cfg, s, t, Arrive(q, proc, key)))
  {
    var u := Apply(cfg, s, t, Arrive(q, proc, key));
    CachesKept(cfg, s, u, t, key);
    RequestsKept(cfg, s, u, t, key, q, u.requests[q]);
  }

  lemma LookupStep(cfg: Config, s: State, t: nat, q: nat)
    requires cfg.limit > 0 && Inv(cfg, s) && Enabled(s, t, Lookup(q))
    ensures Inv(cfg, Apply(cfg, s, t, Lookup(q)))
  {
    var u, r := Apply(cfg, s, t, Lookup(q)), s.requests[q];
    assert RequestJustified(cfg, s, r);
    if Blocks(CacheOf(s, r.proc), r.key, t) {
      BlockedIsOver(cfg, s, t, r.key, s.caches[r.proc][r.key]);
    }
    CachesKept(cfg, s, u, t, r.key);
    RequestsKept(cfg, s, u, t, r.key, q, u.requests[q]);
  }

  /** Counting requests, the two limiters agree at once. */
  lemma CountStep(cfg: Config, s: State, t: nat, q: nat)
    requires cfg.limit > 0 && Inv(cfg, s) && Enabled(s, t, Count(q))
    ensures Inv(cfg, Apply(cfg, s, t, Count(q)))
    ensures Decision(cfg, s, t, Count(q)) == Some(PlainAllows(cfg, s, t, s.requests[q].key))
  {
    var u := Apply(cfg, s, t, Count(q));
    var r := s.requests[q];
    assert RequestJustified(cfg, s, r);
    IncrAgrees(cfg, s, t, r.key);
    CachesKept(cfg, s, u, t, r.key);
    RequestsKept(cfg, s, u, t, r.key, q, u.requests[q]);
  }

  lemma CountLostStep(cfg: Config, s: State, t: nat, q: nat, applied: bool)
    requires cfg.limit > 0 && Inv(cfg, s) && Enabled(s, t, CountLost(q, applied))
    ensures Inv(cfg, Apply(cfg, s, t, CountLost(q, applied)))
  {
    var u := Apply(cfg, s, t, CountLost(q, applied));
    var r := s.requests[q];
    IncrAgrees(cfg, s, t, r.key);
    CachesKept(cfg, s, u, t, r.key);
    RequestsKept(cfg, s, u, t, r.key, q, u.requests[q]);
  }

  lemma ReadTtlStep(cfg: Config, s: State, t: nat, q: nat, failed: bool)
    requires cfg.limit > 0 && Inv(cfg, s) && Enabled(s, t, ReadTtl(q, failed)) &&
             Harmless(cfg, s, t, ReadTtl(q, failed))
    ensures Inv(cfg, Apply(cfg, s, t, ReadTtl(q, failed)))
  {
    var u := Apply(cfg, s, t, ReadTtl(q, failed));
    var r := s.requests[q];
    assert Justified(cfg, u, r.key, BlockEnd(cfg, s, t, q, failed));
    CachesKept(cfg, s, u, t, r.key);
    RequestsKept(cfg, s, u, t, r.key, q, u.requests[q]);
  }

  lemma BlockStep(cfg: Config, s: State, t: nat, q: nat)
    requires cfg.limit > 0 && Inv(cfg, s) && Enabled(s, t, Block(q))
    ensures Inv(cfg, Apply(cfg, s, t, Block(q)))
  {
    var u := Apply(cfg, s, t, Block(q));
    var r := s.requests[q];
    var v := s.(time := t);
    assert RequestJustified(cfg, s, r);
    CachesKept(cfg, s, v, t, r.key);
    IncrJustified(cfg, s, v, t, r.key, r.key, r.until);
    forall key | key in u.caches[r.proc] ensures Justified(cfg, v, key, u.caches[r.proc][key]) {
      if key in CacheOf(s, r.proc) && u.caches[r.proc][key] == CacheOf(s, r.proc)[key] {
        assert Justified(cfg, v, key, v.caches[r.proc][key]);
      }
    }
    CacheStored(cfg, v, u, r.proc, u.caches[r.proc]);
    RequestsKept(cfg, s, u, t, r.key, q, u.requests[q]);
  }

  lemma SweepStep(cfg: Config, s: State, t: nat, proc: nat)
    requires cfg.limit > 0 && Inv(cfg, s) && Enabled(s, t, Sweep(proc))
    ensures Inv(cfg, Apply(cfg, s, t, Sweep(proc)))
  {
    var u := Apply(cfg, s, t, Sweep(proc));
    CachesKept(cfg, s, u, t, "");
    forall p | p in u.requests ensures RequestJustified(cfg, u, u.requests[p]) {
      RequestKept(cfg, s, u, t, "", s.requests[p]);
    }
  }

  /** A step that sets no block beyond a full window keeps the invariant. */
  lemma StepInv(cfg: Config, s: State, t: nat, action: Action)
    requires cfg.limit > 0 && Inv(cfg, s) && Enabled(s, t, action) && Harmless(cfg, s, t, action)
    ensures Inv(cfg, Apply(cfg, s, t, action))
  {
    match action {
      case Arrive(q, proc, key) => ArriveStep(cfg, s, t, q, proc, key);
      case Lookup(q) => LookupStep(cfg, s, t, q);
      case Count(q) => CountStep(cfg, s, t, q);
      case CountLost(q, applied) => CountLostStep(cfg, s, t, q, applied);
      case ReadTtl(q, failed) => ReadTtlStep(cfg, s, t, q, failed);
      case Block(q) => BlockStep(cfg, s, t, q);
      case Sweep(proc) => SweepStep(cfg, s, t, proc);
    }
  }

  // ---- runs -----------------------------------------------------------------------------

  datatype Event = Event(t: nat, action: Action)

  ghost predicate IsRun(cfg: Config, states: seq<State>, events: seq<Event>) {
    |states| == |events| + 1 &&
    forall i :: 0 <= i < |events| ==>
      Enabled(states[i], events[i].t, events[i].action) &&
      states[i + 1] == Apply(cfg, states[i], events[i].t, events[i].action)
  }

  lemma RunExtends(cfg: Config, states: seq<State>, events: seq<Event>, e: Event)
    requires IsRun(cfg, states, events) && Enabled(states[|events|], e.t, e.action)
    ensures IsRun(cfg, states + [Apply(cfg, states[|events|], e.t, e.action)], events + [e])
  {
  }

  ghost predicate AllHarmless(cfg: Config, states: seq<State>, events: seq<Event>)
    requires IsRun(cfg, states, events)
  {
    forall i :: 0 <= i < |events| ==> Harmless(cfg, states[i], events[i].t, events[i].action)
  }

  predicate Initial(s: State) {
    s.redis == map[] && s.plain == map[] && s.caches == map[] && s.requests == map[]
  }

  /** A request that is counted gets the plain limiter's answer at that moment. */
  ghost predicate CountAgrees(cfg: Config, states: seq<State>, events: seq<Event>, i: nat)
    requires IsRun(cfg, states, events) && i < |events|
  {
    var s, t, action := states[i], events[i].t, events[i].action;
    action.Count? ==> Decision(cfg, s, t, action) == Some(PlainAllows(cfg, s, t, s.requests[action.q].key))
  }

  /** At some moment from event `a` to event `i` the plain limiter refuses the key. */
  ghost predicate RefusedDuring(cfg: Config, states: seq<State>, events: seq<Event>, key: string, a: nat, i: nat)
    requires |states| == |events| + 1 && i < |events|
  {
    exists j :: a <= j <= i && !PlainAllows(cfg, states[j], events[j].t, key)
  }

  /** A request that arrived in event `a` and is refused from the cache in event `i` is refused by the plain
      limiter at some moment of the call. */
  ghost predicate LookupAgrees(cfg: Config, states: seq<State>, events: seq<Event>, a: nat, i: nat)
    requires IsRun(cfg, states, events) && a <= i < |events|
  {
    events[a].action.Arrive? && events[i].action == Lookup(events[a].action.q) &&
    Decision(cfg, states[i], events[i].t, events[i].action) == Some(false) ==>
      RefusedDuring(cfg, states, events, events[a].action.key, a, i)
  }

  /** Every answer is the plain limiter's, at a moment of the call. */
  ghost predicate AllAgree(cfg: Config, states: seq<State>, events: seq<Event>)
    requires IsRun(cfg, states, events)
  {
    (forall i :: 0 <= i < |events| ==> CountAgrees(cfg, states, events, i)) &&
    (forall a, i :: 0 <= a <= i < |events| ==> LookupAgrees(cfg, states, events, a, i))
  }

  lemma {:induction false} RunInv(cfg: Config, states: seq<State>, events: seq<Event>, n: nat)
    requires cfg.limit > 0 && IsRun(cfg, states, events) && AllHarmless(cfg, states, events)
    requires Inv(cfg, states[0]) && n <= |events|
    ensures Inv(cfg, states[n])
  {
    if n > 0 {
      RunInv(cfg, states, events, n - 1);
      StepInv(cfg, states[n - 1], events[n - 1].t, events[n - 1].action);
    }
  }

  /** A request about to look has the clock value of its arrival. */
  predicate LooksFrom(s: State, e: Event) {
    e.action.Arrive? && e.action.q in s.requests &&
    (s.requests[e.action.q].Looking? ==> s.requests[e.action.q] == Looking(e.action.proc, e.action.key, e.t))
  }

  lemma {:induction false} LooksKept(cfg: Config, states: seq<State>, events: seq<Event>, a: nat, n: nat)
    requires IsRun(cfg, states, events) && a < n < |states| && events[a].action.Arrive?
    ensures LooksFrom(states[n], events[a])
    decreases n
  {
    if n > a + 1 {
      LooksKept(cfg, states, events, a, n - 1);
    }
  }

  /** The step sets a block for the key, still to come at its time. */
  predicate Sets(s: State, t: nat, action: Action, key: string) {
    action.Block? && action.q in s.requests && s.requests[action.q].Blocking? &&
    s.requests[action.q].key == key && s.requests[action.q].until > t
  }

  /** An entry that blocks at `now` was there before the step, or the step has just put it in. */
  lemma EntryFrom(cfg: Config, s: State, t: nat, action: Action, proc: nat, key: string, now: int)
    requires Enabled(s, t, action) && Blocks(CacheOf(Apply(cfg, s, t, action), proc), key, now)
    ensures Blocks(CacheOf(s, proc), key, now) || Sets(s, t, action, key)
  {
  }

  /** A justified entry or block in force is a refusal of the plain limiter. */
  lemma EntryRefuses(cfg: Config, s: State, t: nat, proc: nat, key: string)
    requires cfg.limit > 0 && Inv(cfg, s) && s.time <= t && Blocks(CacheOf(s, proc), key, t)
    ensures !PlainAllows(cfg, s, t, key)
  {
    assert Justified(cfg, s, key, s.caches[proc][key]);
    BlockedIsOver(cfg, s, t, key, s.caches[proc][key]);
  }

  lemma SetRefuses(cfg: Config, s: State, t: nat, action: Action, key: string)
    requires cfg.limit > 0 && Inv(cfg, s) && s.time <= t && Sets(s, t, action, key)
    ensures !PlainAllows(cfg, s, t, key)
  {
    assert RequestJustified(cfg, s, s.requests[action.q]);
    BlockedIsOver(cfg, s, t, key, s.requests[action.q].until);
  }

  lemma RefusedThen(cfg: Config, states: seq<State>, events: seq<Event>, key: string, a: nat, j: nat, n: nat)
    requires |states| == |events| + 1 && a <= j <= n < |events| && !PlainAllows(cfg, states[j], events[j].t, key)
    ensures RefusedDuring(cfg, states, events, key, a, n)
  {
  }

  lemma RefusedLater(cfg: Config, states: seq<State>, events: seq<Event>, key: string, a: nat, n: nat)
    requires |states| == |events| + 1 && n + 1 < |events| && RefusedDuring(cfg, states, events, key, a, n)
    ensures RefusedDuring(cfg, states, events, key, a, n + 1)
  {
  }

  /** One event back: the entry was there, or the event refuses. */
  lemma EntryBefore(cfg: Config, states: seq<State>, events: seq<Event>, n: nat, proc: nat, key: string, now: int)
    requires cfg.limit > 0 && IsRun(cfg, states, events) && n < |events| && Inv(cfg, states[n])
    requires Blocks(CacheOf(states[n + 1], proc), key, now)
    ensures Blocks(CacheOf(states[n], proc), key, now) || !PlainAllows(cfg, states[n], events[n].t, key)
  {
    EntryFrom(cfg, states[n], events[n].t, events[n].action, proc, key, now);
    if Sets(states[n], events[n].t, events[n].action, key) {
      SetRefuses(cfg, states[n], events[n].t, events[n].action, key);
    }
  }

  /** Whatever blocks at the clock value of event `a` was a refusal then or has become one since. */
  lemma {:induction false} EntryHasRefused(cfg: Config, states: seq<State>, events: seq<Event>, a: nat, n: nat,
                                           proc: nat, key: string)
    requires cfg.limit > 0 && IsRun(cfg, states, events) && AllHarmless(cfg, states, events) && Inv(cfg, states[0])
    requires a <= n < |events| && Blocks(CacheOf(states[n], proc), key, events[a].t)
    ensures RefusedDuring(cfg, states, events, key, a, n)
    decreases n
  {
    if n == a {
      RunInv(cfg, states, events, a);
      EntryRefuses(cfg, states[a], events[a].t, proc, key);
      RefusedThen(cfg, states, events, key, a, a, a);
    } else {
      RunInv(cfg, states, events, n - 1);
      EntryBefore(cfg, states, events, n - 1, proc, key, events[a].t);
      if Blocks(CacheOf(states[n - 1], proc), key, events[a].t) {
        EntryHasRefused(cfg, states, events, a, n - 1, proc, key);
        RefusedLater(cfg, states, events, key, a, n - 1);
      } else {
        RefusedThen(cfg, states, events, key, a, n - 1, n);
      }
    }
  }

  /** Refinement: in every run with any number of processes and interleaved requests whose blocks lie within full
      windows, each answer of the cached limiter is the plain limiter's at a moment of the call. */
  lemma CachedRefinesPlain(cfg: Config, states: seq<State>, events: seq<Event>)
    requires cfg.limit > 0 && IsRun(cfg, states, events) && AllHarmless(cfg, states, events) && Inv(cfg, states[0])
    ensures AllAgree(cfg, states, events)
  {
    forall i | 0 <= i < |events| ensures CountAgrees(cfg, states, events, i) {
      RunInv(cfg, states, events, i);
      if events[i].action.Count? {
        CountStep(cfg, states[i], events[i].t, events[i].action.q);
      }
    }
    forall a, i | 0 <= a <= i < |events| ensures LookupAgrees(cfg, states, events, a, i) {
      if events[a].action.Arrive? && events[i].action == Lookup(events[a].action.q) {
        CallAgrees(cfg, states, events, a, i);
      }
    }
  }

  lemma CallAgrees(cfg: Config, states: seq<State>, events: seq<Event>, a: nat, i: nat)
    requires cfg.limit > 0 && IsRun(cfg, states, events) && AllHarmless(cfg, states, events) && Inv(cfg, states[0])
    requires a <= i < |events| && events[a].action.Arrive? && events[i].action == Lookup(events[a].action.q)
    ensures LookupAgrees(cfg, states, events, a, i)
  {
    LooksKept(cfg, states, events, a, i);
    if Blocks(CacheOf(states[i], events[a].action.proc), events[a].action.key, events[a].t) {
      EntryHasRefused(cfg, states, events, a, i, events[a].action.proc, events[a].action.key);
    }
  }

  lemma InitialInv(cfg: Config, s: State)
    requires Initial(s)
    ensures Inv(cfg, s) && RefusalsCurrent(s)
  {
  }

  // ---- when a block lies within its window ----------------------------------------------

  /** The key is still in the window that refused the request, as long as that window lasts. */
  ghost predicate SameWindow(s: State, r: Request)
    requires r.Refused?
  {
    r.now <= s.time && (Ms(s.time) <= r.expire ==> r.key in s.redis && s.redis[r.key].expire == r.expire)
  }

  ghost predicate RefusalsCurrent(s: State) {
    forall q :: q in s.requests && s.requests[q].Refused? ==> SameWindow(s, s.requests[q])
  }

  /** Read within the refusing window, the remaining time makes a harmless block exactly when the block ends with
      that window. */
  lemma HarmlessWithinWindow(cfg: Config, s: State, t: nat, q: nat, failed: bool)
    requires cfg.limit > 0 && Inv(cfg, s) && RefusalsCurrent(s) && Enabled(s, t, ReadTtl(q, failed))
    requires t < EndOf(s.requests[q].expire)
    ensures Harmless(cfg, s, t, ReadTtl(q, failed)) <==> BlockEnd(cfg, s, t, q, failed) <= EndOf(s.requests[q].expire)
  {
    var r := s.requests[q];
    assert RequestJustified(cfg, s, r) && SameWindow(s, r);
    assert Ms(s.time) <= Ms(t) <= r.expire;
    LiveBeforeEnd(s.redis, r.key, t);
  }

  /** The remaining time is read before the last millisecond of the refusing window. */
  predicate Timely(s: State, t: nat, q: nat)
    requires q in s.requests && s.requests[q].Refused?
  {
    Ms(t) < s.requests[q].expire
  }

  /** Why it matters that the clock is read before Redis is asked: a timely answer, added to the earlier
      clock value, stays within the window. */
  lemma TimelyIsHarmless(cfg: Config, s: State, t: nat, q: nat)
    requires cfg.limit > 0 && Inv(cfg, s) && RefusalsCurrent(s) && Enabled(s, t, ReadTtl(q, false)) && Timely(s, t, q)
    ensures Harmless(cfg, s, t, ReadTtl(q, false))
  {
    var r := s.requests[q];
    assert SameWindow(s, r);
    assert Ms(s.time) <= Ms(t) && Ms(r.now) <= Ms(t);
    assert Pttl(s.redis, r.key, t) == (r.expire - Ms(t)) * NS_PER_MS;
    HarmlessWithinWindow(cfg, s, t, q, false);
  }

  /** An unusable answer, in the last millisecond or after an error, blocks for a whole window from the request's
      own clock value: harmless exactly when that ends with the refusing window. */
  lemma FallbackHarmlessExactly(cfg: Config, s: State, t: nat, q: nat, failed: bool)
    requires cfg.limit > 0 && Inv(cfg, s) && RefusalsCurrent(s) && Enabled(s, t, ReadTtl(q, failed))
    requires t < EndOf(s.requests[q].expire) && (failed || Ms(t) == s.requests[q].expire)
    ensures Harmless(cfg, s, t, ReadTtl(q, failed)) <==> s.requests[q].now + cfg.window <= EndOf(s.requests[q].expire)
  {
    assert SameWindow(s, s.requests[q]);
    assert Ms(s.time) <= Ms(t);
    HarmlessWithinWindow(cfg, s, t, q, failed);
  }

  /** A refused request keeps its window until that has passed. */
  lemma RefusalsStep(cfg: Config, s: State, t: nat, action: Action)
    requires cfg.limit > 0 && Inv(cfg, s) && RefusalsCurrent(s) && Enabled(s, t, action)
    ensures RefusalsCurrent(Apply(cfg, s, t, action))
  {
    var u := Apply(cfg, s, t, action);
    assert Ms(s.time) <= Ms(t);
    forall q | q in u.requests && u.requests[q].Refused? ensures SameWindow(u, u.requests[q]) {
      if action.Count? && action.q == q {
        assert RequestJustified(cfg, s, s.requests[q]);
      } else {
        assert u.requests[q] == s.requests[q] && SameWindow(s, s.requests[q]);
      }
    }
  }

  ghost predicate AllTimely(states: seq<State>, events: seq<Event>)
    requires |states| == |events| + 1
  {
    forall i :: 0 <= i < |events| && events[i].action.ReadTtl? ==>
      !events[i].action.failed && events[i].action.q in states[i].requests &&
      states[i].requests[events[i].action.q].Refused? && Timely(states[i], events[i].t, events[i].action.q)
  }

  lemma {:induction false} TimelyRun(cfg: Config, states: seq<State>, events: seq<Event>, n: nat)
    requires cfg.limit > 0 && IsRun(cfg, states, events) && AllTimely(states, events)
    requires Initial(states[0]) && n <= |events|
    ensures Inv(cfg, states[n]) && RefusalsCurrent(states[n])
  {
    if n == 0 {
      InitialInv(cfg, states[0]);
    } else {
      TimelyRun(cfg, states, events, n - 1);
      var s, t, action := states[n - 1], events[n - 1].t, events[n - 1].action;
      if action.ReadTtl? {
        TimelyIsHarmless(cfg, s, t, action.q);
      }
      StepInv(cfg, s, t, action);
      RefusalsStep(cfg, s, t, action);
    }
  }

  /** Runs in which the remaining time is always read in time need no further assumption. */
  lemma TimelyRunsRefine(cfg: Config, states: seq<State>, events: seq<Event>)
    requires cfg.limit > 0 && IsRun(cfg, states, events) && AllTimely(states, events) && Initial(states[0])
    ensures AllAgree(cfg, states, events)
  {
    forall i | 0 <= i < |events| ensures Harmless(cfg, states[i], events[i].t, events[i].action) {
      TimelyRun(cfg, states, events, i);
      if events[i].action.ReadTtl? {
        TimelyIsHarmless(cfg, states[i], events[i].t, events[i].action.q);
      }
    }
    InitialInv(cfg, states[0]);
    CachedRefinesPlain(cfg, states, events);
  }
}
