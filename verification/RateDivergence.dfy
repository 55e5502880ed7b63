/** A block beyond a full window is never harmless: some continuation of the run gets an answer from the cache that
    the plain limiter would have given at no moment of the call. So the refinement's condition is exact, and it can
    fail without any fault. */
module RateDivergence {
  import opened BlockCache
  import opened Wrappers
  import opened FreshIds
  import opened RateLimit
  import opened RateRefinement

  // ---- from one block to a wrong answer -------------------------------------------------

  /** A call that arrives while the cache blocks the key and the plain limiter would let it through. */
  lemma CallDiverges(cfg: Config, states: seq<State>, events: seq<Event>, t: nat, q: nat, proc: nat, key: string)
      returns (longer: seq<State>, more: seq<Event>)
    requires IsRun(cfg, states, events) && states[|events|].time <= t && q !in states[|events|].requests
    requires Blocks(CacheOf(states[|events|], proc), key, t) && PlainAllows(cfg, states[|events|], t, key)
    ensures more == events + [Event(t, Arrive(q, proc, key)), Event(t, Lookup(q))]
    ensures IsRun(cfg, longer, more) && states <= longer && !AllAgree(cfg, longer, more)
  {
    var s := states[|events|];
    var u := Apply(cfg, s, t, Arrive(q, proc, key));
    var arrived, looked := Event(t, Arrive(q, proc, key)), Event(t, Lookup(q));
    RunExtends(cfg, states, events, arrived);
    RunExtends(cfg, states + [u], events + [arrived], looked);
    longer, more := states + [u] + [Apply(cfg, u, t, Lookup(q))], events + [arrived] + [looked];
    assert more == events + [arrived, looked];
    var a := |events|;
    assert longer[a] == s && longer[a + 1] == u && more[a] == arrived && more[a + 1] == looked;
    assert !RefusedDuring(cfg, longer, more, key, a, a + 1);
    assert !LookupAgrees(cfg, longer, more, a, a + 1);
  }

  /** When the block set after a harmful reading is noticed: at once if the window has room or is over, else when
      the window ends. */
  function Noticed(cfg: Config, s: State, t: nat, key: string): nat {
    if Live(s.redis, key, t) && s.redis[key].count >= cfg.limit then EndOf(s.redis[key].expire) else t
  }

  lemma NoticedIsOpen(cfg: Config, s: State, t: nat, q: nat, failed: bool)
    requires cfg.limit > 0 && CountersAgree(cfg, s) && Enabled(s, t, ReadTtl(q, failed))
    requires !Harmless(cfg, s, t, ReadTtl(q, failed))
    ensures var key := s.requests[q].key;
            t <= Noticed(cfg, s, t, key) < BlockEnd(cfg, s, t, q, failed) &&
            PlainAllows(cfg, s, Noticed(cfg, s, t, key), key)
  {
    var key := s.requests[q].key;
    if key in s.redis {
      LiveBeforeEnd(s.redis, key, t);
      LiveBeforeEnd(s.plain, key, t);
      LiveBeforeEnd(s.plain, key, Noticed(cfg, s, t, key));
    }
  }

  /** Some continuation after the reading, itself without a further harmful one, gets a wrong answer. */
  ghost predicate Diverges(cfg: Config, u: State) {
    exists states: seq<State>, events: seq<Event> ::
      IsRun(cfg, states, events) && states[0] == u && AllHarmless(cfg, states, events) && !AllAgree(cfg, states, events)
  }

  lemma HarmfulDiverges(cfg: Config, s: State, t: nat, q: nat, failed: bool)
    requires cfg.limit > 0 && CountersAgree(cfg, s) && Enabled(s, t, ReadTtl(q, failed))
    requires !Harmless(cfg, s, t, ReadTtl(q, failed))
    requires Admits(CacheOf(s, s.requests[q].proc), cfg.maxEntries, s.requests[q].key)
    ensures Diverges(cfg, Apply(cfg, s, t, ReadTtl(q, failed)))
  {
    var r := s.requests[q];
    var u := Apply(cfg, s, t, ReadTtl(q, failed));
    var v := Apply(cfg, u, t, Block(q));
    var later := Noticed(cfg, s, t, r.key);
    NoticedIsOpen(cfg, s, t, q, failed);
    RunExtends(cfg, [u], [], Event(t, Block(q)));
    assert [u] + [v] == [u, v] && [] + [Event(t, Block(q))] == [Event(t, Block(q))];
    assert Blocks(CacheOf(v, r.proc), r.key, later) && PlainAllows(cfg, v, later, r.key);
    var longer, more := CallDiverges(cfg, [u, v], [Event(t, Block(q))], later, Fresh(v.requests.Keys), r.proc, r.key);
    assert longer[0] == u;
    assert AllHarmless(cfg, longer, more);
  }

  /** The condition is exact: where the process's cache has room for the key, a reading is harmless if and only if
      every continuation without a further harmful reading gives only answers of the plain limiter. */
  lemma HarmlessExactly(cfg: Config, s: State, t: nat, q: nat, failed: bool)
    requires cfg.limit > 0 && Inv(cfg, s) && Enabled(s, t, ReadTtl(q, failed))
    requires Admits(CacheOf(s, s.requests[q].proc), cfg.maxEntries, s.requests[q].key)
    ensures Harmless(cfg, s, t, ReadTtl(q, failed)) <==> !Diverges(cfg, Apply(cfg, s, t, ReadTtl(q, failed)))
  {
    var u := Apply(cfg, s, t, ReadTtl(q, failed));
    if Harmless(cfg, s, t, ReadTtl(q, failed)) {
      StepInv(cfg, s, t, ReadTtl(q, failed));
      forall states: seq<State>, events: seq<Event> |
        IsRun(cfg, states, events) && states[0] == u && AllHarmless(cfg, states, events)
        ensures AllAgree(cfg, states, events)
      {
        CachedRefinesPlain(cfg, states, events);
      }
    } else {
      HarmfulDiverges(cfg, s, t, q, failed);
    }
  }

  /** Within the refusing window that is a comparison the caller could make before it blocks: clock value captured,
      plus the time to block for, against the end of the window. */
  lemma BlockEndExactly(cfg: Config, s: State, t: nat, q: nat, failed: bool)
    requires cfg.limit > 0 && Inv(cfg, s) && RefusalsCurrent(s) && Enabled(s, t, ReadTtl(q, failed))
    requires t < EndOf(s.requests[q].expire)
    requires Admits(CacheOf(s, s.requests[q].proc), cfg.maxEntries, s.requests[q].key)
    ensures BlockEnd(cfg, s, t, q, failed) <= EndOf(s.requests[q].expire) <==>
            !Diverges(cfg, Apply(cfg, s, t, ReadTtl(q, failed)))
  {
    HarmlessWithinWindow(cfg, s, t, q, failed);
    HarmlessExactly(cfg, s, t, q, failed);
  }

  // ---- a run without faults that diverges, for every limit and window -------------------

  predicate FaultFree(action: Action) {
    !action.CountLost? && !(action.ReadTtl? && action.failed)
  }

  /** A run without faults from the start. */
  ghost predicate FaultFreeRun(cfg: Config, states: seq<State>, events: seq<Event>) {
    IsRun(cfg, states, events) && Initial(states[0]) && forall i :: 0 <= i < |events| ==> FaultFree(events[i].action)
  }

  ghost predicate Reached(cfg: Config, s: State) {
    exists states: seq<State>, events: seq<Event> :: FaultFreeRun(cfg, states, events) && states[|events|] == s
  }

  lemma ReachedNext(cfg: Config, s: State, t: nat, action: Action)
    requires Reached(cfg, s) && Enabled(s, t, action) && FaultFree(action)
    ensures Reached(cfg, Apply(cfg, s, t, action))
  {
    var states: seq<State>, events: seq<Event> :| FaultFreeRun(cfg, states, events) && states[|events|] == s;
    RunExtends(cfg, states, events, Event(t, action));
    var longer, more := states + [Apply(cfg, s, t, action)], events + [Event(t, action)];
    assert FaultFreeRun(cfg, longer, more);
  }

  /** At time 0 the first `n` requests for the key have been let through. */
  predicate Filled(cfg: Config, s: State, n: nat) {
    s.time == 0 && s.plain == s.redis && s.redis == (if n == 0 then map[] else map["k" := Window(WindowMs(cfg), n)]) &&
    CacheOf(s, 0) == map[] && forall q :: q in s.requests ==> q < n
  }

  /** One whole call that is counted, at time `t`. */
  lemma CallCounted(cfg: Config, s: State, t: nat, q: nat, key: string) returns (u: State)
    requires Reached(cfg, s) && s.time <= t && q !in s.requests && CacheOf(s, 0) == map[]
    ensures Reached(cfg, u) && u.time == t && CacheOf(u, 0) == map[] && u.requests.Keys == s.requests.Keys + {q}
    ensures u.redis == Incr(cfg, s.redis, key, t) && u.plain == Incr(cfg, s.plain, key, t)
    ensures u.requests[q] == if u.redis[key].count <= cfg.limit then Answered(Some(true))
                             else Refused(0, key, t, u.redis[key].expire)
  {
    ReachedNext(cfg, s, t, Arrive(q, 0, key));
    var v := Apply(cfg, s, t, Arrive(q, 0, key));
    ReachedNext(cfg, v, t, Lookup(q));
    var w := Apply(cfg, v, t, Lookup(q));
    ReachedNext(cfg, w, t, Count(q));
    u := Apply(cfg, w, t, Count(q));
  }

  lemma {:induction false} FilledReached(cfg: Config, n: nat) returns (s: State)
    requires n <= cfg.limit
    ensures Reached(cfg, s) && Filled(cfg, s, n)
    decreases n
  {
    if n == 0 {
      s := State(0, map[], map[], map[], map[]);
      assert FaultFreeRun(cfg, [s], []);
    } else {
      var before := FilledReached(cfg, n - 1);
      s := CallCounted(cfg, before, 0, n - 1, "k");
    }
  }

  /** One request too many, in the window's last nanosecond: its remaining time reads as zero. */
  lemma LateRefusal(cfg: Config) returns (s: State, q: nat, t: nat)
    requires cfg.limit > 0 && cfg.window >= 2
    ensures Reached(cfg, s) && s.time == t && CacheOf(s, 0) == map[] && CountersAgree(cfg, s)
    ensures q in s.requests && s.requests[q].Refused? && s.requests[q].proc == 0 && s.requests[q].key == "k"
    ensures !Harmless(cfg, s, t, ReadTtl(q, false))
  {
    var full := FilledReached(cfg, cfg.limit);
    q, t := cfg.limit, EndOf(WindowMs(cfg)) - 1;
    LiveBeforeEnd(full.redis, "k", t);
    s := CallCounted(cfg, full, t, q, "k");
    assert s.redis["k"] == Window(WindowMs(cfg), cfg.limit + 1);
    assert Ms(t) == WindowMs(cfg);
  }

  /** For every limit and every window (of more than a nanosecond) the caches can change an answer although nothing
      fails: a request refused in the last millisecond of the window blocks its key for a whole window, and the next
      one, in a new window, is refused at a time when the plain limiter would let it through. */
  lemma LateTtlDiverges(cfg: Config)
    requires cfg.limit > 0 && cfg.window >= 2
    ensures exists states: seq<State>, events: seq<Event> ::
              FaultFreeRun(cfg, states, events) && !AllAgree(cfg, states, events)
  {
    var s, q, t := LateRefusal(cfg);
    NoticedIsOpen(cfg, s, t, q, false);
    var later := Noticed(cfg, s, t, "k");
    ReachedNext(cfg, s, t, ReadTtl(q, false));
    var u := Apply(cfg, s, t, ReadTtl(q, false));
    ReachedNext(cfg, u, t, Block(q));
    var v := Apply(cfg, u, t, Block(q));
    assert Blocks(CacheOf(v, 0), "k", later) && PlainAllows(cfg, v, later, "k");
    var states: seq<State>, events: seq<Event> :| FaultFreeRun(cfg, states, events) && states[|events|] == v;
    var longer, more := CallDiverges(cfg, states, events, later, Fresh(v.requests.Keys), 0, "k");
    assert FaultFreeRun(cfg, longer, more);
  }
}
