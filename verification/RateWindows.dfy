/** Windows in terms of the configured length: which requests share one, which start a new one, and which of a
    window's requests are let through (internal/cache/cache.go). */
module RateWindows {
  import opened Wrappers
  import opened RateLimit
  import opened RateRefinement
  import opened Admission

  // ---- how long a window lasts ----------------------------------------------------------

  /** Event `i` counts a request for `key` and finds no window for it. */
  predicate Opens(states: seq<State>, events: seq<Event>, key: string, i: nat)
    requires |states| == |events| + 1
  {
    Counts(states, events, key, i) && !Live(states[i].redis, key, events[i].t)
  }

  /** Whole milliseconds of times that differ by the window or less, or by more. */
  lemma WindowBounds(cfg: Config, t: nat, u: nat)
    ensures t <= u && u + 1_000_000 <= t + cfg.window ==> Ms(u) <= Ms(t) + WindowMs(cfg)
    ensures cfg.window >= 1_000_000 && u >= t + cfg.window + 1_000_000 ==> Ms(u) > Ms(t) + WindowMs(cfg)
  {
    var w := cfg.window / NS_PER_MS;
    assert cfg.window == w * NS_PER_MS + cfg.window % NS_PER_MS;
    if cfg.window >= 1_000_000 && u >= t + cfg.window + 1_000_000 {
      assert u >= t + (w + 1) * NS_PER_MS;
    }
    if t <= u && u + 1_000_000 <= t + cfg.window {
      assert u <= t + w * NS_PER_MS;
    }
  }

  lemma {:induction false} TimesRise(cfg: Config, states: seq<State>, events: seq<Event>, i: nat, n: nat)
    requires IsRun(cfg, states, events) && i < n <= |events|
    ensures events[i].t <= states[n].time
    decreases n
  {
    if n > i + 1 {
      TimesRise(cfg, states, events, i, n - 1);
    }
  }

  /** A request counted at least a millisecond before the configured window is over falls into the window that the
      earlier one opened. */
  lemma SharesWindow(cfg: Config, states: seq<State>, events: seq<Event>, key: string, i: nat, j: nat)
    requires IsRun(cfg, states, events) && Initial(states[0]) && i < j
    requires Opens(states, events, key, i) && Counts(states, events, key, j)
    requires events[j].t + 1_000_000 <= events[i].t + cfg.window
    ensures key in states[i + 1].redis && key in states[j + 1].redis
    ensures Counter(states, key, j).expire == Counter(states, key, i).expire
  {
    CountEffect(cfg, states, events, key, i);
    CountEffect(cfg, states, events, key, j);
    PastLater(cfg, states, events, key, i, j);
    RunWindowsBegun(cfg, states, events, j);
    TimesRise(cfg, states, events, i, j);
    WindowBounds(cfg, events[i].t, events[j].t);
    assert Ms(states[j].time) <= Ms(events[j].t);
  }

  /** A request counted more than a millisecond after the configured window is over falls into a later one. */
  lemma StartsNewWindow(cfg: Config, states: seq<State>, events: seq<Event>, key: string, i: nat, j: nat)
    requires IsRun(cfg, states, events) && cfg.window >= 1_000_000
    requires Opens(states, events, key, i) && Counts(states, events, key, j)
    requires events[j].t >= events[i].t + cfg.window + 1_000_000
    ensures key in states[i + 1].redis && key in states[j + 1].redis
    ensures Counter(states, key, j).expire > Counter(states, key, i).expire
  {
    CountEffect(cfg, states, events, key, i);
    CountEffect(cfg, states, events, key, j);
    WindowBounds(cfg, events[i].t, events[j].t);
  }

  // ---- the count is the number of requests ----------------------------------------------

  /** Event `j` reached the counter of `key`, whether or not its answer came back. */
  predicate Reaches(states: seq<State>, events: seq<Event>, key: string, j: nat)
    requires |states| == |events| + 1 && j < |events|
  {
    (events[j].action.Count? || (events[j].action.CountLost? && events[j].action.applied)) &&
    events[j].action.q in states[j].requests && states[j].requests[events[j].action.q].Counting? &&
    states[j].requests[events[j].action.q].key == key
  }

  /** The requests for `key` before event `n` that were counted in the window with this expiry. */
  ghost function CountedIn(states: seq<State>, events: seq<Event>, key: string, expire: nat, n: nat): set<nat>
    requires |states| == |events| + 1 && n <= |events|
  {
    set j | 0 <= j < n && Reaches(states, events, key, j) && key in states[j + 1].redis &&
            states[j + 1].redis[key].expire == expire
  }

  /** What one event does to the counter. */
  lemma CounterStep(cfg: Config, s: State, t: nat, action: Action, key: string)
    requires Enabled(s, t, action)
    ensures var reached := (action.Count? || (action.CountLost? && action.applied)) && s.requests[action.q].key == key;
            var u := Apply(cfg, s, t, action);
            if !reached then (key in u.redis <==> key in s.redis) && (key in s.redis ==> u.redis[key] == s.redis[key])
            else key in u.redis &&
                 if Live(s.redis, key, t)
                 then u.redis[key] == Window(s.redis[key].expire, s.redis[key].count + 1)
                 else u.redis[key].count == 1 && (key in s.redis ==> u.redis[key].expire > s.redis[key].expire)
  {
  }

  /** No request before event `n` was counted in a window later than the current one. */
  ghost predicate NoneLater(states: seq<State>, events: seq<Event>, key: string, n: nat)
    requires |states| == |events| + 1 && n <= |events|
  {
    forall j :: 0 <= j < n && Reaches(states, events, key, j) ==>
      key in states[j + 1].redis && key in states[n].redis &&
      states[j + 1].redis[key].expire <= states[n].redis[key].expire
  }

  lemma NoneLaterStep(cfg: Config, states: seq<State>, events: seq<Event>, key: string, n: nat)
    requires IsRun(cfg, states, events) && n < |events| && NoneLater(states, events, key, n)
    ensures NoneLater(states, events, key, n + 1)
  {
    CounterStep(cfg, states[n], events[n].t, events[n].action, key);
  }

  /** The counter of the key's window is the number of requests counted in it. */
  ghost predicate CountIsSize(states: seq<State>, events: seq<Event>, key: string, n: nat)
    requires |states| == |events| + 1 && n <= |events|
  {
    key in states[n].redis ==>
      states[n].redis[key].count == |CountedIn(states, events, key, states[n].redis[key].expire, n)|
  }

  lemma CountedNext(states: seq<State>, events: seq<Event>, key: string, expire: nat, n: nat)
    requires |states| == |events| + 1 && n < |events|
    ensures CountedIn(states, events, key, expire, n + 1) ==
            CountedIn(states, events, key, expire, n) +
            if Reaches(states, events, key, n) && key in states[n + 1].redis &&
               states[n + 1].redis[key].expire == expire
            then {n} else {}
  {
  }

  lemma CountIsSizeStep(cfg: Config, states: seq<State>, events: seq<Event>, key: string, n: nat)
    requires IsRun(cfg, states, events) && n < |events| && NoneLater(states, events, key, n)
    requires CountIsSize(states, events, key, n)
    ensures CountIsSize(states, events, key, n + 1)
  {
    CounterStep(cfg, states[n], events[n].t, events[n].action, key);
    if key in states[n + 1].redis {
      var expire := states[n + 1].redis[key].expire;
      CountedNext(states, events, key, expire, n);
      if Reaches(states, events, key, n) && !Live(states[n].redis, key, events[n].t) {
        assert CountedIn(states, events, key, expire, n) == {};
      }
    }
  }

  lemma {:induction false} RunCounts(cfg: Config, states: seq<State>, events: seq<Event>, key: string, n: nat)
    requires IsRun(cfg, states, events) && Initial(states[0]) && n <= |events|
    ensures NoneLater(states, events, key, n) && CountIsSize(states, events, key, n)
  {
    if n > 0 {
      RunCounts(cfg, states, events, key, n - 1);
      NoneLaterStep(cfg, states, events, key, n - 1);
      CountIsSizeStep(cfg, states, events, key, n - 1);
    }
  }

  lemma AdmitsByCount(cfg: Config, states: seq<State>, events: seq<Event>, key: string, i: nat)
    requires IsRun(cfg, states, events) && Counts(states, events, key, i)
    ensures key in states[i + 1].redis
    ensures Admits(cfg, states, events, key, i) <==> Counter(states, key, i).count <= cfg.limit
  {
  }

  lemma CountedBefore(states: seq<State>, events: seq<Event>, key: string, i: nat)
    requires |states| == |events| + 1 && Counts(states, events, key, i) && key in states[i + 1].redis
    requires CountIsSize(states, events, key, i + 1)
    ensures Counter(states, key, i).count ==
            |CountedIn(states, events, key, Counter(states, key, i).expire, i)| + 1
  {
    CountedNext(states, events, key, Counter(states, key, i).expire, i);
  }

  /** A counted request is let through exactly if fewer than `limit` requests for its key were counted in its window
      before it. */
  lemma LetThroughExactly(cfg: Config, states: seq<State>, events: seq<Event>, key: string, i: nat)
    requires IsRun(cfg, states, events) && Initial(states[0]) && Counts(states, events, key, i)
    ensures key in states[i + 1].redis
    ensures Admits(cfg, states, events, key, i) <==>
              |CountedIn(states, events, key, Counter(states, key, i).expire, i)| < cfg.limit
  {
    AdmitsByCount(cfg, states, events, key, i);
    RunCounts(cfg, states, events, key, i + 1);
    CountedBefore(states, events, key, i);
  }

  // ---- how long a block lasts -----------------------------------------------------------

  /** A refused request that reads the remaining time before the window's last millisecond blocks its key until the
      end of the window, short of a millisecond and of what has passed since it captured the clock. */
  lemma BlockReachesEnd(cfg: Config, s: State, t: nat, q: nat)
    requires cfg.window >= 1_000_000 && WindowsBegun(cfg, s) && RefusalsCurrent(s)
    requires Enabled(s, t, ReadTtl(q, false)) && Timely(s, t, q)
    ensures var r := s.requests[q];
            EndOf(r.expire) - 1_000_000 - (t - r.now) <= BlockEnd(cfg, s, t, q, false) <= EndOf(r.expire)
  {
    var r := s.requests[q];
    assert SameWindow(s, r);
    assert Ms(s.time) <= Ms(t) && Ms(r.now) <= Ms(t) && Ms(t) * NS_PER_MS <= t;
    assert (r.expire - Ms(t)) * NS_PER_MS <= WindowMs(cfg) * NS_PER_MS <= cfg.window;
  }

  // ---- what the caller is told ----------------------------------------------------------

  /** The answer a request has got or is about to get. */
  function AnswerOf(r: Request): Option<bool> {
    match r
    case Refused(_, _, _, _) => Some(false)
    case Blocking(_, _, _) => Some(false)
    case Answered(allowed) => allowed
    case _ => None
  }

  /** Event `j` decides request `q`. */
  predicate DecidedAt(cfg: Config, states: seq<State>, events: seq<Event>, j: nat, q: nat, allowed: bool)
    requires |states| == |events| + 1 && j < |events|
  {
    (events[j].action == Lookup(q) || events[j].action == Count(q)) &&
    Enabled(states[j], events[j].t, events[j].action) &&
    Decision(cfg, states[j], events[j].t, events[j].action) == Some(allowed)
  }

  lemma AnswerStep(cfg: Config, s: State, t: nat, action: Action, q: nat, allowed: bool)
    requires Enabled(s, t, action) && q in Apply(cfg, s, t, action).requests
    requires AnswerOf(Apply(cfg, s, t, action).requests[q]) == Some(allowed)
    ensures (q in s.requests && AnswerOf(s.requests[q]) == Some(allowed)) ||
            ((action == Lookup(q) || action == Count(q)) && Decision(cfg, s, t, action) == Some(allowed))
  {
  }

  /** Every answer a request gets is the decision that was taken on it: it is let through only if its count was
      within the limit, and refused only if that was not or its key was blocked. */
  lemma {:induction false} AnswersAreDecisions(cfg: Config, states: seq<State>, events: seq<Event>, n: nat, q: nat,
                                               allowed: bool)
    requires IsRun(cfg, states, events) && Initial(states[0]) && n < |states|
    requires q in states[n].requests && AnswerOf(states[n].requests[q]) == Some(allowed)
    ensures exists j :: 0 <= j < n && DecidedAt(cfg, states, events, j, q, allowed)
  {
    if n > 0 {
      var s, e := states[n - 1], events[n - 1];
      AnswerStep(cfg, s, e.t, e.action, q, allowed);
      if q in s.requests && AnswerOf(s.requests[q]) == Some(allowed) {
        AnswersAreDecisions(cfg, states, events, n - 1, q, allowed);
      } else {
        assert DecidedAt(cfg, states, events, n - 1, q, allowed);
      }
    }
  }
}
