/** How many requests the limiter lets through: at most `limit` in one window of a key, and at most
    twice that in any stretch of time one window long. */
module Admission {
  import opened Wrappers
  import opened RateLimit
  import opened RateRefinement

  /** Event `i` counts a request for `key`. */
  predicate Counts(states: seq<State>, events: seq<Event>, key: string, i: nat)
    requires |states| == |events| + 1
  {
    i < |events| && events[i].action.Count? && events[i].action.q in states[i].requests &&
    states[i].requests[events[i].action.q].Counting? && states[i].requests[events[i].action.q].key == key
  }

  /** Event `i` is the decision to let a request for `key` through. */
  predicate Admits(cfg: Config, states: seq<State>, events: seq<Event>, key: string, i: nat)
    requires |states| == |events| + 1
  {
    i < |events| && Enabled(states[i], events[i].t, events[i].action) &&
    Decision(cfg, states[i], events[i].t, events[i].action) == Some(true) &&
    states[i].requests[events[i].action.q].key == key
  }

  /** The counter of `key` right after event `i`. */
  function Counter(states: seq<State>, key: string, i: nat): Window
    requires i + 1 < |states| && key in states[i + 1].redis
  {
    states[i + 1].redis[key]
  }

  /** The counter at state `n` is at or past the one of event `i`: same window and no smaller count, or a
      window that started after that one had expired. */
  ghost predicate Past(cfg: Config, w: Window, v: Window) {
    (v.expire == w.expire && v.count >= w.count) || v.expire > w.expire + WindowMs(cfg)
  }

  lemma PastStep(cfg: Config, s: State, t: nat, action: Action, key: string, w: Window)
    requires Enabled(s, t, action) && key in s.redis && Past(cfg, w, s.redis[key])
    ensures key in Apply(cfg, s, t, action).redis && Past(cfg, w, Apply(cfg, s, t, action).redis[key])
  {
  }

  lemma {:induction false} PastLater(cfg: Config, states: seq<State>, events: seq<Event>, key: string, i: nat, n: nat)
    requires IsRun(cfg, states, events) && i + 1 <= n < |states| && key in states[i + 1].redis
    ensures key in states[n].redis && Past(cfg, Counter(states, key, i), states[n].redis[key])
    decreases n
  {
    if n > i + 1 {
      PastLater(cfg, states, events, key, i, n - 1);
      PastStep(cfg, states[n - 1], events[n - 1].t, events[n - 1].action, key, Counter(states, key, i));
    }
  }

  /** The counting event itself: its time lies in the window, and the count went up. */
  lemma CountEffect(cfg: Config, states: seq<State>, events: seq<Event>, key: string, i: nat)
    requires IsRun(cfg, states, events) && Counts(states, events, key, i)
    ensures key in states[i + 1].redis && Counter(states, key, i).count >= 1
    ensures Ms(events[i].t) <= Counter(states, key, i).expire
    ensures if Live(states[i].redis, key, events[i].t)
            then Counter(states, key, i).expire == states[i].redis[key].expire &&
                 Counter(states, key, i).count == states[i].redis[key].count + 1
            else Counter(states, key, i) == Window(Ms(events[i].t) + WindowMs(cfg), 1)
  {
  }

  /** A counted request was counted no earlier than the window began. */
  ghost predicate WindowsBegun(cfg: Config, s: State) {
    forall key :: key in s.redis ==> s.redis[key].expire <= Ms(s.time) + WindowMs(cfg)
  }

  lemma {:induction false} RunWindowsBegun(cfg: Config, states: seq<State>, events: seq<Event>, n: nat)
    requires IsRun(cfg, states, events) && Initial(states[0]) && n < |states|
    ensures WindowsBegun(cfg, states[n])
  {
    if n > 0 {
      RunWindowsBegun(cfg, states, events, n - 1);
      var s, t := states[n - 1], events[n - 1].t;
      assert Ms(s.time) <= Ms(t);
    }
  }

  /** Two counted requests of one key: the later one has a higher count in the same window, or its window
      starts after the earlier one's expired. */
  lemma CountOrder(cfg: Config, states: seq<State>, events: seq<Event>, key: string, i: nat, j: nat)
    requires IsRun(cfg, states, events) && Counts(states, events, key, i) && Counts(states, events, key, j) && i < j
    ensures key in states[i + 1].redis && key in states[j + 1].redis
    ensures var w, v := Counter(states, key, i), Counter(states, key, j);
            (v.expire == w.expire && v.count > w.count) || v.expire > w.expire + WindowMs(cfg)
  {
    CountEffect(cfg, states, events, key, i);
    CountEffect(cfg, states, events, key, j);
    PastLater(cfg, states, events, key, i, j);
  }

  lemma AdmitsWithinLimit(cfg: Config, states: seq<State>, events: seq<Event>, key: string, i: nat)
    requires IsRun(cfg, states, events) && Admits(cfg, states, events, key, i)
    ensures Counts(states, events, key, i) && key in states[i + 1].redis &&
            1 <= Counter(states, key, i).count <= cfg.limit
  {
    CountEffect(cfg, states, events, key, i);
  }

  // ---- counting -------------------------------------------------------------------------

  /** A set of events whose counters are distinct numbers from 1 to `limit` is no larger than `limit`. */
  lemma {:induction false} FewDistinct(states: seq<State>, key: string, events: set<nat>, limit: nat)
    requires forall i :: i in events ==> i + 1 < |states| && key in states[i + 1].redis
    requires forall i :: i in events ==> 1 <= Counter(states, key, i).count <= limit
    requires forall i, j :: i in events && j in events && i != j ==>
               Counter(states, key, i).count != Counter(states, key, j).count
    ensures |events| <= limit
    decreases limit
  {
    if i :| i in events && Counter(states, key, i).count == limit {
      assert events == (events - {i}) + {i};
      FewDistinct(states, key, events - {i}, limit - 1);
    } else if limit > 0 {
      FewDistinct(states, key, events, limit - 1);
    } else {
      assert events == {};
    }
  }

  /** The admitted requests and their counters. */
  lemma AllCounted(cfg: Config, states: seq<State>, events: seq<Event>, key: string, admitted: set<nat>)
    requires IsRun(cfg, states, events) && forall i :: i in admitted ==> Admits(cfg, states, events, key, i)
    ensures forall i :: i in admitted ==>
              Counts(states, events, key, i) && key in states[i + 1].redis &&
                1 <= Counter(states, key, i).count <= cfg.limit
  {
    forall i | i in admitted
      ensures Counts(states, events, key, i) && key in states[i + 1].redis &&
              1 <= Counter(states, key, i).count <= cfg.limit
    {
      AdmitsWithinLimit(cfg, states, events, key, i);
    }
  }

  lemma DifferentCounts(cfg: Config, states: seq<State>, events: seq<Event>, key: string, i: nat, j: nat)
    requires IsRun(cfg, states, events) && Counts(states, events, key, i) && Counts(states, events, key, j) && i != j
    requires key in states[i + 1].redis && key in states[j + 1].redis
    requires Counter(states, key, i).expire == Counter(states, key, j).expire
    ensures Counter(states, key, i).count != Counter(states, key, j).count
  {
    if i < j {
      CountOrder(cfg, states, events, key, i, j);
    } else {
      CountOrder(cfg, states, events, key, j, i);
    }
  }

  /** At most `limit` requests of a key are let through in one window: in every set of events that decide to let
      one through, in a window with the same expiry, there are no more than `limit`. */
  lemma AdmittedPerWindow(cfg: Config, states: seq<State>, events: seq<Event>, key: string, expire: nat,
                          admitted: set<nat>)
    requires IsRun(cfg, states, events) && cfg.limit > 0
    requires forall i :: i in admitted ==>
               Admits(cfg, states, events, key, i) && key in states[i + 1].redis &&
                 Counter(states, key, i).expire == expire
    ensures |admitted| <= cfg.limit
  {
    AllCounted(cfg, states, events, key, admitted);
    forall i, j | i in admitted && j in admitted && i != j
      ensures Counter(states, key, i).count != Counter(states, key, j).count
    {
      DifferentCounts(cfg, states, events, key, i, j);
    }
    FewDistinct(states, key, admitted, cfg.limit);
  }

  /** Three counted requests in three different windows are more than a window apart. */
  lemma ThreeWindowsApart(cfg: Config, states: seq<State>, events: seq<Event>, key: string, i: nat, j: nat, k: nat)
    requires IsRun(cfg, states, events) && Initial(states[0])
    requires Counts(states, events, key, i) && Counts(states, events, key, j) && Counts(states, events, key, k)
    requires key in states[i + 1].redis && key in states[j + 1].redis && key in states[k + 1].redis
    requires Counter(states, key, i).expire < Counter(states, key, j).expire < Counter(states, key, k).expire
    ensures events[k].t >= events[i].t + WindowMs(cfg) * NS_PER_MS
  {
    WindowOrder(cfg, states, events, key, i, j);
    WindowOrder(cfg, states, events, key, j, k);
    CountEffect(cfg, states, events, key, i);
    RunWindowsBegun(cfg, states, events, k + 1);
    assert states[k + 1].time == events[k].t;
    assert Ms(events[k].t) >= Ms(events[i].t) + WindowMs(cfg) + 1;
  }

  /** Different expiries mean different windows, whichever request came first. */
  lemma WindowOrder(cfg: Config, states: seq<State>, events: seq<Event>, key: string, i: nat, j: nat)
    requires IsRun(cfg, states, events) && Counts(states, events, key, i) && Counts(states, events, key, j)
    requires key in states[i + 1].redis && key in states[j + 1].redis
    requires Counter(states, key, i).expire < Counter(states, key, j).expire
    ensures Counter(states, key, j).expire > Counter(states, key, i).expire + WindowMs(cfg)
  {
    if i < j {
      CountOrder(cfg, states, events, key, i, j);
    } else {
      CountOrder(cfg, states, events, key, j, i);
    }
  }

  /** The window length that Redis is given, in nanoseconds: cut to whole milliseconds, but at least one. */
  function Stretch(cfg: Config): nat {
    if cfg.window < 1_000_000 then 1_000_000 else cfg.window / 1_000_000 * 1_000_000
  }

  lemma StretchIsWindow(cfg: Config)
    ensures Stretch(cfg) == WindowMs(cfg) * NS_PER_MS
  {
  }

  ghost predicate AdmittedWithin(cfg: Config, states: seq<State>, events: seq<Event>, key: string, from: nat,
                                 admitted: set<nat>)
    requires |states| == |events| + 1
  {
    forall i :: i in admitted ==>
      Admits(cfg, states, events, key, i) && from <= events[i].t < from + Stretch(cfg)
  }

  /** The admitted requests of one window among `admitted`. */
  ghost function OfWindow(states: seq<State>, key: string, admitted: set<nat>, expire: nat): set<nat>
    requires forall i :: i in admitted ==> i + 1 < |states| && key in states[i + 1].redis
  {
    set i | i in admitted && Counter(states, key, i).expire == expire
  }

  /** Besides the windows of `i` and `j` there is no third one. */
  lemma RestIsOneWindow(cfg: Config, states: seq<State>, events: seq<Event>, key: string, from: nat,
                        admitted: set<nat>, i: nat, j: nat, k: nat)
    requires IsRun(cfg, states, events) && Initial(states[0])
    requires AdmittedWithin(cfg, states, events, key, from, admitted) && i in admitted && j in admitted && k in admitted
    requires key in states[i + 1].redis && key in states[j + 1].redis && key in states[k + 1].redis
    requires Counter(states, key, i).expire != Counter(states, key, j).expire
    requires Counter(states, key, i).expire != Counter(states, key, k).expire
    ensures Counter(states, key, k).expire == Counter(states, key, j).expire
  {
    AllCounted(cfg, states, events, key, admitted);
    StretchIsWindow(cfg);
    var a, b, c := Counter(states, key, i).expire, Counter(states, key, j).expire, Counter(states, key, k).expire;
    if a < b < c { ThreeWindowsApart(cfg, states, events, key, i, j, k); }
    if a < c < b { ThreeWindowsApart(cfg, states, events, key, i, k, j); }
    if b < a < c { ThreeWindowsApart(cfg, states, events, key, j, i, k); }
    if b < c < a { ThreeWindowsApart(cfg, states, events, key, j, k, i); }
    if c < a < b { ThreeWindowsApart(cfg, states, events, key, k, i, j); }
    if c < b < a { ThreeWindowsApart(cfg, states, events, key, k, j, i); }
  }

  /** The requests of a stretch that do not share the window of `i` share one other window. */
  lemma RestBound(cfg: Config, states: seq<State>, events: seq<Event>, key: string, from: nat,
                  admitted: set<nat>, i: nat, rest: set<nat>)
    requires IsRun(cfg, states, events) && Initial(states[0]) && cfg.limit > 0
    requires AdmittedWithin(cfg, states, events, key, from, admitted) && i in admitted && rest <= admitted
    requires forall k :: k in admitted ==> key in states[k + 1].redis
    requires forall k :: k in rest ==> Counter(states, key, k).expire != Counter(states, key, i).expire
    ensures |rest| <= cfg.limit
  {
    if j :| j in rest {
      forall k | k in rest ensures Counter(states, key, k).expire == Counter(states, key, j).expire {
        RestIsOneWindow(cfg, states, events, key, from, admitted, i, j, k);
      }
      AdmittedPerWindow(cfg, states, events, key, Counter(states, key, j).expire, rest);
    }
  }

  /** At most 2 * limit requests of a key are let through in any half-open stretch of time one window long. */
  lemma AdmittedPerStretch(cfg: Config, states: seq<State>, events: seq<Event>, key: string, from: nat,
                           admitted: set<nat>)
    requires IsRun(cfg, states, events) && Initial(states[0]) && cfg.limit > 0
    requires AdmittedWithin(cfg, states, events, key, from, admitted)
    ensures |admitted| <= 2 * cfg.limit
  {
    if i :| i in admitted {
      AllCounted(cfg, states, events, key, admitted);
      var e := Counter(states, key, i).expire;
      var first := OfWindow(states, key, admitted, e);
      AdmittedPerWindow(cfg, states, events, key, e, first);
      RestBound(cfg, states, events, key, from, admitted, i, admitted - first);
      assert admitted == first + (admitted - first);
    }
  }
}
