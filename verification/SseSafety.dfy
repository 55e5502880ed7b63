/** What holds of the hub in every interleaving. */
module SseSafety {
  import opened Powers
  import opened SseHub

  // ---- subscribe ------------------------------------------------------------------------

  lemma SubscribeTopics(s: State, u: State, account: string, topic: nat, ch: nat)
    requires TopicsInv(s) && Linked(s) && Enabled(s, Subscribe(account, topic, ch))
    requires u == SubscribeNext(s, account, topic, ch)
    ensures TopicsInv(u)
  {
    var t := u.hub[account];
    forall other ensures HubOk(u, other) {
      assert HubOk(s, other);
    }
    forall o ensures ClosingOk(u, o) {
      assert ClosingOk(s, o);
    }
    forall o ensures TopicOk(u, o) {
      assert ClosingOk(s, o) && TopicOk(s, o) && HubOk(s, account);
      if o in s.topics {
        assert HubOk(s, s.topics[o].account);
      }
    }
  }

  lemma SubscribeClients(s: State, u: State, account: string, topic: nat, ch: nat)
    requires TopicsInv(s) && ClientsInv(s) && Linked(s) && Enabled(s, Subscribe(account, topic, ch))
    requires u == SubscribeNext(s, account, topic, ch)
    ensures ClientsInv(u)
  {
    assert HubOk(s, account);
    forall o ensures ClientOk(u, o) {
      assert ClientOk(s, o);
    }
    forall t, o ensures MemberOk(u, t, o) {
      assert MemberOk(s, t, o);
    }
  }

  lemma SubscribeAttached(s: State, u: State, account: string, topic: nat, ch: nat)
    requires TopicsInv(s) && ClientsInv(s) && Linked(s) && Enabled(s, Subscribe(account, topic, ch))
    requires u == SubscribeNext(s, account, topic, ch)
    ensures Attached(u) == Attached(s) + {ch}
  {
    forall o ensures o in Attached(u) <==> o in Attached(s) || o == ch {
      assert ClientOk(s, o);
    }
  }

  lemma HubGrows(hub: map<string, nat>, account: string, t: nat)
    ensures |hub[account := t]| == |hub| + if account in hub then 0 else 1
  {
    assert hub[account := t].Keys == hub.Keys + {account};
    assert |hub[account := t].Keys| == |hub[account := t]| && |hub.Keys| == |hub|;
  }

  lemma HubShrinks(hub: map<string, nat>, account: string)
    requires account in hub
    ensures |hub - {account}| == |hub| - 1
  {
    assert (hub - {account}).Keys == hub.Keys - {account};
    assert |(hub - {account}).Keys| == |hub - {account}| && |hub.Keys| == |hub|;
  }

  lemma SubscribeGauges(s: State, u: State, account: string, topic: nat, ch: nat)
    requires Inv(s) && Linked(s) && Enabled(s, Subscribe(account, topic, ch))
    requires u == SubscribeNext(s, account, topic, ch)
    ensures GaugesOk(u)
  {
    SubscribeAttached(s, u, account, topic, ch);
    HubGrows(s.hub, account, u.hub[account]);
  }

  lemma SubscribeHeld(s: State, u: State, account: string, topic: nat, ch: nat)
    requires HeldInv(s) && Linked(s) && Enabled(s, Subscribe(account, topic, ch))
    requires u == SubscribeNext(s, account, topic, ch)
    ensures HeldInv(u)
  {
    forall other ensures HeldOk(u, other) {
      if other == account {
        assert u.clients[ch].topic == u.hub[account] && !u.clients[ch].released;
      } else if other in s.hub {
        assert HeldOk(s, other);
        var o :| o in s.clients && s.clients[o].topic == s.hub[other] && !s.clients[o].released;
        assert u.clients[o] == s.clients[o];
      }
    }
  }

  // ---- unsubscribe ----------------------------------------------------------------------

  lemma UnsubscribeTopics(s: State, u: State, ch: nat)
    requires TopicsInv(s) && Linked(s) && Enabled(s, Unsubscribe(ch)) && u == UnsubscribeNext(s, ch)
    ensures TopicsInv(u)
  {
    assert HubOk(s, s.clients[ch].account);
    forall other ensures HubOk(u, other) {
      assert HubOk(s, other);
    }
    forall o ensures ClosingOk(u, o) {
      assert ClosingOk(s, o);
    }
    forall o ensures TopicOk(u, o) {
      assert ClosingOk(s, o) && TopicOk(s, o);
      if o in s.topics {
        assert HubOk(s, s.topics[o].account);
      }
    }
  }

  lemma UnsubscribeClients(s: State, u: State, ch: nat)
    requires TopicsInv(s) && ClientsInv(s) && Linked(s) && Enabled(s, Unsubscribe(ch)) && u == UnsubscribeNext(s, ch)
    ensures ClientsInv(u)
  {
    assert HubOk(s, s.clients[ch].account) && ClientOk(s, ch);
    forall o ensures ClientOk(u, o) {
      assert ClientOk(s, o);
    }
    forall t, o ensures MemberOk(u, t, o) {
      assert MemberOk(s, t, o);
      if t in s.topics && o == ch && o in s.topics[t].clients {
        assert TopicOk(s, t);
      }
    }
  }

  /** A channel is attached exactly when the account's current topic has it. */
  lemma AttachedIsMember(s: State, ch: nat)
    requires TopicsInv(s) && ClientsInv(s) && Linked(s) && ch in s.clients
    ensures ch in Attached(s) <==>
              s.clients[ch].account in s.hub && ch in s.topics[s.hub[s.clients[ch].account]].clients
  {
    var account, t := s.clients[ch].account, s.clients[ch].topic;
    assert ClientOk(s, ch) && HubOk(s, account) && TopicOk(s, t);
    if account in s.hub {
      assert MemberOk(s, s.hub[account], ch);
    }
  }

  /** Taking one channel out of one topic's map detaches that channel and no other. */
  lemma Detach(s: State, u: State, t: nat, ch: nat)
    requires ch in s.clients && ch in u.clients && t in s.topics
    requires u.topics == s.topics[t := s.topics[t].(clients := s.topics[t].clients - {ch})]
    requires u.clients == s.clients[ch := u.clients[ch]] && u.clients[ch].topic == s.clients[ch].topic
    requires ch in Attached(s) ==> s.clients[ch].topic == t
    ensures Attached(u) == Attached(s) - {ch}
  {
  }

  lemma UnsubscribeAttached(s: State, u: State, ch: nat)
    requires TopicsInv(s) && ClientsInv(s) && Linked(s) && Enabled(s, Unsubscribe(ch)) && u == UnsubscribeNext(s, ch)
    ensures Attached(u) == Attached(s) - {ch}
  {
    AttachedIsMember(s, ch);
    var account := s.clients[ch].account;
    if account in s.hub {
      assert MemberOk(s, s.hub[account], ch);
      Detach(s, u, s.hub[account], ch);
    } else {
      SameAttached(s, u);
    }
  }

  lemma SameAttached(s: State, u: State)
    requires u.topics == s.topics && u.clients.Keys == s.clients.Keys
    requires forall ch :: ch in s.clients ==> u.clients[ch].topic == s.clients[ch].topic
    ensures Attached(u) == Attached(s)
  {
  }

  lemma UnsubscribeGauges(s: State, u: State, ch: nat)
    requires TopicsInv(s) && ClientsInv(s) && GaugesOk(s) && Linked(s)
    requires Enabled(s, Unsubscribe(ch)) && u == UnsubscribeNext(s, ch)
    ensures GaugesOk(u)
  {
    AttachedIsMember(s, ch);
    UnsubscribeAttached(s, u, ch);
    var attached := Attached(s);
    assert |attached - {ch}| == |attached| - if ch in attached then 1 else 0;
    var account := s.clients[ch].account;
    if account in s.hub {
      HubShrinks(s.hub, account);
    }
  }

  lemma UnsubscribeHeld(s: State, u: State, ch: nat)
    requires TopicsInv(s) && ClientsInv(s) && HeldInv(s) && Linked(s)
    requires Enabled(s, Unsubscribe(ch)) && u == UnsubscribeNext(s, ch)
    ensures HeldInv(u)
  {
    var mine := s.clients[ch].account;
    forall account ensures HeldOk(u, account) {
      if account in u.hub {
        var t := u.hub[account];
        if account == mine {
          var o :| o in s.topics[t].clients - {ch};
          assert MemberOk(s, t, o);
          assert u.clients[o] == s.clients[o];
        } else {
          assert HeldOk(s, account);
          var o :| o in s.clients && s.clients[o].topic == t && !s.clients[o].released;
          assert ClientOk(s, o) && HubOk(s, account);
          assert u.clients[o] == s.clients[o];
        }
      }
    }
  }

  // ---- broadcast ------------------------------------------------------------------------

  lemma SegmentGrows(c: Client, log: seq<string>, payload: string)
    requires SentSegment(c, log)
    ensures SentSegment(c, log + [payload])
    ensures c.joined + |c.sent| == |log| && HasRoom(c) ==> SentSegment(c.(sent := c.sent + [payload]), log + [payload])
  {
    assert (log + [payload])[c.joined..c.joined + |c.sent|] == log[c.joined..c.joined + |c.sent|];
    if c.joined + |c.sent| == |log| {
      assert (log + [payload])[c.joined..c.joined + |c.sent| + 1] == log[c.joined..c.joined + |c.sent|] + [payload];
    }
  }

  lemma BroadcastTopics(s: State, u: State, t: nat, payload: string)
    requires TopicsInv(s) && Linked(s) && Enabled(s, Broadcast(t, payload)) && u == BroadcastNext(s, t, payload)
    ensures TopicsInv(u)
  {
    forall account ensures HubOk(u, account) {
      assert HubOk(s, account);
    }
    forall o ensures ClosingOk(u, o) {
      assert ClosingOk(s, o);
    }
    forall o ensures TopicOk(u, o) {
      assert ClosingOk(s, o) && TopicOk(s, o);
    }
  }

  lemma BroadcastClients(s: State, u: State, t: nat, payload: string)
    requires ClientsInv(s) && Linked(s) && Enabled(s, Broadcast(t, payload)) && u == BroadcastNext(s, t, payload)
    ensures ClientsInv(u)
  {
    forall ch ensures ClientOk(u, ch) {
      assert ClientOk(s, ch) && MemberOk(s, t, ch);
      if ch in s.clients && s.clients[ch].topic == t {
        SegmentGrows(s.clients[ch], s.topics[t].log, payload);
      }
    }
    forall o, ch ensures MemberOk(u, o, ch) {
      assert MemberOk(s, o, ch) && MemberOk(s, t, ch);
    }
  }

  lemma BroadcastGauges(s: State, u: State, t: nat, payload: string)
    requires ClientsInv(s) && GaugesOk(s) && Linked(s) && Enabled(s, Broadcast(t, payload)) &&
             u == BroadcastNext(s, t, payload)
    ensures GaugesOk(u)
  {
    forall ch ensures ch in Attached(u) <==> ch in Attached(s) && ch !in Slow(s, t) {
      assert ClientOk(s, ch) && MemberOk(s, t, ch);
    }
    forall ch | ch in Slow(s, t) ensures ch in Attached(s) {
      assert MemberOk(s, t, ch);
    }
    assert Attached(u) == Attached(s) - Slow(s, t);
  }

  /** Clients keep their topic and their released flag, so whoever held a topic still holds it. */
  lemma KeepsHolders(s: State, u: State)
    requires HeldInv(s) && u.hub == s.hub && u.clients.Keys == s.clients.Keys
    requires forall ch :: ch in s.clients ==>
               u.clients[ch].topic == s.clients[ch].topic && u.clients[ch].released == s.clients[ch].released
    ensures HeldInv(u)
  {
    forall account ensures HeldOk(u, account) {
      assert HeldOk(s, account);
      if account in s.hub {
        var ch :| ch in s.clients && s.clients[ch].topic == s.hub[account] && !s.clients[ch].released;
        assert u.clients[ch].topic == s.hub[account];
      }
    }
  }

  // ---- receiving and closing ------------------------------------------------------------

  lemma ReceiveInv(s: State, ch: nat)
    requires Inv(s) && Linked(s) && Enabled(s, Receive(ch))
    ensures Inv(Apply(s, Receive(ch)))
  {
    var u := Apply(s, Receive(ch));
    TopicsKept(s, u);
    KeepsHolders(s, u);
    forall o ensures ClientOk(u, o) {
      assert ClientOk(s, o);
    }
    forall t, o ensures MemberOk(u, t, o) {
      assert MemberOk(s, t, o);
    }
    assert Attached(u) == Attached(s);
  }

  lemma TopicsKept(s: State, u: State)
    requires TopicsInv(s) && u.hub == s.hub && u.topics == s.topics && u.closing == s.closing
    ensures TopicsInv(u)
  {
    forall account ensures HubOk(u, account) { assert HubOk(s, account); }
    forall o ensures ClosingOk(u, o) { assert ClosingOk(s, o); }
    forall o ensures TopicOk(u, o) { assert TopicOk(s, o); }
  }

  /** A step of a topic's closer or run loop: the topic's map of clients is what it was. */
  lemma CloserClients(s: State, u: State, t: nat, topic: Topic)
    requires ClientsInv(s) && HeldInv(s) && GaugesOk(s) && t in s.topics
    requires u.hub == s.hub && u.topics == s.topics[t := topic] && u.clients == s.clients
    requires topic.account == s.topics[t].account && topic.clients == s.topics[t].clients &&
             topic.log == s.topics[t].log
    requires u.clientGauge == s.clientGauge && u.topicGauge == s.topicGauge && u.pending == s.pending
    ensures ClientsInv(u) && HeldInv(u) && GaugesOk(u)
  {
    KeepsHolders(s, u);
    forall o ensures ClientOk(u, o) { assert ClientOk(s, o); }
    forall i, o ensures MemberOk(u, i, o) { assert MemberOk(s, i, o); }
    assert Attached(u) == Attached(s);
  }

  lemma StopInv(s: State, t: nat)
    requires Inv(s) && Linked(s) && Enabled(s, Stop(t))
    ensures Inv(Apply(s, Stop(t)))
  {
    var u := Apply(s, Stop(t));
    CloserClients(s, u, t, u.topics[t]);
    forall account ensures HubOk(u, account) { assert HubOk(s, account); }
    forall o ensures ClosingOk(u, o) { assert ClosingOk(s, o); }
    forall o ensures TopicOk(u, o) { assert TopicOk(s, o); }
  }

  lemma RunExitInv(s: State, t: nat)
    requires Inv(s) && Linked(s) && Enabled(s, RunExit(t))
    ensures Inv(Apply(s, RunExit(t)))
  {
    var u := Apply(s, RunExit(t));
    CloserClients(s, u, t, u.topics[t]);
    forall account ensures HubOk(u, account) { assert HubOk(s, account); }
    forall o ensures ClosingOk(u, o) { assert ClosingOk(s, o); }
    forall o ensures TopicOk(u, o) { assert TopicOk(s, o); }
  }

  /** The final sweep finds nothing: a stopped topic is out of the hub, so it has no clients left, and the
      gauge it does not touch needs no change. */
  lemma SweepFindsNothing(s: State, t: nat)
    requires Inv(s) && Linked(s) && Enabled(s, FinalSweep(t))
    ensures s.topics[t].clients == {}
    ensures SweepNext(s, t) == s.(waiting := s.waiting - multiset{t})
  {
    assert TopicOk(s, t);
    assert SweepNext(s, t).clients == s.clients;
  }

  lemma SweepInv(s: State, t: nat)
    requires Inv(s) && Linked(s) && Enabled(s, FinalSweep(t))
    ensures Inv(Apply(s, FinalSweep(t)))
  {
    SweepFindsNothing(s, t);
    var u := Apply(s, FinalSweep(t));
    TopicsKept(s, u);
    CloserClients(s, u, t, s.topics[t]);
  }

  lemma GaugeInv(s: State, op: GaugeOp)
    requires Inv(s) && Linked(s) && Enabled(s, Gauge(op))
    ensures Inv(Apply(s, Gauge(op)))
  {
    var u := Apply(s, Gauge(op));
    TopicsKept(s, u);
    KeepsHolders(s, u);
    forall o ensures ClientOk(u, o) { assert ClientOk(s, o); }
    forall i, o ensures MemberOk(u, i, o) { assert MemberOk(s, i, o); }
    assert Attached(u) == Attached(s);
  }

  lemma SubscribeInv(s: State, account: string, topic: nat, ch: nat)
    requires Inv(s) && Linked(s) && Enabled(s, Subscribe(account, topic, ch))
    ensures Inv(Apply(s, Subscribe(account, topic, ch)))
  {
    var u := Apply(s, Subscribe(account, topic, ch));
    SubscribeTopics(s, u, account, topic, ch);
    SubscribeClients(s, u, account, topic, ch);
    SubscribeGauges(s, u, account, topic, ch);
    SubscribeHeld(s, u, account, topic, ch);
  }

  lemma UnsubscribeInv(s: State, ch: nat)
    requires Inv(s) && Linked(s) && Enabled(s, Unsubscribe(ch))
    ensures Inv(Apply(s, Unsubscribe(ch)))
  {
    var u := Apply(s, Unsubscribe(ch));
    UnsubscribeTopics(s, u, ch);
    UnsubscribeClients(s, u, ch);
    UnsubscribeGauges(s, u, ch);
    UnsubscribeHeld(s, u, ch);
  }

  lemma BroadcastInv(s: State, t: nat, payload: string)
    requires Inv(s) && Linked(s) && Enabled(s, Broadcast(t, payload))
    ensures Inv(Apply(s, Broadcast(t, payload)))
  {
    var u := Apply(s, Broadcast(t, payload));
    BroadcastTopics(s, u, t, payload);
    BroadcastClients(s, u, t, payload);
    BroadcastGauges(s, u, t, payload);
    KeepsHolders(s, u);
  }

  /** Every step of every caller keeps the hub in order. */
  lemma StepInv(s: State, step: Step)
    requires Inv(s) && Linked(s) && Enabled(s, step)
    ensures Inv(Apply(s, step)) && Linked(Apply(s, step))
  {
    match step {
      case Subscribe(account, topic, ch) => SubscribeInv(s, account, topic, ch);
      case Unsubscribe(ch) => UnsubscribeInv(s, ch);
      case Gauge(op) => GaugeInv(s, op);
      case Broadcast(t, payload) => BroadcastInv(s, t, payload);
      case Receive(ch) => ReceiveInv(s, ch);
      case Stop(t) => StopInv(s, t);
      case RunExit(t) => RunExitInv(s, t);
      case FinalSweep(t) => SweepInv(s, t);
    }
    InvLinked(Apply(s, step));
  }

  // ---- runs -----------------------------------------------------------------------------

  /** State `i + 1` follows from state `i` by an enabled step. */
  ghost predicate StepAt(states: seq<State>, steps: seq<Step>, i: nat)
    requires |states| == |steps| + 1 && i < |steps|
  {
    Linked(states[i]) && Enabled(states[i], steps[i]) && states[i + 1] == Apply(states[i], steps[i])
  }

  ghost predicate IsRun(states: seq<State>, steps: seq<Step>) {
    && |states| == |steps| + 1
    && forall i {:trigger StepAt(states, steps, i)} :: 0 <= i < |steps| ==> StepAt(states, steps, i)
  }

  lemma {:induction false} RunInv(states: seq<State>, steps: seq<Step>, n: nat)
    requires IsRun(states, steps) && Initial(states[0]) && n < |states|
    ensures Inv(states[n]) && Linked(states[n])
  {
    if n > 0 {
      RunInv(states, steps, n - 1);
      RunStepInv(states, steps, n - 1);
    } else {
      InitialInv(states[0]);
    }
  }

  lemma RunStepInv(states: seq<State>, steps: seq<Step>, k: nat)
    requires IsRun(states, steps) && k < |steps| && Inv(states[k])
    ensures Inv(states[k + 1]) && Linked(states[k + 1])
  {
    assert StepAt(states, steps, k);
    StepInv(states[k], steps[k]);
  }

  lemma InitialInv(s: State)
    requires Initial(s)
    ensures Inv(s) && Linked(s)
  {
  }

  /** No stop channel is closed twice, and whatever a broadcast sends on is open. */
  lemma NoDoubleClose(states: seq<State>, steps: seq<Step>, n: nat, t: nat, ch: nat)
    requires IsRun(states, steps) && Initial(states[0]) && n < |states| && t in states[n].topics
    ensures states[n].topics[t].stops <= 1
    ensures ch in states[n].topics[t].clients ==> ch in states[n].clients && states[n].clients[ch].open
  {
    RunInv(states, steps, n);
    assert TopicOk(states[n], t) && MemberOk(states[n], t, ch);
  }

  /** Only a subscription puts a topic into the hub, and it is a new one. */
  lemma HubStep(s: State, step: Step, account: string)
    requires Linked(s) && Enabled(s, step) && account in Apply(s, step).hub
    ensures (account in s.hub && Apply(s, step).hub[account] == s.hub[account]) ||
            Apply(s, step).hub[account] !in s.topics
  {
  }

  predicate KeepsTopic(s: State, u: State, t: nat) {
    t in s.topics ==> t in u.topics && u.topics[t].account == s.topics[t].account
  }

  lemma UnsubscribeKeepsTopic(s: State, ch: nat, t: nat)
    requires Linked(s) && ch in s.clients
    ensures KeepsTopic(s, UnsubscribeNext(s, ch), t)
  {
  }

  lemma SubscribeKeepsTopic(s: State, account: string, topic: nat, ch: nat, t: nat)
    requires Linked(s) && (account !in s.hub ==> topic !in s.topics)
    ensures KeepsTopic(s, SubscribeNext(s, account, topic, ch), t)
  {
  }

  lemma BroadcastKeepsTopic(s: State, o: nat, payload: string, t: nat)
    requires Linked(s) && o in s.topics
    ensures KeepsTopic(s, BroadcastNext(s, o, payload), t)
  {
  }

  lemma TopicStep(s: State, step: Step, t: nat)
    requires Linked(s) && Enabled(s, step)
    ensures KeepsTopic(s, Apply(s, step), t)
  {
    match step {
      case Subscribe(account, topic, ch) => SubscribeKeepsTopic(s, account, topic, ch, t);
      case Unsubscribe(ch) => UnsubscribeKeepsTopic(s, ch, t);
      case Broadcast(o, payload) => BroadcastKeepsTopic(s, o, payload, t);
      case _ =>
    }
  }

  lemma RemovedStep(s: State, step: Step, t: nat)
    requires Linked(s) && Enabled(s, step) && t in s.topics && !IsCurrent(s, t)
    ensures t in Apply(s, step).topics && !IsCurrent(Apply(s, step), t)
  {
    TopicStep(s, step, t);
    var u := Apply(s, step);
    if u.topics[t].account in u.hub {
      HubStep(s, step, u.topics[t].account);
    }
  }

  lemma {:induction false} RemovedStaysRemoved(states: seq<State>, steps: seq<Step>, i: nat, n: nat, t: nat)
    requires IsRun(states, steps) && i <= n < |states|
    requires t in states[i].topics && !IsCurrent(states[i], t)
    ensures t in states[n].topics && !IsCurrent(states[n], t)
    decreases n
  {
    if i < n {
      RemovedStaysRemoved(states, steps, i, n - 1, t);
      assert StepAt(states, steps, n - 1);
      RemovedStep(states[n - 1], steps[n - 1], t);
    }
  }

  /** A topic that left the hub never comes back and never gains a client. */
  lemma RemovedStaysEmpty(states: seq<State>, steps: seq<Step>, i: nat, n: nat, t: nat)
    requires IsRun(states, steps) && Initial(states[0]) && i <= n < |states|
    requires t in states[i].topics && !IsCurrent(states[i], t)
    ensures t in states[n].topics && !IsCurrent(states[n], t) && states[n].topics[t].clients == {}
  {
    RemovedStaysRemoved(states, steps, i, n, t);
    RunInv(states, steps, n);
    assert TopicOk(states[n], t);
  }

  /** Once every subscriber of an account has unsubscribed, dropped ones included, no topic is left for it. */
  lemma AllReleasedNoTopic(states: seq<State>, steps: seq<Step>, n: nat, account: string)
    requires IsRun(states, steps) && Initial(states[0]) && n < |states|
    requires forall ch :: ch in states[n].clients && states[n].clients[ch].account == account ==>
               states[n].clients[ch].released
    ensures account !in states[n].hub
  {
    RunInv(states, steps, n);
    if account in states[n].hub {
      var ch := Holder(states[n], account);
    }
  }

  /** Somebody who still holds the account's topic. */
  lemma Holder(s: State, account: string) returns (ch: nat)
    requires Inv(s) && account in s.hub
    ensures ch in s.clients && s.clients[ch].account == account && !s.clients[ch].released
  {
    assert HeldOk(s, account) && HubOk(s, account);
    ch :| ch in s.clients && s.clients[ch].topic == s.hub[account] && !s.clients[ch].released;
    assert ClientOk(s, ch);
  }

  /** Delivery: what a subscriber was sent is what its topic broadcast from the moment it joined, without a
      gap up to now while it is attached, and never more than 16 payloads ahead of what it received. */
  lemma DeliveryIsSegment(states: seq<State>, steps: seq<Step>, n: nat, ch: nat)
    requires IsRun(states, steps) && Initial(states[0]) && n < |states| && ch in states[n].clients
    ensures var c := states[n].clients[ch];
            c.topic in states[n].topics &&
            (var log := states[n].topics[c.topic].log;
             c.joined + |c.sent| <= |log| && c.sent == log[c.joined..c.joined + |c.sent|] &&
             |c.sent| - c.received <= 16 &&
             (ch in Attached(states[n]) ==> c.sent == log[c.joined..]))
  {
    RunInv(states, steps, n);
    assert ClientOk(states[n], ch) && MemberOk(states[n], states[n].clients[ch].topic, ch);
  }

  /** A channel that is still open is in its topic's map. */
  predicate OpenOk(s: State, ch: nat) {
    ch in s.clients && s.clients[ch].open ==>
      s.clients[ch].topic in s.topics && ch in s.topics[s.clients[ch].topic].clients
  }

  ghost predicate OpenInv(s: State) {
    forall ch {:trigger OpenOk(s, ch)} :: OpenOk(s, ch)
  }

  lemma SubscribeOpen(s: State, account: string, topic: nat, ch: nat)
    requires Inv(s) && OpenInv(s) && Linked(s) && Enabled(s, Subscribe(account, topic, ch))
    ensures OpenInv(SubscribeNext(s, account, topic, ch))
  {
    forall o ensures OpenOk(SubscribeNext(s, account, topic, ch), o) {
      assert OpenOk(s, o);
    }
  }

  /** The leaving channel, if still open, is in its own topic's map, so that topic is the current one. */
  lemma UnsubscribeOpen(s: State, ch: nat)
    requires Inv(s) && OpenInv(s) && Linked(s) && Enabled(s, Unsubscribe(ch))
    ensures OpenInv(UnsubscribeNext(s, ch))
  {
    var u := UnsubscribeNext(s, ch);
    forall o ensures OpenOk(u, o) {
      assert OpenOk(s, o) && ClientOk(s, o);
      if o == ch && s.clients[ch].open {
        assert TopicOk(s, s.clients[ch].topic);
      }
    }
  }

  lemma BroadcastOpen(s: State, t: nat, payload: string)
    requires Inv(s) && OpenInv(s) && Linked(s) && Enabled(s, Broadcast(t, payload))
    ensures OpenInv(BroadcastNext(s, t, payload))
  {
    var u := BroadcastNext(s, t, payload);
    forall o ensures OpenOk(u, o) {
      assert OpenOk(s, o) && MemberOk(s, t, o);
    }
  }

  lemma OpenStep(s: State, step: Step)
    requires Inv(s) && OpenInv(s) && Linked(s) && Enabled(s, step)
    ensures OpenInv(Apply(s, step))
  {
    match step {
      case Subscribe(account, topic, ch) => SubscribeOpen(s, account, topic, ch);
      case Unsubscribe(ch) => UnsubscribeOpen(s, ch);
      case Broadcast(t, payload) => BroadcastOpen(s, t, payload);
      case _ =>
        var u := Apply(s, step);
        forall o ensures OpenOk(u, o) {
          assert OpenOk(s, o);
        }
    }
  }

  lemma {:induction false} RunOpen(states: seq<State>, steps: seq<Step>, n: nat)
    requires IsRun(states, steps) && Initial(states[0]) && n < |states|
    ensures OpenInv(states[n])
  {
    if n > 0 {
      RunOpen(states, steps, n - 1);
      RunInv(states, steps, n - 1);
      assert StepAt(states, steps, n - 1);
      OpenStep(states[n - 1], steps[n - 1]);
    } else {
      forall o ensures OpenOk(states[0], o) {}
    }
  }

  /** A channel is open exactly while it is attached, so an unsubscribed one is always closed, whichever
      topic its account has by then. */
  lemma OpenExactlyWhileAttached(states: seq<State>, steps: seq<Step>, n: nat, ch: nat)
    requires IsRun(states, steps) && Initial(states[0]) && n < |states| && ch in states[n].clients
    ensures states[n].clients[ch].open <==> ch in Attached(states[n])
    ensures states[n].clients[ch].released ==> !states[n].clients[ch].open
  {
    RunOpen(states, steps, n);
    RunInv(states, steps, n);
    assert OpenOk(states[n], ch) && MemberOk(states[n], states[n].clients[ch].topic, ch);
  }

  /** With no gauge change outstanding the gauges show the attached clients and the topics of the hub. */
  lemma QuietGaugesAreExact(states: seq<State>, steps: seq<Step>, n: nat)
    requires IsRun(states, steps) && Initial(states[0]) && n < |states| && states[n].pending == multiset{}
    ensures states[n].clientGauge == |Attached(states[n])| && states[n].topicGauge == |states[n].hub|
  {
    RunInv(states, steps, n);
  }

  /** Some run from the empty hub leads to `s`. */
  ghost predicate Reachable(s: State) {
    exists states, steps :: IsRun(states, steps) && Initial(states[0]) && states[|steps|] == s
  }

  lemma ReachableOk(s: State)
    requires Reachable(s)
    ensures Inv(s) && Linked(s)
  {
    var states, steps :| IsRun(states, steps) && Initial(states[0]) && states[|steps|] == s;
    RunInv(states, steps, |steps|);
  }

  /** A subscriber that has unsubscribed is out of its topic and its channel is closed. */
  lemma ReleasedIsClosed(s: State, ch: nat)
    requires Reachable(s) && ch in s.clients && s.clients[ch].released
    ensures ch !in Attached(s) && !s.clients[ch].open
  {
    var states, steps :| IsRun(states, steps) && Initial(states[0]) && states[|steps|] == s;
    OpenExactlyWhileAttached(states, steps, |steps|, ch);
  }

  lemma ReachableLinked(s: State)
    requires Reachable(s)
    ensures Linked(s)
  {
    ReachableOk(s);
  }

  lemma RunExtends(states: seq<State>, steps: seq<Step>, step: Step, u: State)
    requires IsRun(states, steps)
    requires Linked(states[|steps|]) && Enabled(states[|steps|], step) && u == Apply(states[|steps|], step)
    ensures IsRun(states + [u], steps + [step])
  {
    var longer, more := states + [u], steps + [step];
    forall i | 0 <= i < |more| ensures StepAt(longer, more, i) {
      if i < |steps| {
        assert StepAt(states, steps, i);
      }
    }
  }

  lemma ReachableStep(s: State, step: Step, u: State)
    requires Reachable(s) && Linked(s) && Enabled(s, step) && u == Apply(s, step)
    ensures Reachable(u)
  {
    var states, steps :| IsRun(states, steps) && Initial(states[0]) && states[|steps|] == s;
    RunExtends(states, steps, step, u);
    assert Initial((states + [u])[0]) && (states + [u])[|steps + [step]|] == u;
  }

  lemma InitialReachable(s: State)
    requires Initial(s)
    ensures Reachable(s)
  {
    assert IsRun([s], []);
  }

  /** A topic waiting to be closed has not been closed. */
  lemma ClosingNotStopped(s: State, t: nat)
    requires Reachable(s) && t in s.closing
    ensures t in s.topics && s.topics[t].stops == 0
  {
    ReachableOk(s);
    assert ClosingOk(s, t) && TopicOk(s, t);
  }

  // ---- resubscribing --------------------------------------------------------------------

  /** The pause before the run loop's `n`-th resubscription in a row, in seconds: doubled while below 30. */
  function Pause(n: nat): nat {
    if n == 0 then 1 else if Pause(n - 1) < 30 then 2 * Pause(n - 1) else Pause(n - 1)
  }

  /** The pauses double up to 32 seconds and stay there: the bound the code keeps is 32, not 30. */
  lemma {:induction false} PauseTop(n: nat)
    ensures n >= 5 ==> Pause(n) == 32
    ensures n < 5 ==> Pause(n) == Pow2(n)
  {
    if n > 0 {
      PauseTop(n - 1);
    }
    assert Pow2(4) == 16;
  }
}
