/** The hub's own code, updating its maps in place (internal/handler/sse_hub.go). Each lock-protected
    region does exactly what its step of `SseHub` says, and between regions anything may happen. */
module SseServer {
  import opened Wrappers
  import opened SseHub
  import opened SseSafety

  /** Unsubscribing `ch` takes it out of its account's current topic. */
  predicate Removes(s: State, ch: nat) {
    ch in s.clients && s.clients[ch].account in s.hub && s.hub[s.clients[ch].account] in s.topics &&
    ch in s.topics[s.hub[s.clients[ch].account]].clients
  }

  /** The topic that unsubscribing `ch` leaves without clients, if it does. */
  function EmptiedTopic(s: State, ch: nat): Option<nat> {
    if ch in s.clients && s.clients[ch].account in s.hub && s.hub[s.clients[ch].account] in s.topics &&
       s.topics[s.hub[s.clients[ch].account]].clients - {ch} == {}
    then Some(s.hub[s.clients[ch].account]) else None
  }

  lemma UnsubscribeIs(s: State, u: State, ch: nat, removed: bool, empty: bool)
    requires ch in s.clients && s.clients[ch].account in s.hub && s.hub[s.clients[ch].account] in s.topics
    requires var c, t := s.clients[ch], s.hub[s.clients[ch].account];
             removed == (ch in s.topics[t].clients) && empty == (s.topics[t].clients - {ch} == {}) &&
             u.hub == (if empty then s.hub - {c.account} else s.hub) &&
             u.topics == s.topics[t := s.topics[t].(clients := s.topics[t].clients - {ch})] &&
             u.clients.Keys == s.clients.Keys && u.clients[ch] == c.(open := c.open && !removed, released := true) &&
             (forall o :: o in s.clients && o != ch ==> u.clients[o] == s.clients[o]) &&
             u.pending == AfterRemoval(s.pending, removed, empty) &&
             (empty ==> u.closing == s.closing + multiset{t}) && (!empty ==> u.closing == s.closing) &&
             u.clientGauge == s.clientGauge && u.topicGauge == s.topicGauge && u.waiting == s.waiting
    ensures u == UnsubscribeNext(s, ch)
  {
    var v := UnsubscribeNext(s, ch);
    assert u.clients == v.clients;
    assert u.closing == v.closing;
  }

  /** In the middle of a broadcast that began in `s`: the channels in `rest` have not been served. */
  ghost predicate MidBroadcast(s: State, u: State, t: nat, payload: string, rest: set<nat>)
    requires t in s.topics && s.topics[t].clients <= s.clients.Keys
  {
    u == s.(topics := u.topics, clients := u.clients, clientGauge := u.clientGauge) &&
    u.topics == s.topics[t := s.topics[t].(clients := s.topics[t].clients - (Slow(s, t) - rest))] &&
    u.clients.Keys == s.clients.Keys &&
    (forall ch :: ch in s.topics[t].clients - rest ==> u.clients[ch] == AfterBroadcast(s.clients[ch], payload)) &&
    (forall ch :: ch in s.clients.Keys - (s.topics[t].clients - rest) ==> u.clients[ch] == s.clients[ch]) &&
    u.clientGauge == s.clientGauge - |Slow(s, t) - rest|
  }

  lemma BroadcastStarts(s: State, t: nat, payload: string)
    requires t in s.topics && s.topics[t].clients <= s.clients.Keys
    ensures MidBroadcast(s, s, t, payload, s.topics[t].clients)
  {
    assert Slow(s, t) - s.topics[t].clients == {};
    assert s.topics[t].clients - {} == s.topics[t].clients;
    assert s.topics[t].(clients := s.topics[t].clients) == s.topics[t];
  }

  lemma BroadcastEnds(s: State, m: State, u: State, t: nat, payload: string)
    requires t in s.topics && s.topics[t].clients <= s.clients.Keys && MidBroadcast(s, m, t, payload, {})
    requires u == m.(topics := m.topics[t := m.topics[t].(log := s.topics[t].log + [payload])])
    ensures u == BroadcastNext(s, t, payload)
  {
    assert Slow(s, t) - {} == Slow(s, t) && s.topics[t].clients - {} == s.topics[t].clients;
    assert u.clients == BroadcastNext(s, t, payload).clients;
    assert u.topics == BroadcastNext(s, t, payload).topics;
  }

  lemma SendServes(s: State, m: State, u: State, t: nat, ch: nat, payload: string, rest: set<nat>)
    requires t in s.topics && s.topics[t].clients <= s.clients.Keys && ch in rest && rest <= s.topics[t].clients
    requires MidBroadcast(s, m, t, payload, rest) && HasRoom(m.clients[ch])
    requires u == m.(clients := m.clients[ch := m.clients[ch].(sent := m.clients[ch].sent + [payload])])
    ensures MidBroadcast(s, u, t, payload, rest - {ch})
  {
    assert Slow(s, t) - (rest - {ch}) == Slow(s, t) - rest;
  }

  lemma OneMore(slow: set<nat>, rest: set<nat>, ch: nat)
    requires ch in slow && ch in rest
    ensures slow - (rest - {ch}) == (slow - rest) + {ch}
    ensures |slow - (rest - {ch})| == |slow - rest| + 1
  {
    assert slow - (rest - {ch}) == (slow - rest) + {ch};
  }

  lemma DropTopics(topics: map<nat, Topic>, t: nat, gone: set<nat>, ch: nat)
    requires t in topics
    ensures var mid := topics[t := topics[t].(clients := topics[t].clients - gone)];
            mid[t := mid[t].(clients := mid[t].clients - {ch})] ==
            topics[t := topics[t].(clients := topics[t].clients - (gone + {ch}))]
  {
    assert topics[t].clients - gone - {ch} == topics[t].clients - (gone + {ch});
  }

  lemma DropServes(s: State, m: State, u: State, t: nat, ch: nat, payload: string, rest: set<nat>)
    requires t in s.topics && s.topics[t].clients <= s.clients.Keys && ch in rest && rest <= s.topics[t].clients
    requires MidBroadcast(s, m, t, payload, rest) && !HasRoom(m.clients[ch])
    requires u == m.(topics := m.topics[t := m.topics[t].(clients := m.topics[t].clients - {ch})],
                     clientGauge := m.clientGauge - 1,
                     clients := m.clients[ch := m.clients[ch].(open := false)])
    ensures MidBroadcast(s, u, t, payload, rest - {ch})
  {
    DropTopics(s.topics, t, Slow(s, t) - rest, ch);
    OneMore(Slow(s, t), rest, ch);
  }

  class Hub {
    var hub: map<string, nat>
    var topics: map<nat, Topic>
    var clients: map<nat, Client>
    var clientGauge: int
    var topicGauge: int
    ghost var pending: multiset<GaugeOp>
    ghost var closing: multiset<nat>
    ghost var waiting: multiset<nat>
    ghost var paid: map<nat, seq<GaugeOp>>

    ghost function Value(): State
      reads this
    {
      State(hub, topics, clients, clientGauge, topicGauge, pending, closing, waiting)
    }

    /** The gauge changes the handle of `ch` has made. */
    ghost function PaidBy(ch: nat): seq<GaugeOp>
      reads this`paid
    {
      if ch in paid then paid[ch] else []
    }

    constructor ()
      ensures Initial(Value()) && Reachable(Value())
    {
      hub, topics, clients, clientGauge, topicGauge := map[], map[], map[], 0, 0;
      pending, closing, waiting, paid := multiset{}, multiset{}, multiset{}, map[];
      new;
      InitialReachable(Value());
    }

    // ---- the regions --------------------------------------------------------------------

    method MoveGauge(op: GaugeOp)
      modifies this`clientGauge, this`topicGauge, this`pending
      ensures Value() == GaugeNext(old(Value()), op)
    {
      pending := pending - multiset{op};
      match op {
        case ClientInc => clientGauge := clientGauge + 1;
        case ClientDec => clientGauge := clientGauge - 1;
        case TopicInc => topicGauge := topicGauge + 1;
        case TopicDec => topicGauge := topicGauge - 1;
      }
    }

    /** The region of `Subscribe` under both locks, with new identities for the topic and the channel. */
    method Join(account: string, topic: nat, ch: nat) returns (isNew: bool)
      requires account in hub ==> hub[account] in topics
      modifies this`hub, this`topics, this`clients, this`pending, this`closing, this`waiting
      ensures account in old(hub) ==> old(hub)[account] in old(topics)
      ensures Value() == SubscribeNext(old(Value()), account, topic, ch)
      ensures isNew == (account !in old(hub))
    {
      isNew := account !in hub;
      pending := pending + multiset{ClientInc} + if isNew then multiset{TopicInc} else multiset{};
      var t := if isNew then topic else hub[account];
      if isNew {
        topics := topics[t := Topic(account, {}, [], 0, false)];
      }
      hub := hub[account := t];
      clients := clients[ch := Client(account, t, |topics[t].log|, [], 0, true, false)];
      topics := topics[t := topics[t].(clients := topics[t].clients + {ch})];
      assert topics == SubscribeNext(old(Value()), account, topic, ch).topics;
      assert clients == SubscribeNext(old(Value()), account, topic, ch).clients;
    }

    /** `removeClient`: deletes and closes the channel if the topic has it, and says who is left. */
    method RemoveClient(t: nat, ch: nat) returns (removed: bool, empty: bool)
      requires t in topics && ch in clients
      modifies this`topics, this`clients
      ensures removed == (ch in old(topics)[t].clients) && empty == (old(topics)[t].clients - {ch} == {})
      ensures topics == old(topics)[t := old(topics)[t].(clients := old(topics)[t].clients - {ch})]
      ensures clients == old(clients)[ch := old(clients)[ch].(open := old(clients)[ch].open && !removed)]
    {
      removed := ch in topics[t].clients;
      if removed {
        topics := topics[t := topics[t].(clients := topics[t].clients - {ch})];
        clients := clients[ch := clients[ch].(open := false)];
      } else {
        assert topics[t].clients - {ch} == topics[t].clients;
      }
      empty := topics[t].clients == {};
    }

    /** The region of `unsubscribe` under the hub lock; `t` is the topic to be closed, if any. */
    method Leave(ch: nat) returns (removed: bool, emptied: bool, t: nat)
      requires ch in clients && (clients[ch].account in hub ==> hub[clients[ch].account] in topics)
      modifies this`hub, this`topics, this`clients, this`pending, this`closing, this`waiting
      ensures ch in old(clients) &&
              (old(clients)[ch].account in old(hub) ==> old(hub)[old(clients)[ch].account] in old(topics))
      ensures Value() == UnsubscribeNext(old(Value()), ch)
      ensures removed == Removes(old(Value()), ch) && (removed ==> ClientDec in pending)
      ensures EmptiedTopic(old(Value()), ch) == (if emptied then Some(t) else None)
      ensures emptied ==> TopicDec in pending && t in closing
    {
      var account := clients[ch].account;
      if account !in hub {
        removed, emptied, t := false, false, 0;
        clients := clients[ch := clients[ch].(open := false, released := true)];
      } else {
        t := hub[account];
        removed, emptied := LeaveTopic(ch, t);
      }
    }

    /** Takes an emptied topic out of the hub and notes what the call still has to do. */
    method SettleHub(account: string, t: nat, removed: bool, emptied: bool)
      modifies this`hub, this`closing, this`pending
      ensures hub == if emptied then old(hub) - {account} else old(hub)
      ensures pending == AfterRemoval(old(pending), removed, emptied)
      ensures if emptied then closing == old(closing) + multiset{t} && t in closing else closing == old(closing)
      ensures (removed ==> ClientDec in pending) && (emptied ==> TopicDec in pending)
    {
      if emptied {
        hub := hub - {account};
        closing := closing + multiset{t};
      }
      pending := AfterRemoval(pending, removed, emptied);
    }

    /** The part of `Leave` for an account that has a topic. */
    method LeaveTopic(ch: nat, t: nat) returns (removed: bool, emptied: bool)
      requires ch in clients && clients[ch].account in hub && hub[clients[ch].account] == t && t in topics
      modifies this`hub, this`topics, this`clients, this`pending, this`closing, this`waiting
      ensures Value() == UnsubscribeNext(old(Value()), ch)
      ensures removed == Removes(old(Value()), ch) && (removed ==> ClientDec in pending)
      ensures EmptiedTopic(old(Value()), ch) == (if emptied then Some(t) else None)
      ensures emptied ==> TopicDec in pending && t in closing
    {
      ghost var before := Value();
      var account := clients[ch].account;
      clients := clients[ch := clients[ch].(released := true)];
      removed, emptied := RemoveClient(t, ch);
      assert clients[ch] == before.clients[ch].(open := before.clients[ch].open && !removed, released := true);
      SettleHub(account, t, removed, emptied);
      UnsubscribeIs(before, Value(), ch, removed, emptied);
    }

    /** The first part of `close`: closing the stop channel a second time would panic. */
    method StopTopic(t: nat)
      requires t in topics && topics[t].stops == 0 && t in closing
      modifies this`hub, this`topics, this`clients, this`pending, this`closing, this`waiting
      ensures Linked(old(Value())) ==> Value() == Apply(old(Value()), Stop(t))
    {
      topics := topics[t := topics[t].(stops := topics[t].stops + 1)];
      closing, waiting := closing - multiset{t}, waiting + multiset{t};
    }

    /** One broadcast under the topic's lock: a send never blocks, a client with a full buffer is dropped. */
    method Broadcast(t: nat, payload: string)
      requires t in topics && topics[t].clients <= clients.Keys
      modifies this
      ensures t in old(topics) && old(topics)[t].clients <= old(clients).Keys
      ensures Value() == BroadcastNext(old(Value()), t, payload)
    {
      ghost var before := Value();
      var rest := topics[t].clients;
      BroadcastStarts(before, t, payload);
      while rest != {}
        invariant rest <= before.topics[t].clients && MidBroadcast(before, Value(), t, payload, rest)
        decreases |rest|
      {
        var ch :| ch in rest;
        SendOrDrop(t, ch, payload, rest, before);
        rest := rest - {ch};
      }
      label Served:
      topics := topics[t := topics[t].(log := topics[t].log + [payload])];
      BroadcastEnds(before, old@Served(Value()), Value(), t, payload);
    }

    /** One iteration: the select with its default branch. */
    method SendOrDrop(t: nat, ch: nat, payload: string, ghost rest: set<nat>, ghost before: State)
      requires t in before.topics && before.topics[t].clients <= before.clients.Keys
      requires ch in rest && rest <= before.topics[t].clients && MidBroadcast(before, Value(), t, payload, rest)
      modifies this
      ensures MidBroadcast(before, Value(), t, payload, rest - {ch})
    {
      ghost var mid := Value();
      if HasRoom(clients[ch]) {
        clients := clients[ch := clients[ch].(sent := clients[ch].sent + [payload])];
        SendServes(before, mid, Value(), t, ch, payload, rest);
      } else {
        topics := topics[t := topics[t].(clients := topics[t].clients - {ch})];
        clientGauge := clientGauge - 1;
        clients := clients[ch := clients[ch].(open := false)];
        DropServes(before, mid, Value(), t, ch, payload, rest);
      }
    }

    /** The last part of `close`, after the run loop has ended: every channel still there is closed. */
    method SweepTopic(t: nat)
      requires t in topics && topics[t].clients <= clients.Keys
      modifies this
      ensures t in old(topics) && old(topics)[t].clients <= old(clients).Keys
      ensures Value() == SweepNext(old(Value()), t)
    {
      ghost var before := Value();
      var all := topics[t].clients;
      while topics[t].clients != {}
        invariant t in topics && topics[t].clients <= all
        invariant Value() == before.(
          topics := before.topics[t := before.topics[t].(clients := topics[t].clients)],
          clients := map ch | ch in before.clients ::
                       if ch in all - topics[t].clients then before.clients[ch].(open := false) else before.clients[ch])
        decreases |topics[t].clients|
      {
        var ch :| ch in topics[t].clients;
        topics := topics[t := topics[t].(clients := topics[t].clients - {ch})];
        clients := clients[ch := clients[ch].(open := false)];
      }
      waiting := waiting - multiset{t};
    }

    // ---- whole calls --------------------------------------------------------------------

    ghost predicate Owes(op: Option<GaugeOp>)
      reads this
    {
      op.Some? ==> op.value in pending
    }

    /** Other callers, receivers and run loops between two regions of one call: any of their regions, but
        the gauge changes `a` and `b` and the closing of `topic`, which this call still owes, are left to it,
        and only the handle of `ch` releases it. */
    method Interfere(ch: nat, a: Option<GaugeOp>, b: Option<GaugeOp>, topic: Option<nat>)
      requires Reachable(Value()) && ch in clients && Owes(a) && Owes(b) && (topic.Some? ==> topic.value in closing)
      modifies this
      ensures Reachable(Value()) && Owes(a) && Owes(b) && (topic.Some? ==> topic.value in closing)
      ensures ch in clients && clients[ch].account == old(clients)[ch].account &&
              clients[ch].released == old(clients)[ch].released
      ensures PaidBy(ch) == old(PaidBy(ch))
    {
    }

    /** `MoveGauge` as a step of the machine, noted for the handle of `ch`. */
    method PayGauge(ch: nat, op: GaugeOp)
      requires Reachable(Value()) && op in pending
      modifies this`clientGauge, this`topicGauge, this`pending, this`paid
      ensures Reachable(Value()) && Value() == GaugeNext(old(Value()), op)
      ensures forall other :: other != op && other in old(pending) ==> other in pending
      ensures PaidBy(ch) == old(PaidBy(ch)) + [op]
    {
      ReachableLinked(Value());
      ghost var before := Value();
      MoveGauge(op);
      ReachableStep(before, Gauge(op), Value());
      paid := paid[ch := PaidBy(ch) + [op]];
    }

    /** `Join` as a step of the machine. */
    method JoinStep(account: string, topic: nat, ch: nat) returns (isNew: bool)
      requires Reachable(Value()) && topic !in topics && ch !in clients
      modifies this`hub, this`topics, this`clients, this`pending, this`closing, this`waiting
      ensures Reachable(Value()) && ch in clients && clients[ch].account == account && !clients[ch].released
      ensures ClientInc in pending && (isNew ==> TopicInc in pending)
      ensures isNew == (account !in old(hub))
    {
      ReachableLinked(Value());
      ghost var before := Value();
      isNew := Join(account, topic, ch);
      ReachableStep(before, SseHub.Subscribe(account, topic, ch), Value());
    }

    /** `StopTopic` as a step of the machine: a topic still to be closed has not been stopped. */
    method StopStep(t: nat)
      requires Reachable(Value()) && t in closing
      modifies this`hub, this`topics, this`clients, this`pending, this`closing, this`waiting
      ensures Reachable(Value()) && clients == old(clients)
      ensures t in waiting && t in topics && topics[t].stops == 1
    {
      ClosingNotStopped(Value(), t);
      ReachableLinked(Value());
      ghost var before := Value();
      StopTopic(t);
      ReachableStep(before, Stop(t), Value());
    }

    /** `Subscribe`: `topic` and `ch` are the identities the new topic, if one is needed, and the new channel
        get. The call raises the client gauge once, and the topic gauge once if it made the topic. */
    method Subscribe(account: string, topic: nat, ch: nat)
      requires Reachable(Value()) && topic !in topics && ch !in clients
      modifies this
      ensures Reachable(Value())
      ensures ch in clients && clients[ch].account == account && !clients[ch].released
      ensures PaidBy(ch) == old(PaidBy(ch)) + [ClientInc] + if account in old(hub) then [] else [TopicInc]
    {
      var isNew := JoinStep(account, topic, ch);
      RaiseGauges(ch, isNew);
    }

    /** The rest of `Subscribe`, after both locks were given back. */
    method RaiseGauges(ch: nat, isNew: bool)
      requires Reachable(Value()) && ch in clients && ClientInc in pending && (isNew ==> TopicInc in pending)
      modifies this
      ensures Reachable(Value()) && ch in clients
      ensures clients[ch].account == old(clients)[ch].account && clients[ch].released == old(clients)[ch].released
      ensures PaidBy(ch) == old(PaidBy(ch)) + [ClientInc] + if isNew then [TopicInc] else []
    {
      var newTopic := if isNew then Some(TopicInc) else None;
      Interfere(ch, Some(ClientInc), newTopic, None);
      PayGauge(ch, ClientInc);
      if isNew {
        Interfere(ch, newTopic, None, None);
        PayGauge(ch, TopicInc);
      }
    }

    /** The gauge changes of an unsubscription. */
    ghost function Dues(removed: bool, emptied: bool): seq<GaugeOp> {
      (if removed then [ClientDec] else []) + (if emptied then [TopicDec] else [])
    }

    /** The function `Subscribe` returns: the first call takes the channel out, closes it, lowers the gauges
        by what it removed, and stops the topic if it was left empty; `waits` is that topic, whose run loop the
        source then waits for. Any further call does nothing. */
    method Unsubscribe(ch: nat) returns (waits: Option<nat>)
      requires Reachable(Value()) && ch in clients
      modifies this
      ensures Reachable(Value())
      ensures old(clients)[ch].released ==> Value() == old(Value()) && waits == None && PaidBy(ch) == old(PaidBy(ch))
      ensures !old(clients)[ch].released ==>
                waits == EmptiedTopic(old(Value()), ch) &&
                PaidBy(ch) == old(PaidBy(ch)) + Dues(Removes(old(Value()), ch), waits.Some?)
      ensures ch in clients && clients[ch].released && !clients[ch].open && ch !in Attached(Value())
      ensures waits.Some? ==> Stopped(waits.value)
    {
      waits := None;
      if !clients[ch].released {
        var removed, emptied, t := LeaveStep(ch);
        waits := Settle(ch, removed, emptied, t);
      }
      ReleasedIsClosed(Value(), ch);
    }

    /** `Leave` as a step of the machine. */
    method LeaveStep(ch: nat) returns (removed: bool, emptied: bool, t: nat)
      requires Reachable(Value()) && ch in clients && !clients[ch].released
      modifies this`hub, this`topics, this`clients, this`pending, this`closing, this`waiting
      ensures Reachable(Value()) && ch in clients && clients[ch].released
      ensures removed == Removes(old(Value()), ch) && (removed ==> ClientDec in pending)
      ensures EmptiedTopic(old(Value()), ch) == (if emptied then Some(t) else None)
      ensures emptied ==> TopicDec in pending && t in closing
    {
      ReachableLinked(Value());
      ghost var before := Value();
      removed, emptied, t := Leave(ch);
      ReachableStep(before, SseHub.Unsubscribe(ch), Value());
    }

    /** Stopped, and waiting for its run loop to end. */
    ghost predicate Stopped(t: nat)
      reads this
    {
      t in waiting && t in topics && topics[t].stops == 1
    }

    /** The rest of `unsubscribe`, after the hub lock was given back. */
    method Settle(ch: nat, removed: bool, emptied: bool, t: nat) returns (waits: Option<nat>)
      requires Reachable(Value()) && ch in clients && clients[ch].released
      requires (removed ==> ClientDec in pending) && (emptied ==> TopicDec in pending && t in closing)
      modifies this
      ensures Reachable(Value()) && ch in clients && clients[ch].released
      ensures waits == (if emptied then Some(t) else None) && (emptied ==> Stopped(t))
      ensures PaidBy(ch) == old(PaidBy(ch)) + Dues(removed, emptied)
    {
      waits := None;
      if removed {
        Interfere(ch, Some(ClientDec), if emptied then Some(TopicDec) else None, if emptied then Some(t) else None);
        PayGauge(ch, ClientDec);
      }
      if emptied {
        CloseTopic(ch, t);
        waits := Some(t);
      }
    }

    /** The call of `close` up to the point where it waits. */
    method CloseTopic(ch: nat, t: nat)
      requires Reachable(Value()) && ch in clients && clients[ch].released
      requires TopicDec in pending && t in closing
      modifies this
      ensures Reachable(Value()) && ch in clients && clients[ch].released && Stopped(t)
      ensures PaidBy(ch) == old(PaidBy(ch)) + [TopicDec]
    {
      Interfere(ch, Some(TopicDec), None, Some(t));
      PayGauge(ch, TopicDec);
      Interfere(ch, None, None, Some(t));
      StopStep(t);
    }

    /** The end of `close`, once the run loop is done: there is nothing left to close. */
    method FinishClose(t: nat)
      requires Reachable(Value()) && t in waiting && t in topics && topics[t].done
      modifies this
      ensures Reachable(Value()) && topics == old(topics) && clients == old(clients)
    {
      ReachableOk(Value());
      ghost var before := Value();
      SweepTopic(t);
      ReachableStep(before, FinalSweep(t), Value());
      SweepFindsNothing(before, t);
    }
  }
}
