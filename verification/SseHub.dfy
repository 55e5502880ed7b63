/** The fan-out hub for server-sent events as a state machine: every lock-protected region of
    internal/handler/sse_hub.go is one step, and steps of all callers interleave freely. */
module SseHub {

  const BUFFER := 16

  /** One subscription topic. `clients` are the channels in its map, `log` everything broadcast so far;
      `stops` counts how often its stop channel was closed, `done` says that its run loop has ended. */
  datatype Topic = Topic(account: string, clients: set<nat>, log: seq<string>, stops: nat, done: bool)

  /** One subscriber's channel: the topic it joined and when, everything ever sent on it, how much of that
      was received, whether it is open, and whether its unsubscribe function has run. */
  datatype Client = Client(account: string, topic: nat, joined: nat, sent: seq<string>, received: nat,
                           open: bool, released: bool)

  /** Gauge changes made after the lock was given back. */
  datatype GaugeOp = ClientInc | ClientDec | TopicInc | TopicDec

  /** `hub` is the map of current topics; `closing` are topics whose remover has yet to close them,
      `waiting` those whose remover waits for the run loop to end. */
  datatype State = State(
    hub: map<string, nat>,
    topics: map<nat, Topic>,
    clients: map<nat, Client>,
    clientGauge: int,
    topicGauge: int,
    pending: multiset<GaugeOp>,
    closing: multiset<nat>,
    waiting: multiset<nat>)

  datatype Step =
    | Subscribe(account: string, topic: nat, ch: nat)
    | Unsubscribe(ch: nat)
    | Gauge(op: GaugeOp)
    | Broadcast(t: nat, payload: string)
    | Receive(ch: nat)
    | Stop(t: nat)
    | RunExit(t: nat)
    | FinalSweep(t: nat)

  // ---- the regions ----------------------------------------------------------------------

  /** Ids of new topics and channels are new. */
  predicate Enabled(s: State, step: Step) {
    match step
    case Subscribe(account, topic, ch) => ch !in s.clients && (account !in s.hub ==> topic !in s.topics)
    case Unsubscribe(ch) => ch in s.clients && !s.clients[ch].released
    case Gauge(op) => op in s.pending
    case Broadcast(t, _) => t in s.topics && !s.topics[t].done
    case Receive(ch) => ch in s.clients && s.clients[ch].received < |s.clients[ch].sent|
    case Stop(t) => t in s.topics && t in s.closing
    case RunExit(t) => t in s.topics && s.topics[t].stops > 0 && !s.topics[t].done
    case FinalSweep(t) => t in s.topics && t in s.waiting && s.topics[t].done
  }

  /** Finds or creates the topic and puts a new channel into it. */
  function SubscribeNext(s: State, account: string, topic: nat, ch: nat): State
    requires account in s.hub ==> s.hub[account] in s.topics
  {
    var isNew := account !in s.hub;
    var t := if isNew then topic else s.hub[account];
    var before := if isNew then Topic(account, {}, [], 0, false) else s.topics[t];
    s.(hub := s.hub[account := t],
       topics := s.topics[t := before.(clients := before.clients + {ch})],
       clients := s.clients[ch := Client(account, t, |before.log|, [], 0, true, false)],
       pending := s.pending + multiset{ClientInc} + if isNew then multiset{TopicInc} else multiset{})
  }

  /** The gauge changes an unsubscription leaves to be made. */
  function AfterRemoval(pending: multiset<GaugeOp>, removed: bool, empty: bool): (r: multiset<GaugeOp>)
    ensures r[ClientDec] == pending[ClientDec] + if removed then 1 else 0
    ensures r[TopicDec] == pending[TopicDec] + if empty then 1 else 0
    ensures r[ClientInc] == pending[ClientInc] && r[TopicInc] == pending[TopicInc]
  {
    pending + (if removed then multiset{ClientDec} else multiset{}) + (if empty then multiset{TopicDec} else multiset{})
  }

  /** Takes the channel out of the account's current topic, if it is there, and the topic out of the hub,
      if nobody is left. The channel ends up closed in every case but one: a dropped channel is closed already
      when a newer topic of the account has other clients. */
  function UnsubscribeNext(s: State, ch: nat): State
    requires ch in s.clients
    requires s.clients[ch].account in s.hub ==> s.hub[s.clients[ch].account] in s.topics
  {
    var c := s.clients[ch];
    if c.account !in s.hub then
      s.(clients := s.clients[ch := c.(open := false, released := true)])
    else
      var t := s.hub[c.account];
      var removed := ch in s.topics[t].clients;
      var left := s.topics[t].clients - {ch};
      var empty := left == {};
      s.(hub := if empty then s.hub - {c.account} else s.hub,
         topics := s.topics[t := s.topics[t].(clients := left)],
         clients := s.clients[ch := c.(open := c.open && !removed, released := true)],
         pending := AfterRemoval(s.pending, removed, empty),
         closing := s.closing + if empty then multiset{t} else multiset{})
  }

  /** Room for one more payload in the channel's buffer. */
  predicate HasRoom(c: Client) {
    |c.sent| < c.received + BUFFER
  }

  /** A broadcast as seen by one channel of the topic: sent, or dropped and closed. */
  function AfterBroadcast(c: Client, payload: string): Client {
    if HasRoom(c) then c.(sent := c.sent + [payload]) else c.(open := false)
  }

  /** The slow clients a broadcast drops. */
  function Slow(s: State, t: nat): set<nat>
    requires t in s.topics && s.topics[t].clients <= s.clients.Keys
  {
    set ch | ch in s.topics[t].clients && !HasRoom(s.clients[ch])
  }

  function BroadcastNext(s: State, t: nat, payload: string): State
    requires t in s.topics && s.topics[t].clients <= s.clients.Keys
  {
    var topic := s.topics[t];
    s.(topics := s.topics[t := topic.(clients := topic.clients - Slow(s, t), log := topic.log + [payload])],
       clients := map ch | ch in s.clients ::
                    if ch in topic.clients then AfterBroadcast(s.clients[ch], payload) else s.clients[ch],
       clientGauge := s.clientGauge - |Slow(s, t)|)
  }

  function GaugeNext(s: State, op: GaugeOp): State {
    var t := s.(pending := s.pending - multiset{op});
    match op
    case ClientInc => t.(clientGauge := s.clientGauge + 1)
    case ClientDec => t.(clientGauge := s.clientGauge - 1)
    case TopicInc => t.(topicGauge := s.topicGauge + 1)
    case TopicDec => t.(topicGauge := s.topicGauge - 1)
  }

  /** The closer's last region: every channel still in the map is removed and closed, the gauge untouched. */
  function SweepNext(s: State, t: nat): State
    requires t in s.topics && s.topics[t].clients <= s.clients.Keys
  {
    s.(topics := s.topics[t := s.topics[t].(clients := {})],
       clients := map ch | ch in s.clients ::
                    if ch in s.topics[t].clients then s.clients[ch].(open := false) else s.clients[ch],
       waiting := s.waiting - multiset{t})
  }

  /** Topics and clients refer to each other. */
  predicate Linked(s: State) {
    (forall account :: account in s.hub ==> s.hub[account] in s.topics) &&
    (forall t :: t in s.topics ==> s.topics[t].clients <= s.clients.Keys)
  }

  function Apply(s: State, step: Step): State
    requires Enabled(s, step) && Linked(s)
  {
    match step
    case Subscribe(account, topic, ch) => SubscribeNext(s, account, topic, ch)
    case Unsubscribe(ch) => UnsubscribeNext(s, ch)
    case Gauge(op) => GaugeNext(s, op)
    case Broadcast(t, payload) => BroadcastNext(s, t, payload)
    case Receive(ch) => s.(clients := s.clients[ch := s.clients[ch].(received := s.clients[ch].received + 1)])
    case Stop(t) =>
      s.(topics := s.topics[t := s.topics[t].(stops := s.topics[t].stops + 1)],
         closing := s.closing - multiset{t}, waiting := s.waiting + multiset{t})
    case RunExit(t) => s.(topics := s.topics[t := s.topics[t].(done := true)])
    case FinalSweep(t) => SweepNext(s, t)
  }

  predicate Initial(s: State) {
    s == State(map[], map[], map[], 0, 0, multiset{}, multiset{}, multiset{})
  }

  // ---- the invariant --------------------------------------------------------------------

  predicate IsCurrent(s: State, t: nat)
    requires t in s.topics
  {
    s.topics[t].account in s.hub && s.hub[s.topics[t].account] == t
  }

  /** A hub entry is a topic of its account. */
  predicate HubOk(s: State, account: string) {
    account in s.hub ==> s.hub[account] in s.topics && s.topics[s.hub[account]].account == account
  }

  /** Nobody closes a topic that is in the hub; a topic out of the hub is closed exactly once, now or soon,
      and has no clients. */
  predicate TopicOk(s: State, t: nat) {
    t in s.topics ==>
      s.topics[t].stops + s.closing[t] == (if IsCurrent(s, t) then 0 else 1) &&
      (s.topics[t].done ==> s.topics[t].stops > 0) &&
      (!IsCurrent(s, t) ==> s.topics[t].clients == {})
  }

  predicate ClosingOk(s: State, t: nat) {
    s.closing[t] > 0 ==> t in s.topics
  }

  /** What a channel was sent is a contiguous piece of its topic's broadcasts from the moment it joined. */
  predicate SentSegment(c: Client, log: seq<string>) {
    c.joined + |c.sent| <= |log| && c.sent == log[c.joined..c.joined + |c.sent|] &&
    c.received <= |c.sent| <= c.received + BUFFER
  }

  predicate ClientOk(s: State, ch: nat) {
    ch in s.clients ==>
      s.clients[ch].topic in s.topics && s.topics[s.clients[ch].topic].account == s.clients[ch].account &&
      SentSegment(s.clients[ch], s.topics[s.clients[ch].topic].log)
  }

  /** A channel in a topic's map is open, its subscriber still there, and it has missed nothing. */
  predicate MemberOk(s: State, t: nat, ch: nat) {
    t in s.topics && ch in s.topics[t].clients ==>
      ch in s.clients && s.clients[ch].topic == t && s.clients[ch].open && !s.clients[ch].released &&
      s.clients[ch].joined + |s.clients[ch].sent| == |s.topics[t].log|
  }

  /** Every current topic has a subscriber that has not unsubscribed. */
  ghost predicate Held(s: State, t: nat) {
    exists ch :: ch in s.clients && s.clients[ch].topic == t && !s.clients[ch].released
  }

  ghost predicate HeldOk(s: State, account: string) {
    account in s.hub ==> Held(s, s.hub[account])
  }

  /** The channels currently in some topic's map. */
  function Attached(s: State): set<nat> {
    set ch | ch in s.clients && s.clients[ch].topic in s.topics && ch in s.topics[s.clients[ch].topic].clients
  }

  predicate GaugesOk(s: State) {
    s.clientGauge + s.pending[ClientInc] - s.pending[ClientDec] == |Attached(s)| &&
    s.topicGauge + s.pending[TopicInc] - s.pending[TopicDec] == |s.hub|
  }

  ghost predicate TopicsInv(s: State) {
    (forall account {:trigger HubOk(s, account)} :: HubOk(s, account)) &&
    (forall t {:trigger TopicOk(s, t)} :: TopicOk(s, t)) &&
    (forall t {:trigger ClosingOk(s, t)} :: ClosingOk(s, t))
  }

  ghost predicate ClientsInv(s: State) {
    (forall ch {:trigger ClientOk(s, ch)} :: ClientOk(s, ch)) &&
    (forall t, ch {:trigger MemberOk(s, t, ch)} :: MemberOk(s, t, ch))
  }

  ghost predicate HeldInv(s: State) {
    forall account {:trigger HeldOk(s, account)} :: HeldOk(s, account)
  }

  ghost predicate Inv(s: State) {
    TopicsInv(s) && ClientsInv(s) && HeldInv(s) && GaugesOk(s)
  }

  lemma InvLinked(s: State)
    requires TopicsInv(s) && ClientsInv(s)
    ensures Linked(s)
  {
    forall account | account in s.hub ensures s.hub[account] in s.topics {
      assert HubOk(s, account);
    }
    forall t, ch | t in s.topics && ch in s.topics[t].clients ensures ch in s.clients {
      assert MemberOk(s, t, ch);
    }
  }
}
