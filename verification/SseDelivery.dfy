/** Whom a broadcast reaches: every subscriber with room in its buffer of 16, and nobody is dropped otherwise
    (internal/handler/sse_hub.go). */
module SseDelivery {
  import opened SseHub
  import opened SseSafety

  /** Payloads sent on the channel and not received yet. */
  function Unread(c: Client): int {
    |c.sent| - c.received
  }

  /** A broadcast as one channel sees it. In the topic's map and with fewer than 16 payloads unread it is sent the
      payload and stays; with 16 unread it is dropped and closed, and gets nothing. Other channels see nothing. */
  lemma BroadcastDelivers(s: State, t: nat, payload: string, ch: nat)
    requires Inv(s) && Linked(s) && Enabled(s, Broadcast(t, payload)) && ch in s.clients
    ensures var u := Apply(s, Broadcast(t, payload));
            var c := s.clients[ch];
            ch in u.clients &&
            if ch !in s.topics[t].clients then
              u.clients[ch] == c && (ch in Attached(u) <==> ch in Attached(s))
            else if Unread(c) < 16 then
              u.clients[ch] == c.(sent := c.sent + [payload]) && c.open && ch in u.topics[t].clients
            else
              Unread(c) == 16 && u.clients[ch] == c.(open := false) && ch !in u.topics[t].clients
  {
    assert MemberOk(s, t, ch) && ClientOk(s, ch);
  }

  /** A broadcast to an account's topic goes to every attached subscriber of the account. */
  lemma AttachedIsAddressed(s: State, t: nat, ch: nat)
    requires Inv(s) && Linked(s) && t in s.topics && IsCurrent(s, t)
    requires ch in Attached(s) && s.clients[ch].account == s.topics[t].account
    ensures ch in s.topics[t].clients
  {
    AttachedIsMember(s, ch);
  }

  lemma UnsubscribeDetaches(s: State, ch: nat, o: nat)
    requires Inv(s) && Linked(s) && Enabled(s, Unsubscribe(o))
    requires ch in Attached(s) && ch !in Attached(UnsubscribeNext(s, o))
    ensures ch == o
  {
    UnsubscribeAttached(s, UnsubscribeNext(s, o), o);
  }

  lemma BroadcastDetaches(s: State, t: nat, payload: string, ch: nat)
    requires Inv(s) && Linked(s) && Enabled(s, Broadcast(t, payload))
    requires ch in Attached(s) && ch !in Attached(BroadcastNext(s, t, payload))
    ensures t == s.clients[ch].topic && Unread(s.clients[ch]) == 16
  {
    BroadcastDelivers(s, t, payload, ch);
    assert MemberOk(s, t, ch);
  }

  /** The only steps that take a channel out of its topic: its own unsubscription, and a broadcast that finds
      16 payloads unread. */
  lemma StepDetaches(s: State, step: Step, ch: nat)
    requires Inv(s) && Linked(s) && Enabled(s, step)
    requires ch in Attached(s) && ch !in Attached(Apply(s, step))
    ensures step == Unsubscribe(ch) ||
            (step.Broadcast? && step.t == s.clients[ch].topic && Unread(s.clients[ch]) == 16)
  {
    match step {
      case Subscribe(account, topic, o) =>
        SubscribeAttached(s, Apply(s, step), account, topic, o);
      case Unsubscribe(o) => UnsubscribeDetaches(s, ch, o);
      case Broadcast(t, payload) => BroadcastDetaches(s, t, payload, ch);
      case FinalSweep(t) => SweepFindsNothing(s, t);
      case _ =>
    }
  }

  /** A new channel is attached. */
  lemma NewIsAttached(s: State, step: Step, ch: nat)
    requires Inv(s) && Linked(s) && Enabled(s, step) && ch !in s.clients && ch in Apply(s, step).clients
    ensures ch in Attached(Apply(s, step))
  {
    assert step.Subscribe?;
    SubscribeAttached(s, Apply(s, step), step.account, step.topic, step.ch);
  }

  /** An unsubscribed channel stays unsubscribed. */
  lemma StaysReleased(s: State, step: Step, ch: nat)
    requires Linked(s) && Enabled(s, step) && ch in s.clients && ch in Apply(s, step).clients
    requires s.clients[ch].released || step == Unsubscribe(ch)
    ensures Apply(s, step).clients[ch].released
  {
    match step {
      case Broadcast(t, payload) => assert Apply(s, step).clients == BroadcastNext(s, t, payload).clients;
      case FinalSweep(t) => assert Apply(s, step).clients == SweepNext(s, t).clients;
      case _ =>
    }
  }

  /** In step `j` a broadcast to the channel's topic found 16 payloads unread and dropped it. */
  predicate DroppedAt(states: seq<State>, steps: seq<Step>, j: nat, ch: nat)
    requires |states| == |steps| + 1 && j < |steps|
  {
    ch in Attached(states[j]) && ch !in Attached(states[j + 1]) &&
    steps[j].Broadcast? && steps[j].t == states[j].clients[ch].topic && Unread(states[j].clients[ch]) == 16
  }

  /** A subscriber that has not unsubscribed is attached, unless a broadcast found its buffer of 16 full. */
  lemma {:induction false} DroppedOnlyWhenFull(states: seq<State>, steps: seq<Step>, n: nat, ch: nat)
    requires IsRun(states, steps) && Initial(states[0]) && n < |states|
    requires ch in states[n].clients && !states[n].clients[ch].released && ch !in Attached(states[n])
    ensures exists j :: 0 <= j < n && DroppedAt(states, steps, j, ch)
    decreases n
  {
    var s, step := states[n - 1], steps[n - 1];
    RunInv(states, steps, n - 1);
    assert StepAt(states, steps, n - 1);
    if ch !in s.clients {
      NewIsAttached(s, step, ch);
    } else if s.clients[ch].released || step == Unsubscribe(ch) {
      StaysReleased(s, step, ch);
    } else if ch in Attached(s) {
      StepDetaches(s, step, ch);
      assert DroppedAt(states, steps, n - 1, ch);
    } else {
      DroppedOnlyWhenFull(states, steps, n - 1, ch);
    }
  }
}
