/** One delivery of a queue message: the recipients of a mail in turn, and the reply to the queue
    (internal/worker/worker.go, internal/queue/queue.go). */
module Delivery {
  import opened FreshIds
  import opened Powers
  import opened Wrappers
  import opened Ingest
  import opened IngestWorker
  import opened IngestSafety
  import opened IngestAck
  import opened IngestOutcome
  import Strings

  // ---- recipients -----------------------------------------------------------------------

  /** First occurrences of the normalized, non-empty recipients, in order. */
  function Deduplicated(to: seq<string>): seq<string> {
    if to == [] then []
    else
      var before := Deduplicated(to[..|to| - 1]);
      var r := Strings.Normalize(to[|to| - 1]);
      if r == "" || r in before then before else before + [r]
  }

  /** The recipients an attempt is made for. A single recipient is taken as it is. */
  function UniqueTo(to: seq<string>): seq<string> {
    if |to| > 1 && Deduplicated(to) != [] then Deduplicated(to) else to
  }

  /** No recipient is served twice and none is lost. */
  lemma {:induction false} DeduplicatedExactly(to: seq<string>)
    ensures forall i, j :: 0 <= i < j < |Deduplicated(to)| ==> Deduplicated(to)[i] != Deduplicated(to)[j]
    ensures forall r :: r in Deduplicated(to) <==> r != "" && exists i :: 0 <= i < |to| && Strings.Normalize(to[i]) == r
  {
    if to != [] {
      DeduplicatedExactly(to[..|to| - 1]);
      forall r
        ensures r in Deduplicated(to) <==> r != "" && exists i :: 0 <= i < |to| && Strings.Normalize(to[i]) == r
      {
        var front := to[..|to| - 1];
        if r != "" && exists i :: 0 <= i < |to| && Strings.Normalize(to[i]) == r {
          var i :| 0 <= i < |to| && Strings.Normalize(to[i]) == r;
          assert i < |front| ==> Strings.Normalize(front[i]) == r;
        }
        if r in Deduplicated(to) && r in Deduplicated(front) {
          var i :| 0 <= i < |front| && Strings.Normalize(front[i]) == r;
          assert Strings.Normalize(to[i]) == r;
        }
      }
    }
  }

  /** One of the names is a spelling of the address. */
  ghost predicate Names(q: seq<string>, address: string) {
    exists i :: 0 <= i < |q| && Strings.Normalize(q[i]) == address
  }

  lemma DeduplicatedNormal(to: seq<string>, r: string)
    requires r in Deduplicated(to)
    ensures Strings.Normalize(r) == r && r != "" && Names(to, r)
  {
    DeduplicatedExactly(to);
    var i :| 0 <= i < |to| && Strings.Normalize(to[i]) == r;
    Strings.NormalizeTwice(to[i]);
  }

  lemma DeduplicatedNames(to: seq<string>, address: string)
    requires address != ""
    ensures Names(Deduplicated(to), address) <==> Names(to, address)
  {
    DeduplicatedExactly(to);
    var names := Deduplicated(to);
    if Names(names, address) {
      var j :| 0 <= j < |names| && Strings.Normalize(names[j]) == address;
      DeduplicatedNormal(to, names[j]);
    }
    if Names(to, address) {
      assert address in names;
      var j :| 0 <= j < |names| && names[j] == address;
      DeduplicatedNormal(to, names[j]);
    }
  }

  /** Exactly the addresses named by the mail are served. */
  lemma RecipientsExactly(to: seq<string>, address: string)
    requires address != ""
    ensures Names(UniqueTo(to), address) <==> Names(to, address)
    ensures UniqueTo(to) == [] <==> to == []
  {
    DeduplicatedNames(to, address);
  }

  /** Several names of one address are served once. */
  lemma RecipientsOnce(to: seq<string>, i: nat, j: nat)
    requires i < j < |UniqueTo(to)| && Strings.Normalize(UniqueTo(to)[i]) != ""
    ensures Strings.Normalize(UniqueTo(to)[i]) != Strings.Normalize(UniqueTo(to)[j])
  {
    DeduplicatedExactly(to);
    var names, address := Deduplicated(to), Strings.Normalize(UniqueTo(to)[i]);
    assert Names(UniqueTo(to), address);
    RecipientsExactly(to, address);
    DeduplicatedNames(to, address);
    if |to| > 1 {
      DeduplicatedNormal(to, names[i]);
      DeduplicatedNormal(to, names[j]);
    }
  }

  method CollectRecipients(to: seq<string>) returns (out: seq<string>)
    ensures out == UniqueTo(to)
  {
    out := to;
    if |to| > 1 {
      var seen: set<string> := {};
      var kept: seq<string> := [];
      var i := 0;
      while i < |to|
        invariant i <= |to| && kept == Deduplicated(to[..i])
        invariant forall r :: r in seen <==> r in kept
      {
        assert to[..i + 1][..i] == to[..i];
        var r := Strings.Normalize(to[i]);
        if r != "" && r !in seen {
          seen := seen + {r};
          kept := kept + [r];
        }
        i := i + 1;
      }
      assert to[..|to|] == to;
      if kept != [] {
        out := kept;
      }
    }
  }

  // ---- the message handler --------------------------------------------------------------

  datatype Incoming = Incoming(to: seq<string>, stream: string, seqNo: int, size: nat)

  function JobFor(m: Incoming, recipient: string): Job {
    Job(recipient, m.stream, m.seqNo, m.size)
  }

  /** Between moments `k` and `n` an attempt for the job ran from its start to its end, with `outcome`. */
  ghost predicate Ended(states: seq<State>, k: nat, n: nat, job: Job, outcome: Outcome) {
    exists j: nat, i: nat, w: nat :: k <= j && i <= n && Ran(states, j, i, w, job, outcome)
  }

  /** Between moments `k` and `n` the recipient was settled: stored, or failed for good. */
  ghost predicate Settled(states: seq<State>, k: nat, n: nat, job: Job) {
    (Ended(states, k, n, job, Success) && (DedupApplies(job) ==> WasStored(states, k, n, job))) ||
    Ended(states, k, n, job, Permanent)
  }

  lemma EndedLater(before: seq<State>, after: seq<State>, k: nat, n: nat, k2: nat, n2: nat, job: Job, outcome: Outcome)
    requires Ended(before, k, n, job, outcome) && before <= after && k2 <= k && n <= n2 && n < |before|
    ensures Ended(after, k2, n2, job, outcome)
  {
    var j: nat, i: nat, w: nat :| k <= j && i <= n && Ran(before, j, i, w, job, outcome);
    assert before[j] == after[j] && before[i] == after[i];
    assert Ran(after, j, i, w, job, outcome);
  }

  lemma SettledLater(before: seq<State>, after: seq<State>, k: nat, n: nat, n2: nat, job: Job)
    requires Settled(before, k, n, job) && before <= after && n <= n2 && n < |before|
    ensures Settled(after, k, n2, job)
  {
    if Ended(before, k, n, job, Permanent) {
      EndedLater(before, after, k, n, k, n2, job, Permanent);
      return;
    }
    EndedLater(before, after, k, n, k, n2, job, Success);
    if DedupApplies(job) {
      var i, a :| k <= i <= n && i < |before| && StoredAt(before, i, a, job) &&
        WasAccount(before, k, n, a, job.recipient);
      var j :| k <= j <= n && j < |before| && HasAddress(before[j].db, a, Strings.Normalize(job.recipient));
      assert WasAccount(after, k, n2, a, job.recipient) by { assert after[j] == before[j]; }
      assert StoredAt(after, i, a, job);
    }
  }

  /** One recipient: a new attempt, run to its end. */
  method ServeRecipient(c: Cluster, job: Job, now: int) returns (outcome: Outcome)
    requires c.Valid()
    modifies c, c.store
    ensures c.Valid() && Extends(c)
    ensures Ended(c.states, |old(c.states)|, |c.states| - 1, job, outcome)
    ensures outcome == Success || outcome == Permanent ==>
              Settled(c.states, |old(c.states)|, |c.states| - 1, job)
  {
    ghost var w := Fresh(c.Now().workers.Keys);
    c.Record(Deliver(w, job));
    ghost var k := |c.states| - 1;
    outcome := ProcessForRecipient(c, w, job, now);
    ghost var n := |c.states| - 1;
    assert Ran(c.states, k, n, w, job, outcome);
    if outcome == Success && DedupApplies(job) {
      SuccessMeansStored(c.states, c.steps, k, n, w, job);
    }
  }

  lemma SettledFrom(states: seq<State>, k: nat, k2: nat, n: nat, job: Job)
    requires Settled(states, k, n, job) && k2 <= k && n < |states|
    ensures Settled(states, k2, n, job)
  {
    if Ended(states, k, n, job, Permanent) {
      EndedLater(states, states, k, n, k2, n, job, Permanent);
    } else {
      EndedLater(states, states, k, n, k2, n, job, Success);
      if DedupApplies(job) {
        StoredLater(states, k, n, k2, n, job);
      }
    }
  }

  /** The first `i` recipients are settled. */
  ghost predicate AllSettled(states: seq<State>, k: nat, m: Incoming, unique: seq<string>, i: nat)
    requires i <= |unique| && |states| > 0
  {
    forall j :: 0 <= j < i ==> Settled(states, k, |states| - 1, JobFor(m, unique[j]))
  }

  lemma OneMoreSettled(before: seq<State>, after: seq<State>, k: nat, m: Incoming, unique: seq<string>, i: nat)
    requires i < |unique| && 0 < |before| && before <= after && k <= |before|
    requires AllSettled(before, k, m, unique, i)
    requires Settled(after, |before|, |after| - 1, JobFor(m, unique[i]))
    ensures AllSettled(after, k, m, unique, i + 1)
  {
    forall j | 0 <= j < i ensures Settled(after, k, |after| - 1, JobFor(m, unique[j])) {
      SettledLater(before, after, k, |before| - 1, |after| - 1, JobFor(m, unique[j]));
    }
    SettledFrom(after, |before|, k, |after| - 1, JobFor(m, unique[i]));
  }

  /** The first `i` recipients all ended with `outcome`. */
  ghost predicate AllEnded(states: seq<State>, k: nat, m: Incoming, unique: seq<string>, i: nat, outcome: Outcome)
    requires i <= |unique| && |states| > 0
  {
    forall j :: 0 <= j < i ==> Ended(states, k, |states| - 1, JobFor(m, unique[j]), outcome)
  }

  /** One of the recipients ended with `outcome`. */
  ghost predicate SomeEnded(states: seq<State>, k: nat, m: Incoming, unique: seq<string>, outcome: Outcome)
    requires |states| > 0
  {
    exists j :: 0 <= j < |unique| && Ended(states, k, |states| - 1, JobFor(m, unique[j]), outcome)
  }

  lemma AllEndedLater(before: seq<State>, after: seq<State>, k: nat, m: Incoming, unique: seq<string>, i: nat,
                      outcome: Outcome)
    requires i <= |unique| && 0 < |before| && before <= after && AllEnded(before, k, m, unique, i, outcome)
    ensures AllEnded(after, k, m, unique, i, outcome)
  {
    forall j | 0 <= j < i ensures Ended(after, k, |after| - 1, JobFor(m, unique[j]), outcome) {
      EndedLater(before, after, k, |before| - 1, k, |after| - 1, JobFor(m, unique[j]), outcome);
    }
  }

  lemma SomeEndedLater(before: seq<State>, after: seq<State>, k: nat, m: Incoming, unique: seq<string>,
                       outcome: Outcome)
    requires 0 < |before| && before <= after && SomeEnded(before, k, m, unique, outcome)
    ensures SomeEnded(after, k, m, unique, outcome)
  {
    var j :| 0 <= j < |unique| && Ended(before, k, |before| - 1, JobFor(m, unique[j]), outcome);
    EndedLater(before, after, k, |before| - 1, k, |after| - 1, JobFor(m, unique[j]), outcome);
  }

  /** What recipient `i` adds: it ended as it did, counted from the start of the delivery. */
  lemma NextEnded(after: seq<State>, k: nat, k2: nat, m: Incoming, unique: seq<string>, i: nat, outcome: Outcome)
    requires i < |unique| && 0 < |after| && k2 <= k && Ended(after, k, |after| - 1, JobFor(m, unique[i]), outcome)
    ensures SomeEnded(after, k2, m, unique, outcome)
    ensures AllEnded(after, k2, m, unique, i, outcome) ==> AllEnded(after, k2, m, unique, i + 1, outcome)
  {
    EndedLater(after, after, k, |after| - 1, k2, |after| - 1, JobFor(m, unique[i]), outcome);
  }

  /** How far the loop over the recipients has come. */
  ghost predicate Progress(states: seq<State>, k: nat, m: Incoming, unique: seq<string>, i: nat,
                           transient: bool, permanentFailures: nat)
    requires i <= |unique| && |states| > 0
  {
    permanentFailures <= i &&
    (permanentFailures == i ==> AllEnded(states, k, m, unique, i, Permanent)) &&
    (transient ==> SomeEnded(states, k, m, unique, Transient)) &&
    (!transient ==> AllSettled(states, k, m, unique, i))
  }

  /** One recipient more. */
  lemma ProgressStep(before: seq<State>, after: seq<State>, k: nat, m: Incoming, unique: seq<string>, i: nat,
                     transient: bool, permanentFailures: nat, outcome: Outcome)
    requires i < |unique| && 0 < |before| && before <= after && k <= |before| && outcome != Panicked
    requires Progress(before, k, m, unique, i, transient, permanentFailures)
    requires Ended(after, |before|, |after| - 1, JobFor(m, unique[i]), outcome)
    requires outcome != Transient ==> Settled(after, |before|, |after| - 1, JobFor(m, unique[i]))
    ensures Progress(after, k, m, unique, i + 1, transient || outcome == Transient,
                     permanentFailures + if outcome == Permanent then 1 else 0)
  {
    NextEnded(after, |before|, k, m, unique, i, outcome);
    if permanentFailures == i {
      AllEndedLater(before, after, k, m, unique, i, Permanent);
    }
    if transient {
      SomeEndedLater(before, after, k, m, unique, Transient);
    } else if outcome != Transient {
      OneMoreSettled(before, after, k, m, unique, i);
    }
  }

  /** The recipients in turn; stops only at a panic. Counts the permanent failures. */
  method ServeAll(c: Cluster, m: Incoming, unique: seq<string>, now: int)
    returns (panicked: bool, transient: bool, permanentFailures: nat)
    requires c.Valid()
    modifies c, c.store
    ensures c.Valid() && Extends(c)
    ensures panicked ==> SomeEnded(c.states, |old(c.states)|, m, unique, Panicked)
    ensures !panicked ==> Progress(c.states, |old(c.states)|, m, unique, |unique|, transient, permanentFailures)
  {
    panicked, transient, permanentFailures := false, false, 0;
    for i := 0 to |unique|
      invariant c.Valid() && old(c.states) <= c.states && old(c.steps) <= c.steps && !panicked
      invariant Progress(c.states, |old(c.states)|, m, unique, i, transient, permanentFailures)
    {
      ghost var before := c.states;
      var outcome := ServeRecipient(c, JobFor(m, unique[i]), now);
      match outcome {
        case Panicked =>
          NextEnded(c.states, |before|, |old(c.states)|, m, unique, i, Panicked);
          panicked := true;
          return;
        case _ => ProgressStep(before, c.states, |old(c.states)|, m, unique, i, transient, permanentFailures, outcome);
      }
      if outcome == Permanent {
        permanentFailures := permanentFailures + 1;
      } else if outcome == Transient {
        transient := true;
      }
    }
  }

  /** Why the message handler ends as it does. */
  ghost predicate Justified(states: seq<State>, k: nat, m: Incoming, verdict: Outcome)
    requires |states| > 0
  {
    var unique := UniqueTo(m.to);
    match verdict
    case Success => m.to != [] && AllSettled(states, k, m, unique, |unique|)
    case Permanent => AllEnded(states, k, m, unique, |unique|, Permanent)
    case _ => SomeEnded(states, k, m, unique, verdict)
  }

  /** The message handler. It gives the message up only when every recipient failed for good, ends without a
      retry only when every recipient is settled, and asks for one only when some attempt was cut short. */
  method ProcessMessage(c: Cluster, m: Incoming, now: int) returns (verdict: Outcome)
    requires c.Valid()
    modifies c, c.store
    ensures c.Valid() && Extends(c)
    ensures m.to == [] ==> verdict == Permanent
    ensures Justified(c.states, |old(c.states)|, m, verdict)
  {
    if m.to == [] {
      return Permanent;
    }
    var unique := CollectRecipients(m.to);
    var panicked, transient, permanentFailures := ServeAll(c, m, unique, now);
    verdict := if panicked then Panicked
               else if transient then Transient
               else if permanentFailures > 0 && permanentFailures == |unique| then Permanent
               else Success;
  }

  // ---- the delivery callback ------------------------------------------------------------

  /** Replies to the queue; delays in seconds. */
  datatype Reply = Ack | Nak(delay: nat) | Term

  /** A delivered message: its metadata if they could be read, and the replies sent so far. */
  class QueueMessage {
    const metadata: Option<(string, nat)>
    const numDelivered: nat
    var replies: seq<Reply>

    constructor (metadata: Option<(string, nat)>, numDelivered: nat)
      ensures this.metadata == metadata && this.numDelivered == numDelivered && replies == []
    {
      this.metadata, this.numDelivered, replies := metadata, numDelivered, [];
    }

    method Send(reply: Reply)
      modifies this
      ensures replies == old(replies) + [reply]
    {
      replies := replies + [reply];
    }
  }

  /** What decoding the payload did: recipients and size, a malformed payload, or a panic. */
  datatype Decoded = Decoded(to: seq<string>, size: nat) | Malformed | DecodePanic

  const MAX_INT64: nat := 0x7fff_ffff_ffff_ffff

  /** Metadata become the ingest key; a sequence number beyond int64 switches the key off. */
  function IngestKey(metadata: Option<(string, nat)>): (string, int) {
    match metadata
    case None => ("", 0)
    case Some((stream, seqNo)) => (stream, if seqNo > MAX_INT64 then 0 else seqNo)
  }

  /** Doubling from one second at the second delivery, at most 30 seconds. */
  function RetryDelay(metadata: Option<(string, nat)>, numDelivered: nat): nat {
    if metadata == None || numDelivered < 2 then 1
    else if numDelivered - 2 >= 5 then 30 else Pow2(numDelivered - 2)
  }

  method BackOff(msg: QueueMessage) returns (delay: nat)
    ensures delay == RetryDelay(msg.metadata, msg.numDelivered)
  {
    delay := 1;
    if msg.metadata != None && msg.numDelivered > 1 {
      var exp := msg.numDelivered - 2;
      if exp > 6 {
        exp := 6;
      }
      delay := Pow2(exp);
    }
    if delay > 30 {
      delay := 30;
    }
    assert Pow2(4) == 16 && Pow2(5) == 32 && Pow2(6) == 64;
  }

  /** What each reply to a decoded message means; `retry` is the pause due at this delivery. */
  ghost predicate Answers(states: seq<State>, k: nat, m: Incoming, retry: nat, reply: Reply)
    requires |states| > 0
  {
    match reply
    case Ack => Justified(states, k, m, Success)
    case Term => Justified(states, k, m, Permanent)
    case Nak(delay) =>
      (delay == retry && Justified(states, k, m, Transient)) || (delay == 5 && Justified(states, k, m, Panicked))
  }

  /** Every callback sends exactly one reply, panics included: Term for a malformed message or one whose
      recipients all failed for good, Nak when an attempt was cut short, Ack when every recipient is settled. */
  method HandleDelivery(c: Cluster, msg: QueueMessage, payload: Decoded, now: int)
    requires c.Valid()
    modifies c, c.store, msg
    ensures c.Valid() && Extends(c)
    ensures |msg.replies| == |old(msg.replies)| + 1 && old(msg.replies) <= msg.replies
    ensures var (stream, seqNo) := IngestKey(msg.metadata);
            var reply := msg.replies[|old(msg.replies)|];
            match payload
            case DecodePanic => reply == Nak(5)
            case Malformed => reply == Term
            case Decoded(to, size) =>
              Answers(c.states, |old(c.states)|, Incoming(to, stream, seqNo, size),
                      RetryDelay(msg.metadata, msg.numDelivered), reply)
  {
    var (stream, seqNo) := IngestKey(msg.metadata);
    match payload {
      case DecodePanic => msg.Send(Nak(5));
      case Malformed => msg.Send(Term);
      case Decoded(to, size) =>
        var m := Incoming(to, stream, seqNo, size);
        var verdict := ProcessMessage(c, m, now);
        match verdict {
          case Panicked => msg.Send(Nak(5));
          case Permanent => msg.Send(Term);
          case Transient =>
            var delay := BackOff(msg);
            msg.Send(Nak(delay));
          case Success => msg.Send(Ack);
        }
    }
  }

  // ---- what a reply means ---------------------------------------------------------------

  /** One of the delivery's own calls for the job is a reason for the outcome. */
  ghost predicate Reason(states: seq<State>, steps: seq<Step>, k: nat, job: Job, outcome: Outcome)
    requires |states| == |steps| + 1
  {
    exists w: nat :: Caused(states, steps, k, |steps|, w, job, outcome)
  }

  lemma EndedHasReason(states: seq<State>, steps: seq<Step>, k: nat, job: Job, outcome: Outcome)
    requires IsRun(states, steps) && WellFormed(states[0]) && Ended(states, k, |states| - 1, job, outcome)
    ensures Reason(states, steps, k, job, outcome)
  {
    var j: nat, i: nat, w: nat :| k <= j && i <= |states| - 1 && Ran(states, j, i, w, job, outcome);
    OutcomeCaused(states, steps, j, i, w, job, outcome);
    var c :| j <= c < i && c < |steps| && CauseAt(states, steps, c, w, job, outcome);
    assert Caused(states, steps, k, |steps|, w, job, outcome);
  }

  /** An acknowledged message found or stored, within its delivery, a document for each distinct recipient that did
      not fail for good; with ingest metadata, one under its key on the recipient's account. */
  lemma AckMeansStored(states: seq<State>, steps: seq<Step>, k: nat, m: Incoming, retry: nat, r: string)
    requires IsRun(states, steps) && WellFormed(states[0]) && Answers(states, k, m, retry, Ack) && r in UniqueTo(m.to)
    ensures (Reason(states, steps, k, JobFor(m, r), Success) &&
             (m.stream != "" && m.seqNo > 0 ==> WasStored(states, k, |states| - 1, JobFor(m, r)))) ||
            Reason(states, steps, k, JobFor(m, r), Permanent)
  {
    var unique := UniqueTo(m.to);
    var j :| 0 <= j < |unique| && unique[j] == r;
    assert Settled(states, k, |states| - 1, JobFor(m, unique[j]));
    var outcome := if Ended(states, k, |states| - 1, JobFor(m, r), Permanent) then Permanent else Success;
    EndedHasReason(states, steps, k, JobFor(m, r), outcome);
  }

  /** A message is given up only if each distinct recipient was unknown, over quota or unparsable. */
  lemma TermMeansRefused(states: seq<State>, steps: seq<Step>, k: nat, m: Incoming, retry: nat, r: string)
    requires IsRun(states, steps) && WellFormed(states[0]) && Answers(states, k, m, retry, Term) && r in UniqueTo(m.to)
    ensures Reason(states, steps, k, JobFor(m, r), Permanent)
  {
    var unique := UniqueTo(m.to);
    var j :| 0 <= j < |unique| && unique[j] == r;
    EndedHasReason(states, steps, k, JobFor(m, unique[j]), Permanent);
  }

  /** A retry is asked for only if a call for one of the recipients failed, or parsing panicked. */
  lemma NakMeansFault(states: seq<State>, steps: seq<Step>, k: nat, m: Incoming, retry: nat, delay: nat)
    requires IsRun(states, steps) && WellFormed(states[0]) && Answers(states, k, m, retry, Nak(delay))
    ensures exists r :: r in UniqueTo(m.to) &&
              (Reason(states, steps, k, JobFor(m, r), Transient) || Reason(states, steps, k, JobFor(m, r), Panicked))
  {
    var unique := UniqueTo(m.to);
    var outcome := if Justified(states, k, m, Transient) then Transient else Panicked;
    var j :| 0 <= j < |unique| && Ended(states, k, |states| - 1, JobFor(m, unique[j]), outcome);
    EndedHasReason(states, steps, k, JobFor(m, unique[j]), outcome);
    assert unique[j] in unique;
  }

  /** Every recipient's message is stored already and stays stored, and no call made for it fails. */
  ghost predicate AllStored(states: seq<State>, steps: seq<Step>, k: nat, m: Incoming)
    requires |states| == |steps| + 1
  {
    forall r :: r in UniqueTo(m.to) ==> exists a :: Undisturbed(states, steps, k, |steps|, JobFor(m, r), a)
  }

  lemma StoredEnds(states: seq<State>, steps: seq<Step>, k: nat, m: Incoming, r: string, outcome: Outcome)
    requires IsRun(states, steps) && AllStored(states, steps, k, m) && r in UniqueTo(m.to)
    requires Ended(states, k, |states| - 1, JobFor(m, r), outcome)
    ensures outcome == Success
  {
    var a :| Undisturbed(states, steps, k, |steps|, JobFor(m, r), a);
    var j: nat, i: nat, w: nat :| k <= j && i <= |states| - 1 && Ran(states, j, i, w, JobFor(m, r), outcome);
    StoredEndsInSuccess(states, steps, j, i, w, JobFor(m, r), a, outcome);
  }

  /** The redelivery of a mail that is stored for all its recipients is acknowledged: it is neither given up nor
      asked for again. */
  lemma RedeliveryIsAcked(states: seq<State>, steps: seq<Step>, k: nat, m: Incoming, retry: nat, reply: Reply)
    requires IsRun(states, steps) && Answers(states, k, m, retry, reply)
    requires m.to != [] && AllStored(states, steps, k, m)
    ensures reply == Ack
  {
    var unique := UniqueTo(m.to);
    assert unique != [];
    if reply == Term {
      assert Ended(states, k, |states| - 1, JobFor(m, unique[0]), Permanent);
      StoredEnds(states, steps, k, m, unique[0], Permanent);
    } else if reply.Nak? {
      var outcome := if Justified(states, k, m, Transient) then Transient else Panicked;
      var j :| 0 <= j < |unique| && Ended(states, k, |states| - 1, JobFor(m, unique[j]), outcome);
      StoredEnds(states, steps, k, m, unique[j], outcome);
    }
  }

  /** The pause before a redelivery: a second for the first two deliveries, doubled by each further one, at most
      half a minute; without metadata always a second. */
  lemma PauseDoubles(metadata: Option<(string, nat)>, n: nat)
    ensures metadata == None || n <= 2 ==> RetryDelay(metadata, n) == 1
    ensures metadata.Some? && n >= 2 ==>
              RetryDelay(metadata, n + 1) ==
                if 2 * RetryDelay(metadata, n) > 30 then 30 else 2 * RetryDelay(metadata, n)
  {
    assert Pow2(0) == 1 && Pow2(1) == 2 && Pow2(2) == 4 && Pow2(3) == 8 && Pow2(4) == 16;
  }

  /** A sequence number is the ingest key's unless it does not fit an int64; then the mail has no key. */
  lemma KeyFromMetadata(stream: string, seqNo: nat, to: seq<string>, size: nat, r: string)
    ensures var (s, q) := IngestKey(Some((stream, seqNo)));
            DedupApplies(JobFor(Incoming(to, s, q, size), r)) <==>
              stream != "" && 0 < seqNo <= 9_223_372_036_854_775_807
    ensures 0 < seqNo <= 9_223_372_036_854_775_807 ==> IngestKey(Some((stream, seqNo))) == (stream, seqNo)
    ensures IngestKey(None) == ("", 0)
  {
  }
}
