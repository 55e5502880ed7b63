/** Why an attempt ends as it does: every outcome has its cause among the attempt's own steps, and a redelivered
    message that is stored already ends in success (internal/worker/worker.go). */
module IngestOutcome {
  import opened MailStore
  import opened Ingest
  import opened IngestSafety
  import opened IngestAck
  import Strings

  // ---- causes ---------------------------------------------------------------------------

  /** Nobody has the recipient's address. */
  ghost predicate NobodyHas(db: Db, recipient: string) {
    var address := Strings.Normalize(recipient);
    address == "" || forall a :: a in db.accounts ==> db.accounts[a].address != address
  }

  /** The account is gone, or it has a quota and `size` more bytes exceed it. */
  predicate QuotaRefuses(db: Db, a: AccountId, size: nat) {
    a !in db.accounts || (db.accounts[a].quota > 0 && db.accounts[a].used + size > db.accounts[a].quota)
  }

  /** A message of the job's account under the job's key, whether or not it has been deleted. */
  ghost predicate KeyTaken(db: Db, a: AccountId, job: Job) {
    exists id :: id in db.messages && HasKey(db.messages[id], a, job.stream, job.seqNo)
  }

  /** The attempt's message as it is stored: unread, live, with the job's size and key. */
  predicate StoredNew(db: Db, id: MessageId, a: AccountId, job: Job, now: int) {
    id in db.messages &&
    var m := db.messages[id];
    m.account == a && m.createdAt == now && m.size == job.size && m.stream == job.stream && m.seqNo == job.seqNo &&
    !m.seen && !m.deleted
  }

  /** The call of attempt phase `p`, made on `before` and leaving `after`, is a reason for the outcome. */
  ghost predicate Cause(before: Db, p: Phase, c: Choice, after: Db, outcome: Outcome) {
    match outcome
    case Success =>
      (p.Dedup? && p.job.stream != "" && p.job.seqNo > 0 && KeyTaken(before, p.acct, p.job)) ||
      (p.Inserting? && c.parse == ParseOk &&
        ((p.job.stream != "" && p.job.seqNo != 0 && KeyTaken(before, p.acct, p.job)) ||
         StoredNew(after, c.id, p.acct, p.job, c.now)))
    case Permanent =>
      (p.Lookup? && NobodyHas(before, p.job.recipient)) ||
      (p.Reserving? && p.retried && QuotaRefuses(before, p.acct, p.job.size)) ||
      (p.Inserting? && c.parse == ParseFailed)
    case Transient => (p.Lookup? || p.Dedup? || p.Reserving? || p.Inserting?) && c.fault != NoFault
    case Panicked => p.Inserting? && c.parse == ParsePanic
  }

  /** Step `j` is attempt `w`'s own and is a reason for the outcome. */
  ghost predicate CauseAt(states: seq<State>, steps: seq<Step>, j: nat, w: nat, job: Job, outcome: Outcome)
    requires |states| == |steps| + 1 && j < |steps|
  {
    steps[j].Work? && steps[j].w == w && w in states[j].workers && states[j].workers[w].job == job &&
    Cause(states[j].db, states[j].workers[w], steps[j].choice, states[j + 1].db, outcome)
  }

  ghost predicate Caused(states: seq<State>, steps: seq<Step>, k: nat, n: nat, w: nat, job: Job, outcome: Outcome)
    requires |states| == |steps| + 1
  {
    exists j :: k <= j < n && j < |steps| && CauseAt(states, steps, j, w, job, outcome)
  }

  /** The outcome an attempt has settled on, if it has. */
  predicate Settles(p: Phase) {
    p.RollingBack? || p.Done?
  }

  /** A call that settles the outcome is a reason for it. */
  lemma CallCause(db: Db, p: Phase, c: Choice)
    requires !Settles(p) && Settles(WorkNext(db, p, c).1)
    requires p.Lookup? && c.fault == NoFault ==> LookupAnswer(db, p.job.recipient, c.found)
    requires p.Inserting? ==> c.id !in db.messages
    ensures WorkNext(db, p, c).1.job == p.job
    ensures Cause(db, p, c, WorkNext(db, p, c).0, WorkNext(db, p, c).1.outcome)
  {
    if p.Lookup? && c.fault == NoFault {
      assert forall a :: a in db.accounts && db.accounts[a].address == Strings.Normalize(p.job.recipient) ==>
          HasAddress(db, a, Strings.Normalize(p.job.recipient));
    }
  }

  lemma CallKeeps(db: Db, p: Phase, c: Choice)
    ensures WorkNext(db, p, c).1.job == p.job
    ensures Settles(p) ==> Settles(WorkNext(db, p, c).1) && WorkNext(db, p, c).1.outcome == p.outcome
  {
  }

  lemma CausedLater(states: seq<State>, steps: seq<Step>, k: nat, n: nat, w: nat, job: Job, outcome: Outcome)
    requires |states| == |steps| + 1 && Caused(states, steps, k, n, w, job, outcome)
    ensures Caused(states, steps, k, n + 1, w, job, outcome)
  {
    var j :| k <= j < n && j < |steps| && CauseAt(states, steps, j, w, job, outcome);
  }

  ghost predicate OutcomeExplained(states: seq<State>, steps: seq<Step>, k: nat, n: nat, w: nat)
    requires |states| == |steps| + 1 && n < |states|
  {
    w in states[n].workers && Settles(states[n].workers[w]) ==>
      Caused(states, steps, k, n, w, states[n].workers[w].job, states[n].workers[w].outcome)
  }

  lemma OwnStepExplained(states: seq<State>, steps: seq<Step>, k: nat, n: nat, w: nat)
    requires |states| == |steps| + 1 && k <= n < |steps| && StepAt(states, steps, n) && WellFormed(states[n])
    requires steps[n].Work? && steps[n].w == w && OutcomeExplained(states, steps, k, n, w)
    ensures OutcomeExplained(states, steps, k, n + 1, w)
  {
    var p, c := states[n].workers[w], steps[n].choice;
    CallKeeps(states[n].db, p, c);
    if Settles(p) {
      CausedLater(states, steps, k, n, w, p.job, p.outcome);
    } else if Settles(WorkNext(states[n].db, p, c).1) {
      CallCause(states[n].db, p, c);
      assert CauseAt(states, steps, n, w, p.job, WorkNext(states[n].db, p, c).1.outcome);
    }
  }

  lemma NextExplained(states: seq<State>, steps: seq<Step>, k: nat, n: nat, w: nat)
    requires |states| == |steps| + 1 && k <= n < |steps| && StepAt(states, steps, n) && WellFormed(states[n])
    requires OutcomeExplained(states, steps, k, n, w)
    ensures OutcomeExplained(states, steps, k, n + 1, w)
  {
    if w in states[n + 1].workers {
      AttemptStep(states[n], steps[n], w);
      if steps[n].Work? && steps[n].w == w {
        OwnStepExplained(states, steps, k, n, w);
      } else if w in states[n].workers && Settles(states[n].workers[w]) {
        CausedLater(states, steps, k, n, w, states[n].workers[w].job, states[n].workers[w].outcome);
      }
    }
  }

  lemma {:induction false} AttemptCaused(states: seq<State>, steps: seq<Step>, k: nat, n: nat, w: nat)
    requires IsRun(states, steps) && WellFormed(states[0]) && k <= n < |states|
    requires w in states[k].workers ==> states[k].workers[w].Lookup?
    ensures OutcomeExplained(states, steps, k, n, w)
    decreases n
  {
    if n > k {
      AttemptCaused(states, steps, k, n - 1, w);
      RunWellFormed(states, steps, n - 1);
      assert StepAt(states, steps, n - 1);
      NextExplained(states, steps, k, n - 1, w);
    }
  }

  /** Between moments `k` and `n` attempt `w` for the job ran from its start to its end. */
  ghost predicate Ran(states: seq<State>, k: nat, n: nat, w: nat, job: Job, outcome: Outcome) {
    k <= n < |states| && w in states[k].workers && states[k].workers[w] == Lookup(job) &&
    w in states[n].workers && states[n].workers[w] == Done(job, outcome)
  }

  /** Every outcome has its cause. An attempt fails for good only if nobody has the address, its message does not
      parse, or its second reservation meets a quota that is exceeded (or no account); it asks for a retry only if
      one of its own calls failed; it succeeds only if it found the message or stored it. */
  lemma OutcomeCaused(states: seq<State>, steps: seq<Step>, k: nat, n: nat, w: nat, job: Job, outcome: Outcome)
    requires IsRun(states, steps) && WellFormed(states[0]) && Ran(states, k, n, w, job, outcome)
    ensures Caused(states, steps, k, n, w, job, outcome)
  {
    AttemptCaused(states, steps, k, n, w);
  }

  // ---- the second reservation comes after a recalculation -------------------------------

  /** Step `j` is the attempt's read of what the account really uses. */
  predicate RecalculatesAt(states: seq<State>, steps: seq<Step>, j: nat, w: nat, job: Job, a: AccountId)
    requires |states| == |steps| + 1 && j < |steps|
  {
    steps[j].Work? && steps[j].w == w && w in states[j].workers && states[j].workers[w] == RecalcReading(job, a)
  }

  ghost predicate Recalculated(states: seq<State>, steps: seq<Step>, k: nat, n: nat, w: nat, job: Job, a: AccountId)
    requires |states| == |steps| + 1
  {
    exists j :: k <= j < n && j < |steps| && RecalculatesAt(states, steps, j, w, job, a)
  }

  predicate AfterRecalculation(p: Phase) {
    p.RecalcWriting? || (p.Reserving? && p.retried)
  }

  /** No reservation is refused for good before the attempt has looked at what the account really uses. */
  lemma {:induction false} RetryRecalculates(states: seq<State>, steps: seq<Step>, k: nat, n: nat, w: nat)
    requires IsRun(states, steps) && k <= n < |states|
    requires w in states[k].workers ==> states[k].workers[w].Lookup?
    requires w in states[n].workers && AfterRecalculation(states[n].workers[w])
    ensures Recalculated(states, steps, k, n, w, states[n].workers[w].job, states[n].workers[w].acct)
    decreases n
  {
    var s, p := states[n - 1], states[n].workers[w];
    assert StepAt(states, steps, n - 1);
    AttemptStep(s, steps[n - 1], w);
    if AfterRecalculation(s.workers[w]) {
      RetryRecalculates(states, steps, k, n - 1, w);
      var j :| k <= j < n - 1 && j < |steps| && RecalculatesAt(states, steps, j, w, p.job, p.acct);
    } else {
      assert RecalculatesAt(states, steps, n - 1, w, p.job, p.acct);
    }
  }

  // ---- a stored message is not stored again, and not given up ---------------------------

  /** `a` is the recipient's one account and holds the message. */
  ghost predicate StoredFor(db: Db, job: Job, a: AccountId) {
    var address := Strings.Normalize(job.recipient);
    address != "" && a in db.accounts && db.accounts[a].address == address &&
    (forall b :: b in db.accounts && db.accounts[b].address == address ==> b == a) &&
    DedupApplies(job) && KeyTaken(db, a, job)
  }

  /** From moment `k` to `n` the message stays stored and no call made for the job fails. */
  ghost predicate Undisturbed(states: seq<State>, steps: seq<Step>, k: nat, n: nat, job: Job, a: AccountId)
    requires |states| == |steps| + 1
  {
    (forall j :: k <= j <= n && j < |states| ==> StoredFor(states[j].db, job, a)) &&
    (forall j :: k <= j < n && j < |steps| ==> Works(states[j], steps[j], job))
  }

  /** The step is no failing call of an attempt for the job. */
  predicate Works(s: State, step: Step, job: Job) {
    step.Work? && step.w in s.workers && s.workers[step.w].job == job ==> step.choice.fault == NoFault
  }

  /** The phases such an attempt goes through. */
  predicate OnTrack(p: Phase, a: AccountId) {
    p == Lookup(p.job) || p == Dedup(p.job, a) || p == Done(p.job, Success)
  }

  lemma CallOnTrack(db: Db, p: Phase, c: Choice, a: AccountId)
    requires StoredFor(db, p.job, a) && OnTrack(p, a) && c.fault == NoFault
    requires p.Lookup? ==> LookupAnswer(db, p.job.recipient, c.found)
    ensures OnTrack(WorkNext(db, p, c).1, a)
  {
    if p.Lookup? {
      assert HasAddress(db, a, Strings.Normalize(p.job.recipient));
    }
  }

  lemma {:induction false} StaysOnTrack(states: seq<State>, steps: seq<Step>, k: nat, n: nat, w: nat, job: Job,
                                        a: AccountId)
    requires IsRun(states, steps) && k <= n < |states| && Undisturbed(states, steps, k, n, job, a)
    requires w in states[k].workers ==> states[k].workers[w].Lookup?
    ensures w in states[n].workers && states[n].workers[w].job == job ==> OnTrack(states[n].workers[w], a)
    decreases n
  {
    if n > k {
      StaysOnTrack(states, steps, k, n - 1, w, job, a);
      assert StepAt(states, steps, n - 1);
      var s, step := states[n - 1], steps[n - 1];
      if w in states[n].workers && states[n].workers[w].job == job {
        AttemptStep(s, step, w);
        if step.Work? && step.w == w {
          CallKeeps(s.db, s.workers[w], step.choice);
          assert StoredFor(s.db, job, a) && Works(s, step, job);
          CallOnTrack(s.db, s.workers[w], step.choice, a);
        }
      }
    }
  }

  /** A redelivery of a stored message ends in success, if nothing fails, whatever the message's bytes are. */
  lemma StoredEndsInSuccess(states: seq<State>, steps: seq<Step>, k: nat, n: nat, w: nat, job: Job, a: AccountId,
                            outcome: Outcome)
    requires IsRun(states, steps) && Ran(states, k, n, w, job, outcome)
    requires Undisturbed(states, steps, k, n, job, a)
    ensures outcome == Success
  {
    StaysOnTrack(states, steps, k, n, w, job, a);
  }
}
