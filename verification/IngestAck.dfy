/** What a successful attempt has seen: its recipient's message stored while it ran
    (internal/worker/worker.go). */
module IngestAck {
  import opened MailStore
  import opened Ingest
  import opened IngestSafety
  import Strings

  // ---- a successful attempt has seen its message stored ---------------------------------

  /** `a` was the account of the recipient at some moment from `k` to `n`. */
  ghost predicate WasAccount(states: seq<State>, k: nat, n: nat, a: AccountId, recipient: string) {
    exists j :: k <= j <= n && j < |states| && HasAddress(states[j].db, a, Strings.Normalize(recipient))
  }

  ghost predicate StoredAt(states: seq<State>, i: nat, a: AccountId, job: Job)
    requires i < |states|
  {
    HasIngest(states[i].db, a, job.stream, job.seqNo)
  }

  /** At some moment from `k` to `n` the recipient's account had a message under the job's ingest key. */
  ghost predicate WasStored(states: seq<State>, k: nat, n: nat, job: Job) {
    exists i, a :: k <= i <= n && i < |states| && StoredAt(states, i, a, job) &&
                   WasAccount(states, k, n, a, job.recipient)
  }

  predicate SuccessLike(p: Phase) {
    (p.RollingBack? || p.Done?) && p.outcome == Success
  }

  /** What is known of attempt `w` at moment `n` if it had not got past the lookup at moment `k`. */
  ghost predicate Explained(states: seq<State>, k: nat, n: nat, p: Phase) {
    (!p.Lookup? && !p.Done? ==> WasAccount(states, k, n, p.acct, p.job.recipient)) &&
    (SuccessLike(p) && DedupApplies(p.job) ==> WasStored(states, k, n, p.job))
  }

  lemma ExplainedLater(states: seq<State>, k: nat, n: nat, p: Phase)
    requires Explained(states, k, n, p)
    ensures Explained(states, k, n + 1, p)
  {
    if !p.Lookup? && !p.Done? {
      var j :| k <= j <= n && j < |states| && HasAddress(states[j].db, p.acct, Strings.Normalize(p.job.recipient));
    }
    if SuccessLike(p) && DedupApplies(p.job) {
      StoredLater(states, k, n, k, n + 1, p.job);
    }
  }

  lemma StoredLater(states: seq<State>, k: nat, n: nat, k2: nat, n2: nat, job: Job)
    requires WasStored(states, k, n, job) && k2 <= k && n <= n2
    ensures WasStored(states, k2, n2, job)
  {
    var i, a :| k <= i <= n && i < |states| && StoredAt(states, i, a, job) &&
      WasAccount(states, k, n, a, job.recipient);
    var j :| k <= j <= n && j < |states| && HasAddress(states[j].db, a, Strings.Normalize(job.recipient));
    assert WasAccount(states, k2, n2, a, job.recipient);
  }

  /** An insert that succeeds, or is refused because the message is there, leaves the key stored. */
  lemma InsertExplained(states: seq<State>, k: nat, n: nat, p: Phase, c: Choice)
    requires k <= n && n + 1 < |states| && p.Inserting? && c.id !in states[n].db.messages && DedupApplies(p.job)
    requires states[n + 1].db == WorkNext(states[n].db, p, c).0 && SuccessLike(WorkNext(states[n].db, p, c).1)
    requires WasAccount(states, k, n + 1, p.acct, p.job.recipient)
    ensures WasStored(states, k, n + 1, p.job)
  {
    var m := NewMessage(p.job, p.acct, c.now);
    if Conflicts(states[n].db, m) {
      assert StoredAt(states, n, p.acct, p.job);
    } else {
      assert HasKey(states[n + 1].db.messages[c.id], p.acct, p.job.stream, p.job.seqNo);
      assert StoredAt(states, n + 1, p.acct, p.job);
    }
  }

  lemma AccountLater(states: seq<State>, k: nat, n: nat, a: AccountId, recipient: string)
    requires WasAccount(states, k, n, a, recipient)
    ensures WasAccount(states, k, n + 1, a, recipient)
  {
    var j :| k <= j <= n && j < |states| && HasAddress(states[j].db, a, Strings.Normalize(recipient));
  }

  /** The three ways an attempt comes to count as successful: the dedup check found the message, the
      insert stored it, or the unique index refused it because it is there. */
  lemma SuccessExplained(states: seq<State>, k: nat, n: nat, p: Phase, c: Choice)
    requires k <= n && n + 1 < |states| && Explained(states, k, n, p) && !p.Done? && !p.Lookup?
    requires p.Inserting? ==> c.id !in states[n].db.messages
    requires states[n + 1].db == WorkNext(states[n].db, p, c).0
    requires SuccessLike(WorkNext(states[n].db, p, c).1) && DedupApplies(p.job)
    ensures WasStored(states, k, n + 1, p.job)
  {
    AccountLater(states, k, n, p.acct, p.job.recipient);
    match p {
      case Dedup(job, a) => assert StoredAt(states, n, a, job);
      case Inserting(_, _) => InsertExplained(states, k, n, p, c);
      case RollingBack(_, _, _) => StoredLater(states, k, n, k, n + 1, p.job);
      case _ =>
    }
  }

  lemma WorkExplained(states: seq<State>, k: nat, n: nat, p: Phase, c: Choice)
    requires k <= n && n + 1 < |states| && Explained(states, k, n, p) && !p.Done?
    requires p.Lookup? && c.fault == NoFault ==> LookupAnswer(states[n].db, p.job.recipient, c.found)
    requires p.Inserting? ==> c.id !in states[n].db.messages
    requires states[n + 1].db == WorkNext(states[n].db, p, c).0
    ensures Explained(states, k, n + 1, WorkNext(states[n].db, p, c).1)
  {
    var q := WorkNext(states[n].db, p, c).1;
    if p.Lookup? {
      if q.Dedup? {
        assert HasAddress(states[n].db, q.acct, Strings.Normalize(q.job.recipient));
      }
    } else {
      AccountLater(states, k, n, p.acct, p.job.recipient);
      if SuccessLike(q) && DedupApplies(q.job) {
        SuccessExplained(states, k, n, p, c);
      }
    }
  }

  /** What one step of the system can do to attempt `w`. */
  lemma AttemptStep(s: State, step: Step, w: nat)
    requires Enabled(s, step) && w in Apply(s, step).workers
    ensures var p := Apply(s, step).workers[w];
            if w !in s.workers then p.Lookup?
            else if step.Work? && step.w == w then p == WorkNext(s.db, s.workers[w], step.choice).1
            else p == s.workers[w]
  {
  }

  lemma OneStepExplained(states: seq<State>, step: Step, k: nat, n: nat, w: nat)
    requires k <= n && n + 1 < |states| && Enabled(states[n], step) && states[n + 1] == Apply(states[n], step)
    requires WellFormed(states[n]) && w in states[n + 1].workers
    requires w in states[n].workers ==> Explained(states, k, n, states[n].workers[w])
    ensures Explained(states, k, n + 1, states[n + 1].workers[w])
  {
    AttemptStep(states[n], step, w);
    if w in states[n].workers {
      if step.Work? && step.w == w {
        WorkExplained(states, k, n, states[n].workers[w], step.choice);
      } else {
        ExplainedLater(states, k, n, states[n].workers[w]);
      }
    }
  }

  lemma RunStepExplained(states: seq<State>, steps: seq<Step>, k: nat, n: nat, w: nat)
    requires IsRun(states, steps) && WellFormed(states[0]) && k <= n < |steps|
    requires w in states[n].workers ==> Explained(states, k, n, states[n].workers[w])
    ensures w in states[n + 1].workers ==> Explained(states, k, n + 1, states[n + 1].workers[w])
  {
    RunWellFormed(states, steps, n);
    if w in states[n + 1].workers {
      assert StepAt(states, steps, n);
      OneStepExplained(states, steps[n], k, n, w);
    }
  }

  lemma {:induction false} AttemptExplained(states: seq<State>, steps: seq<Step>, k: nat, n: nat, w: nat)
    requires IsRun(states, steps) && WellFormed(states[0]) && k <= n < |states|
    requires w in states[k].workers ==> states[k].workers[w].Lookup?
    ensures w in states[n].workers ==> Explained(states, k, n, states[n].workers[w])
    decreases n
  {
    if n > k {
      AttemptExplained(states, steps, k, n - 1, w);
      RunStepExplained(states, steps, k, n - 1, w);
    }
  }

  /** An attempt that ends in success saw its recipient's message stored while it ran. */
  lemma SuccessMeansStored(states: seq<State>, steps: seq<Step>, k: nat, n: nat, w: nat, job: Job)
    requires IsRun(states, steps) && WellFormed(states[0]) && k <= n < |states|
    requires w in states[k].workers && states[k].workers[w].Lookup?
    requires w in states[n].workers && states[n].workers[w] == Done(job, Success) && DedupApplies(job)
    ensures WasStored(states, k, n, job)
  {
    AttemptExplained(states, steps, k, n, w);
  }
}
