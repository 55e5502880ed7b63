/** Safety of the ingestion protocol over whole runs: at most one message per ingest key, the
    accounting identity summed along a run, and the quota bound on runs that meet its side conditions. */
module IngestSafety {
  import opened Totals
  import opened MailStore
  import opened Ingest
  import opened IngestQuota

  // ---- at most one message per ingest key -----------------------------------------------

  ghost predicate WellFormed(s: State) {
    s.db.messages.Keys <= s.issued && UniqueIngest(s.db)
  }

  ghost predicate Holds(db: Db, id: MessageId, a: AccountId, stream: string, seqNo: int) {
    id in db.messages && HasKey(db.messages[id], a, stream, seqNo)
  }

  /** The two documents have one ingest key. */
  predicate SameKey(m: Message, n: Message) {
    HasKey(m, n.account, n.stream, n.seqNo)
  }

  /** The only thing a step can do to the set of stored keys: add one fresh document under a key
      nobody has, or lose a document to expiry. */
  lemma MessagesStep(s: State, step: Step)
    requires Enabled(s, step) && WellFormed(s)
    ensures WellFormed(Apply(s, step))
    ensures forall id :: id in s.db.messages && step != Expire(id) ==>
              id in Apply(s, step).db.messages &&
              SameKey(Apply(s, step).db.messages[id], s.db.messages[id])
  {
    match step {
      case Work(w, c) => WorkMessages(s.db, s.workers[w], c);
      case DeleteMark(d, fault) => MarkMessages(s.db, s.deletions[d], fault);
      case _ =>
    }
  }

  lemma MarkMessages(db: Db, del: Deletion, fault: Fault)
    requires del.Marking? && del.todo != [] && UniqueIngest(db)
    ensures UniqueIngest(MarkNext(db, del, fault).0) && MarkNext(db, del, fault).0.messages.Keys == db.messages.Keys
    ensures forall id :: id in db.messages ==>
              SameKey(MarkNext(db, del, fault).0.messages[id], db.messages[id])
  {
  }

  lemma WorkMessages(db: Db, p: Phase, c: Choice)
    requires (p.Inserting? ==> c.id !in db.messages) && UniqueIngest(db)
    ensures UniqueIngest(WorkNext(db, p, c).0)
    ensures WorkNext(db, p, c).0.messages.Keys <= db.messages.Keys + NewIds(p, c)
    ensures forall id :: id in db.messages ==>
              id in WorkNext(db, p, c).0.messages && WorkNext(db, p, c).0.messages[id] == db.messages[id]
  {
  }

  /** A run in which no document is removed: no expiry and no account deletion. */
  predicate KeepsDocuments(steps: seq<Step>) {
    forall i :: 0 <= i < |steps| ==> !steps[i].Expire?
  }

  lemma {:induction false} RunKeepsMessage(states: seq<State>, steps: seq<Step>, i: nat, j: nat, id: MessageId)
    requires IsRun(states, steps) && WellFormed(states[0]) && KeepsDocuments(steps)
    requires i <= j < |states| && id in states[i].db.messages
    ensures WellFormed(states[j]) && id in states[j].db.messages
    ensures var m := states[i].db.messages[id];
            HasKey(states[j].db.messages[id], m.account, m.stream, m.seqNo)
    decreases j
  {
    RunWellFormed(states, steps, j);
    if i < j {
      RunKeepsMessage(states, steps, i, j - 1, id);
      StepKeepsMessage(states, steps, j - 1, id);
    }
  }

  lemma StepKeepsMessage(states: seq<State>, steps: seq<Step>, k: nat, id: MessageId)
    requires IsRun(states, steps) && k < |steps| && WellFormed(states[k]) && !steps[k].Expire?
    requires id in states[k].db.messages
    ensures id in states[k + 1].db.messages && SameKey(states[k + 1].db.messages[id], states[k].db.messages[id])
  {
    assert StepAt(states, steps, k);
    MessagesStep(states[k], steps[k]);
  }

  lemma {:induction false} RunWellFormed(states: seq<State>, steps: seq<Step>, i: nat)
    requires IsRun(states, steps) && WellFormed(states[0]) && i < |states|
    ensures WellFormed(states[i])
    decreases i
  {
    if i > 0 {
      RunWellFormed(states, steps, i - 1);
      assert StepAt(states, steps, i - 1);
      MessagesStep(states[i - 1], steps[i - 1]);
    }
  }

  /** At-most-once storage. In any interleaving of attempts, redeliveries and crashes, two documents
      seen under one ingest key, even at different times of the run, are the same document: a
      soft-deleted message is never stored again by a redelivery. */
  lemma AtMostOnce(states: seq<State>, steps: seq<Step>, i: nat, j: nat, id1: MessageId, id2: MessageId,
                   a: AccountId, stream: string, seqNo: int)
    requires IsRun(states, steps) && WellFormed(states[0]) && KeepsDocuments(steps)
    requires i < |states| && j < |states| && stream != "" && seqNo > 0
    requires Holds(states[i].db, id1, a, stream, seqNo) && Holds(states[j].db, id2, a, stream, seqNo)
    ensures id1 == id2
  {
    if i <= j {
      RunKeepsMessage(states, steps, i, j, id1);
    } else {
      RunKeepsMessage(states, steps, j, i, id2);
    }
  }

  /** With expiry allowed the bound still holds at every single moment. */
  lemma AtMostOnceNow(states: seq<State>, steps: seq<Step>, i: nat, id1: MessageId, id2: MessageId,
                      a: AccountId, stream: string, seqNo: int)
    requires IsRun(states, steps) && WellFormed(states[0]) && i < |states|
    requires stream != "" && seqNo > 0
    requires Holds(states[i].db, id1, a, stream, seqNo) && Holds(states[i].db, id2, a, stream, seqNo)
    ensures id1 == id2
  {
    RunWellFormed(states, steps, i);
  }

  // ---- the accounting identity along a run ----------------------------------------------

  ghost predicate AlwaysThere(states: seq<State>, a: AccountId) {
    forall i :: 0 <= i < |states| ==> a in states[i].db.accounts
  }

  /** The sum of the table's entries along the first `n` steps. */
  ghost function SummedDrift(states: seq<State>, steps: seq<Step>, a: AccountId, n: nat): int
    requires IsRun(states, steps) && n <= |steps|
  {
    if n == 0 then 0
    else
      assert StepAt(states, steps, n - 1);
      SummedDrift(states, steps, a, n - 1) + DriftChange(states[n - 1], steps[n - 1], a)
  }

  lemma RunStep(states: seq<State>, steps: seq<Step>, a: AccountId, n: nat)
    requires IsRun(states, steps) && WellFormed(states[0]) && AlwaysThere(states, a) && n < |steps|
    requires StepAt(states, steps, n)
    ensures Drift(states[n + 1], a) == Drift(states[n], a) + DriftChange(states[n], steps[n], a)
  {
    RunWellFormed(states, steps, n);
    StepAccounting(states[n], steps[n], a);
  }

  /** Step `n` moves the drift and the sum by the same amount. */
  lemma SummedNext(states: seq<State>, steps: seq<Step>, a: AccountId, n: nat)
    requires IsRun(states, steps) && WellFormed(states[0]) && AlwaysThere(states, a) && n < |steps|
    ensures Drift(states[n + 1], a) - SummedDrift(states, steps, a, n + 1) ==
            Drift(states[n], a) - SummedDrift(states, steps, a, n)
  {
    assert StepAt(states, steps, n);
    RunStep(states, steps, a, n);
  }

  lemma {:induction false} RunDrift(states: seq<State>, steps: seq<Step>, a: AccountId, n: nat)
    requires IsRun(states, steps) && WellFormed(states[0]) && AlwaysThere(states, a) && n <= |steps|
    ensures Drift(states[n], a) == Drift(states[0], a) + SummedDrift(states, steps, a, n)
  {
    if n > 0 {
      RunDrift(states, steps, a, n - 1);
      SummedNext(states, steps, a, n - 1);
    }
  }

  /** `used` at any moment of a run is the live bytes, plus the held reservations, plus the bytes
      not yet released, plus the drift at the start and what the named steps added since. */
  lemma RunAccounting(states: seq<State>, steps: seq<Step>, a: AccountId, n: nat)
    requires IsRun(states, steps) && WellFormed(states[0]) && AlwaysThere(states, a) && n <= |steps|
    ensures UsedOf(states[n].db, a) ==
            LiveSize(states[n].db, a) + Held(states[n], a) + Pending(states[n], a) +
            Drift(states[0], a) + SummedDrift(states, steps, a, n)
  {
    RunDrift(states, steps, a, n);
    assert Drift(states[n], a) == UsedOf(states[n].db, a) - Owed(states[n], a);
  }

  // ---- the quota bound ------------------------------------------------------------------

  /** An insert that takes effect although its answer is lost: the attempt rolls back bytes that are stored. */
  predicate LosesInsert(s: State, step: Step) {
    step.Work? && step.w in s.workers && s.workers[step.w].Inserting? &&
    step.choice.parse == ParseOk && step.choice.fault == FailedAfterEffect
  }

  /** A deletion marks a document another deletion (or expiry) got to first, and counts its size all the same. */
  predicate MarksTwice(s: State, step: Step) {
    step.DeleteMark? && step.d in s.deletions && s.deletions[step.d].Marking? && s.deletions[step.d].todo != [] &&
    step.fault == NoFault && (s.deletions[step.d].single ==> s.deletions[step.d].todo[0].id in s.db.messages) &&
    !IsLive(s.db, s.deletions[step.d].todo[0].id)
  }

  /** A recalculation writes no less than is owed at that moment. `IngestOverlap` says on which runs it does. */
  ghost predicate WritesEnough(s: State, step: Step) {
    (step.Work? && step.w in s.workers && s.workers[step.w].RecalcWriting? && step.choice.fault != Failed ==>
      s.workers[step.w].value >= Owed(s, s.workers[step.w].acct)) &&
    (step.RecalcWrite? && step.r in s.recalcs && step.fault != Failed ==>
      s.recalcs[step.r].value >= Owed(s, s.recalcs[step.r].acct))
  }

  /** The steps after which `used` still covers what it covered. */
  ghost predicate Safe(s: State, step: Step) {
    WritesEnough(s, step) && !LosesInsert(s, step) && !MarksTwice(s, step)
  }

  /** Sizes and owners a deletion has read are those of the documents. */
  ghost predicate ReadsAreCurrent(s: State) {
    forall d, i :: d in s.deletions && s.deletions[d].Marking? && 0 <= i < |s.deletions[d].todo| ==>
      var doc := s.deletions[d].todo[i];
      doc.id in s.issued &&
      (doc.id in s.db.messages ==>
        s.db.messages[doc.id].size == doc.size && s.db.messages[doc.id].account == s.deletions[d].acct)
  }

  ghost predicate WithinQuota(db: Db, a: AccountId, used: int) {
    a in db.accounts && db.accounts[a].quota > 0 ==> used <= db.accounts[a].quota
  }

  /** The values recalculations are about to write respect the quota. */
  ghost predicate RecalcsWithin(s: State) {
    (forall w :: w in s.workers && s.workers[w].RecalcWriting? ==>
      WithinQuota(s.db, s.workers[w].acct, s.workers[w].value)) &&
    (forall r :: r in s.recalcs ==> WithinQuota(s.db, s.recalcs[r].acct, s.recalcs[r].value))
  }

  ghost predicate Covered(s: State, a: AccountId) {
    a in s.db.accounts ==> Drift(s, a) >= 0 && WithinQuota(s.db, a, UsedOf(s.db, a))
  }

  ghost predicate SafeState(s: State) {
    WellFormed(s) && ReadsAreCurrent(s) && RecalcsWithin(s) && forall a :: Covered(s, a)
  }

  lemma {:induction false} TotalOfZeros(m: map<nat, nat>)
    requires forall k :: k in m ==> m[k] == 0
    ensures Total(m) == 0
    decreases |m|
  {
    if |m| > 0 {
      var k := Pick(m);
      TotalSplit(m, k);
      TotalOfZeros(m - {k});
    }
  }

  lemma NothingOwed(s: State, a: AccountId)
    requires Unmentioned(s, a)
    ensures Owed(s, a) == 0
  {
    assert LiveSizes(s.db, a) == map[];
    TotalOfZeros(Holdings(s.workers, a));
    TotalOfZeros(Releases(s.deletions, a));
  }

  /** Drops are covered: only the steps `Safe` rules out can lower the drift. */
  lemma SafeDrift(s: State, step: Step, a: AccountId)
    requires Enabled(s, step) && Safe(s, step) && ReadsAreCurrent(s)
    requires a in s.db.accounts && Drift(s, a) >= 0
    ensures Drift(s, a) + DriftChange(s, step, a) >= 0
  {
    match step {
      case DeleteMark(d, _) => assert s.deletions[d].todo[0] in s.deletions[d].todo;
      case _ =>
    }
  }

  lemma ReadsStep(s: State, step: Step)
    requires Enabled(s, step) && WellFormed(s) && ReadsAreCurrent(s)
    ensures ReadsAreCurrent(Apply(s, step))
  {
    var t := Apply(s, step);
    forall d, i | d in t.deletions && t.deletions[d].Marking? && 0 <= i < |t.deletions[d].todo|
      ensures t.deletions[d].todo[i].id in t.issued
      ensures t.deletions[d].todo[i].id in t.db.messages ==>
                t.db.messages[t.deletions[d].todo[i].id].size == t.deletions[d].todo[i].size &&
                t.db.messages[t.deletions[d].todo[i].id].account == t.deletions[d].acct
    {
      TodoFrom(s, step, d, i);
      if step.Work? { WorkMessages(s.db, s.workers[step.w], step.choice); }
    }
  }

  /** Every document still to be marked after a step was to be marked before it, or was just read. */
  lemma TodoFrom(s: State, step: Step, d: nat, i: nat)
    requires Enabled(s, step)
    requires d in Apply(s, step).deletions && Apply(s, step).deletions[d].Marking?
    requires i < |Apply(s, step).deletions[d].todo|
    ensures (step.DeleteRead? && step.d == d) ||
            (d in s.deletions && s.deletions[d].Marking? && s.deletions[d].acct == Apply(s, step).deletions[d].acct &&
             exists k :: 0 <= k < |s.deletions[d].todo| &&
                         s.deletions[d].todo[k] == Apply(s, step).deletions[d].todo[i])
  {
    var todo := Apply(s, step).deletions[d].todo;
    if !(step.DeleteRead? && step.d == d) {
      if step.DeleteMark? && step.d == d {
        assert s.deletions[d].todo[i + 1] == todo[i];
      } else {
        assert s.deletions[d].todo[i] == todo[i];
      }
    }
  }

  /** No step changes a quota, and `used` grows only by a reservation that fits. */
  lemma WorkUsed(db: Db, p: Phase, c: Choice, a: AccountId)
    requires a in db.accounts && 0 <= UsedOf(db, a) && WithinQuota(db, a, UsedOf(db, a))
    requires p.RecalcWriting? ==> WithinQuota(db, p.acct, p.value)
    ensures var t := WorkNext(db, p, c).0;
            a in t.accounts && t.accounts[a].quota == db.accounts[a].quota && WithinQuota(t, a, UsedOf(t, a))
  {
  }

  lemma UsedStep(s: State, step: Step, a: AccountId)
    requires Enabled(s, step) && RecalcsWithin(s)
    requires 0 <= UsedOf(s.db, a) && WithinQuota(s.db, a, UsedOf(s.db, a))
    requires Survives(s, Apply(s, step), a)
    ensures Apply(s, step).db.accounts[a].quota == s.db.accounts[a].quota
    ensures WithinQuota(Apply(s, step).db, a, UsedOf(Apply(s, step).db, a))
  {
    if step.Work? {
      WorkUsed(s.db, s.workers[step.w], step.choice, a);
    }
  }

  /** A value read by a recalculation fits the quota of a covered account. */
  lemma ReadFits(s: State, a: AccountId)
    requires Covered(s, a)
    ensures WithinQuota(s.db, a, LiveSize(s.db, a))
  {
  }

  lemma RecalcsStep(s: State, step: Step)
    requires Enabled(s, step) && RecalcsWithin(s) && forall a :: Covered(s, a)
    ensures RecalcsWithin(Apply(s, step))
  {
    var t := Apply(s, step);
    forall w | w in t.workers && t.workers[w].RecalcWriting?
      ensures WithinQuota(t.db, t.workers[w].acct, t.workers[w].value)
    {
      var a := t.workers[w].acct;
      WriterFrom(s, step, w);
      if a in s.db.accounts && a in t.db.accounts {
        assert Covered(s, a);
        UsedStep(s, step, a);
        ReadFits(s, a);
      }
    }
    forall r | r in t.recalcs ensures WithinQuota(t.db, t.recalcs[r].acct, t.recalcs[r].value) {
      var a := t.recalcs[r].acct;
      if a in s.db.accounts && a in t.db.accounts {
        assert Covered(s, a);
        UsedStep(s, step, a);
        ReadFits(s, a);
      }
    }
  }

  /** A pending write was pending before, or its value was just read. */
  lemma WriterFrom(s: State, step: Step, w: nat)
    requires Enabled(s, step)
    requires w in Apply(s, step).workers && Apply(s, step).workers[w].RecalcWriting?
    ensures var p := Apply(s, step).workers[w];
            (w in s.workers && s.workers[w] == p) ||
            (w in s.workers && s.workers[w].RecalcReading? && p.acct == s.workers[w].acct &&
             p.value == LiveSize(s.db, p.acct))
  {
  }

  /** The bound is kept by every safe step: on every account the live bytes, the reservations and
      the outstanding releases together stay within `used`, and `used` within the quota. */
  lemma SafeStep(s: State, step: Step)
    requires Enabled(s, step) && Safe(s, step) && SafeState(s)
    ensures SafeState(Apply(s, step))
  {
    var t := Apply(s, step);
    MessagesStep(s, step);
    ReadsStep(s, step);
    RecalcsStep(s, step);
    forall a ensures Covered(t, a) {
      if a in t.db.accounts {
        if a in s.db.accounts {
          assert Covered(s, a);
          SafeDrift(s, step, a);
          StepAccounting(s, step, a);
          UsedStep(s, step, a);
        } else {
          NewAccount(s, step, a);
        }
      }
    }
  }

  lemma CreatedAccount(s: State, t: State, a: AccountId, account: Account)
    requires Unmentioned(s, a) && account.used == 0
    requires t == s.(db := s.db.(accounts := s.db.accounts[a := account]))
    ensures Covered(t, a)
  {
    NothingOwed(s, a);
    assert LiveSizes(t.db, a) == LiveSizes(s.db, a);
  }

  lemma NewAccount(s: State, step: Step, a: AccountId)
    requires Enabled(s, step) && a !in s.db.accounts && a in Apply(s, step).db.accounts
    ensures Covered(Apply(s, step), a)
  {
    if step.Work? {
      WorkAccounts(s.db, s.workers[step.w], step.choice);
    } else {
      assert step.CreateAccount? && step.acct == a;
      CreatedAccount(s, Apply(s, step), a, step.account);
    }
  }

  lemma WorkAccounts(db: Db, p: Phase, c: Choice)
    ensures WorkNext(db, p, c).0.accounts.Keys == db.accounts.Keys
  {
  }

  ghost predicate SafeRun(states: seq<State>, steps: seq<Step>) {
    IsRun(states, steps) && forall i :: 0 <= i < |steps| ==> Safe(states[i], steps[i])
  }

  lemma {:induction false} SafeRunStaysSafe(states: seq<State>, steps: seq<Step>, n: nat)
    requires SafeRun(states, steps) && SafeState(states[0]) && n <= |steps|
    ensures SafeState(states[n])
  {
    if n > 0 {
      SafeRunStaysSafe(states, steps, n - 1);
      assert StepAt(states, steps, n - 1);
      SafeStep(states[n - 1], steps[n - 1]);
    }
  }

  lemma InitialIsSafe(s: State)
    requires Initial(s)
    ensures SafeState(s)
  {
    forall a ensures Covered(s, a) {
      if a in s.db.accounts {
        assert LiveSizes(s.db, a) == map[];
        assert Holdings(s.workers, a) == map[] && Releases(s.deletions, a) == map[];
      }
    }
  }

  lemma SafeRunWithinQuota(states: seq<State>, steps: seq<Step>, n: nat, a: AccountId)
    requires SafeRun(states, steps) && Initial(states[0]) && n <= |steps|
    requires a in states[n].db.accounts
    ensures Owed(states[n], a) <= UsedOf(states[n].db, a)
    ensures states[n].db.accounts[a].quota > 0 ==> UsedOf(states[n].db, a) <= states[n].db.accounts[a].quota
  {
    InitialIsSafe(states[0]);
    SafeRunStaysSafe(states, steps, n);
    assert Covered(states[n], a);
  }

  // ---- what is given back on safe runs --------------------------------------------------

  lemma CoversOwnHold(s: State, w: nat)
    requires SafeState(s) && w in s.workers && s.workers[w].RollingBack? && s.workers[w].acct in s.db.accounts
    ensures s.workers[w].job.size <= UsedOf(s.db, s.workers[w].acct)
  {
    var a := s.workers[w].acct;
    assert Covered(s, a);
    TotalMember(Holdings(s.workers, a), w);
  }

  /** On a safe run the update at 0 never loses anything: an attempt that gives up, be it because it lost the
      race for the unique index, takes exactly its own reservation back and leaves none behind. */
  lemma RollbackIsExact(s: State, w: nat, c: Choice)
    requires SafeState(s) && Enabled(s, Work(w, c)) && c.fault != Failed
    requires s.workers[w].RollingBack? && s.workers[w].acct in s.db.accounts
    ensures var p, t := s.workers[w], Apply(s, Work(w, c));
            UsedOf(t.db, p.acct) == UsedOf(s.db, p.acct) - p.job.size &&
            Held(t, p.acct) == Held(s, p.acct) - p.job.size && Drift(t, p.acct) == Drift(s, p.acct)
  {
    var p := s.workers[w];
    CoversOwnHold(s, w);
    WorkAccounting(s, w, c, p.acct);
    HeldUpdate(s.workers, w, WorkNext(s.db, p, c).1, p.acct);
    SetUsedEffect(s.db, p.acct, UsedOf(s.db, p.acct) - p.job.size, p.acct);
  }

  /** The same for the release after a soft deletion. */
  lemma ReleaseIsExact(s: State, d: nat, fault: Fault)
    requires SafeState(s) && Enabled(s, DeleteRelease(d, fault)) && fault != Failed
    requires s.deletions[d].acct in s.db.accounts
    ensures var del, t := s.deletions[d], Apply(s, DeleteRelease(d, fault));
            UsedOf(t.db, del.acct) == UsedOf(s.db, del.acct) - del.total && Drift(t, del.acct) == Drift(s, del.acct)
  {
    var a := s.deletions[d].acct;
    assert Covered(s, a);
    TotalMember(Releases(s.deletions, a), d);
    StepAccounting(s, DeleteRelease(d, fault), a);
  }
}
