/** Quota accounting over the ingestion protocol: what `used` covers, how every step moves the
    difference, and on which runs an account never exceeds its quota. */
module IngestQuota {
  import opened Totals
  import opened MailStore
  import opened Ingest

  /** The bytes an attempt has reserved on account `a` and neither stored nor given back. */
  function HoldOf(p: Phase, a: AccountId): nat {
    if (p.Inserting? || p.RollingBack?) && p.acct == a then p.job.size else 0
  }

  function PendingOf(del: Deletion, a: AccountId): nat {
    if del.acct == a then del.total else 0
  }

  function Holdings(workers: map<nat, Phase>, a: AccountId): map<nat, nat> {
    map w | w in workers :: HoldOf(workers[w], a)
  }

  function Releases(deletions: map<nat, Deletion>, a: AccountId): map<nat, nat> {
    map d | d in deletions :: PendingOf(deletions[d], a)
  }

  ghost function Held(s: State, a: AccountId): nat {
    Total(Holdings(s.workers, a))
  }

  ghost function Pending(s: State, a: AccountId): nat {
    Total(Releases(s.deletions, a))
  }

  /** Everything `used` ought to cover: live messages, held reservations, and bytes of marked
      messages whose release is still outstanding. */
  ghost function Owed(s: State, a: AccountId): nat {
    LiveSize(s.db, a) + Held(s, a) + Pending(s, a)
  }

  ghost function Drift(s: State, a: AccountId): int {
    UsedOf(s.db, a) - Owed(s, a)
  }

  // ---- how one actor's change moves the totals ------------------------------------------

  lemma HeldUpdate(workers: map<nat, Phase>, w: nat, p: Phase, a: AccountId)
    ensures Total(Holdings(workers[w := p], a)) ==
            Total(Holdings(workers, a)) + HoldOf(p, a) - (if w in workers then HoldOf(workers[w], a) else 0)
  {
    assert Holdings(workers[w := p], a) == Holdings(workers, a)[w := HoldOf(p, a)];
    if w in workers {
      TotalReplace(Holdings(workers, a), w, HoldOf(p, a));
    } else {
      TotalAdd(Holdings(workers, a), w, HoldOf(p, a));
    }
  }

  lemma HeldRemove(workers: map<nat, Phase>, w: nat, a: AccountId)
    requires w in workers
    ensures Total(Holdings(workers - {w}, a)) == Total(Holdings(workers, a)) - HoldOf(workers[w], a)
  {
    assert Holdings(workers - {w}, a) == Holdings(workers, a) - {w};
    TotalSplit(Holdings(workers, a), w);
  }

  lemma PendingUpdate(deletions: map<nat, Deletion>, d: nat, del: Deletion, a: AccountId)
    ensures Total(Releases(deletions[d := del], a)) ==
            Total(Releases(deletions, a)) + PendingOf(del, a) -
            (if d in deletions then PendingOf(deletions[d], a) else 0)
  {
    assert Releases(deletions[d := del], a) == Releases(deletions, a)[d := PendingOf(del, a)];
    if d in deletions {
      TotalReplace(Releases(deletions, a), d, PendingOf(del, a));
    } else {
      TotalAdd(Releases(deletions, a), d, PendingOf(del, a));
    }
  }

  lemma PendingRemove(deletions: map<nat, Deletion>, d: nat, a: AccountId)
    requires d in deletions
    ensures Total(Releases(deletions - {d}, a)) == Total(Releases(deletions, a)) - PendingOf(deletions[d], a)
  {
    assert Releases(deletions - {d}, a) == Releases(deletions, a) - {d};
    TotalSplit(Releases(deletions, a), d);
  }

  // ---- the table of drifting steps ------------------------------------------------------

  /** Bytes an update at 0 fails to take away. */
  function Clamp(s: State, a: AccountId, amount: nat): nat {
    if amount == 0 then 0 else Max(0, amount - UsedOf(s.db, a))
  }

  /** The exact change of the drift of account `a` in one step of an attempt. Zero except for a
      reservation or an insert whose answer was lost, a rollback that failed or met 0, and the
      write of a recalculation. */
  function WorkDrift(s: State, p: Phase, c: Choice, a: AccountId): int {
    match p
    case Reserving(job, b, _) =>
      if b == a && c.fault == FailedAfterEffect && Fits(s.db, a, job.size) then job.size else 0
    case RecalcWriting(_, b, value) =>
      if b == a && c.fault != Failed then value - UsedOf(s.db, a) else 0
    case Inserting(job, b) =>
      if b == a && c.parse == ParseOk && c.fault == FailedAfterEffect &&
         c.id !in s.db.messages && !Conflicts(s.db, NewMessage(job, b, c.now))
      then 0 - job.size else 0
    case RollingBack(job, b, _) =>
      if b != a then 0 else if c.fault == Failed then job.size else Clamp(s, a, job.size)
    case _ => 0
  }

  /** The exact change of the drift of account `a` in one step of the system. */
  function DriftChange(s: State, step: Step, a: AccountId): int
    requires step.Work? || step.Crash? ==> step.w in s.workers
    requires step.DeleteMark? ==>
               step.d in s.deletions && s.deletions[step.d].Marking? && s.deletions[step.d].todo != []
    requires step.DeleteRelease? || step.DeleteCrash? ==> step.d in s.deletions
    requires step.RecalcWrite? ==> step.r in s.recalcs
  {
    match step
    case Work(w, c) => WorkDrift(s, s.workers[w], c, a)
    case Crash(w) => HoldOf(s.workers[w], a)
    case DeleteMark(d, fault) =>
      var del := s.deletions[d];
      var doc := del.todo[0];
      if fault == Failed || (del.single && doc.id !in s.db.messages) then PendingOf(del, a)
      else if fault == FailedAfterEffect then Drop(s.db, doc.id, a) + PendingOf(del, a)
      else Drop(s.db, doc.id, a) - (if del.acct == a then doc.size else 0)
    case DeleteRelease(d, fault) =>
      var del := s.deletions[d];
      if del.acct != a then 0 else if fault == Failed then del.total else Clamp(s, a, del.total)
    case DeleteCrash(d) => PendingOf(s.deletions[d], a)
    case RecalcWrite(r, fault) =>
      if s.recalcs[r].acct == a && fault != Failed then s.recalcs[r].value - UsedOf(s.db, a) else 0
    case Expire(id) => Drop(s.db, id, a)
    case _ => 0
  }

  /** The account existed before the step and after it. */
  predicate Survives(s: State, t: State, a: AccountId) {
    a in s.db.accounts && a in t.db.accounts
  }

  /** Counter minus live total minus own reservation: the part of the drift one attempt can move. */
  ghost function Balance(db: Db, p: Phase, a: AccountId): int {
    UsedOf(db, a) - LiveSize(db, a) - HoldOf(p, a)
  }

  ghost predicate Accounted(s: State, p: Phase, c: Choice, a: AccountId) {
    var (db, q) := WorkNext(s.db, p, c);
    Balance(db, q, a) == Balance(s.db, p, a) + WorkDrift(s, p, c, a)
  }

  lemma ReserveEffect(s: State, p: Phase, c: Choice, a: AccountId)
    requires a in s.db.accounts && p.Reserving?
    ensures Accounted(s, p, c, a)
  {
    SetUsedEffect(s.db, p.acct, UsedOf(s.db, p.acct) + p.job.size, a);
  }

  lemma RecalcEffect(s: State, p: Phase, c: Choice, a: AccountId)
    requires a in s.db.accounts && p.RecalcWriting?
    ensures Accounted(s, p, c, a)
  {
    SetUsedEffect(s.db, p.acct, p.value, a);
  }

  lemma InsertEffect(s: State, p: Phase, c: Choice, a: AccountId)
    requires a in s.db.accounts && p.Inserting? && c.id !in s.db.messages
    ensures Accounted(s, p, c, a)
  {
    var m := NewMessage(p.job, p.acct, c.now);
    if c.parse == ParseOk && c.fault != Failed && !Conflicts(s.db, m) {
      InsertLive(s.db, c.id, m, a);
      StoredEffect(s, p, c, a, m);
    }
  }

  /** An insert that takes effect, with its answer or without. */
  lemma StoredEffect(s: State, p: Phase, c: Choice, a: AccountId, m: Message)
    requires p.Inserting? && c.id !in s.db.messages && c.parse == ParseOk && c.fault != Failed
    requires m == NewMessage(p.job, p.acct, c.now) && !Conflicts(s.db, m)
    requires LiveSize(Insert(s.db, c.id, m), a) == LiveSize(s.db, a) + if p.acct == a then p.job.size else 0
    ensures Accounted(s, p, c, a)
  {
  }

  lemma RollbackEffect(s: State, p: Phase, c: Choice, a: AccountId)
    requires a in s.db.accounts && p.RollingBack?
    ensures Accounted(s, p, c, a)
  {
    SetUsedEffect(s.db, p.acct, Max(0, UsedOf(s.db, p.acct) - p.job.size), a);
  }

  lemma WorkEffect(s: State, p: Phase, c: Choice, a: AccountId)
    requires a in s.db.accounts && (p.Inserting? ==> c.id !in s.db.messages)
    ensures Accounted(s, p, c, a)
  {
    match p {
      case Reserving(_, _, _) => ReserveEffect(s, p, c, a);
      case RecalcWriting(_, _, _) => RecalcEffect(s, p, c, a);
      case Inserting(_, _) => InsertEffect(s, p, c, a);
      case RollingBack(_, _, _) => RollbackEffect(s, p, c, a);
      case _ =>
    }
  }

  /** Attempts: only the steps of the table move the drift, by exactly what the table says. */
  lemma WorkAccounting(s: State, w: nat, c: Choice, a: AccountId)
    requires Enabled(s, Work(w, c)) && s.db.messages.Keys <= s.issued
    requires a in s.db.accounts
    ensures Drift(Apply(s, Work(w, c)), a) == Drift(s, a) + DriftChange(s, Work(w, c), a)
  {
    var (_, q) := WorkNext(s.db, s.workers[w], c);
    WorkEffect(s, s.workers[w], c, a);
    HeldUpdate(s.workers, w, q, a);
  }

  // ---- deletions, recalculations and the store's own steps ------------------------------

  /** A step that leaves the workers, the counter and the pending releases of `a` alone moves the
      drift by what leaves the live total. */
  lemma OnlyLiveMoves(s: State, t: State, a: AccountId)
    requires t.workers == s.workers && t.deletions == s.deletions
    requires UsedOf(t.db, a) == UsedOf(s.db, a)
    ensures Drift(t, a) == Drift(s, a) + LiveSize(s.db, a) - LiveSize(t.db, a)
  {
  }

  lemma MarkAccounting(s: State, t: State, d: nat, fault: Fault, a: AccountId)
    requires d in s.deletions && s.deletions[d].Marking? && s.deletions[d].todo != []
    requires var (db, next) := MarkNext(s.db, s.deletions[d], fault);
             t.db == db && t.workers == s.workers &&
             t.deletions == (match next case Some(del) => s.deletions[d := del] case None => s.deletions - {d})
    ensures Drift(t, a) == Drift(s, a) + DriftChange(s, DeleteMark(d, fault), a)
  {
    var del := s.deletions[d];
    var id := del.todo[0].id;
    var marked := MarkDeleted(s.db, {id});
    var counted := del.(todo := del.todo[1..], total := del.total + del.todo[0].size);
    MarkCases(s, t, d, fault, marked, counted);
    if fault == Failed || (del.single && id !in s.db.messages) {
      PendingRemove(s.deletions, d, a);
    } else if fault == FailedAfterEffect {
      MarkThenLost(s, t, d, id, a);
    } else {
      MarkThenCounted(s, t, d, id, counted, a);
    }
  }

  lemma MarkThenLost(s: State, t: State, d: nat, id: MessageId, a: AccountId)
    requires d in s.deletions && t.db == MarkDeleted(s.db, {id})
    requires t.workers == s.workers && t.deletions == s.deletions - {d}
    ensures Drift(t, a) == Drift(s, a) + Drop(s.db, id, a) + PendingOf(s.deletions[d], a)
  {
    MarkLive(s.db, id, a);
    PendingRemove(s.deletions, d, a);
  }

  lemma MarkThenCounted(s: State, t: State, d: nat, id: MessageId, counted: Deletion, a: AccountId)
    requires d in s.deletions && t.db == MarkDeleted(s.db, {id})
    requires t.workers == s.workers && t.deletions == s.deletions[d := counted]
    ensures Drift(t, a) == Drift(s, a) + Drop(s.db, id, a) + PendingOf(s.deletions[d], a) - PendingOf(counted, a)
  {
    MarkLive(s.db, id, a);
    PendingUpdate(s.deletions, d, counted, a);
  }

  /** The three outcomes of marking one document. */
  lemma MarkCases(s: State, t: State, d: nat, fault: Fault, marked: Db, counted: Deletion)
    requires d in s.deletions && s.deletions[d].Marking? && s.deletions[d].todo != []
    requires marked == MarkDeleted(s.db, {s.deletions[d].todo[0].id})
    requires counted == s.deletions[d].(todo := s.deletions[d].todo[1..],
                                        total := s.deletions[d].total + s.deletions[d].todo[0].size)
    requires var (db, next) := MarkNext(s.db, s.deletions[d], fault);
             t.db == db && t.workers == s.workers &&
             t.deletions == (match next case Some(del) => s.deletions[d := del] case None => s.deletions - {d})
    ensures if fault == Failed || (s.deletions[d].single && s.deletions[d].todo[0].id !in s.db.messages)
            then t.db == s.db && t.deletions == s.deletions - {d}
            else if fault == FailedAfterEffect then t.db == marked && t.deletions == s.deletions - {d}
            else t.db == marked && t.deletions == s.deletions[d := counted]
  {
  }

  lemma ReleaseAccounting(s: State, t: State, d: nat, fault: Fault, a: AccountId)
    requires a in s.db.accounts && d in s.deletions
    requires t.db == if fault == Failed then s.db else AddUsed(s.db, s.deletions[d].acct, 0 - s.deletions[d].total)
    requires t.workers == s.workers && t.deletions == s.deletions - {d}
    ensures Drift(t, a) == Drift(s, a) + DriftChange(s, DeleteRelease(d, fault), a)
  {
    var del := s.deletions[d];
    SetUsedEffect(s.db, del.acct, Max(0, UsedOf(s.db, del.acct) - del.total), a);
    PendingRemove(s.deletions, d, a);
  }

  lemma RecalcWriteAccounting(s: State, t: State, r: nat, fault: Fault, a: AccountId)
    requires a in s.db.accounts && r in s.recalcs
    requires t.db == if fault == Failed then s.db else SetUsed(s.db, s.recalcs[r].acct, s.recalcs[r].value)
    requires t.workers == s.workers && t.deletions == s.deletions
    ensures Drift(t, a) == Drift(s, a) + DriftChange(s, RecalcWrite(r, fault), a)
  {
    SetUsedEffect(s.db, s.recalcs[r].acct, s.recalcs[r].value, a);
  }

  lemma DeliverAccounting(s: State, t: State, w: nat, job: Job, a: AccountId)
    requires w !in s.workers && t == s.(workers := s.workers[w := Lookup(job)])
    ensures Drift(t, a) == Drift(s, a)
  {
    HeldUpdate(s.workers, w, Lookup(job), a);
  }

  lemma CrashAccounting(s: State, t: State, w: nat, a: AccountId)
    requires w in s.workers && t == s.(workers := s.workers - {w})
    ensures Drift(t, a) == Drift(s, a) + HoldOf(s.workers[w], a)
  {
    HeldRemove(s.workers, w, a);
  }

  /** A deletion that reads its next documents, or finishes marking, owes what it owed before. */
  lemma DeletionAccounting(s: State, t: State, d: nat, del: Deletion, a: AccountId)
    requires t == s.(deletions := s.deletions[d := del])
    requires PendingOf(del, a) == if d in s.deletions then PendingOf(s.deletions[d], a) else 0
    ensures Drift(t, a) == Drift(s, a)
  {
    PendingUpdate(s.deletions, d, del, a);
  }

  lemma DeleteCrashAccounting(s: State, t: State, d: nat, a: AccountId)
    requires d in s.deletions && t == s.(deletions := s.deletions - {d})
    ensures Drift(t, a) == Drift(s, a) + PendingOf(s.deletions[d], a)
  {
    PendingRemove(s.deletions, d, a);
  }

  lemma ExpireAccounting(s: State, t: State, id: MessageId, a: AccountId)
    requires id in s.db.messages && t == s.(db := Remove(s.db, id))
    ensures Drift(t, a) == Drift(s, a) + Drop(s.db, id, a)
  {
    OnlyLiveMoves(s, t, a);
    RemoveLive(s.db, id, a);
  }

  /** The other steps of the store itself. */
  lemma StoreAccounting(s: State, step: Step, a: AccountId)
    requires step.Flag? || step.CreateAccount? || step.RemoveAccount?
    requires Enabled(s, step) && Survives(s, Apply(s, step), a)
    ensures Drift(Apply(s, step), a) == Drift(s, a)
  {
    var t := Apply(s, step);
    OnlyLiveMoves(s, t, a);
    assert LiveSizes(t.db, a) == LiveSizes(s.db, a);
  }

  /** The accounting identity, one step: in every interleaving `used` equals what it owes plus a
      drift that only the named steps move, each by exactly the bytes of the table. */
  lemma StepAccounting(s: State, step: Step, a: AccountId)
    requires Enabled(s, step) && Survives(s, Apply(s, step), a)
    requires s.db.messages.Keys <= s.issued
    ensures Drift(Apply(s, step), a) == Drift(s, a) + DriftChange(s, step, a)
  {
    var t := Apply(s, step);
    match step {
      case Work(w, c) => WorkAccounting(s, w, c, a);
      case DeleteMark(d, fault) => MarkAccounting(s, t, d, fault, a);
      case DeleteRelease(d, fault) => ReleaseAccounting(s, t, d, fault, a);
      case RecalcWrite(r, fault) => RecalcWriteAccounting(s, t, r, fault, a);
      case Expire(id) => ExpireAccounting(s, t, id, a);
      case Flag(_, _, _) => StoreAccounting(s, step, a);
      case CreateAccount(_, _) => StoreAccounting(s, step, a);
      case RemoveAccount(_) => StoreAccounting(s, step, a);
      case Deliver(w, job) => DeliverAccounting(s, t, w, job, a);
      case Crash(w) => CrashAccounting(s, t, w, a);
      case DeleteRead(d, _, _, _) => DeletionAccounting(s, t, d, t.deletions[d], a);
      case DeleteFinish(d) => DeletionAccounting(s, t, d, t.deletions[d], a);
      case DeleteCrash(d) => DeleteCrashAccounting(s, t, d, a);
      case RecalcRead(_, _) =>
      case RecalcDrop(_) =>
    }
  }
}
