/** The ingestion and quota protocol as a state machine: any number of worker attempts,
    soft deletions and recalculations take turns on one shared store, one store call at a time
    (internal/worker/worker.go, internal/store/store.go, internal/handler/message.go,
    internal/handler/message_bulk.go). */
module Ingest {
  import opened Wrappers
  import opened MailStore
  import Strings

  // ---- actors ---------------------------------------------------------------------------

  /** One recipient of one delivery: `size` is the length of the raw message. */
  datatype Job = Job(recipient: string, stream: string, seqNo: int, size: nat)

  /** How one attempt ends. */
  datatype Outcome = Success | Permanent | Transient | Panicked

  /** The next store call of one attempt. `Inserting` and `RollingBack` hold a reservation. */
  datatype Phase =
    | Lookup(job: Job)
    | Dedup(job: Job, acct: AccountId)
    | Reserving(job: Job, acct: AccountId, retried: bool)
    | RecalcReading(job: Job, acct: AccountId)
    | RecalcWriting(job: Job, acct: AccountId, value: int)
    | Inserting(job: Job, acct: AccountId)
    | RollingBack(job: Job, acct: AccountId, outcome: Outcome)
    | Done(job: Job, outcome: Outcome)

  datatype Doc = Doc(id: MessageId, size: nat)

  /** A soft deletion: documents read and still to be marked, then the bytes to give back.
      `single` is the deletion of one message by its id. */
  datatype Deletion =
    | Marking(acct: AccountId, todo: seq<Doc>, total: nat, single: bool)
    | Releasing(acct: AccountId, total: nat)

  /** A recalculation between its aggregate and its write. */
  datatype Recalc = Recalc(acct: AccountId, value: int)

  /** `issued` holds every message id ever generated; ids are not generated twice. */
  datatype State = State(
    db: Db,
    issued: set<MessageId>,
    workers: map<nat, Phase>,
    deletions: map<nat, Deletion>,
    recalcs: map<nat, Recalc>)

  datatype Parse = ParseOk | ParseFailed | ParsePanic

  /** What the outside world decides about one step of an attempt. */
  datatype Choice = Choice(fault: Fault, found: Option<AccountId>, parse: Parse, id: MessageId, now: int)

  datatype Step =
    | Deliver(w: nat, job: Job)
    | Work(w: nat, choice: Choice)
    | Crash(w: nat)
    | DeleteRead(d: nat, acct: AccountId, docs: seq<Doc>, single: bool)
    | DeleteMark(d: nat, fault: Fault)
    | DeleteFinish(d: nat)
    | DeleteRelease(d: nat, fault: Fault)
    | DeleteCrash(d: nat)
    | RecalcRead(r: nat, acct: AccountId)
    | RecalcWrite(r: nat, fault: Fault)
    | RecalcDrop(r: nat)
    | Expire(id: MessageId)
    | Flag(id: MessageId, seen: bool, keep: bool)
    | CreateAccount(acct: AccountId, account: Account)
    | RemoveAccount(acct: AccountId)

  // ---- one attempt ----------------------------------------------------------------------

  ghost predicate HasAddress(db: Db, a: AccountId, address: string) {
    a in db.accounts && db.accounts[a].address == address
  }

  /** The account lookup answers truthfully: addresses are compared in normal form, and the empty
      address is nobody's. */
  ghost predicate LookupAnswer(db: Db, recipient: string, found: Option<AccountId>) {
    var address := Strings.Normalize(recipient);
    match found
    case Some(a) => address != "" && HasAddress(db, a, address)
    case None => address == "" || forall a :: !HasAddress(db, a, address)
  }

  /** The deferred rollback runs only when bytes were reserved. */
  function Unwind(job: Job, acct: AccountId, outcome: Outcome): Phase {
    if job.size > 0 then RollingBack(job, acct, outcome) else Done(job, outcome)
  }

  function NewMessage(job: Job, acct: AccountId, now: int): Message {
    Message(acct, now, job.size, false, false, false, job.stream, job.seqNo)
  }

  predicate DedupApplies(job: Job) {
    job.stream != "" && job.seqNo > 0
  }

  function AfterDedup(job: Job, acct: AccountId): Phase {
    if job.size > 0 then Reserving(job, acct, false) else Inserting(job, acct)
  }

  /** The store call of phase `p` and what the attempt does next. */
  ghost function WorkNext(db: Db, p: Phase, c: Choice): (Db, Phase) {
    match p
    case Lookup(job) =>
      if c.fault != NoFault then (db, Done(job, Transient))
      else (match c.found
            case Some(a) => (db, Dedup(job, a))
            case None => (db, Done(job, Permanent)))
    case Dedup(job, a) =>
      if !DedupApplies(job) then (db, AfterDedup(job, a))
      else if c.fault != NoFault then (db, Done(job, Transient))
      else if HasIngest(db, a, job.stream, job.seqNo) then (db, Done(job, Success))
      else (db, AfterDedup(job, a))
    case Reserving(job, a, retried) =>
      if c.fault == Failed then (db, Done(job, Transient))
      else if c.fault == FailedAfterEffect then (Reserve(db, a, job.size), Done(job, Transient))
      else if ReserveOk(db, a, job.size) then (Reserve(db, a, job.size), Inserting(job, a))
      else if retried then (db, Done(job, Permanent))
      else (db, RecalcReading(job, a))
    case RecalcReading(job, a) =>
      if c.fault != NoFault then (db, Reserving(job, a, true))
      else (db, RecalcWriting(job, a, LiveSize(db, a)))
    case RecalcWriting(job, a, value) =>
      (if c.fault == Failed then db else SetUsed(db, a, value), Reserving(job, a, true))
    case Inserting(job, a) =>
      if c.parse == ParseFailed then (db, Unwind(job, a, Permanent))
      else if c.parse == ParsePanic then (db, Unwind(job, a, Panicked))
      else if c.fault == Failed then (db, Unwind(job, a, Transient))
      else
        var m := NewMessage(job, a, c.now);
        if c.fault == FailedAfterEffect then (Insert(db, c.id, m), Unwind(job, a, Transient))
        else if c.id in db.messages || Conflicts(db, m) then (db, Unwind(job, a, Success))
        else (Insert(db, c.id, m), Done(job, Success))
    case RollingBack(job, a, outcome) =>
      (if c.fault == Failed then db else AddUsed(db, a, 0 - job.size), Done(job, outcome))
    case Done(_, _) => (db, p)
  }

  /** An attempt generates an id only for the message it inserts. */
  function NewIds(p: Phase, c: Choice): set<MessageId> {
    if p.Inserting? then {c.id} else {}
  }

  // ---- one soft deletion ----------------------------------------------------------------

  /** Marking one document. A single deletion matches on the id alone and gives up when the
      document is gone; a bulk deletion counts the size it read whether or not the update matched. */
  function MarkNext(db: Db, del: Deletion, fault: Fault): (Db, Option<Deletion>)
    requires del.Marking? && del.todo != []
  {
    var doc := del.todo[0];
    if fault == Failed then (db, None)
    else if del.single && doc.id !in db.messages then (db, None)
    else if fault == FailedAfterEffect then (MarkDeleted(db, {doc.id}), None)
    else (MarkDeleted(db, {doc.id}), Some(del.(todo := del.todo[1..], total := del.total + doc.size)))
  }

  // ---- the whole system -----------------------------------------------------------------

  /** Documents as one read of the store returns them: live and of this account. */
  ghost predicate ReadsDocs(db: Db, acct: AccountId, docs: seq<Doc>) {
    forall i :: 0 <= i < |docs| ==>
      IsLive(db, docs[i].id) && db.messages[docs[i].id].account == acct &&
      db.messages[docs[i].id].size == docs[i].size
  }

  predicate PhaseMentions(p: Phase, a: AccountId) {
    !p.Lookup? && !p.Done? && p.acct == a
  }

  /** Nothing in the system refers to `a`: a freshly generated account id. */
  ghost predicate Unmentioned(s: State, a: AccountId) {
    a !in s.db.accounts &&
    (forall id :: id in s.db.messages ==> s.db.messages[id].account != a) &&
    (forall w :: w in s.workers ==> !PhaseMentions(s.workers[w], a)) &&
    (forall d :: d in s.deletions ==> s.deletions[d].acct != a) &&
    (forall r :: r in s.recalcs ==> s.recalcs[r].acct != a)
  }

  ghost predicate Enabled(s: State, step: Step) {
    match step
    case Deliver(w, _) => w !in s.workers
    case Work(w, c) =>
      w in s.workers && !s.workers[w].Done? &&
      (s.workers[w].Inserting? ==> c.id !in s.issued) &&
      (s.workers[w].Lookup? && c.fault == NoFault ==>
         LookupAnswer(s.db, s.workers[w].job.recipient, c.found))
    case Crash(w) => w in s.workers
    case DeleteRead(d, acct, docs, single) =>
      ReadsDocs(s.db, acct, docs) &&
      (if d in s.deletions
       then !single && s.deletions[d].Marking? && !s.deletions[d].single &&
            s.deletions[d].todo == [] && s.deletions[d].acct == acct
       else single ==> |docs| == 1)
    case DeleteMark(d, _) => d in s.deletions && s.deletions[d].Marking? && s.deletions[d].todo != []
    case DeleteFinish(d) => d in s.deletions && s.deletions[d].Marking? && s.deletions[d].todo == []
    case DeleteRelease(d, _) => d in s.deletions && s.deletions[d].Releasing?
    case DeleteCrash(d) => d in s.deletions
    case RecalcRead(r, _) => r !in s.recalcs
    case RecalcWrite(r, _) => r in s.recalcs
    case RecalcDrop(r) => r in s.recalcs
    case Expire(id) => id in s.db.messages
    case Flag(id, _, _) => IsLive(s.db, id)
    case CreateAccount(a, account) => Unmentioned(s, a) && account.used == 0
    case RemoveAccount(a) => a in s.db.accounts
  }

  ghost function Apply(s: State, step: Step): State
    requires Enabled(s, step)
  {
    match step
    case Deliver(w, job) => s.(workers := s.workers[w := Lookup(job)])
    case Work(w, c) =>
      var (db, p) := WorkNext(s.db, s.workers[w], c);
      s.(db := db, issued := s.issued + NewIds(s.workers[w], c), workers := s.workers[w := p])
    case Crash(w) => s.(workers := s.workers - {w})
    case DeleteRead(d, acct, docs, single) =>
      var total := if d in s.deletions then s.deletions[d].total else 0;
      s.(deletions := s.deletions[d := Marking(acct, docs, total, single)])
    case DeleteMark(d, fault) =>
      var (db, next) := MarkNext(s.db, s.deletions[d], fault);
      s.(db := db, deletions := match next
                                case Some(del) => s.deletions[d := del]
                                case None => s.deletions - {d})
    case DeleteFinish(d) =>
      s.(deletions := s.deletions[d := Releasing(s.deletions[d].acct, s.deletions[d].total)])
    case DeleteRelease(d, fault) =>
      var del := s.deletions[d];
      s.(db := if fault == Failed then s.db else AddUsed(s.db, del.acct, 0 - del.total),
         deletions := s.deletions - {d})
    case DeleteCrash(d) => s.(deletions := s.deletions - {d})
    case RecalcRead(r, a) => s.(recalcs := s.recalcs[r := Recalc(a, LiveSize(s.db, a))])
    case RecalcWrite(r, fault) =>
      s.(db := if fault == Failed then s.db else SetUsed(s.db, s.recalcs[r].acct, s.recalcs[r].value),
         recalcs := s.recalcs - {r})
    case RecalcDrop(r) => s.(recalcs := s.recalcs - {r})
    case Expire(id) => s.(db := Remove(s.db, id))
    case Flag(id, seen, keep) =>
      s.(db := s.db.(messages := s.db.messages[id := s.db.messages[id].(seen := seen, keep := keep)]))
    case CreateAccount(a, account) => s.(db := s.db.(accounts := s.db.accounts[a := account]))
    case RemoveAccount(a) => s.(db := s.db.(accounts := s.db.accounts - {a}))
  }

  /** State `i + 1` follows from state `i` by an enabled step. */
  ghost predicate StepAt(states: seq<State>, steps: seq<Step>, i: nat)
    requires |states| == |steps| + 1 && i < |steps|
  {
    Enabled(states[i], steps[i]) && states[i + 1] == Apply(states[i], steps[i])
  }

  /** A run: every state follows from the one before by an enabled step. */
  ghost predicate IsRun(states: seq<State>, steps: seq<Step>) {
    && |states| == |steps| + 1
    && forall i {:trigger StepAt(states, steps, i)} :: 0 <= i < |steps| ==> StepAt(states, steps, i)
  }

  lemma RunExtends(states: seq<State>, steps: seq<Step>, step: Step)
    requires IsRun(states, steps) && Enabled(states[|steps|], step)
    ensures IsRun(states + [Apply(states[|steps|], step)], steps + [step])
  {
    var longer, more := states + [Apply(states[|steps|], step)], steps + [step];
    forall i | 0 <= i < |more| ensures StepAt(longer, more, i) {
      if i < |steps| {
        assert StepAt(states, steps, i);
      }
    }
  }

  /** A system just started: no message, no actor. */
  predicate Initial(s: State) {
    s.db.messages == map[] && s.workers == map[] && s.deletions == map[] && s.recalcs == map[] &&
    forall a :: a in s.db.accounts ==>
      s.db.accounts[a].used == 0
  }
}
