/** The worker's code itself, run against the shared store while other actors interfere
    (internal/worker/worker.go, internal/queue/queue.go). Every store call is recorded as a step of
    the protocol of `Ingest`, so whatever the other actors do in between, an execution of the code is
    a run of the protocol, and the theorems about runs hold of it. */
module IngestWorker {
  import opened Wrappers
  import opened MailStore
  import opened Store
  import opened Ingest
  import opened IngestSafety

  /** The store together with the history of the system so far. */
  class Cluster {
    const store: Store
    var nextId: nat
    ghost var states: seq<State>
    ghost var steps: seq<Step>

    ghost predicate Valid()
      reads this, store
    {
      IsRun(states, steps) && WellFormed(states[0]) && states[|steps|].db == store.Value() &&
      forall id :: id in states[|steps|].issued ==> id < nextId
    }

    ghost function Now(): State
      requires |states| == |steps| + 1
      reads this
    {
      states[|steps|]
    }

    ghost predicate InPhase(w: nat, p: Phase)
      reads this
    {
      |states| == |steps| + 1 && w in Now().workers && Now().workers[w] == p
    }

    constructor (store: Store)
      ensures Valid() && this.store == store && states == [State(store.Value(), {}, map[], map[], map[])]
      requires store.messages == map[]
    {
      this.store := store;
      nextId := 0;
      states, steps := [State(store.Value(), {}, map[], map[], map[])], [];
    }

    /** Anything other actors may have done while the attempt `w` was not running: the history grows
        by some run in which `w` stays where it is. Callers know only this contract, so what is
        proved of them holds for every such interference. */
    method Interfere(ghost w: nat)
      requires Valid() && w in Now().workers
      modifies this, store
      ensures Valid() && old(states) <= states && old(steps) <= steps
      ensures InPhase(w, old(Now().workers[w]))
    {
    }

    /** A generated object id, never given out before. */
    method NewObjectID() returns (id: MessageId)
      requires Valid()
      modifies this`nextId
      ensures Valid() && id !in Now().issued && id < nextId
    {
      id := nextId;
      nextId := nextId + 1;
    }

    /** Records the step whose effect the store already shows. */
    ghost method Record(step: Step)
      requires IsRun(states, steps) && WellFormed(states[0])
      requires Enabled(Now(), step) && Apply(Now(), step).db == store.Value()
      requires forall id :: id in Apply(Now(), step).issued ==> id < nextId
      modifies this`states, this`steps
      ensures Valid() && states == old(states) + [Apply(old(Now()), step)] && steps == old(steps) + [step]
    {
      RunExtends(states, steps, step);
      states, steps := states + [Apply(Now(), step)], steps + [step];
    }
  }

  /** The history of `c` only grew. */
  twostate predicate Extends(c: Cluster)
    reads c
  {
    old(c.states) <= c.states && old(c.steps) <= c.steps
  }

  /** The account lookup. */
  method LookupAccount(c: Cluster, ghost w: nat, job: Job) returns (r: Result<AccountId, StoreError>)
    requires c.Valid() && c.InPhase(w, Lookup(job))
    modifies c, c.store
    ensures c.Valid() && Extends(c)
    ensures c.InPhase(w, match r
                         case Ok(a) => Dedup(job, a)
                         case Err(e) => Done(job, if e == NotFound then Permanent else Transient))
  {
    c.Interfere(w);
    var fault: Fault := *;
    r := c.store.GetAccountIDByAddress(job.recipient, fault);
    ghost var found := if r.Ok? then Some(r.value) else None;
    assert fault == NoFault ==> LookupAnswer(c.Now().db, job.recipient, found);
    c.Record(Work(w, Choice(fault, found, ParseOk, 0, 0)));
  }

  /** The dedup check, skipped for mail without ingest metadata. Answers whether to go on. */
  method CheckDuplicate(c: Cluster, ghost w: nat, job: Job, a: AccountId) returns (proceed: bool, outcome: Outcome)
    requires c.Valid() && c.InPhase(w, Dedup(job, a))
    modifies c, c.store
    ensures c.Valid() && Extends(c)
    ensures c.InPhase(w, if proceed then AfterDedup(job, a) else Done(job, outcome))
  {
    proceed, outcome := true, Success;
    c.Interfere(w);
    var fault: Fault := *;
    if job.stream != "" && job.seqNo > 0 {
      var stored := c.store.HasMessageByIngest(a, job.stream, job.seqNo, fault);
      match stored {
        case Err(_) => proceed, outcome := false, Transient;
        case Ok(found) => proceed := !found;
      }
    }
    c.Record(Work(w, Choice(fault, None, ParseOk, 0, 0)));
  }

  /** One reserving update. */
  method ReserveOnce(c: Cluster, ghost w: nat, job: Job, a: AccountId, ghost retried: bool)
    returns (r: Result<bool, StoreError>)
    requires c.Valid() && c.InPhase(w, Reserving(job, a, retried))
    modifies c, c.store
    ensures c.Valid() && Extends(c)
    ensures c.InPhase(w, if r.Err? then Done(job, Transient)
                         else if r.value then Inserting(job, a)
                         else if retried then Done(job, Permanent)
                         else RecalcReading(job, a))
  {
    c.Interfere(w);
    var fault: Fault := *;
    r := c.store.TryReserveAccountUsed(a, job.size, fault);
    c.Record(Work(w, Choice(fault, None, ParseOk, 0, 0)));
  }

  /** The write of a recalculation whose aggregate gave `used`; its error is ignored. */
  method WriteBack(c: Cluster, ghost w: nat, job: Job, a: AccountId, used: int)
    requires c.Valid() && c.InPhase(w, RecalcWriting(job, a, used))
    modifies c, c.store
    ensures c.Valid() && Extends(c) && c.InPhase(w, Reserving(job, a, true))
  {
    c.Interfere(w);
    var fault: Fault := *;
    var _ := c.store.WriteUsed(a, used, fault);
    c.Record(Work(w, Choice(fault, None, ParseOk, 0, 0)));
  }

  /** The recalculation in the middle of an attempt; its errors are ignored. */
  method Recalculate(c: Cluster, ghost w: nat, job: Job, a: AccountId)
    requires c.Valid() && c.InPhase(w, RecalcReading(job, a))
    modifies c, c.store
    ensures c.Valid() && Extends(c) && c.InPhase(w, Reserving(job, a, true))
  {
    c.Interfere(w);
    var fault: Fault := *;
    var sum := c.store.AggregateLive(a, fault);
    c.Record(Work(w, Choice(fault, None, ParseOk, 0, 0)));
    match sum {
      case Err(_) =>
      case Ok(used) => WriteBack(c, w, job, a, used);
    }
  }

  /** Reserving before the costly work: a refused reservation is tried once more after a recalculation. */
  method ReserveQuota(c: Cluster, ghost w: nat, job: Job, a: AccountId) returns (r: Result<(), Outcome>)
    requires c.Valid() && c.InPhase(w, Reserving(job, a, false))
    modifies c, c.store
    ensures c.Valid() && Extends(c)
    ensures c.InPhase(w, if r.Ok? then Inserting(job, a) else Done(job, r.error))
  {
    var ok := ReserveOnce(c, w, job, a, false);
    if ok.Err? {
      return Err(Transient);
    }
    if !ok.value {
      Recalculate(c, w, job, a);
      var ok2 := ReserveOnce(c, w, job, a, true);
      if ok2.Err? {
        return Err(Transient);
      }
      if !ok2.value {
        return Err(Permanent);
      }
    }
    r := Ok(());
  }

  /** Parsing the message and inserting the document; answers whether the document was committed. */
  method ParseAndInsert(c: Cluster, ghost w: nat, job: Job, a: AccountId, now: int)
    returns (committed: bool, outcome: Outcome)
    requires c.Valid() && c.InPhase(w, Inserting(job, a))
    modifies c, c.store
    ensures c.Valid() && Extends(c)
    ensures c.InPhase(w, if committed then Done(job, outcome) else Unwind(job, a, outcome))
  {
    committed := false;
    c.Interfere(w);
    var parse: Parse := *;
    var fault: Fault := *;
    var id := c.NewObjectID();
    match parse {
      case ParseFailed => outcome := Permanent;
      case ParsePanic => outcome := Panicked;
      case ParseOk =>
        var r := c.store.CreateMessage(id, NewMessage(job, a, now), fault);
        match r {
          case Ok(_) => committed, outcome := true, Success;
          case Err(e) => outcome := if e == DuplicateKey then Success else Transient;
        }
    }
    c.Record(Work(w, Choice(fault, None, parse, id, now)));
  }

  /** The deferred release of the reservation; its error is ignored. */
  method Rollback(c: Cluster, ghost w: nat, job: Job, a: AccountId, outcome: Outcome)
    requires c.Valid() && c.InPhase(w, RollingBack(job, a, outcome))
    modifies c, c.store
    ensures c.Valid() && Extends(c) && c.InPhase(w, Done(job, outcome))
  {
    c.Interfere(w);
    var fault: Fault := *;
    var delta: int := job.size;
    var _ := c.store.UpdateAccountUsed(a, -delta, fault);
    c.Record(Work(w, Choice(fault, None, ParseOk, 0, 0)));
  }

  /** The rest of the attempt, with the deferred rollback at its end. */
  method StoreReserved(c: Cluster, ghost w: nat, job: Job, a: AccountId, now: int, reserved: bool)
    returns (outcome: Outcome)
    requires c.Valid() && c.InPhase(w, Inserting(job, a)) && reserved == (job.size > 0)
    modifies c, c.store
    ensures c.Valid() && Extends(c) && c.InPhase(w, Done(job, outcome))
  {
    var committed: bool;
    committed, outcome := ParseAndInsert(c, w, job, a, now);
    if reserved && !committed && job.size > 0 {
      Rollback(c, w, job, a, outcome);
    }
  }

  /** Everything behind the account lookup. */
  method ProcessForAccount(c: Cluster, ghost w: nat, job: Job, a: AccountId, now: int) returns (outcome: Outcome)
    requires c.Valid() && c.InPhase(w, Dedup(job, a))
    modifies c, c.store
    ensures c.Valid() && Extends(c) && c.InPhase(w, Done(job, outcome))
  {
    var proceed, early := CheckDuplicate(c, w, job, a);
    if !proceed {
      return early;
    }
    var reserved := false;
    if job.size > 0 {
      var r := ReserveQuota(c, w, job, a);
      if r.Err? {
        return r.error;
      }
      reserved := true;
    }
    outcome := StoreReserved(c, w, job, a, now, reserved);
  }

  /** One recipient of one delivery: whatever the others do, the code is one attempt of the protocol. */
  method ProcessForRecipient(c: Cluster, ghost w: nat, job: Job, now: int) returns (outcome: Outcome)
    requires c.Valid() && c.InPhase(w, Lookup(job))
    modifies c, c.store
    ensures c.Valid() && Extends(c) && c.InPhase(w, Done(job, outcome))
  {
    var account := LookupAccount(c, w, job);
    if account.Err? {
      return if account.error == NotFound then Permanent else Transient;
    }
    outcome := ProcessForAccount(c, w, job, account.value, now);
  }
}
