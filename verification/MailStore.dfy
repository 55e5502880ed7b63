/** The document store: accounts with a quota counter, messages, and the operations on them
    (internal/store/store.go). `Db` is the value of the two collections; the class `Store.Store` runs
    the same operations in place. */
module MailStore {
  import opened Totals

  type AccountId = nat
  type MessageId = nat

  datatype Account = Account(address: string, used: int, quota: int)

  datatype Message = Message(
    account: AccountId,
    createdAt: int,
    size: nat,
    seen: bool,
    keep: bool,
    deleted: bool,
    stream: string,
    seqNo: int)
  {
    /** The message carries ingest metadata, so it is listed in the unique partial index:
        both fields are dropped from the document when they are zero values. */
    predicate Indexed() {
      stream != "" && seqNo != 0
    }
  }

  datatype Db = Db(
    accounts: map<AccountId, Account>,
    messages: map<MessageId, Message>)

  /** What the network made of one store call: it worked, it failed without effect, or it took
      effect and the answer was lost. */
  datatype Fault = NoFault | Failed | FailedAfterEffect

  datatype StoreError = NotFound | DuplicateKey | Unavailable

  // ---- accounts -------------------------------------------------------------------------

  /** The filter of the reserving update: the account exists and the bytes fit its quota. */
  predicate Fits(db: Db, a: AccountId, delta: int) {
    a in db.accounts &&
    (db.accounts[a].quota <= 0 || db.accounts[a].used + delta <= db.accounts[a].quota)
  }

  function SetUsed(db: Db, a: AccountId, used: int): Db {
    if a in db.accounts then db.(accounts := db.accounts[a := db.accounts[a].(used := used)]) else db
  }

  function UsedOf(db: Db, a: AccountId): int {
    if a in db.accounts then db.accounts[a].used else 0
  }

  function Max(x: int, y: int): int {
    if x < y then y else x
  }

  /** `used := max(0, used + delta)`, on an account that may be gone. */
  function AddUsed(db: Db, a: AccountId, delta: int): Db {
    if delta == 0 then db else SetUsed(db, a, Max(0, UsedOf(db, a) + delta))
  }

  /** The reserving update applied when its filter matched. */
  function Reserve(db: Db, a: AccountId, delta: int): Db {
    if delta > 0 && Fits(db, a, delta) then SetUsed(db, a, UsedOf(db, a) + delta) else db
  }

  predicate ReserveOk(db: Db, a: AccountId, delta: int) {
    delta <= 0 || Fits(db, a, delta)
  }

  /** A reservation is refused exactly if the account is gone or has a quota the bytes would exceed; an account
      without a quota never refuses. One that is granted adds the bytes and stays within the quota. */
  lemma RefusedExactly(db: Db, a: AccountId, delta: int)
    ensures !ReserveOk(db, a, delta) <==>
              delta > 0 && (a !in db.accounts || 0 < db.accounts[a].quota < db.accounts[a].used + delta)
    ensures !ReserveOk(db, a, delta) ==> Reserve(db, a, delta) == db
    ensures delta > 0 && ReserveOk(db, a, delta) ==>
              a in Reserve(db, a, delta).accounts && Reserve(db, a, delta).messages == db.messages &&
              var account := Reserve(db, a, delta).accounts[a];
              account.used == db.accounts[a].used + delta && (account.quota > 0 ==> account.used <= account.quota)
  {
  }

  // ---- messages -------------------------------------------------------------------------

  predicate IsLive(db: Db, id: MessageId) {
    id in db.messages && !db.messages[id].deleted
  }

  /** The sizes of an account's messages that are not soft-deleted. */
  function LiveSizes(db: Db, a: AccountId): map<MessageId, nat> {
    map id | id in db.messages && db.messages[id].account == a && !db.messages[id].deleted
      :: db.messages[id].size
  }

  ghost function LiveSize(db: Db, a: AccountId): nat {
    Total(LiveSizes(db, a))
  }

  /** `m` was stored for (account, stream, sequence number). */
  predicate HasKey(m: Message, a: AccountId, stream: string, seqNo: int) {
    m.account == a && m.stream == stream && m.seqNo == seqNo
  }

  predicate HasIngest(db: Db, a: AccountId, stream: string, seqNo: int) {
    stream != "" && seqNo > 0 &&
    exists id :: id in db.messages && HasKey(db.messages[id], a, stream, seqNo)
  }

  /** The unique partial index refuses the document. */
  predicate Conflicts(db: Db, m: Message) {
    m.Indexed() &&
    exists id :: id in db.messages && HasKey(db.messages[id], m.account, m.stream, m.seqNo)
  }

  function Insert(db: Db, id: MessageId, m: Message): Db {
    if id in db.messages || Conflicts(db, m) then db else db.(messages := db.messages[id := m])
  }

  function MarkDeleted(db: Db, ids: set<MessageId>): Db {
    db.(messages := map id | id in db.messages ::
          if id in ids then db.messages[id].(deleted := true) else db.messages[id])
  }

  function Remove(db: Db, id: MessageId): Db {
    db.(messages := db.messages - {id})
  }

  // ---- how each operation moves the live total ------------------------------------------

  /** Writing one account's counter touches neither another counter nor any live total. */
  lemma SetUsedEffect(db: Db, b: AccountId, used: int, a: AccountId)
    ensures a in db.accounts ==> UsedOf(SetUsed(db, b, used), a) == if a == b then used else UsedOf(db, a)
    ensures LiveSize(SetUsed(db, b, used), a) == LiveSize(db, a)
  {
    assert LiveSizes(SetUsed(db, b, used), a) == LiveSizes(db, a);
  }

  lemma InsertSizes(db: Db, id: MessageId, m: Message, a: AccountId)
    requires id !in db.messages && !Conflicts(db, m) && !m.deleted
    ensures id !in LiveSizes(db, a)
    ensures LiveSizes(Insert(db, id, m), a) ==
            if m.account == a then LiveSizes(db, a)[id := m.size] else LiveSizes(db, a)
  {
    assert Insert(db, id, m).messages == db.messages[id := m];
  }

  lemma InsertLive(db: Db, id: MessageId, m: Message, a: AccountId)
    requires id !in db.messages && !Conflicts(db, m) && !m.deleted
    ensures LiveSize(Insert(db, id, m), a) == LiveSize(db, a) + (if m.account == a then m.size else 0)
  {
    InsertSizes(db, id, m, a);
    if m.account == a {
      TotalAdd(LiveSizes(db, a), id, m.size);
    }
  }

  /** Soft-deleting or removing one message lowers its own account's live total by its size,
      exactly when it was live. */
  function Drop(db: Db, id: MessageId, a: AccountId): nat {
    if IsLive(db, id) && db.messages[id].account == a then db.messages[id].size else 0
  }

  lemma RemoveSizes(db: Db, id: MessageId, a: AccountId)
    ensures LiveSizes(Remove(db, id), a) == LiveSizes(db, a) - {id}
    ensures LiveSizes(MarkDeleted(db, {id}), a) == LiveSizes(db, a) - {id}
  {
  }

  lemma DropTotal(db: Db, id: MessageId, a: AccountId)
    ensures Total(LiveSizes(db, a) - {id}) == LiveSize(db, a) - Drop(db, id, a)
  {
    var live := LiveSizes(db, a);
    if id in live {
      TotalSplit(live, id);
    } else {
      assert live - {id} == live;
    }
  }

  lemma MarkLive(db: Db, id: MessageId, a: AccountId)
    ensures LiveSize(MarkDeleted(db, {id}), a) == LiveSize(db, a) - Drop(db, id, a)
  {
    RemoveSizes(db, id, a);
    DropTotal(db, id, a);
  }

  lemma RemoveLive(db: Db, id: MessageId, a: AccountId)
    ensures LiveSize(Remove(db, id), a) == LiveSize(db, a) - Drop(db, id, a)
  {
    RemoveSizes(db, id, a);
    DropTotal(db, id, a);
  }

  // ---- uniqueness of ingest keys --------------------------------------------------------

  /** What the unique index keeps: no two documents share an indexed ingest key. */
  ghost predicate UniqueIngest(db: Db) {
    forall i, j ::
      i in db.messages && j in db.messages && db.messages[i].Indexed() &&
      HasKey(db.messages[j], db.messages[i].account, db.messages[i].stream, db.messages[i].seqNo)
      ==> i == j
  }
}
