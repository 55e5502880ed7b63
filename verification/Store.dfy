/** The store and the handlers over it, updated in place (internal/store/store.go,
    internal/handler/message.go, internal/handler/message_bulk.go). Every method is tied to the
    functions of `MailStore`, `Paging` and `BulkDelete` by its postconditions. */
module Store {
  import opened Wrappers
  import opened Totals
  import opened MailStore
  import opened MailOrder
  import opened Paging
  import opened BulkDelete
  import CursorToken
  import Strings

  class Store {
    var accounts: map<AccountId, Account>
    var messages: map<MessageId, Message>

    function Value(): Db
      reads this
    {
      Db(accounts, messages)
    }

    constructor (db: Db)
      ensures Value() == db
    {
      accounts, messages := db.accounts, db.messages;
    }

    // ---- accounts -----------------------------------------------------------------------

    method GetAccountIDByAddress(recipient: string, fault: Fault) returns (r: Result<AccountId, StoreError>)
      ensures fault != NoFault ==> r == Err(Unavailable)
      ensures fault == NoFault && r.Ok? ==>
                Strings.Normalize(recipient) != "" && r.value in accounts &&
                accounts[r.value].address == Strings.Normalize(recipient)
      ensures fault == NoFault && r.Err? ==>
                r.error == NotFound &&
                (Strings.Normalize(recipient) == "" ||
                 forall a :: a in accounts ==> accounts[a].address != Strings.Normalize(recipient))
    {
      var address := Strings.Normalize(recipient);
      if fault != NoFault {
        return Err(Unavailable);
      }
      if address == "" {
        return Err(NotFound);
      }
      if a :| a in accounts && accounts[a].address == address {
        return Ok(a);
      }
      return Err(NotFound);
    }

    /** A refused reservation is an answer, not an error. */
    method TryReserveAccountUsed(a: AccountId, delta: int, fault: Fault) returns (r: Result<bool, StoreError>)
      modifies this
      ensures Value() == if fault == Failed then old(Value()) else Reserve(old(Value()), a, delta)
      ensures r == if fault != NoFault then Err(Unavailable) else Ok(ReserveOk(old(Value()), a, delta))
      ensures r == Ok(false) <==>
                fault == NoFault && delta > 0 &&
                (a !in old(accounts) || 0 < old(accounts)[a].quota < old(accounts)[a].used + delta)
    {
      if fault == Failed {
        return Err(Unavailable);
      }
      var matched := delta <= 0;
      if delta > 0 && a in accounts && (accounts[a].quota <= 0 || accounts[a].used + delta <= accounts[a].quota) {
        accounts := accounts[a := accounts[a].(used := accounts[a].used + delta)];
        matched := true;
      }
      r := if fault == NoFault then Ok(matched) else Err(Unavailable);
    }

    /** The counter never goes below zero. */
    method UpdateAccountUsed(a: AccountId, delta: int, fault: Fault) returns (r: Result<(), StoreError>)
      modifies this
      ensures Value() == if fault == Failed then old(Value()) else AddUsed(old(Value()), a, delta)
      ensures r == if fault == NoFault then Ok(()) else Err(Unavailable)
    {
      if fault != Failed && delta != 0 && a in accounts {
        accounts := accounts[a := accounts[a].(used := Max(0, accounts[a].used + delta))];
      }
      r := if fault == NoFault then Ok(()) else Err(Unavailable);
    }

    /** First half of a recalculation: the aggregate over the live messages. */
    method AggregateLive(a: AccountId, fault: Fault) returns (r: Result<nat, StoreError>)
      ensures fault != NoFault ==> r == Err(Unavailable)
      ensures fault == NoFault ==> r == Ok(LiveSize(Value(), a))
    {
      if fault != NoFault {
        return Err(Unavailable);
      }
      var sum := SumSizes(LiveSizes(Value(), a));
      r := Ok(sum);
    }

    /** The `$sum` of the aggregate. */
    static method SumSizes(sizes: map<MessageId, nat>) returns (sum: nat)
      ensures sum == Total(sizes)
    {
      sum := 0;
      var rest := sizes;
      while rest != map[]
        invariant sum + Total(rest) == Total(sizes)
        decreases |rest|
      {
        var id :| id in rest.Keys;
        TotalSplit(rest, id);
        sum := sum + rest[id];
        rest := rest - {id};
      }
    }

    /** Second half: the write. */
    method WriteUsed(a: AccountId, used: int, fault: Fault) returns (r: Result<(), StoreError>)
      modifies this
      ensures Value() == if fault == Failed then old(Value()) else SetUsed(old(Value()), a, used)
      ensures r == if fault == NoFault then Ok(()) else Err(Unavailable)
    {
      if fault != Failed && a in accounts {
        accounts := accounts[a := accounts[a].(used := used)];
      }
      r := if fault == NoFault then Ok(()) else Err(Unavailable);
    }

    // ---- messages -----------------------------------------------------------------------

    method HasMessageByIngest(a: AccountId, stream: string, seqNo: int, fault: Fault)
      returns (r: Result<bool, StoreError>)
      ensures r == if fault != NoFault then Err(Unavailable) else Ok(HasIngest(Value(), a, stream, seqNo))
      ensures stream == "" || seqNo <= 0 ==> r != Ok(true)
    {
      if fault != NoFault {
        return Err(Unavailable);
      }
      r := Ok(stream != "" && seqNo > 0 &&
              exists id :: id in messages && HasKey(messages[id], a, stream, seqNo));
    }

    method CreateMessage(id: MessageId, m: Message, fault: Fault) returns (r: Result<(), StoreError>)
      modifies this
      ensures Value() == if fault == Failed then old(Value()) else Insert(old(Value()), id, m)
      ensures r == if fault != NoFault then Err(Unavailable)
                   else if id in old(messages) || Conflicts(old(Value()), m) then Err(DuplicateKey)
                   else Ok(())
    {
      if fault == Failed {
        return Err(Unavailable);
      }
      var duplicate := id in messages || Conflicts(Value(), m);
      if !duplicate {
        messages := messages[id := m];
      }
      r := if fault != NoFault then Err(Unavailable) else if duplicate then Err(DuplicateKey) else Ok(());
    }

    // ---- listing ------------------------------------------------------------------------

    /** `ListMessagesFiltered`: a page by number. */
    method ListMessages(a: AccountId, seen: Option<bool>, page: nat, perPage: nat) returns (q: seq<Key>)
      requires page > 0
      ensures q == SkipPage(MatchKeys(Value(), a, seen), page, perPage)
      ensures |q| <= perPage && NewestFirst(q) && forall k :: k in q ==> Shows(Value(), a, seen, k)
    {
      var keys := MatchKeys(Value(), a, seen);
      var skip := (page - 1) * perPage;
      var found := Find(keys, skip + perPage);
      SkipOfTake(Sort(keys), skip, perPage);
      q := Skip(found, skip);
      SliceShows(Value(), a, seen, keys, skip, perPage);
    }

    /** `ListMessagesAfterFiltered`: the page behind a cursor text. */
    method ListMessagesAfter(a: AccountId, seen: Option<bool>, text: string, limit: int)
      returns (r: Result<seq<Key>, ListError>)
      ensures r == ListAfter(Value(), a, seen, text, limit)
      ensures r.Ok? ==> NewestFirst(r.value) && forall k :: k in r.value ==> Shows(Value(), a, seen, k)
      ensures r.Ok? ==> |r.value| <= if limit <= 0 then 30 else if limit > 100 then 100 else limit
    {
      var cursor := ResolveCursor(Value(), a, seen, text);
      match cursor {
        case Err(e) => r := Err(e);
        case Ok(c) =>
          var q := Find(Beyond(MatchKeys(Value(), a, seen), c), ClampLimit(limit));
          SliceShows(Value(), a, seen, Beyond(MatchKeys(Value(), a, seen), c), 0, ClampLimit(limit));
          r := Ok(q);
      }
    }

    // ---- soft deletion ------------------------------------------------------------------

    method MarkAll(ids: set<MessageId>)
      modifies this
      ensures Value() == MarkDeleted(old(Value()), ids)
    {
      messages := map id | id in messages :: if id in ids then messages[id].(deleted := true) else messages[id];
    }

    /** One round of the loop below: reads a batch behind the `n` messages marked so far and marks it. */
    method DeleteBatch(a: AccountId, seen: Option<bool>, batch: nat, ghost db: Db, ghost all: seq<Key>, ghost n: nat)
      returns (docs: seq<Key>, size: nat)
      requires batch > 0 && n <= |all| && all == Sort(MatchKeys(db, a, seen))
      requires forall k :: k in all ==> k.id in db.messages
      requires Value() == MarkDeleted(db, IdsOf(all[..n]))
      modifies this
      ensures |docs| <= batch && n + |docs| <= |all| && all[..n] + docs == all[..n + |docs|]
      ensures docs == [] ==> n == |all|
      ensures Value() == MarkDeleted(db, IdsOf(all[..n + |docs|]))
      ensures SizeSum(db, all[..n + |docs|]) == SizeSum(db, all[..n]) + size
    {
      docs := Find(MatchKeys(Value(), a, seen), batch);
      BatchStep(db, a, seen, all, n, batch, docs);
      assert forall k :: k in docs ==> k in all[..n + |docs|];
      size := BatchSize(docs, db);
      MarkAll(IdsOf(docs));
    }

    /** The loop: batches of at most 1000 add up to one delete of the newest matching messages. */
    method DeleteInBatches(a: AccountId, seen: Option<bool>, limit: nat) returns (deleted: seq<Key>, totalSize: nat)
      modifies this
      ensures deleted == Take(Sort(MatchKeys(old(Value()), a, seen)), limit)
      ensures Value() == MarkDeleted(old(Value()), IdsOf(deleted))
      ensures forall k :: k in deleted ==> k.id in old(messages)
      ensures totalSize == SizeSum(old(Value()), deleted)
    {
      ghost var db := Value();
      ghost var all := Sort(MatchKeys(db, a, seen));
      AllStored(db, a, seen);
      deleted, totalSize := [], 0;
      var remaining := limit;
      MarkNone(db);
      while remaining > 0
        invariant |deleted| <= |all| && deleted == all[..|deleted|]
        invariant 0 <= remaining && |deleted| + remaining == limit
        invariant Value() == MarkDeleted(db, IdsOf(all[..|deleted|]))
        invariant totalSize == SizeSum(db, all[..|deleted|])
      {
        var batch := if 1000 > remaining then remaining else 1000;
        var docs, size := DeleteBatch(a, seen, batch, db, all, |deleted|);
        if docs == [] {
          break;
        }
        deleted, totalSize := deleted + docs, totalSize + size;
        remaining := remaining - |docs|;
      }
      TakenAll(all, |deleted|, limit);
    }

    /** Soft-deletes the newest matching messages, with the limit in its bounds. */
    method SoftDeleteMessagesByAccount(a: AccountId, seen: Option<bool>, limit: int)
      returns (deleted: seq<Key>, totalSize: nat)
      modifies this
      ensures deleted == Chosen(old(Value()), a, seen, limit) && TakesNewest(old(Value()), a, seen, limit, deleted)
      ensures Value() == MarkDeleted(old(Value()), IdsOf(deleted))
      ensures forall k :: k in deleted ==> k.id in old(messages)
      ensures totalSize == SizeSum(old(Value()), deleted)
    {
      ChosenExactly(Value(), a, seen, limit);
      deleted, totalSize := DeleteInBatches(a, seen, DeleteLimit(limit));
    }

    /** The summed sizes of one batch; a mark does not change a size. */
    method BatchSize(docs: seq<Key>, ghost db: Db) returns (size: nat)
      requires forall k :: k in docs ==> k.id in db.messages
      requires messages.Keys == db.messages.Keys
      requires forall id :: id in messages ==> messages[id].size == db.messages[id].size
      ensures size == SizeSum(db, docs)
    {
      size := 0;
      assert docs[..0] == [];
      for i := 0 to |docs|
        invariant size == SizeSum(db, docs[..i])
      {
        assert docs[..i + 1][..i] == docs[..i];
        size := size + messages[docs[i].id].size;
      }
      assert docs[..|docs|] == docs;
    }

    /** The ids a request names, or none if one of the texts is not an id. */
    static method CollectIds(texts: seq<string>) returns (r: Option<set<MessageId>>)
      ensures r == ParseIds(texts)
    {
      var ids: set<MessageId> := {};
      var i := 0;
      assert texts[..0] == [];
      while i < |texts|
        invariant i <= |texts| && ParseIds(texts[..i]) == Some(ids)
      {
        assert texts[..i + 1][..i] == texts[..i];
        var id := CursorToken.ParseObjectId(Strings.TrimSpace(texts[i]));
        if id == None {
          ParseIdsFails(texts, i + 1);
          return None;
        }
        ids := ids + {id.value};
        i := i + 1;
      }
      assert texts[..|texts|] == texts;
      r := Some(ids);
    }

    /** Reads the documents of a delete by ids: each once, with the sum of their sizes. */
    static method ReadFound(db: Db, found: set<MessageId>) returns (deleted: seq<MessageId>, total: nat)
      requires found <= db.messages.Keys
      ensures SetOf(deleted) == found && Distinct(deleted) && |deleted| == |found|
      ensures forall id :: id in deleted ==> id in db.messages
      ensures total == IdSizes(db, deleted)
    {
      var rest := found;
      deleted, total := [], 0;
      while rest != {}
        invariant rest <= found && SetOf(deleted) == found - rest && |deleted| + |rest| == |found|
        invariant Distinct(deleted) && forall id :: id in deleted ==> id in found
        invariant total == IdSizes(db, deleted)
        decreases |rest|
      {
        var id :| id in rest;
        assert id !in SetOf(deleted);
        OneMoreId(db, deleted, id);
        deleted, total := deleted + [id], total + db.messages[id].size;
        rest := rest - {id};
      }
    }

    /** Deletion by ids: each live message of the account among them once, in no particular order. */
    method SoftDeleteMessagesByIDs(a: AccountId, texts: seq<string>)
      returns (r: Result<(seq<MessageId>, nat), ListError>)
      modifies this
      ensures ParseIds(texts) == None <==> r.Err?
      ensures r.Err? ==> Value() == old(Value())
      ensures r.Ok? ==>
                var found := Found(old(Value()), a, ParseIds(texts).value);
                SetOf(r.value.0) == found && Distinct(r.value.0) && |r.value.0| == |found| &&
                Value() == MarkDeleted(old(Value()), found) &&
                r.value.1 == LiveSize(old(Value()), a) - LiveSize(Value(), a)
    {
      var ids := CollectIds(texts);
      if ids == None {
        return Err(InvalidCursor);
      }
      var found := Found(Value(), a, ids.value);
      var deleted, total := ReadFound(Value(), found);
      assert forall id :: id in deleted ==> id in SetOf(deleted);
      MarkIdsFrees(Value(), a, deleted);
      MarkAll(found);
      r := Ok((deleted, total));
    }

    /** The single-message update matches on the id alone, deleted or not. */
    method DeleteMessage(id: MessageId) returns (r: Result<(), StoreError>)
      modifies this
      ensures r == if id in old(messages) then Ok(()) else Err(NotFound)
      ensures Value() == MarkDeleted(old(Value()), {id})
    {
      r := if id in messages then Ok(()) else Err(NotFound);
      MarkAll({id});
    }
  }

  lemma {:induction false} ParseIdsFails(texts: seq<string>, n: nat)
    requires n <= |texts| && ParseIds(texts[..n]) == None
    ensures ParseIds(texts) == None
    decreases |texts|
  {
    if n < |texts| {
      assert texts[..|texts| - 1][..n] == texts[..n];
      ParseIdsFails(texts[..|texts| - 1], n);
    } else {
      assert texts[..n] == texts;
    }
  }

  lemma SkipOfTake<T>(q: seq<T>, skip: nat, n: nat)
    ensures Skip(Take(q, skip + n), skip) == Take(Skip(q, skip), n)
  {
  }
}
