/** The delete handlers on an account nobody else is using: the store's deletion followed by the
    release of the freed bytes (internal/handler/message.go, internal/handler/message_bulk.go). */
module Handlers {
  import opened Wrappers
  import opened MailStore
  import opened MailOrder
  import opened Paging
  import opened BulkDelete
  import opened Store

  /** A handler took `freed` bytes off the account's live total and released them: where the counter
      covered the live messages it still does, by exactly the same margin. */
  ghost predicate Released(before: Db, after: Db, a: AccountId, freed: nat) {
    LiveSize(after, a) == LiveSize(before, a) - freed &&
    (UsedOf(after, a) == UsedOf(before, a) - freed <==> freed <= UsedOf(before, a) || freed == 0) &&
    (LiveSize(before, a) <= UsedOf(before, a) ==>
      UsedOf(after, a) - LiveSize(after, a) == UsedOf(before, a) - LiveSize(before, a))
  }

  lemma ReleaseAfter(before: Db, marked: Db, a: AccountId, freed: nat)
    requires a in before.accounts && marked.accounts == before.accounts
    requires LiveSize(marked, a) == LiveSize(before, a) - freed
    ensures Released(before, AddUsed(marked, a, 0 - freed), a, freed)
  {
    SetUsedEffect(marked, a, Max(0, UsedOf(marked, a) - freed), a);
  }

  method DeleteMessages(store: Store, a: AccountId, seen: Option<bool>, limit: int)
    returns (deleted: nat, totalSize: nat, truncated: bool)
    requires a in store.accounts
    modifies store
    ensures var effective := if limit < 1 then 1 else if limit > 20000 then 20000 else limit;
            var chosen := Chosen(old(store.Value()), a, seen, effective);
            deleted == |chosen| && truncated == (|chosen| == effective) &&
            store.messages == MarkDeleted(old(store.Value()), IdsOf(chosen)).messages
    ensures Released(old(store.Value()), store.Value(), a, totalSize)
  {
    var effective := if limit < 1 then 1 else if limit > 20000 then 20000 else limit;
    ghost var before := store.Value();
    var docs, size := store.SoftDeleteMessagesByAccount(a, seen, effective);
    ghost var marked := store.Value();
    ChosenIsSlice(before, a, seen, effective);
    MarkFrees(before, a, seen, docs);
    ReleaseAfter(before, marked, a, size);
    var freed: int := size;
    if freed != 0 {
      var _ := store.UpdateAccountUsed(a, -freed, NoFault);
    }
    deleted, totalSize, truncated := |docs|, size, |docs| == effective;
  }

  lemma ChosenIsSlice(db: Db, a: AccountId, seen: Option<bool>, limit: int)
    ensures Descending(Chosen(db, a, seen, limit)) && Elements(Chosen(db, a, seen, limit)) <= MatchKeys(db, a, seen)
  {
    SortFacts(MatchKeys(db, a, seen));
    assert forall k :: k in Chosen(db, a, seen, limit) ==> k in Elements(Sort(MatchKeys(db, a, seen)));
  }

  /** A repeat of the same request finds nothing to delete and releases nothing. */
  method BulkDeleteMessagesByIDs(store: Store, a: AccountId, texts: seq<string>)
    returns (r: Result<(nat, nat), ListError>)
    requires a in store.accounts
    modifies store
    ensures ParseIds(texts) == None <==> r.Err?
    ensures r.Err? ==> store.Value() == old(store.Value())
    ensures r.Ok? ==>
              r.value.0 == |Found(old(store.Value()), a, ParseIds(texts).value)| &&
              Found(store.Value(), a, ParseIds(texts).value) == {} &&
              Released(old(store.Value()), store.Value(), a, r.value.1)
    ensures r.Ok? && Found(old(store.Value()), a, ParseIds(texts).value) == {} ==>
              r.value == (0, 0) && store.Value() == old(store.Value())
  {
    ghost var before := store.Value();
    var res := store.SoftDeleteMessagesByIDs(a, texts);
    if res.Err? {
      return Err(res.error);
    }
    var (ids, size) := res.value;
    ghost var marked := store.Value();
    RepeatFindsNothing(before, a, ParseIds(texts).value);
    assert Found(before, a, ParseIds(texts).value) == {} ==> MarkDeleted(before, {}) == before;
    ReleaseAfter(before, marked, a, size);
    var freed: int := size;
    if freed != 0 {
      var _ := store.UpdateAccountUsed(a, -freed, NoFault);
    }
    r := Ok((|ids|, size));
  }

  datatype Answer = NoContent | Missing | Forbidden | Failure

  /** Deletion of one message by its owner. */
  method DeleteMessage(store: Store, caller: AccountId, id: MessageId) returns (answer: Answer)
    requires caller in store.accounts
    modifies store
    ensures answer == if !IsLive(old(store.Value()), id) then Missing
                      else if old(store.messages)[id].account != caller then Forbidden else NoContent
    ensures answer != NoContent ==> store.Value() == old(store.Value())
    ensures answer == NoContent ==>
              store.messages == MarkDeleted(old(store.Value()), {id}).messages &&
              Released(old(store.Value()), store.Value(), caller, old(store.messages)[id].size)
  {
    ghost var before := store.Value();
    if id !in store.messages || store.messages[id].deleted {
      return Missing;
    }
    var m := store.messages[id];
    if m.account != caller {
      return Forbidden;
    }
    var r := store.DeleteMessage(id);
    MarkLive(before, id, caller);
    ReleaseAfter(before, store.Value(), caller, m.size);
    if r.Err? {
      return Failure;
    }
    var _ := store.UpdateAccountUsed(m.account, 0 - m.size, NoFault);
    answer := NoContent;
  }
}
