/** What a bulk soft delete is meant to do, as functions of the store's value: which messages it
    takes, what it frees, and that doing it again does nothing
    (internal/store/store.go, internal/handler/message_bulk.go). */
module BulkDelete {
  import opened Wrappers
  import opened MailStore
  import opened MailOrder
  import opened CursorToken
  import opened Paging
  import Strings

  function DeleteLimit(limit: int): nat {
    if limit <= 0 then 5000 else if limit > 20000 then 20000 else limit
  }

  /** The messages a delete by account takes: the newest matching ones, up to the limit. */
  ghost function Chosen(db: Db, a: AccountId, seen: Option<bool>, limit: int): seq<Key> {
    Take(Sort(MatchKeys(db, a, seen)), DeleteLimit(limit))
  }

  /** `q` are the newest messages asked for, all of them if there are no more than the limit: 5000 if none is given,
      never more than 20000. */
  ghost predicate TakesNewest(db: Db, a: AccountId, seen: Option<bool>, limit: int, q: seq<Key>) {
    var all := Sort(MatchKeys(db, a, seen));
    var most := if limit <= 0 then 5000 else if limit > 20000 then 20000 else limit;
    q <= all && |q| == (if |all| <= most then |all| else most) &&
    NewestFirst(q) && forall k :: k in q ==> Shows(db, a, seen, k)
  }

  lemma ChosenExactly(db: Db, a: AccountId, seen: Option<bool>, limit: int)
    ensures TakesNewest(db, a, seen, limit, Chosen(db, a, seen, limit))
  {
    SliceShows(db, a, seen, MatchKeys(db, a, seen), 0, DeleteLimit(limit));
    assert Skip(Sort(MatchKeys(db, a, seen)), 0) == Sort(MatchKeys(db, a, seen));
  }

  function IdsOf(q: seq<Key>): set<MessageId> {
    set k | k in q :: k.id
  }

  function SizeSum(db: Db, q: seq<Key>): nat
    requires forall k :: k in q ==> k.id in db.messages
  {
    if q == [] then 0 else SizeSum(db, q[..|q| - 1]) + db.messages[q[|q| - 1].id].size
  }

  lemma {:induction false} SizeSumAppend(db: Db, p: seq<Key>, q: seq<Key>)
    requires forall k :: k in p + q ==> k.id in db.messages
    ensures (forall k :: k in p ==> k.id in db.messages) && (forall k :: k in q ==> k.id in db.messages)
    ensures SizeSum(db, p + q) == SizeSum(db, p) + SizeSum(db, q)
    decreases |q|
  {
    assert forall k :: k in p ==> k in p + q;
    assert forall k :: k in q ==> k in p + q;
    if q == [] {
      assert p + q == p;
    } else {
      assert (p + q)[..|p + q| - 1] == p + q[..|q| - 1];
      assert forall k :: k in p + q[..|q| - 1] ==> k in p + q;
      SizeSumAppend(db, p, q[..|q| - 1]);
    }
  }

  /** Marking part of what matches leaves the rest matching. */
  lemma MarkedKeys(db: Db, a: AccountId, seen: Option<bool>, q: seq<Key>)
    requires Elements(q) <= MatchKeys(db, a, seen)
    ensures MatchKeys(MarkDeleted(db, IdsOf(q)), a, seen) == MatchKeys(db, a, seen) - Elements(q)
  {
    var after := MarkDeleted(db, IdsOf(q));
    forall k | k in MatchKeys(after, a, seen) ensures k in MatchKeys(db, a, seen) && k !in q {
    }
    forall k | k in MatchKeys(db, a, seen) && k !in q ensures k in MatchKeys(after, a, seen) {
      assert k.id !in IdsOf(q) by {
        forall o | o in q ensures o.id != k.id {
          assert o in Elements(q);
        }
      }
      assert after.messages[k.id] == db.messages[k.id];
    }
  }

  /** Once `n` of the listing are marked, a batch read finds the next slice of the original listing. */
  lemma NextBatch(db: Db, a: AccountId, seen: Option<bool>, n: nat)
    requires n <= |Sort(MatchKeys(db, a, seen))|
    ensures Sort(MatchKeys(MarkDeleted(db, IdsOf(Sort(MatchKeys(db, a, seen))[..n])), a, seen)) ==
            Sort(MatchKeys(db, a, seen))[n..]
  {
    var keys := MatchKeys(db, a, seen);
    SortFacts(keys);
    assert Elements(Sort(keys)[..n]) <= Elements(Sort(keys));
    MarkedKeys(db, a, seen, Sort(keys)[..n]);
    SortDrop(keys, n);
  }

  lemma MarkMark(db: Db, ids: set<MessageId>, more: set<MessageId>)
    ensures MarkDeleted(MarkDeleted(db, ids), more) == MarkDeleted(db, ids + more)
  {
  }

  lemma SplitLast(db: Db, a: AccountId, seen: Option<bool>, front: seq<Key>, last: Key)
    requires Descending(front + [last]) && Elements(front + [last]) <= MatchKeys(db, a, seen)
    ensures Descending(front) && Elements(front) <= MatchKeys(db, a, seen)
    ensures last in MatchKeys(db, a, seen) && last !in Elements(front)
  {
    var q := front + [last];
    assert q[|q| - 1] == last && last in Elements(q);
    assert forall i :: 0 <= i < |front| ==> front[i] == q[i];
    assert forall i, j :: 0 <= i < j < |front| ==> Before(q[i], q[j]) && front[i] == q[i] && front[j] == q[j];
    forall k | k in front ensures k in MatchKeys(db, a, seen) && k != last {
      assert k in Elements(q);
      var j :| 0 <= j < |front| && front[j] == k;
      assert Before(q[j], q[|q| - 1]);
    }
  }

  /** Marking one more message of the listing. */
  lemma MarkOneMore(db: Db, a: AccountId, seen: Option<bool>, front: seq<Key>, last: Key)
    requires Elements(front) <= MatchKeys(db, a, seen) && last in MatchKeys(db, a, seen) && last !in Elements(front)
    ensures last.id in db.messages
    ensures LiveSize(MarkDeleted(db, IdsOf(front + [last])), a) ==
            LiveSize(MarkDeleted(db, IdsOf(front)), a) - db.messages[last.id].size
  {
    var mid := MarkDeleted(db, IdsOf(front));
    MarkedKeys(db, a, seen, front);
    assert last in MatchKeys(mid, a, seen);
    MarkLive(mid, last.id, a);
    MarkMark(db, IdsOf(front), {last.id});
    IdsOfAppend(front, [last]);
    assert IdsOf([last]) == {last.id};
  }

  /** Marking a slice of the listing takes exactly its summed size off the account's live total. */
  lemma {:induction false} MarkFrees(db: Db, a: AccountId, seen: Option<bool>, q: seq<Key>)
    requires Descending(q) && Elements(q) <= MatchKeys(db, a, seen)
    ensures forall k :: k in q ==> k.id in db.messages
    ensures LiveSize(MarkDeleted(db, IdsOf(q)), a) == LiveSize(db, a) - SizeSum(db, q)
    decreases |q|
  {
    assert forall k :: k in q ==> k in Elements(q);
    if q == [] {
      assert MarkDeleted(db, IdsOf(q)) == db;
    } else {
      var front, last := q[..|q| - 1], q[|q| - 1];
      assert q == front + [last];
      SplitLast(db, a, seen, front, last);
      MarkFrees(db, a, seen, front);
      MarkOneMore(db, a, seen, front, last);
    }
  }

  lemma ListedStored(db: Db, a: AccountId, seen: Option<bool>, k: Key)
    requires k in Sort(MatchKeys(db, a, seen))
    ensures k.id in db.messages
  {
    SortFacts(MatchKeys(db, a, seen));
    assert k in Elements(Sort(MatchKeys(db, a, seen)));
  }

  lemma AllStored(db: Db, a: AccountId, seen: Option<bool>)
    ensures forall k :: k in Sort(MatchKeys(db, a, seen)) ==> k.id in db.messages
  {
    forall k | k in Sort(MatchKeys(db, a, seen)) ensures k.id in db.messages {
      ListedStored(db, a, seen, k);
    }
  }

  lemma MarkNone(db: Db)
    ensures MarkDeleted(db, IdsOf([])) == db
  {
  }

  /** Stopping at the limit or at the end is taking up to the limit. */
  lemma TakenAll(all: seq<Key>, n: nat, limit: nat)
    requires n <= |all| && n <= limit && (n == limit || n == |all|)
    ensures all[..n] == Take(all, limit)
  {
  }

  /** One batch behind the first `n` messages is the next slice of the listing. */
  lemma BatchSlice(db: Db, a: AccountId, seen: Option<bool>, all: seq<Key>, n: nat, batch: nat, docs: seq<Key>)
    requires n <= |all| && batch > 0 && all == Sort(MatchKeys(db, a, seen))
    requires docs == Take(Sort(MatchKeys(MarkDeleted(db, IdsOf(all[..n])), a, seen)), batch)
    ensures n + |docs| <= |all| && docs == all[n..n + |docs|] && |docs| <= batch && (docs == [] ==> n == |all|)
  {
    NextBatch(db, a, seen, n);
  }

  lemma SliceAppend(all: seq<Key>, n: nat, docs: seq<Key>)
    requires n + |docs| <= |all| && docs == all[n..n + |docs|]
    ensures all[..n] + docs == all[..n + |docs|]
  {
  }

  /** What it marks and what it frees. */
  lemma BatchStep(db: Db, a: AccountId, seen: Option<bool>, all: seq<Key>, n: nat, batch: nat, docs: seq<Key>)
    requires n <= |all| && batch > 0 && all == Sort(MatchKeys(db, a, seen))
    requires forall k :: k in all ==> k.id in db.messages
    requires docs == Take(Sort(MatchKeys(MarkDeleted(db, IdsOf(all[..n])), a, seen)), batch)
    ensures n + |docs| <= |all| && all[..n] + docs == all[..n + |docs|]
    ensures |docs| <= batch && (docs == [] ==> n == |all|)
    ensures MarkDeleted(MarkDeleted(db, IdsOf(all[..n])), IdsOf(docs)) == MarkDeleted(db, IdsOf(all[..n + |docs|]))
    ensures SizeSum(db, all[..n + |docs|]) == SizeSum(db, all[..n]) + SizeSum(db, docs)
  {
    BatchSlice(db, a, seen, all, n, batch, docs);
    SliceAppend(all, n, docs);
    MarkMark(db, IdsOf(all[..n]), IdsOf(docs));
    IdsOfAppend(all[..n], docs);
    SizeSumAppend(db, all[..n], docs);
  }

  lemma IdsOfAppend(p: seq<Key>, q: seq<Key>)
    ensures IdsOf(p + q) == IdsOf(p) + IdsOf(q)
  {
  }

  // ---- deletion by ids ------------------------------------------------------------------

  /** The texts as object ids, unless one of them is none. */
  function ParseIds(texts: seq<string>): Option<set<MessageId>> {
    if texts == [] then Some({})
    else
      match (ParseIds(texts[..|texts| - 1]), ParseObjectId(Strings.TrimSpace(texts[|texts| - 1])))
      case (Some(ids), Some(id)) => Some(ids + {id})
      case _ => None
  }

  /** The live messages of the account among `ids`. */
  function Found(db: Db, a: AccountId, ids: set<MessageId>): set<MessageId> {
    set id | id in ids && id in db.messages && db.messages[id].account == a && !db.messages[id].deleted
  }

  /** One of the texts writes the id, with or without space around it. */
  predicate Writes(texts: seq<string>, id: Option<MessageId>) {
    exists i :: 0 <= i < |texts| && ParseObjectId(Strings.TrimSpace(texts[i])) == id
  }

  lemma WritesLast(texts: seq<string>, id: Option<MessageId>)
    requires texts != []
    ensures Writes(texts, id) <==>
              Writes(texts[..|texts| - 1], id) || ParseObjectId(Strings.TrimSpace(texts[|texts| - 1])) == id
  {
    var front := texts[..|texts| - 1];
    if Writes(front, id) {
      var i :| 0 <= i < |front| && ParseObjectId(Strings.TrimSpace(front[i])) == id;
      assert texts[i] == front[i];
    }
    if Writes(texts, id) {
      var i :| 0 <= i < |texts| && ParseObjectId(Strings.TrimSpace(texts[i])) == id;
      assert i < |front| ==> front[i] == texts[i];
    }
  }

  /** The ids are exactly those the texts write; one text that writes none spoils the whole request. */
  lemma {:induction false} ParseIdsExactly(texts: seq<string>, id: MessageId)
    ensures ParseIds(texts) == None <==> Writes(texts, None)
    ensures ParseIds(texts).Some? ==> (id in ParseIds(texts).value <==> Writes(texts, Some(id)))
  {
    if texts != [] {
      ParseIdsExactly(texts[..|texts| - 1], id);
      WritesLast(texts, None);
      WritesLast(texts, Some(id));
    }
  }

  /** Deleting by ids marks the account's own live messages among them and leaves every other document as it is. */
  lemma FoundExactly(db: Db, a: AccountId, ids: set<MessageId>)
    ensures MarkDeleted(db, Found(db, a, ids)).messages.Keys == db.messages.Keys
    ensures forall id :: id in db.messages ==>
              var m := db.messages[id];
              MarkDeleted(db, Found(db, a, ids)).messages[id] ==
              if id in ids && m.account == a && !m.deleted then m.(deleted := true) else m
  {
  }

  predicate Distinct(q: seq<MessageId>) {
    forall i, j :: 0 <= i < j < |q| ==> q[i] != q[j]
  }

  function SetOf(q: seq<MessageId>): set<MessageId> {
    set id | id in q
  }

  function IdSizes(db: Db, q: seq<MessageId>): nat
    requires forall id :: id in q ==> id in db.messages
  {
    if q == [] then 0 else IdSizes(db, q[..|q| - 1]) + db.messages[q[|q| - 1]].size
  }

  lemma OneMoreId(db: Db, front: seq<MessageId>, last: MessageId)
    requires Distinct(front) && last !in SetOf(front) && last in db.messages
    requires forall id :: id in front ==> id in db.messages
    ensures SetOf(front + [last]) == SetOf(front) + {last} && Distinct(front + [last])
    ensures forall id :: id in front + [last] ==> id in db.messages
    ensures IdSizes(db, front + [last]) == IdSizes(db, front) + db.messages[last].size
  {
    var q := front + [last];
    assert q[..|q| - 1] == front;
    assert forall i :: 0 <= i < |front| ==> q[i] == front[i] && front[i] in SetOf(front);
  }

  lemma MarkOneId(db: Db, a: AccountId, front: seq<MessageId>, last: MessageId)
    requires last !in front && last in db.messages && IsLive(db, last) && db.messages[last].account == a
    ensures LiveSize(MarkDeleted(db, SetOf(front + [last])), a) ==
            LiveSize(MarkDeleted(db, SetOf(front)), a) - db.messages[last].size
  {
    MarkLive(MarkDeleted(db, SetOf(front)), last, a);
    MarkMark(db, SetOf(front), {last});
    assert SetOf(front) + {last} == SetOf(front + [last]);
  }

  /** Marking distinct live messages of the account frees exactly their summed sizes. */
  lemma {:induction false} MarkIdsFrees(db: Db, a: AccountId, q: seq<MessageId>)
    requires Distinct(q) && forall id :: id in q ==> id in db.messages && IsLive(db, id) && db.messages[id].account == a
    ensures LiveSize(MarkDeleted(db, SetOf(q)), a) == LiveSize(db, a) - IdSizes(db, q)
    decreases |q|
  {
    if q == [] {
      assert MarkDeleted(db, SetOf(q)) == db;
    } else {
      var front, last := q[..|q| - 1], q[|q| - 1];
      assert forall id :: id in front ==> id in q;
      MarkIdsFrees(db, a, front);
      assert q == front + [last];
      MarkOneId(db, a, front, last);
    }
  }

  /** A second delete of the same ids finds nothing, so it deletes and releases nothing. */
  lemma {:induction false} RepeatFindsNothing(db: Db, a: AccountId, ids: set<MessageId>)
    ensures Found(MarkDeleted(db, Found(db, a, ids)), a, ids) == {}
    ensures MarkDeleted(MarkDeleted(db, Found(db, a, ids)), {}) == MarkDeleted(db, Found(db, a, ids))
  {
  }

  /** A second delete by account takes what the limit left over, never a message twice. */
  lemma RepeatTakesTheRest(db: Db, a: AccountId, seen: Option<bool>, limit: int)
    ensures var first := Chosen(db, a, seen, limit);
            Chosen(MarkDeleted(db, IdsOf(first)), a, seen, limit) ==
            Take(Skip(Sort(MatchKeys(db, a, seen)), |first|), DeleteLimit(limit))
  {
    var q := Sort(MatchKeys(db, a, seen));
    assert Chosen(db, a, seen, limit) == q[..|Chosen(db, a, seen, limit)|];
    NextBatch(db, a, seen, |Chosen(db, a, seen, limit)|);
  }
}
