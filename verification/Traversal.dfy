/** A client follows `nextCursor` while workers insert, users delete and old messages expire:
    what it has seen when it reaches an empty page. */
module Traversal {
  import opened Wrappers
  import opened MailStore
  import opened MailOrder
  import opened CursorToken
  import opened Paging
  import opened Ingest
  import opened IngestSafety

  /** Page `i` was read behind the cursor printed under the page before. */
  ghost predicate Follows(dbs: seq<Db>, a: AccountId, seen: Option<bool>, n: nat, pages: seq<seq<Key>>, i: nat)
    requires |pages| == |dbs| && 0 < i < |pages|
  {
    pages[i - 1] != [] && ListAfter(dbs[i], a, seen, NextCursor(pages[i - 1]), n) == Ok(pages[i])
  }

  /** One page per moment of the store: the first by page number, each later one behind the cursor
      printed under the page before. */
  ghost predicate IsTraversal(dbs: seq<Db>, a: AccountId, seen: Option<bool>, n: nat, pages: seq<seq<Key>>) {
    |pages| == |dbs| && |dbs| > 0 && 1 <= n <= 100 &&
    (forall i {:trigger StorableKeys(dbs[i])} :: 0 <= i < |dbs| ==> StorableKeys(dbs[i])) &&
    pages[0] == SkipPage(MatchKeys(dbs[0], a, seen), 1, n) &&
    forall i {:trigger Follows(dbs, a, seen, n, pages, i)} :: 0 < i < |pages| ==> Follows(dbs, a, seen, n, pages, i)
  }

  /** Everything the client has been shown by the first `m` pages. */
  ghost function Shown(pages: seq<seq<Key>>, m: nat): seq<Key>
    requires m <= |pages|
  {
    if m == 0 then [] else Shown(pages, m - 1) + pages[m - 1]
  }

  lemma StorableKey(db: Db, a: AccountId, seen: Option<bool>, k: Key)
    requires StorableKeys(db) && k in MatchKeys(db, a, seen)
    ensures IsInt64(k.createdAt) && k.id < ID_LIMIT
  {
  }

  /** The keys are printable, so the cursor under a page leads behind its last key. */
  lemma PageIsSeek(db: Db, a: AccountId, seen: Option<bool>, n: nat, page: seq<Key>, next: seq<Key>, last: Key)
    requires page != [] && last == page[|page| - 1] && IsInt64(last.createdAt) && last.id < ID_LIMIT && 1 <= n <= 100
    requires ListAfter(db, a, seen, NextCursor(page), n) == Ok(next)
    ensures next == Take(Sort(After(MatchKeys(db, a, seen), last)), n)
  {
    NextCursorResolves(db, a, seen, page);
  }

  lemma TakeSortMembers(keys: set<Key>, n: nat, j: nat)
    requires j < |Take(Sort(keys), n)|
    ensures Take(Sort(keys), n)[j] in keys
  {
    SortMember(keys, j);
  }

  lemma ListedMember(db: Db, a: AccountId, seen: Option<bool>, text: string, n: nat, page: seq<Key>, j: nat)
    requires ListAfter(db, a, seen, text, n) == Ok(page) && j < |page|
    ensures page[j] in MatchKeys(db, a, seen)
  {
    var keys := Beyond(MatchKeys(db, a, seen), ResolveCursor(db, a, seen, text).value);
    TakeSortMembers(keys, ClampLimit(n), j);
  }

  lemma PageMembers(dbs: seq<Db>, a: AccountId, seen: Option<bool>, n: nat, pages: seq<seq<Key>>, i: nat, j: nat)
    requires IsTraversal(dbs, a, seen, n, pages) && i < |pages| && j < |pages[i]|
    ensures pages[i][j] in MatchKeys(dbs[i], a, seen)
  {
    if i == 0 {
      TakeSortMembers(MatchKeys(dbs[0], a, seen), n, j);
    } else {
      assert Follows(dbs, a, seen, n, pages, i);
      ListedMember(dbs[i], a, seen, NextCursor(pages[i - 1]), n, pages[i], j);
    }
  }

  lemma SeekGiven(dbs: seq<Db>, a: AccountId, seen: Option<bool>, n: nat, pages: seq<seq<Key>>, i: nat, last: Key)
    requires |pages| == |dbs| && 0 < i < |pages| && 1 <= n <= 100 && Follows(dbs, a, seen, n, pages, i)
    requires last == pages[i - 1][|pages[i - 1]| - 1] && IsInt64(last.createdAt) && last.id < ID_LIMIT
    ensures pages[i] == Take(Sort(After(MatchKeys(dbs[i], a, seen), last)), n)
  {
    PageIsSeek(dbs[i], a, seen, n, pages[i - 1], pages[i], last);
  }

  lemma LastStorable(dbs: seq<Db>, a: AccountId, seen: Option<bool>, n: nat, pages: seq<seq<Key>>, i: nat)
    requires IsTraversal(dbs, a, seen, n, pages) && i < |pages| && pages[i] != []
    ensures var last := pages[i][|pages[i]| - 1]; IsInt64(last.createdAt) && last.id < ID_LIMIT
  {
    PageMembers(dbs, a, seen, n, pages, i, |pages[i]| - 1);
    assert StorableKeys(dbs[i]);
    StorableKey(dbs[i], a, seen, pages[i][|pages[i]| - 1]);
  }

  lemma PageNotEmpty(dbs: seq<Db>, a: AccountId, seen: Option<bool>, n: nat, pages: seq<seq<Key>>, i: nat)
    requires IsTraversal(dbs, a, seen, n, pages) && 0 < i < |pages|
    ensures pages[i - 1] != []
  {
    assert Follows(dbs, a, seen, n, pages, i);
  }

  lemma SeekOf(dbs: seq<Db>, a: AccountId, seen: Option<bool>, n: nat, pages: seq<seq<Key>>, i: nat, last: Key)
    requires IsTraversal(dbs, a, seen, n, pages) && 0 < i < |pages| && pages[i - 1] != []
    requires last == pages[i - 1][|pages[i - 1]| - 1] && IsInt64(last.createdAt) && last.id < ID_LIMIT
    ensures pages[i] == Take(Sort(After(MatchKeys(dbs[i], a, seen), last)), n)
  {
    assert Follows(dbs, a, seen, n, pages, i);
    SeekGiven(dbs, a, seen, n, pages, i, last);
  }

  /** What page `i` is, seen from the last key of the page before. */
  lemma PageAfter(dbs: seq<Db>, a: AccountId, seen: Option<bool>, n: nat, pages: seq<seq<Key>>, i: nat)
    returns (last: Key)
    requires IsTraversal(dbs, a, seen, n, pages) && 0 < i < |pages|
    ensures pages[i - 1] != [] && last == pages[i - 1][|pages[i - 1]| - 1]
    ensures pages[i] == Take(Sort(After(MatchKeys(dbs[i], a, seen), last)), n)
  {
    PageNotEmpty(dbs, a, seen, n, pages, i);
    last := pages[i - 1][|pages[i - 1]| - 1];
    LastStorable(dbs, a, seen, n, pages, i - 1);
    SeekOf(dbs, a, seen, n, pages, i, last);
  }

  /** A page taken from sorted keys is descending, and every key it leaves out is listed behind its end. */
  lemma TakeLeavesOlder(keys: set<Key>, n: nat, k: Key)
    requires k in keys && n > 0
    ensures var page := Take(Sort(keys), n);
            Descending(page) && page != [] && (k in page || Before(page[|page| - 1], k))
  {
    SortFacts(keys);
    assert k in Elements(Sort(keys));
    var i :| 0 <= i < |Sort(keys)| && Sort(keys)[i] == k;
    var page := Take(Sort(keys), n);
    if i < |page| {
      assert page[i] == k;
    } else {
      assert page[|page| - 1] == Sort(keys)[n - 1];
    }
  }

  lemma TakeDescending(keys: set<Key>, n: nat)
    ensures Descending(Take(Sort(keys), n))
  {
    SortFacts(keys);
  }

  /** Every key of the page is listed behind `last`. */
  predicate AllBehind(page: seq<Key>, last: Key) {
    forall j :: 0 <= j < |page| ==> Before(last, page[j])
  }

  lemma SeekBehind(keys: set<Key>, last: Key, n: nat, page: seq<Key>)
    requires page == Take(Sort(After(keys, last)), n)
    ensures Descending(page) && AllBehind(page, last)
  {
    TakeDescending(After(keys, last), n);
    forall j | 0 <= j < |page| ensures Before(last, page[j]) {
      TakeSortMembers(After(keys, last), n, j);
    }
  }

  lemma AppendDescending(p: seq<Key>, q: seq<Key>)
    requires Descending(p) && Descending(q) && (p != [] ==> AllBehind(q, p[|p| - 1]))
    ensures Descending(p + q)
  {
  }

  lemma LastShown(pages: seq<seq<Key>>, m: nat)
    requires 0 < m <= |pages| && pages[m - 1] != []
    ensures Shown(pages, m) != [] && Shown(pages, m)[|Shown(pages, m)| - 1] == pages[m - 1][|pages[m - 1]| - 1]
  {
  }

  /** The listing so far is strictly descending: nothing is shown twice. */
  lemma {:induction false} ShownDescending(dbs: seq<Db>, a: AccountId, seen: Option<bool>, n: nat,
                                           pages: seq<seq<Key>>, m: nat)
    requires IsTraversal(dbs, a, seen, n, pages) && m <= |pages|
    ensures Descending(Shown(pages, m))
    decreases m
  {
    if m == 1 {
      TakeDescending(MatchKeys(dbs[0], a, seen), n);
      assert Shown(pages, 1) == pages[0];
    } else if m > 1 {
      ShownDescending(dbs, a, seen, n, pages, m - 1);
      var last := PageAfter(dbs, a, seen, n, pages, m - 1);
      SeekBehind(MatchKeys(dbs[m - 1], a, seen), last, n, pages[m - 1]);
      LastShown(pages, m - 1);
      AppendDescending(Shown(pages, m - 1), pages[m - 1]);
    }
  }

  /** `k` matched at every moment a page was read. */
  ghost predicate Stays(dbs: seq<Db>, a: AccountId, seen: Option<bool>, k: Key) {
    forall i :: 0 <= i < |dbs| ==> k in MatchKeys(dbs[i], a, seen)
  }

  ghost predicate Ahead(page: seq<Key>, k: Key) {
    page != [] && Before(page[|page| - 1], k)
  }

  lemma SeekReaches(keys: set<Key>, last: Key, n: nat, page: seq<Key>, k: Key)
    requires page == Take(Sort(After(keys, last)), n) && n > 0 && k in keys && Before(last, k)
    ensures k in page || Ahead(page, k)
  {
    TakeLeavesOlder(After(keys, last), n, k);
  }

  /** A key listed behind one page is on the next page or behind that one too. */
  lemma NextPageReaches(dbs: seq<Db>, a: AccountId, seen: Option<bool>, n: nat, pages: seq<seq<Key>>, i: nat, k: Key)
    requires IsTraversal(dbs, a, seen, n, pages) && 0 < i < |pages| && k in MatchKeys(dbs[i], a, seen)
    requires Ahead(pages[i - 1], k)
    ensures k in pages[i] || Ahead(pages[i], k)
  {
    var last := PageAfter(dbs, a, seen, n, pages, i);
    SeekReaches(MatchKeys(dbs[i], a, seen), last, n, pages[i], k);
  }

  lemma ShownMember(pages: seq<seq<Key>>, m: nat, k: Key)
    requires 0 < m <= |pages|
    ensures k in Shown(pages, m) <==> k in Shown(pages, m - 1) || k in pages[m - 1]
  {
  }

  /** After `m` pages a key that stayed was shown, or is listed behind everything shown. */
  lemma {:induction false} ShownOrAhead(dbs: seq<Db>, a: AccountId, seen: Option<bool>, n: nat, pages: seq<seq<Key>>,
                                        m: nat, k: Key)
    requires IsTraversal(dbs, a, seen, n, pages) && 0 < m <= |pages| && Stays(dbs, a, seen, k)
    ensures k in Shown(pages, m) || Ahead(pages[m - 1], k)
    decreases m
  {
    ShownMember(pages, m, k);
    if m == 1 {
      TakeLeavesOlder(MatchKeys(dbs[0], a, seen), n, k);
    } else {
      ShownOrAhead(dbs, a, seen, n, pages, m - 1, k);
      if k !in Shown(pages, m - 1) {
        NextPageReaches(dbs, a, seen, n, pages, m - 1, k);
      }
    }
  }

  /** A complete traversal shows every message that stayed, exactly once. */
  lemma TraversalComplete(dbs: seq<Db>, a: AccountId, seen: Option<bool>, n: nat, pages: seq<seq<Key>>, k: Key)
    requires IsTraversal(dbs, a, seen, n, pages) && pages[|pages| - 1] == []
    requires Stays(dbs, a, seen, k)
    ensures Descending(Shown(pages, |pages|))
    ensures exists i :: 0 <= i < |Shown(pages, |pages|)| && Shown(pages, |pages|)[i] == k &&
              forall j :: 0 <= j < |Shown(pages, |pages|)| && Shown(pages, |pages|)[j] == k ==> j == i
  {
    ShownDescending(dbs, a, seen, n, pages, |pages|);
    ShownOrAhead(dbs, a, seen, n, pages, |pages|, k);
    var all := Shown(pages, |pages|);
    var i :| 0 <= i < |all| && all[i] == k;
    forall j | 0 <= j < |all| && all[j] == k ensures j == i {
      assert j < i ==> Before(all[j], all[i]);
      assert i < j ==> Before(all[i], all[j]);
    }
  }

  // ---- what the steps of the system do to the listings ----------------------------------

  /** A message marked as seen moves into the listing of seen messages and out of that of the unseen ones, and the
      other way round; no other message moves. */
  lemma FlagMoves(s: State, id: MessageId, seen: bool, keep: bool)
    requires Enabled(s, Flag(id, seen, keep))
    ensures id in s.db.messages
    ensures var db := Apply(s, Flag(id, seen, keep)).db;
            var a, k := s.db.messages[id].account, KeyOf(s.db, id);
            k in MatchKeys(db, a, Some(seen)) && k !in MatchKeys(db, a, Some(!seen)) && k in MatchKeys(db, a, None) &&
            forall b, v :: MatchKeys(db, b, v) - {k} == MatchKeys(s.db, b, v) - {k}
  {
    var db := Apply(s, Flag(id, seen, keep)).db;
    var a, k := s.db.messages[id].account, KeyOf(s.db, id);
    KeyShows(db, a, Some(seen), k);
    KeyShows(db, a, Some(!seen), k);
    KeyShows(db, a, None, k);
    forall b, v ensures MatchKeys(db, b, v) - {k} == MatchKeys(s.db, b, v) - {k} {
      forall o ensures o in MatchKeys(db, b, v) - {k} <==> o in MatchKeys(s.db, b, v) - {k} {
        KeyShows(db, b, v, o);
        KeyShows(s.db, b, v, o);
      }
    }
  }

  /** A message that an attempt has just stored is listed as unseen, under the time of its storing. */
  lemma StoredIsUnseen(s: State, w: nat, c: Choice)
    requires Enabled(s, Work(w, c)) && s.workers[w].Inserting? && WellFormed(s)
    requires c.id in Apply(s, Work(w, c)).db.messages
    ensures var db, a, k := Apply(s, Work(w, c)).db, s.workers[w].acct, Key(c.now, c.id);
            k in MatchKeys(db, a, Some(false)) && k !in MatchKeys(db, a, Some(true)) && k in MatchKeys(db, a, None)
  {
    var db, a, k := Apply(s, Work(w, c)).db, s.workers[w].acct, Key(c.now, c.id);
    KeyShows(db, a, Some(false), k);
    KeyShows(db, a, Some(true), k);
    KeyShows(db, a, None, k);
  }

  // ---- traversals of a running system ---------------------------------------------------

  lemma StepKeepsIdentity(s: State, step: Step, id: MessageId)
    requires Enabled(s, step) && WellFormed(s) && id in s.issued
    ensures id in Apply(s, step).issued
    ensures id in Apply(s, step).db.messages ==>
              id in s.db.messages &&
              Apply(s, step).db.messages[id].createdAt == s.db.messages[id].createdAt &&
              Apply(s, step).db.messages[id].account == s.db.messages[id].account
  {
    if step.Work? {
      WorkMessages(s.db, s.workers[step.w], step.choice);
    }
  }

  /** `t` still has the document `id` of `s`, or has lost it for good. */
  ghost predicate SameDocument(s: State, t: State, id: MessageId)
    requires id in s.db.messages
  {
    id in t.issued &&
    (id in t.db.messages ==>
      t.db.messages[id].createdAt == s.db.messages[id].createdAt &&
        t.db.messages[id].account == s.db.messages[id].account)
  }

  lemma RunStepIdentity(states: seq<State>, steps: seq<Step>, i: nat, j: nat, id: MessageId)
    requires IsRun(states, steps) && WellFormed(states[0]) && i <= j < |steps|
    requires id in states[i].db.messages && SameDocument(states[i], states[j], id)
    ensures SameDocument(states[i], states[j + 1], id)
  {
    RunWellFormed(states, steps, j);
    assert StepAt(states, steps, j);
    StepKeepsIdentity(states[j], steps[j], id);
  }

  /** A document keeps its owner and creation time for as long as it exists, and its id is never
      given to another document. */
  lemma {:induction false} RunKeepsIdentity(states: seq<State>, steps: seq<Step>, i: nat, j: nat, id: MessageId)
    requires IsRun(states, steps) && WellFormed(states[0]) && i <= j < |states|
    requires id in states[i].db.messages
    ensures SameDocument(states[i], states[j], id)
    decreases j
  {
    if i < j {
      RunKeepsIdentity(states, steps, i, j - 1, id);
      RunStepIdentity(states, steps, i, j - 1, id);
    } else {
      RunWellFormed(states, steps, i);
    }
  }

  /** The store at the moments `at` of a run. */
  ghost function Moments(states: seq<State>, at: seq<nat>): (dbs: seq<Db>)
    requires forall i :: 0 <= i < |at| ==> at[i] < |states|
    ensures |dbs| == |at| && forall i :: 0 <= i < |at| ==> dbs[i] == states[at[i]].db
  {
    seq(|at|, i requires 0 <= i < |at| => states[at[i]].db)
  }

  /** Pages read at increasing moments of any run of the system, with workers, deletions and expiry in
      between: a message that was listed at each of those moments is shown exactly once. */
  lemma TraversalOfRun(states: seq<State>, steps: seq<Step>, at: seq<nat>, a: AccountId, seen: Option<bool>,
                       n: nat, pages: seq<seq<Key>>, id: MessageId)
    requires IsRun(states, steps) && WellFormed(states[0])
    requires |at| > 0 && (forall i :: 0 <= i < |at| ==> at[i] < |states|)
    requires forall i, j :: 0 <= i < j < |at| ==> at[i] <= at[j]
    requires IsTraversal(Moments(states, at), a, seen, n, pages) && pages[|pages| - 1] == []
    requires forall i :: 0 <= i < |at| ==>
               id in states[at[i]].db.messages && Matches(states[at[i]].db.messages[id], a, seen)
    ensures Descending(Shown(pages, |pages|))
    ensures var k := KeyOf(states[at[0]].db, id);
            exists i :: 0 <= i < |Shown(pages, |pages|)| && Shown(pages, |pages|)[i] == k &&
              forall j :: 0 <= j < |Shown(pages, |pages|)| && Shown(pages, |pages|)[j] == k ==> j == i
  {
    var dbs := Moments(states, at);
    var k := KeyOf(states[at[0]].db, id);
    forall i | 0 <= i < |dbs| ensures k in MatchKeys(dbs[i], a, seen) {
      RunKeepsIdentity(states, steps, at[0], at[i], id);
    }
    TraversalComplete(dbs, a, seen, n, pages, k);
  }
}
