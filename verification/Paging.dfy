/** Listing messages: by page number, by seek cursor, and what a client that follows `nextCursor`
    sees while the store changes (internal/store/store.go, internal/handler/message.go). */
module Paging {
  import opened Wrappers
  import opened MailStore
  import opened MailOrder
  import opened CursorToken
  import Strings

  datatype ListError = InvalidCursor | CursorNotFound

  /** Live messages of the account, optionally only the seen or the unseen ones. */
  predicate Matches(m: Message, a: AccountId, seen: Option<bool>) {
    m.account == a && !m.deleted && (seen.None? || m.seen == seen.value)
  }

  function KeyOf(db: Db, id: MessageId): Key
    requires id in db.messages
  {
    Key(db.messages[id].createdAt, id)
  }

  function MatchKeys(db: Db, a: AccountId, seen: Option<bool>): set<Key> {
    set id | id in db.messages && Matches(db.messages[id], a, seen) :: KeyOf(db, id)
  }

  /** Creation times are int64 milliseconds and ids are 12 bytes. */
  ghost predicate StorableKeys(db: Db) {
    forall id :: id in db.messages ==> IsInt64(db.messages[id].createdAt) && id < ID_LIMIT
  }

  // ---- what a listing shows -------------------------------------------------------------

  /** `k` is a live message of the account, and a seen or an unseen one if such are asked for. */
  predicate Shows(db: Db, a: AccountId, seen: Option<bool>, k: Key) {
    k.id in db.messages &&
    var m := db.messages[k.id];
    m.createdAt == k.createdAt && m.account == a && !m.deleted &&
    (seen == Some(true) ==> m.seen) && (seen == Some(false) ==> !m.seen)
  }

  predicate NewestFirst(q: seq<Key>) {
    forall i, j :: 0 <= i < j < |q| ==>
      q[i].createdAt > q[j].createdAt || (q[i].createdAt == q[j].createdAt && q[i].id > q[j].id)
  }

  lemma KeyShows(db: Db, a: AccountId, seen: Option<bool>, k: Key)
    ensures k in MatchKeys(db, a, seen) <==> Shows(db, a, seen, k)
  {
    assert k.id in db.messages ==> KeyOf(db, k.id) == Key(db.messages[k.id].createdAt, k.id);
  }

  /** The listing shows exactly these messages, newest first, each once. */
  lemma ListedExactly(db: Db, a: AccountId, seen: Option<bool>)
    ensures forall k :: k in Sort(MatchKeys(db, a, seen)) <==> Shows(db, a, seen, k)
    ensures NewestFirst(Sort(MatchKeys(db, a, seen))) && |Sort(MatchKeys(db, a, seen))| == |MatchKeys(db, a, seen)|
  {
    var q := Sort(MatchKeys(db, a, seen));
    SortFacts(MatchKeys(db, a, seen));
    forall k ensures k in q <==> Shows(db, a, seen, k) {
      assert k in q <==> k in Elements(q);
      KeyShows(db, a, seen, k);
    }
    assert forall i, j :: 0 <= i < j < |q| ==> Before(q[i], q[j]);
  }

  /** The seen and the unseen messages together are all messages, and none is both. */
  lemma SeenSplits(db: Db, a: AccountId)
    ensures MatchKeys(db, a, None) == MatchKeys(db, a, Some(true)) + MatchKeys(db, a, Some(false))
    ensures MatchKeys(db, a, Some(true)) !! MatchKeys(db, a, Some(false))
    ensures |MatchKeys(db, a, None)| == |MatchKeys(db, a, Some(true))| + |MatchKeys(db, a, Some(false))|
  {
    forall k
      ensures k in MatchKeys(db, a, None) <==> k in MatchKeys(db, a, Some(true)) + MatchKeys(db, a, Some(false))
    {
      assert k.id in db.messages ==> KeyOf(db, k.id) == Key(db.messages[k.id].createdAt, k.id);
    }
  }

  /** What is cut out of a listing comes from it, in its order. */
  lemma SliceOf(keys: set<Key>, start: nat, n: nat)
    ensures forall k :: k in Take(Skip(Sort(keys), start), n) ==> k in keys
    ensures NewestFirst(Take(Skip(Sort(keys), start), n))
  {
    var all, q := Sort(keys), Take(Skip(Sort(keys), start), n);
    SortFacts(keys);
    forall k | k in q ensures k in keys {
      assert k in Elements(all);
    }
    forall i, j | 0 <= i < j < |q| ensures Before(q[i], q[j]) {
      assert q[i] == all[start + i] && q[j] == all[start + j];
    }
  }

  lemma SliceShows(db: Db, a: AccountId, seen: Option<bool>, keys: set<Key>, start: nat, n: nat)
    requires keys <= MatchKeys(db, a, seen)
    ensures forall k :: k in Take(Skip(Sort(keys), start), n) ==> Shows(db, a, seen, k)
    ensures NewestFirst(Take(Skip(Sort(keys), start), n))
  {
    SliceOf(keys, start, n);
    forall k | k in Take(Skip(Sort(keys), start), n) ensures Shows(db, a, seen, k) {
      KeyShows(db, a, seen, k);
    }
  }

  // ---- the two ways of asking for a page ------------------------------------------------

  /** Page `page` (from 1) of `n` messages, by skipping the pages before it. */
  ghost function SkipPage(keys: set<Key>, page: nat, n: nat): seq<Key>
    requires page > 0
  {
    Take(Skip(Sort(keys), (page - 1) * n), n)
  }

  function ClampLimit(limit: int): nat {
    if limit <= 0 then 30 else if limit > 100 then 100 else limit
  }

  /** What a cursor text refers to: the start, a position, or an error. */
  function ResolveCursor(db: Db, a: AccountId, seen: Option<bool>, text: string): Result<Option<Key>, ListError> {
    var cursor := Strings.TrimSpace(text);
    if cursor == "" then Ok(None)
    else
      match ParseToken(cursor)
      case Some((ms, id)) => Ok(Some(Key(ms, id)))
      case None =>
        match ParseObjectId(cursor)
        case None => Err(InvalidCursor)
        case Some(id) =>
          if id in db.messages && Matches(db.messages[id], a, seen) then Ok(Some(KeyOf(db, id)))
          else Err(CursorNotFound)
  }

  function Beyond(keys: set<Key>, cursor: Option<Key>): set<Key> {
    match cursor
    case None => keys
    case Some(c) => After(keys, c)
  }

  /** The page behind a cursor. */
  ghost function ListAfter(db: Db, a: AccountId, seen: Option<bool>, text: string, limit: int)
    : Result<seq<Key>, ListError>
  {
    match ResolveCursor(db, a, seen, text)
    case Err(e) => Err(e)
    case Ok(cursor) => Ok(Take(Sort(Beyond(MatchKeys(db, a, seen), cursor)), ClampLimit(limit)))
  }

  /** The `nextCursor` the handler prints under a page. */
  function NextCursor(page: seq<Key>): string {
    if page == [] then "" else Token(page[|page| - 1].createdAt, page[|page| - 1].id)
  }

  // ---- cursors mean positions -----------------------------------------------------------

  lemma TokenIsTrimmed(ms: int, id: nat)
    ensures Strings.Trimmed(Token(ms, id)) && Token(ms, id) != ""
    ensures Strings.TrimSpace(Token(ms, id)) == Token(ms, id)
  {
    var t := Token(ms, id);
    DigitsRoundTrip(if ms < 0 then -ms else ms);
    assert t[0] == FormatInt(ms)[0];
    assert t[|t| - 1] == HexDigit(id % 16) by {
      assert FormatObjectId(id) == Hex(id / 16, 23) + [HexDigit(id % 16)];
      assert t[|t| - 1] == FormatObjectId(id)[23];
    }
  }

  /** The printed cursor leads exactly behind the last message of its page. */
  lemma NextCursorResolves(db: Db, a: AccountId, seen: Option<bool>, page: seq<Key>)
    requires page != []
    requires IsInt64(page[|page| - 1].createdAt) && page[|page| - 1].id < ID_LIMIT
    ensures ResolveCursor(db, a, seen, NextCursor(page)) == Ok(Some(page[|page| - 1]))
  {
    var last := page[|page| - 1];
    TokenIsTrimmed(last.createdAt, last.id);
    TokenRoundTrip(last.createdAt, last.id);
  }

  lemma {:induction false} HexIsTrimmed(s: string)
    requires HexNumber(s).Some?
    ensures forall i :: 0 <= i < |s| ==> !Strings.IsSpace(s[i])
  {
    if s != "" {
      HexIsTrimmed(s[..|s| - 1]);
    }
  }

  /** An old cursor, the plain id of a message that is listed, gives the page its token gives. */
  lemma LegacyCursorAgrees(db: Db, a: AccountId, seen: Option<bool>, id: MessageId, limit: int)
    requires StorableKeys(db) && id in db.messages && Matches(db.messages[id], a, seen)
    ensures ListAfter(db, a, seen, FormatObjectId(id), limit) ==
            ListAfter(db, a, seen, Token(db.messages[id].createdAt, id), limit)
  {
    ObjectIdRoundTrip(id);
    ObjectIdIsNoToken(FormatObjectId(id));
    HexIsTrimmed(FormatObjectId(id));
    assert Strings.TrimSpace(FormatObjectId(id)) == FormatObjectId(id);
    NextCursorResolves(db, a, seen, [KeyOf(db, id)]);
  }

  // ---- agreement on a fixed store -------------------------------------------------------

  /** The page a printed cursor leads to. */
  lemma PageBehind(db: Db, a: AccountId, seen: Option<bool>, n: nat, page: seq<Key>)
    requires StorableKeys(db) && 1 <= n <= 100
    requires page != [] && page[|page| - 1] in MatchKeys(db, a, seen)
    ensures ListAfter(db, a, seen, NextCursor(page), n) ==
            Ok(Take(Sort(After(MatchKeys(db, a, seen), page[|page| - 1])), n))
  {
    NextCursorResolves(db, a, seen, page);
  }

  lemma SeekAt(keys: set<Key>, i: nat, k: Key)
    requires i < |Sort(keys)| && k == Sort(keys)[i]
    ensures k in keys && Sort(After(keys, k)) == Sort(keys)[i + 1..]
  {
    SortMember(keys, i);
    SortAfter(keys, i);
  }

  /** A page cut from the listing at `start`, and the seek behind its last message. */
  lemma SliceSeek(keys: set<Key>, q: seq<Key>, n: nat, start: nat, page: seq<Key>)
    requires q == Sort(keys) && page == Take(Skip(q, start), n) && page != []
    ensures page[|page| - 1] in keys
    ensures Take(Sort(After(keys, page[|page| - 1])), n) == Take(Skip(q, start + n), n)
  {
    SliceLast(q, start, n);
    SeekAt(keys, start + |page| - 1, page[|page| - 1]);
  }

  /** The page behind the slice that starts at `start` is the next slice. */
  lemma NextSlice(db: Db, a: AccountId, seen: Option<bool>, n: nat, start: nat, page: seq<Key>)
    requires StorableKeys(db) && 1 <= n <= 100 && page != []
    requires page == Take(Skip(Sort(MatchKeys(db, a, seen)), start), n)
    ensures ListAfter(db, a, seen, NextCursor(page), n) == Ok(Take(Skip(Sort(MatchKeys(db, a, seen)), start + n), n))
  {
    var keys := MatchKeys(db, a, seen);
    SliceSeek(keys, Sort(keys), n, start, page);
    PageBehind(db, a, seen, n, page);
  }

  /** One step of the client: what it gets after page `before`. */
  ghost function FollowingPage(db: Db, a: AccountId, seen: Option<bool>, n: nat, before: seq<Key>): seq<Key> {
    if before == [] then []
    else
      match ListAfter(db, a, seen, NextCursor(before), n)
      case Ok(page) => page
      case Err(_) => []
  }

  lemma FollowingSlice(db: Db, a: AccountId, seen: Option<bool>, n: nat, start: nat, before: seq<Key>)
    requires StorableKeys(db) && 1 <= n <= 100
    requires before == Take(Skip(Sort(MatchKeys(db, a, seen)), start), n)
    ensures FollowingPage(db, a, seen, n, before) == Take(Skip(Sort(MatchKeys(db, a, seen)), start + n), n)
  {
    if before != [] {
      NextSlice(db, a, seen, n, start, before);
    }
  }

  /** Page number `p` (from 0) of a client that starts at page 1 and then follows `nextCursor`. */
  ghost function ChainPage(db: Db, a: AccountId, seen: Option<bool>, n: nat, p: nat): seq<Key> {
    if p == 0 then SkipPage(MatchKeys(db, a, seen), 1, n)
    else FollowingPage(db, a, seen, n, ChainPage(db, a, seen, n, p - 1))
  }

  /** Where page `p` starts. */
  function PageStart(p: nat, n: nat): nat {
    if p == 0 then 0 else PageStart(p - 1, n) + n
  }

  lemma {:induction false} PageStartIs(p: nat, n: nat)
    ensures PageStart(p, n) == p * n
  {
    if p > 0 {
      PageStartIs(p - 1, n);
      assert (p - 1) * n + n == p * n;
    }
  }

  lemma FirstSlice(db: Db, a: AccountId, seen: Option<bool>, n: nat)
    ensures ChainPage(db, a, seen, n, 0) == Take(Skip(Sort(MatchKeys(db, a, seen)), 0), n)
  {
  }

  lemma LaterPage(db: Db, a: AccountId, seen: Option<bool>, n: nat, p: nat)
    requires p > 0
    ensures ChainPage(db, a, seen, n, p) == FollowingPage(db, a, seen, n, ChainPage(db, a, seen, n, p - 1))
  {
  }

  /** Page `p` of the chain is the slice of the listing `q` that starts behind the pages before it. */
  ghost predicate ChainInStep(db: Db, a: AccountId, seen: Option<bool>, n: nat, p: nat, q: seq<Key>) {
    ChainPage(db, a, seen, n, p) == Take(Skip(q, PageStart(p, n)), n)
  }

  lemma ChainNext(db: Db, a: AccountId, seen: Option<bool>, n: nat, p: nat, q: seq<Key>)
    requires StorableKeys(db) && 1 <= n <= 100 && q == Sort(MatchKeys(db, a, seen))
    requires ChainInStep(db, a, seen, n, p, q)
    ensures ChainInStep(db, a, seen, n, p + 1, q)
  {
    var before := ChainPage(db, a, seen, n, p);
    LaterPage(db, a, seen, n, p + 1);
    FollowingSlice(db, a, seen, n, PageStart(p, n), before);
  }

  lemma {:induction false} ChainSlice(db: Db, a: AccountId, seen: Option<bool>, n: nat, p: nat, q: seq<Key>)
    requires StorableKeys(db) && 1 <= n <= 100 && q == Sort(MatchKeys(db, a, seen))
    ensures ChainInStep(db, a, seen, n, p, q)
    decreases p
  {
    if p > 0 {
      ChainSlice(db, a, seen, n, p - 1, q);
      ChainNext(db, a, seen, n, p - 1, q);
    } else {
      FirstSlice(db, a, seen, n);
    }
  }

  /** Following cursors over an unchanged store shows page for page what skipping shows. */
  lemma ChainAgreesWithSkip(db: Db, a: AccountId, seen: Option<bool>, n: nat, p: nat)
    requires StorableKeys(db) && 1 <= n <= 100
    ensures ChainPage(db, a, seen, n, p) == SkipPage(MatchKeys(db, a, seen), p + 1, n)
  {
    ChainSlice(db, a, seen, n, p, Sort(MatchKeys(db, a, seen)));
    PageStartIs(p, n);
  }

  /** The chain ends: page `p` is empty exactly when `p * n` messages have been shown already. */
  lemma ChainEnds(db: Db, a: AccountId, seen: Option<bool>, n: nat, p: nat)
    requires StorableKeys(db) && 1 <= n <= 100
    ensures ChainPage(db, a, seen, n, p) == [] <==> |MatchKeys(db, a, seen)| <= p * n
  {
    ChainAgreesWithSkip(db, a, seen, n, p);
    SortFacts(MatchKeys(db, a, seen));
  }

  // ---- cursors that are no position -----------------------------------------------------

  /** Without a cursor the first page is shown; at most 100 messages a page, 30 if no number is asked for. */
  lemma BlankCursorStarts(db: Db, a: AccountId, seen: Option<bool>, text: string, limit: int)
    requires Strings.TrimSpace(text) == ""
    ensures ListAfter(db, a, seen, text, limit) ==
            Ok(SkipPage(MatchKeys(db, a, seen), 1, if limit <= 0 then 30 else if limit > 100 then 100 else limit))
  {
    assert 0 * ClampLimit(limit) == 0;
  }

  /** Once its message is gone, an old id cursor is refused, whereas the token still leads to the messages behind
      that position. */
  lemma GoneCursor(db: Db, a: AccountId, seen: Option<bool>, k: Key, n: nat)
    requires IsInt64(k.createdAt) && k.id < ID_LIMIT && 1 <= n <= 100
    requires !(k.id in db.messages && Matches(db.messages[k.id], a, seen))
    ensures ListAfter(db, a, seen, FormatObjectId(k.id), n) == Err(CursorNotFound)
    ensures ListAfter(db, a, seen, NextCursor([k]), n) == Ok(Take(Sort(After(MatchKeys(db, a, seen), k)), n))
  {
    ObjectIdRoundTrip(k.id);
    ObjectIdIsNoToken(FormatObjectId(k.id));
    HexIsTrimmed(FormatObjectId(k.id));
    assert Strings.TrimSpace(FormatObjectId(k.id)) == FormatObjectId(k.id);
    NextCursorResolves(db, a, seen, [k]);
  }
}
