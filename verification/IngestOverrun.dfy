/** Why the quota bound needs its side conditions: runs on which a recalculation overlaps another attempt, an
    insert's answer is lost, or a message is deleted twice, each leaving the account uncovered. */
module IngestOverrun {
  import opened Wrappers
  import opened Totals
  import opened MailStore
  import opened Ingest
  import opened IngestQuota
  import opened IngestSafety
  import Strings

  // ---- runs ----------------------------------------------------------------------

  /** A run leads from `s` to `t`. */
  ghost predicate Reaches(s: State, t: State) {
    exists states, steps :: IsRun(states, steps) && states[0] == s && states[|steps|] == t
  }

  lemma ReachesItself(s: State)
    ensures Reaches(s, s)
  {
    assert IsRun([s], []);
  }

  lemma ReachesNext(s: State, t: State, step: Step)
    requires Reaches(s, t) && Enabled(t, step)
    ensures Reaches(s, Apply(t, step))
  {
    var states, steps :| IsRun(states, steps) && states[0] == s && states[|steps|] == t;
    RunExtends(states, steps, step);
    assert IsRun(states + [Apply(t, step)], steps + [step]);
  }

  /** One account with a quota, and its attempts. */
  function With(quota: int, used: int, messages: map<MessageId, Message>, workers: map<nat, Phase>): State {
    State(Db(map[0 := Account("a", used, quota)], messages), messages.Keys, workers, map[], map[])
  }

  /** The same with 10 bytes of quota. */
  function At(used: int, messages: map<MessageId, Message>, workers: map<nat, Phase>): State {
    With(10, used, messages, workers)
  }

  function Mail(seqNo: int): Job {
    Job("a", "s", seqNo, 10)
  }

  function Go(id: MessageId): Choice {
    Choice(NoFault, Some(0), ParseOk, id, 0)
  }

  function Stored(seqNo: int): Message {
    NewMessage(Mail(seqNo), 0, 0)
  }

  /** One attempt step of the overrun, checked by its phase alone. */
  lemma Moves(s: State, t: State, u: State, w: nat, id: MessageId)
    requires Reaches(s, t) && w in t.workers && !t.workers[w].Done?
    requires t.workers[w].Inserting? ==> id !in t.issued
    requires t.workers[w].Lookup? ==> LookupAnswer(t.db, t.workers[w].job.recipient, Some(0))
    requires u == t.(db := WorkNext(t.db, t.workers[w], Go(id)).0,
                     issued := t.issued + NewIds(t.workers[w], Go(id)),
                     workers := t.workers[w := WorkNext(t.db, t.workers[w], Go(id)).1])
    ensures Reaches(s, u)
  {
    ReachesNext(s, t, Work(w, Go(id)));
  }

  lemma FindsAccount(s: State)
    requires s.db.accounts.Keys == {0} && s.db.accounts[0].address == "a"
    ensures LookupAnswer(s.db, "a", Some(0))
  {
    assert Strings.Normalize("a") == "a";
    assert HasAddress(s.db, 0, "a");
  }

  function First(used: int, p: Phase): State {
    At(used, map[], map[0 := p])
  }

  lemma FirstArrives(s: State)
    requires s == At(0, map[], map[])
    ensures Reaches(s, First(0, Dedup(Mail(1), 0)))
  {
    ReachesItself(s);
    ReachesNext(s, s, Deliver(0, Mail(1)));
    FindsAccount(s);
    Moves(s, First(0, Lookup(Mail(1))), First(0, Dedup(Mail(1), 0)), 0, 10);
  }

  /** The first attempt reserves all 10 bytes. */
  lemma FirstReserves(s: State)
    requires Reaches(s, First(0, Dedup(Mail(1), 0)))
    ensures Reaches(s, First(10, Inserting(Mail(1), 0)))
  {
    Moves(s, First(0, Dedup(Mail(1), 0)), First(0, Reserving(Mail(1), 0, false)), 0, 10);
    Moves(s, First(0, Reserving(Mail(1), 0, false)), First(10, Inserting(Mail(1), 0)), 0, 10);
  }

  function Second(used: int, p: Phase): State {
    At(used, map[], map[0 := Inserting(Mail(1), 0), 1 := p])
  }

  /** The second attempt is refused. */
  lemma SecondIsRefused(s: State)
    requires Reaches(s, First(10, Inserting(Mail(1), 0)))
    ensures Reaches(s, Second(10, RecalcReading(Mail(2), 0)))
  {
    ReachesNext(s, First(10, Inserting(Mail(1), 0)), Deliver(1, Mail(2)));
    FindsAccount(First(10, Inserting(Mail(1), 0)));
    Moves(s, Second(10, Lookup(Mail(2))), Second(10, Dedup(Mail(2), 0)), 1, 11);
    Moves(s, Second(10, Dedup(Mail(2), 0)), Second(10, Reserving(Mail(2), 0, false)), 1, 11);
    Moves(s, Second(10, Reserving(Mail(2), 0, false)), Second(10, RecalcReading(Mail(2), 0)), 1, 11);
  }

  lemma NothingLive(s: State)
    requires s.db.messages == map[]
    ensures LiveSize(s.db, 0) == 0
  {
    assert LiveSizes(s.db, 0) == map[];
  }

  lemma SecondAggregates(s: State)
    requires Reaches(s, Second(10, RecalcReading(Mail(2), 0)))
    ensures Reaches(s, Second(10, RecalcWriting(Mail(2), 0, 0)))
  {
    NothingLive(Second(10, RecalcReading(Mail(2), 0)));
    Moves(s, Second(10, RecalcReading(Mail(2), 0)), Second(10, RecalcWriting(Mail(2), 0, 0)), 1, 11);
  }

  /** It recalculates and forgets the first reservation. */
  lemma SecondRecalculates(s: State)
    requires Reaches(s, Second(10, RecalcWriting(Mail(2), 0, 0)))
    ensures Reaches(s, Second(0, Reserving(Mail(2), 0, true)))
  {
    Moves(s, Second(10, RecalcWriting(Mail(2), 0, 0)), Second(0, Reserving(Mail(2), 0, true)), 1, 11);
  }

  /** It reserves the same 10 bytes. */
  lemma SecondReservesToo(s: State)
    requires Reaches(s, Second(0, Reserving(Mail(2), 0, true)))
    ensures Reaches(s, Second(10, Inserting(Mail(2), 0)))
  {
    Moves(s, Second(0, Reserving(Mail(2), 0, true)), Second(10, Inserting(Mail(2), 0)), 1, 11);
  }

  function Overrun(): State {
    At(10, map[10 := Stored(1), 11 := Stored(2)], map[0 := Done(Mail(1), Success), 1 := Done(Mail(2), Success)])
  }

  lemma BothStore(s: State)
    requires Reaches(s, Second(10, Inserting(Mail(2), 0)))
    ensures Reaches(s, Overrun())
  {
    var mid := At(10, map[10 := Stored(1)], map[0 := Done(Mail(1), Success), 1 := Inserting(Mail(2), 0)]);
    Moves(s, Second(10, Inserting(Mail(2), 0)), mid, 0, 10);
    Moves(s, mid, Overrun(), 1, 11);
  }

  lemma TwoTens(m: map<MessageId, nat>)
    requires m.Keys == {10, 11} && m[10] == 10 && m[11] == 10
    ensures Total(m) == 20
  {
    TotalSplit(m, 10);
    TotalSplit(m - {10}, 11);
    assert (m - {10} - {11}).Keys == {};
  }

  lemma OverrunLive(db: Db)
    requires db.messages == map[10 := Stored(1), 11 := Stored(2)]
    ensures LiveSize(db, 0) == 20
  {
    assert LiveSizes(db, 0).Keys == {10, 11};
    TwoTens(LiveSizes(db, 0));
  }

  /** The overrun: without any fault, crash or deletion, the second attempt's recalculation forgets
      the first one's reservation, and twice the quota is stored. */
  lemma ConcurrentRecalculationOverruns()
    ensures Initial(At(0, map[], map[])) && Reaches(At(0, map[], map[]), Overrun())
    ensures Overrun().db.accounts[0].quota == 10 && LiveSize(Overrun().db, 0) == 20
  {
    var s := At(0, map[], map[]);
    FirstArrives(s);
    FirstReserves(s);
    SecondIsRefused(s);
    SecondAggregates(s);
    SecondRecalculates(s);
    SecondReservesToo(s);
    BothStore(s);
    OverrunLive(Overrun().db);
  }

  // ---- an insert whose answer is lost ---------------------------------------------------

  function Lost(id: MessageId): Choice {
    Choice(FailedAfterEffect, None, ParseOk, id, 0)
  }

  /** The attempt stored its message, believes it failed, and gave its reservation back. */
  function Forgotten(): State {
    At(0, map[10 := Stored(1)], map[0 := Done(Mail(1), Transient)])
  }

  lemma OneTen(m: map<MessageId, nat>, id: MessageId)
    requires m.Keys == {id} && m[id] == 10
    ensures Total(m) == 10
  {
    TotalSplit(m, id);
    assert (m - {id}).Keys == {};
  }

  lemma NothingHeld(s: State)
    requires s.deletions == map[] && forall w :: w in s.workers ==> s.workers[w].Done?
    ensures Held(s, 0) == 0 && Pending(s, 0) == 0
  {
    TotalOfZeros(Holdings(s.workers, 0));
    TotalOfZeros(Releases(s.deletions, 0));
  }

  lemma LosesAnswer(s: State)
    requires Reaches(s, First(10, Inserting(Mail(1), 0)))
    ensures Reaches(s, Forgotten())
  {
    var t := First(10, Inserting(Mail(1), 0));
    var u := At(10, map[10 := Stored(1)], map[0 := RollingBack(Mail(1), 0, Transient)]);
    ReachesNext(s, t, Work(0, Lost(10)));
    assert Apply(t, Work(0, Lost(10))) == u;
    Moves(s, u, Forgotten(), 0, 11);
  }

  /** One lost answer leaves a stored message uncovered. */
  lemma LostInsertUncovers()
    ensures Initial(At(0, map[], map[])) && Reaches(At(0, map[], map[]), Forgotten())
    ensures Drift(Forgotten(), 0) == -10
  {
    var s := At(0, map[], map[]);
    FirstArrives(s);
    FirstReserves(s);
    LosesAnswer(s);
    assert LiveSizes(Forgotten().db, 0).Keys == {10};
    OneTen(LiveSizes(Forgotten().db, 0), 10);
    NothingHeld(Forgotten());
  }

  // ---- a message deleted twice ----------------------------------------------------------

  /** Two deletions of the single message `id`, both with their reading done. */
  function BothReading(s: State, a: AccountId, id: MessageId, size: nat, d1: nat, d2: nat): State {
    var read := Marking(a, [Doc(id, size)], 0, true);
    s.(deletions := s.deletions[d1 := read][d2 := read])
  }

  /** And both past their marks. */
  function BothMarked(s: State, a: AccountId, id: MessageId, size: nat, d1: nat, d2: nat): State {
    s.(db := MarkDeleted(s.db, {id}),
       deletions := s.deletions[d1 := Marking(a, [], size, true)][d2 := Marking(a, [], size, true)])
  }

  lemma BothRead(s0: State, s: State, a: AccountId, id: MessageId, size: nat, d1: nat, d2: nat) returns (t: State)
    requires Reaches(s0, s) && IsLive(s.db, id) && s.db.messages[id].account == a && s.db.messages[id].size == size
    requires d1 != d2 && d1 !in s.deletions && d2 !in s.deletions
    ensures Reaches(s0, t)
    ensures t == BothReading(s, a, id, size, d1, d2)
  {
    var docs := [Doc(id, size)];
    ReachesNext(s0, s, DeleteRead(d1, a, docs, true));
    t := Apply(s, DeleteRead(d1, a, docs, true));
    ReachesNext(s0, t, DeleteRead(d2, a, docs, true));
    t := Apply(t, DeleteRead(d2, a, docs, true));
  }

  lemma FirstMark(s0: State, t: State, a: AccountId, id: MessageId, size: nat, d: nat)
    requires Reaches(s0, t) && id in t.db.messages
    requires d in t.deletions && t.deletions[d] == Marking(a, [Doc(id, size)], 0, true)
    ensures Reaches(s0, t.(db := MarkDeleted(t.db, {id}), deletions := t.deletions[d := Marking(a, [], size, true)]))
  {
    assert [Doc(id, size)][1..] == [];
    ReachesNext(s0, t, DeleteMark(d, NoFault));
  }

  lemma MarkedAlready(db: Db, id: MessageId)
    ensures MarkDeleted(MarkDeleted(db, {id}), {id}) == MarkDeleted(db, {id})
  {
  }

  /** The second mark matches the document although it is deleted already, and counts its size again. */
  lemma BothMark(s0: State, s: State, t: State, a: AccountId, id: MessageId, size: nat, d1: nat, d2: nat)
    requires Reaches(s0, t) && id in s.db.messages && d1 != d2
    requires t == BothReading(s, a, id, size, d1, d2)
    ensures Reaches(s0, BothMarked(s, a, id, size, d1, d2))
  {
    FirstMark(s0, t, a, id, size, d1);
    var u := t.(db := MarkDeleted(t.db, {id}), deletions := t.deletions[d1 := Marking(a, [], size, true)]);
    FirstMark(s0, u, a, id, size, d2);
    MarkedAlready(s.db, id);
    assert u.deletions[d2 := Marking(a, [], size, true)] == BothMarked(s, a, id, size, d1, d2).deletions;
  }

  lemma BothFinish(s0: State, t: State, a: AccountId, size: nat, d1: nat, d2: nat)
    requires Reaches(s0, t) && d1 != d2 && d1 in t.deletions && d2 in t.deletions
    requires t.deletions[d1] == Marking(a, [], size, true) && t.deletions[d2] == Marking(a, [], size, true)
    ensures Reaches(s0, t.(deletions := t.deletions[d1 := Releasing(a, size)][d2 := Releasing(a, size)]))
  {
    ReachesNext(s0, t, DeleteFinish(d1));
    ReachesNext(s0, Apply(t, DeleteFinish(d1)), DeleteFinish(d2));
  }

  lemma BothRelease(s0: State, t: State, a: AccountId, size: nat, d1: nat, d2: nat)
    requires Reaches(s0, t) && d1 != d2 && d1 in t.deletions && d2 in t.deletions
    requires t.deletions[d1] == Releasing(a, size) && t.deletions[d2] == Releasing(a, size)
    ensures Reaches(s0, t.(db := AddUsed(AddUsed(t.db, a, 0 - size), a, 0 - size),
                deletions := t.deletions - {d1} - {d2}))
  {
    ReachesNext(s0, t, DeleteRelease(d1, NoFault));
    ReachesNext(s0, Apply(t, DeleteRelease(d1, NoFault)), DeleteRelease(d2, NoFault));
  }

  /** What is left when both have released. */
  function DeletedTwice(s: State, a: AccountId, id: MessageId, size: nat): State {
    s.(db := AddUsed(AddUsed(MarkDeleted(s.db, {id}), a, 0 - size), a, 0 - size))
  }

  lemma BothSettle(s0: State, s: State, a: AccountId, id: MessageId, size: nat, d1: nat, d2: nat)
    requires Reaches(s0, BothMarked(s, a, id, size, d1, d2)) && d1 != d2 && d1 !in s.deletions && d2 !in s.deletions
    ensures Reaches(s0, DeletedTwice(s, a, id, size))
  {
    var t := BothMarked(s, a, id, size, d1, d2);
    BothFinish(s0, t, a, size, d1, d2);
    var u := t.(deletions := t.deletions[d1 := Releasing(a, size)][d2 := Releasing(a, size)]);
    BothRelease(s0, u, a, size, d1, d2);
    assert u.deletions - {d1} - {d2} == s.deletions;
  }

  /** From any state two racing deletions of one live message lower the drift by its size, as long as `used` has
      that much left to lose. */
  lemma DoubleDeletionUncovers(s0: State, s: State, a: AccountId, id: MessageId, d1: nat, d2: nat)
    requires Reaches(s0, s) && a in s.db.accounts && IsLive(s.db, id) && s.db.messages[id].account == a
    requires d1 != d2 && d1 !in s.deletions && d2 !in s.deletions && UsedOf(s.db, a) >= 2 * s.db.messages[id].size
    ensures Reaches(s0, DeletedTwice(s, a, id, s.db.messages[id].size))
    ensures Drift(DeletedTwice(s, a, id, s.db.messages[id].size), a) == Drift(s, a) - s.db.messages[id].size
  {
    var size := s.db.messages[id].size;
    var t := BothRead(s0, s, a, id, size, d1, d2);
    BothMark(s0, s, t, a, id, size, d1, d2);
    BothSettle(s0, s, a, id, size, d1, d2);
    TwiceDrift(s, a, id, size);
  }

  lemma TwiceDrift(s: State, a: AccountId, id: MessageId, size: nat)
    requires a in s.db.accounts && IsLive(s.db, id) && s.db.messages[id].account == a && s.db.messages[id].size == size
    requires UsedOf(s.db, a) >= 2 * size
    ensures Drift(DeletedTwice(s, a, id, size), a) == Drift(s, a) - size
  {
    var marked := MarkDeleted(s.db, {id});
    MarkLive(s.db, id, a);
    var once := AddUsed(marked, a, 0 - size);
    SetUsedEffect(marked, a, UsedOf(marked, a) - size, a);
    SetUsedEffect(once, a, UsedOf(once, a) - size, a);
  }

  /** Two messages of 10 bytes stored under a quota of 20. */
  function Full(): State {
    With(20, 20, map[10 := Stored(1), 11 := Stored(2)], map[0 := Done(Mail(1), Success), 1 := Done(Mail(2), Success)])
  }

  /** The attempt `w` in phase `p`, the others as in `workers`. */
  function Now(used: int, messages: map<MessageId, Message>, workers: map<nat, Phase>, w: nat, p: Phase): State {
    With(20, used, messages, workers[w := p])
  }

  /** One step of an attempt that changes its phase and at most the counter. */
  lemma Advances(s: State, used: int, used2: int, messages: map<MessageId, Message>, workers: map<nat, Phase>,
                 w: nat, p: Phase, q: Phase)
    requires Reaches(s, Now(used, messages, workers, w, p)) && !p.Done? && !p.Inserting?
    requires p.Lookup? ==> LookupAnswer(Now(used, messages, workers, w, p).db, p.job.recipient, Some(0))
    requires WorkNext(Now(used, messages, workers, w, p).db, p, Go(0)) == (Now(used2, messages, workers, w, q).db, q)
    ensures Reaches(s, Now(used2, messages, workers, w, q))
  {
    assert workers[w := p][w := q] == workers[w := q];
    Moves(s, Now(used, messages, workers, w, p), Now(used2, messages, workers, w, q), w, 0);
  }

  lemma Arrives(s: State, used: int, messages: map<MessageId, Message>, workers: map<nat, Phase>, w: nat, job: Job)
    requires Reaches(s, With(20, used, messages, workers)) && w !in workers && job.recipient == "a"
    ensures Reaches(s, Now(used, messages, workers, w, Dedup(job, 0)))
  {
    var t := With(20, used, messages, workers);
    ReachesNext(s, t, Deliver(w, job));
    assert Apply(t, Deliver(w, job)) == Now(used, messages, workers, w, Lookup(job));
    FindsAccount(Now(used, messages, workers, w, Lookup(job)));
    Advances(s, used, used, messages, workers, w, Lookup(job), Dedup(job, 0));
  }

  lemma PassesDedup(s: State, used: int, messages: map<MessageId, Message>, workers: map<nat, Phase>, w: nat, job: Job)
    requires Reaches(s, Now(used, messages, workers, w, Dedup(job, 0))) && job.size > 0
    requires forall id :: id in messages ==> messages[id].seqNo != job.seqNo
    ensures Reaches(s, Now(used, messages, workers, w, Reserving(job, 0, false)))
  {
    assert !HasIngest(Now(used, messages, workers, w, Dedup(job, 0)).db, 0, job.stream, job.seqNo);
    Advances(s, used, used, messages, workers, w, Dedup(job, 0), Reserving(job, 0, false));
  }

  lemma Takes(s: State, used: int, messages: map<MessageId, Message>, workers: map<nat, Phase>, w: nat, job: Job)
    requires Reaches(s, Now(used, messages, workers, w, Reserving(job, 0, false))) && 0 < job.size <= 20 - used
    ensures Reaches(s, Now(used + job.size, messages, workers, w, Inserting(job, 0)))
  {
    var db := Now(used, messages, workers, w, Reserving(job, 0, false)).db;
    assert db.accounts[0 := Account("a", used + job.size, 20)] == map[0 := Account("a", used + job.size, 20)];
    Advances(s, used, used + job.size, messages, workers, w, Reserving(job, 0, false), Inserting(job, 0));
  }

  /** An attempt that meets no obstacle, from its delivery to its reservation. */
  lemma Reserves(s: State, used: int, messages: map<MessageId, Message>, workers: map<nat, Phase>, w: nat, seqNo: nat)
    requires Reaches(s, With(20, used, messages, workers)) && w !in workers && used + 10 <= 20
    requires forall id :: id in messages ==> messages[id].seqNo != seqNo
    ensures Reaches(s, Now(used + 10, messages, workers, w, Inserting(Mail(seqNo), 0)))
  {
    Arrives(s, used, messages, workers, w, Mail(seqNo));
    PassesDedup(s, used, messages, workers, w, Mail(seqNo));
    Takes(s, used, messages, workers, w, Mail(seqNo));
  }

  lemma FullReached(s: State)
    requires s == With(20, 0, map[], map[])
    ensures Reaches(s, Full())
  {
    var one, first := map[10 := Stored(1)], map[0 := Done(Mail(1), Success)];
    ReachesItself(s);
    Reserves(s, 0, map[], map[], 0, 1);
    Moves(s, With(20, 10, map[], map[0 := Inserting(Mail(1), 0)]), With(20, 10, one, first), 0, 10);
    Reserves(s, 10, one, first, 1, 2);
    Moves(s, With(20, 20, one, first[1 := Inserting(Mail(2), 0)]), Full(), 1, 11);
  }

  lemma FullHolds(full: State)
    requires full == Full()
    ensures UsedOf(full.db, 0) == 20 && full.db.messages == map[10 := Stored(1), 11 := Stored(2)]
    ensures IsLive(full.db, 10) && full.db.messages[10].account == 0 && full.db.messages[10].size == 10
  {
  }

  lemma FullIsCovered(full: State)
    requires full == Full()
    ensures Drift(full, 0) == 0
  {
    FullHolds(full);
    OverrunLive(full.db);
    NothingHeld(full);
  }

  /** A run without fault or crash that ends with a live message nothing accounts for. */
  lemma DoubleDeletionReached(s: State, full: State)
    requires s == With(20, 0, map[], map[]) && full == Full()
    ensures Initial(s) && Reaches(s, DeletedTwice(full, 0, 10, 10))
    ensures Drift(DeletedTwice(full, 0, 10, 10), 0) == -10
  {
    FullReached(s);
    FullHolds(full);
    FullIsCovered(full);
    DoubleDeletionUncovers(s, full, 0, 10, 0, 1);
  }
}
