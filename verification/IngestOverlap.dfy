/** Recalculations that overlap other work: what their write leaves uncovered, exactly, and that on runs where
    none overlaps an account stays within its quota. */
module IngestOverlap {
  import opened MailStore
  import opened Ingest
  import opened IngestQuota
  import opened IngestSafety

  // ---- one recalculation, from its aggregate to its write -------------------------------

  /** The recalculation `r` ends in this step. */
  predicate Ends(step: Step, r: nat) {
    (step.RecalcWrite? && step.r == r) || (step.RecalcDrop? && step.r == r)
  }

  /** Step `i` aggregates for account `a`, and the recalculation is pending until moment `j`. */
  ghost predicate PendingFrom(states: seq<State>, steps: seq<Step>, r: nat, a: AccountId, i: nat, j: nat) {
    IsRun(states, steps) && i < j < |states| && steps[i] == RecalcRead(r, a) &&
    forall k :: i < k < j ==> !Ends(steps[k], r)
  }

  lemma RecalcStays(states: seq<State>, steps: seq<Step>, r: nat, k: nat)
    requires IsRun(states, steps) && k < |steps| && r in states[k].recalcs && !Ends(steps[k], r)
    ensures r in states[k + 1].recalcs && states[k + 1].recalcs[r] == states[k].recalcs[r]
  {
    assert StepAt(states, steps, k);
  }

  lemma RecalcAggregates(states: seq<State>, steps: seq<Step>, r: nat, a: AccountId, i: nat)
    requires IsRun(states, steps) && i < |steps| && steps[i] == RecalcRead(r, a)
    ensures r in states[i + 1].recalcs && states[i + 1].recalcs[r] == Recalc(a, LiveSize(states[i].db, a))
  {
    assert StepAt(states, steps, i);
  }

  lemma {:induction false} RecalcHoldsAggregate(states: seq<State>, steps: seq<Step>, r: nat, a: AccountId, i: nat,
                                                j: nat)
    requires PendingFrom(states, steps, r, a, i, j)
    ensures r in states[j].recalcs && states[j].recalcs[r] == Recalc(a, LiveSize(states[i].db, a))
    decreases j
  {
    if i < j - 1 {
      RecalcHoldsAggregate(states, steps, r, a, i, j - 1);
      RecalcStays(states, steps, r, j - 1);
    } else {
      RecalcAggregates(states, steps, r, a, i);
    }
  }

  /** What the write of a recalculation leaves uncovered: what became live since the aggregate, less what
      ceased to be, plus everything held or about to be released at the write. */
  lemma OverlapDrift(states: seq<State>, steps: seq<Step>, r: nat, a: AccountId, i: nat, j: nat)
    requires PendingFrom(states, steps, r, a, i, j) && WellFormed(states[0]) && j < |steps|
    requires steps[j].RecalcWrite? && steps[j].r == r && steps[j].fault != Failed && a in states[j].db.accounts
    ensures Drift(states[j + 1], a) ==
            LiveSize(states[i].db, a) - LiveSize(states[j].db, a) - Held(states[j], a) - Pending(states[j], a)
  {
    RecalcHoldsAggregate(states, steps, r, a, i, j);
    RunWellFormed(states, steps, j);
    assert StepAt(states, steps, j);
    StepAccounting(states[j], steps[j], a);
  }

  /** No step from moment `i` to moment `j` changes the account's live documents. */
  ghost predicate Undisturbed(states: seq<State>, i: nat, j: nat, a: AccountId) {
    i <= j < |states| && forall k :: i <= k < j ==> LiveSizes(states[k + 1].db, a) == LiveSizes(states[k].db, a)
  }

  lemma {:induction false} UndisturbedSame(states: seq<State>, i: nat, j: nat, a: AccountId)
    requires Undisturbed(states, i, j, a)
    ensures LiveSizes(states[j].db, a) == LiveSizes(states[i].db, a)
    decreases j
  {
    if i < j {
      UndisturbedSame(states, i, j - 1, a);
    }
  }

  /** With the account's documents undisturbed the write covers the account exactly when nothing is in flight:
      no reservation held and no release outstanding. Then it also repairs every earlier drift. */
  lemma RecalculationCoversExactly(states: seq<State>, steps: seq<Step>, r: nat, a: AccountId, i: nat, j: nat)
    requires PendingFrom(states, steps, r, a, i, j) && WellFormed(states[0]) && j < |steps|
    requires steps[j].RecalcWrite? && steps[j].r == r && steps[j].fault != Failed && a in states[j].db.accounts
    requires Undisturbed(states, i, j, a)
    ensures Drift(states[j + 1], a) >= 0 <==> Held(states[j], a) == 0 && Pending(states[j], a) == 0
    ensures Held(states[j], a) == 0 && Pending(states[j], a) == 0 ==> Drift(states[j + 1], a) == 0
  {
    OverlapDrift(states, steps, r, a, i, j);
    UndisturbedSame(states, i, j, a);
  }

  // ---- the recalculation inside an attempt ----------------------------------------------

  /** The attempt takes a step or is lost. */
  predicate Moves(step: Step, w: nat) {
    (step.Work? && step.w == w) || (step.Crash? && step.w == w)
  }

  /** Step `i` is the aggregate of attempt `w` on account `a`, and the attempt does not move until moment `j`. */
  ghost predicate AttemptPendingFrom(states: seq<State>, steps: seq<Step>, w: nat, a: AccountId, i: nat, j: nat) {
    IsRun(states, steps) && i < j < |states| && steps[i].Work? && steps[i].w == w && steps[i].choice.fault == NoFault &&
    w in states[i].workers && states[i].workers[w].RecalcReading? && states[i].workers[w].acct == a &&
    forall k :: i < k < j ==> !Moves(steps[k], w)
  }

  lemma AttemptStays(states: seq<State>, steps: seq<Step>, w: nat, k: nat)
    requires IsRun(states, steps) && k < |steps| && w in states[k].workers && !Moves(steps[k], w)
    ensures w in states[k + 1].workers && states[k + 1].workers[w] == states[k].workers[w]
  {
    assert StepAt(states, steps, k);
  }

  lemma AttemptAggregates(states: seq<State>, steps: seq<Step>, w: nat, i: nat)
    requires IsRun(states, steps) && i < |steps| && steps[i].Work? && steps[i].w == w &&
             steps[i].choice.fault == NoFault
    requires w in states[i].workers && states[i].workers[w].RecalcReading?
    ensures w in states[i + 1].workers
    ensures var p := states[i].workers[w];
            states[i + 1].workers[w] == RecalcWriting(p.job, p.acct, LiveSize(states[i].db, p.acct))
  {
    assert StepAt(states, steps, i);
  }

  lemma {:induction false} AttemptHoldsAggregate(states: seq<State>, steps: seq<Step>, w: nat, a: AccountId, i: nat,
                                                 j: nat)
    requires AttemptPendingFrom(states, steps, w, a, i, j)
    ensures w in states[j].workers
    ensures states[j].workers[w] == RecalcWriting(states[i].workers[w].job, a, LiveSize(states[i].db, a))
    decreases j
  {
    if i < j - 1 {
      AttemptHoldsAggregate(states, steps, w, a, i, j - 1);
      AttemptStays(states, steps, w, j - 1);
    } else {
      AttemptAggregates(states, steps, w, i);
    }
  }

  lemma AttemptOverlapDrift(states: seq<State>, steps: seq<Step>, w: nat, a: AccountId, i: nat, j: nat)
    requires AttemptPendingFrom(states, steps, w, a, i, j) && WellFormed(states[0]) && j < |steps|
    requires steps[j].Work? && steps[j].w == w && steps[j].choice.fault != Failed && a in states[j].db.accounts
    ensures Drift(states[j + 1], a) ==
            LiveSize(states[i].db, a) - LiveSize(states[j].db, a) - Held(states[j], a) - Pending(states[j], a)
  {
    AttemptHoldsAggregate(states, steps, w, a, i, j);
    RunWellFormed(states, steps, j);
    assert StepAt(states, steps, j);
    AttemptWriteDrift(states[j], steps[j].choice, w, a);
  }

  lemma AttemptWriteDrift(s: State, c: Choice, w: nat, a: AccountId)
    requires Enabled(s, Work(w, c)) && c.fault != Failed && a in s.db.accounts && s.db.messages.Keys <= s.issued
    requires s.workers[w].RecalcWriting? && s.workers[w].acct == a
    ensures Drift(Apply(s, Work(w, c)), a) == s.workers[w].value - Owed(s, a)
  {
    StepAccounting(s, Work(w, c), a);
  }

  /** The same for the recalculation of a refused attempt. */
  lemma AttemptRecalculationCoversExactly(states: seq<State>, steps: seq<Step>, w: nat, a: AccountId, i: nat, j: nat)
    requires AttemptPendingFrom(states, steps, w, a, i, j) && WellFormed(states[0]) && j < |steps|
    requires steps[j].Work? && steps[j].w == w && steps[j].choice.fault != Failed && a in states[j].db.accounts
    requires Undisturbed(states, i, j, a)
    ensures Drift(states[j + 1], a) >= 0 <==> Held(states[j], a) == 0 && Pending(states[j], a) == 0
    ensures Held(states[j], a) == 0 && Pending(states[j], a) == 0 ==> Drift(states[j + 1], a) == 0
  {
    AttemptOverlapDrift(states, steps, w, a, i, j);
    UndisturbedSame(states, i, j, a);
  }

  // ---- runs on which no recalculation overlaps other work -------------------------------

  predicate RecalcOn(s: State, r: nat, a: AccountId) {
    r in s.recalcs && s.recalcs[r].acct == a
  }

  predicate AttemptOn(s: State, w: nat, a: AccountId) {
    w in s.workers && s.workers[w].RecalcWriting? && s.workers[w].acct == a
  }

  /** A recalculation of `a` has aggregated and not yet written. */
  ghost predicate Recalculating(s: State, a: AccountId) {
    (exists r :: RecalcOn(s, r, a)) || (exists w :: AttemptOn(s, w, a))
  }

  /** The step is the write of a recalculation of `a`. */
  predicate Rewrites(s: State, step: Step, a: AccountId) {
    (step.RecalcWrite? && step.fault != Failed && RecalcOn(s, step.r, a)) ||
    (step.Work? && step.choice.fault != Failed && AttemptOn(s, step.w, a))
  }

  /** While a recalculation of an account is pending its live documents do not change, and it writes only when no
      reservation is held and no release outstanding. */
  ghost predicate NoOverlap(s: State, step: Step)
    requires Enabled(s, step)
  {
    forall a :: Recalculating(s, a) ==>
      LiveSizes(Apply(s, step).db, a) == LiveSizes(s.db, a) &&
      (Rewrites(s, step, a) ==> Held(s, a) == 0 && Pending(s, a) == 0)
  }

  /** No overlap, no insert whose answer is lost, no document deleted twice. */
  ghost predicate Calm(s: State, step: Step)
    requires Enabled(s, step)
  {
    NoOverlap(s, step) && !LosesInsert(s, step) && !MarksTwice(s, step)
  }

  ghost predicate CalmAt(states: seq<State>, steps: seq<Step>, i: nat)
    requires |states| == |steps| + 1 && i < |steps|
  {
    StepAt(states, steps, i) && Calm(states[i], steps[i])
  }

  ghost predicate CalmRun(states: seq<State>, steps: seq<Step>) {
    && IsRun(states, steps)
    && forall i {:trigger CalmAt(states, steps, i)} :: 0 <= i < |steps| ==> CalmAt(states, steps, i)
  }

  /** Every pending recalculation is about to write the account's live total. */
  ghost predicate Current(s: State) {
    (forall r, a :: RecalcOn(s, r, a) ==> s.recalcs[r].value == LiveSize(s.db, a)) &&
    (forall w, a :: AttemptOn(s, w, a) ==> s.workers[w].value == LiveSize(s.db, a))
  }

  lemma CurrentIsEnough(s: State, step: Step)
    requires Enabled(s, step) && Current(s) && NoOverlap(s, step)
    ensures WritesEnough(s, step)
  {
    if step.Work? && s.workers[step.w].RecalcWriting? && step.choice.fault != Failed {
      assert AttemptOn(s, step.w, s.workers[step.w].acct);
    }
    if step.RecalcWrite? && step.fault != Failed {
      assert RecalcOn(s, step.r, s.recalcs[step.r].acct);
    }
  }

  /** A recalculation pending after a step was pending before it, or has just aggregated. */
  lemma RecalcFrom(s: State, step: Step, r: nat, a: AccountId)
    requires Enabled(s, step) && RecalcOn(Apply(s, step), r, a)
    ensures (RecalcOn(s, r, a) && Apply(s, step).recalcs[r] == s.recalcs[r]) ||
            (Apply(s, step).db == s.db && Apply(s, step).recalcs[r].value == LiveSize(s.db, a))
  {
  }

  lemma AttemptFrom(s: State, step: Step, w: nat, a: AccountId)
    requires Enabled(s, step) && AttemptOn(Apply(s, step), w, a)
    ensures (AttemptOn(s, w, a) && Apply(s, step).workers[w] == s.workers[w]) ||
            (Apply(s, step).db == s.db && Apply(s, step).workers[w].value == LiveSize(s.db, a))
  {
    WriterFrom(s, step, w);
  }

  lemma CurrentStep(s: State, step: Step)
    requires Enabled(s, step) && Current(s) && NoOverlap(s, step)
    ensures Current(Apply(s, step))
  {
    var t := Apply(s, step);
    forall r, a | RecalcOn(t, r, a) ensures t.recalcs[r].value == LiveSize(t.db, a) {
      RecalcFrom(s, step, r, a);
    }
    forall w, a | AttemptOn(t, w, a) ensures t.workers[w].value == LiveSize(t.db, a) {
      AttemptFrom(s, step, w, a);
    }
  }

  lemma CalmStepKeeps(states: seq<State>, steps: seq<Step>, k: nat)
    requires CalmRun(states, steps) && k < |steps| && Current(states[k])
    ensures Current(states[k + 1])
  {
    assert CalmAt(states, steps, k);
    CurrentStep(states[k], steps[k]);
  }

  lemma {:induction false} CalmRunIsCurrent(states: seq<State>, steps: seq<Step>, n: nat)
    requires CalmRun(states, steps) && Initial(states[0]) && n <= |steps|
    ensures Current(states[n])
  {
    if n > 0 {
      CalmRunIsCurrent(states, steps, n - 1);
      CalmStepKeeps(states, steps, n - 1);
    }
  }

  lemma CalmRunIsSafe(states: seq<State>, steps: seq<Step>)
    requires CalmRun(states, steps) && Initial(states[0])
    ensures SafeRun(states, steps)
  {
    forall i | 0 <= i < |steps| ensures Safe(states[i], steps[i]) {
      CalmRunIsCurrent(states, steps, i);
      assert CalmAt(states, steps, i);
      CurrentIsEnough(states[i], steps[i]);
    }
  }

  /** The quota bound: on a run from an empty system on which no recalculation overlaps other work, no insert's
      answer is lost and no document is deleted twice, no account's live bytes, reservations and outstanding
      releases together ever exceed `used`, nor `used` a positive quota. */
  lemma QuotaNeverExceeded(states: seq<State>, steps: seq<Step>, n: nat, a: AccountId)
    requires CalmRun(states, steps) && Initial(states[0]) && n <= |steps| && a in states[n].db.accounts
    ensures LiveSize(states[n].db, a) + Held(states[n], a) + Pending(states[n], a) <= UsedOf(states[n].db, a)
    ensures states[n].db.accounts[a].quota > 0 ==> UsedOf(states[n].db, a) <= states[n].db.accounts[a].quota
  {
    CalmRunIsSafe(states, steps);
    SafeRunWithinQuota(states, steps, n, a);
  }

  // ---- a guard on the actors ------------------------------------------------------------

  /** Nobody is storing or deleting on `a`: no attempt past its reservation, no deletion in progress. */
  ghost predicate Idle(s: State, a: AccountId) {
    (forall w :: w in s.workers && (s.workers[w].Inserting? || s.workers[w].RollingBack?) ==> s.workers[w].acct != a) &&
    (forall d :: d in s.deletions ==> s.deletions[d].acct != a)
  }

  /** Recalculations run only on idle accounts, and nothing of such an account expires meanwhile. */
  ghost predicate Alone(s: State, step: Step)
    requires Enabled(s, step)
  {
    forall a :: Recalculating(s, a) ==> Idle(s, a) && (step.Expire? ==> s.db.messages[step.id].account != a)
  }

  lemma IdleOwesNothing(s: State, a: AccountId)
    requires Idle(s, a)
    ensures Held(s, a) == 0 && Pending(s, a) == 0
  {
    TotalOfZeros(Holdings(s.workers, a));
    TotalOfZeros(Releases(s.deletions, a));
  }

  lemma WorkKeepsLive(db: Db, p: Phase, c: Choice, a: AccountId)
    requires p.Inserting? ==> p.acct != a
    ensures LiveSizes(WorkNext(db, p, c).0, a) == LiveSizes(db, a)
  {
  }

  lemma MarkKeepsLive(db: Db, del: Deletion, fault: Fault, a: AccountId)
    requires del.Marking? && del.todo != []
    requires del.todo[0].id in db.messages ==> db.messages[del.todo[0].id].account != a
    ensures LiveSizes(MarkNext(db, del, fault).0, a) == LiveSizes(db, a)
  {
  }

  lemma StoreKeepsLive(s: State, step: Step, a: AccountId)
    requires Enabled(s, step) && !step.Work? && !step.DeleteMark?
    requires step.Expire? ==> s.db.messages[step.id].account != a
    ensures LiveSizes(Apply(s, step).db, a) == LiveSizes(s.db, a)
  {
  }

  lemma IdleKeepsLive(s: State, step: Step, a: AccountId)
    requires Enabled(s, step) && ReadsAreCurrent(s) && Idle(s, a)
    requires step.Expire? ==> s.db.messages[step.id].account != a
    ensures LiveSizes(Apply(s, step).db, a) == LiveSizes(s.db, a)
  {
    match step {
      case Work(w, c) => WorkKeepsLive(s.db, s.workers[w], c, a);
      case DeleteMark(d, fault) => MarkKeepsLive(s.db, s.deletions[d], fault, a);
      case _ => StoreKeepsLive(s, step, a);
    }
  }

  /** Serialising recalculations with the account's other work is enough. */
  lemma AloneIsNoOverlap(s: State, step: Step)
    requires Enabled(s, step) && ReadsAreCurrent(s) && Alone(s, step)
    ensures NoOverlap(s, step)
  {
    forall a | Recalculating(s, a)
      ensures LiveSizes(Apply(s, step).db, a) == LiveSizes(s.db, a) && Held(s, a) == 0 && Pending(s, a) == 0
    {
      IdleOwesNothing(s, a);
      IdleKeepsLive(s, step, a);
    }
  }
}
