/** The sum invariant over every sequential run, and what a repeated delivery does. */
module LedgerRuns {
  import opened Wrappers
  import opened Sums
  import opened LedgerSpec
  import opened LedgerTheorems

  /** Attempts are not of learning items, learning items alone are viewed, and an unviewed one holds nothing. */
  ghost predicate Shaped(c: Content, s: State) {
    && (forall k :: k in s.attempts ==> k.activity !in c.learnings)
    && (forall a :: a in s.viewings ==> a in c.learnings && (s.viewings[a].viewed == 0 ==> s.viewings[a].points == 0))
  }

  /** A counted pass is the newest attempt of its activity: none is stored after it. */
  ghost predicate PassIsNewest(s: State) {
    forall k :: k in s.attempts && s.attempts[k].counted ==> IsNewest(s.attempts, k)
  }

  ghost predicate Kept(c: Content, s: State, worth: Id -> int) {
    Shaped(c, s) && PassIsNewest(s) && Balanced(c, s) && Within(c, s, worth)
  }

  /** A new attempt starts after those stored, and no activity is ever worth more than the lesson's total leaves room for. */
  ghost predicate Allowed(s: State, op: Op, worth: Id -> int) {
    match op
    case Submit(sub) =>
      && sub.points <= worth(sub.activity)
      && (Passed(s.attempts, sub.activity) || sub.NaturalKey() in s.attempts || StartsLast(s, sub))
    case View(item, points, _) => points <= worth(item)
  }

  ghost predicate StartsLast(s: State, sub: Submission) {
    forall k :: k in s.attempts && k.activity == sub.activity ==> k.start < sub.start
  }

  lemma {:induction false} AttemptCredit(c: Content, s: State, activity: Id)
    requires Shaped(c, s) && activity !in c.learnings
    ensures Credit(s, activity) == PointsAt(s.attempts, Newest(s.attempts, activity))
  {
  }

  // ---- one attempt --------------------------------------------------------------------------------------------

  lemma {:induction false} InsertedCredit(s: State, sub: Submission, a: Id)
    requires StartsLast(s, sub)
    ensures Credit(Inserted(s, sub), a)
      == Credit(s, a) + if a == sub.activity then sub.Earned() - PointsAt(s.attempts, Newest(s.attempts, a)) else 0
  {
    var t := Inserted(s, sub);
    if a == sub.activity {
      assert IsNewest(t.attempts, sub.NaturalKey());
      NewestIs(t.attempts, sub.NaturalKey());
      TriedHasNewest(s.attempts, a);
    } else {
      NewestElsewhere(s.attempts, t.attempts, a);
      TriedHasNewest(s.attempts, a);
    }
  }

  /** The snapshot of the last attempt: what moves is the new credit less the old. */
  lemma {:induction false} SnapshotIsCredit(s: State, sub: Submission)
    requires StartsLast(s, sub)
    ensures var (seen, before) := (Read(s, sub), PointsAt(s.attempts, Newest(s.attempts, sub.activity)));
            && (Moves(sub, seen) ==> Num(seen.held) == before)
            && (!Moves(sub, seen) ==> sub.Earned() == before)
  {
    TriedHasNewest(s.attempts, sub.activity);
  }

  /** Rows stored with a changed credit, and the difference rewarded when there is one. */
  lemma {:induction false} StoredAndRewarded(c: Content, s: State, stored: State, activity: Id, delta: int, worth: Id -> int)
    requires c.Valid() && c.Knows(activity) && Balanced(c, s) && Covers(c, worth) && Within(c, s, worth)
    requires stored.lessons == s.lessons && stored.levels == s.levels && stored.grades == s.grades
    requires 0 <= Credit(s, activity) + delta && (activity in c.activities ==> Credit(s, activity) + delta <= worth(activity))
    requires CreditMoved(s, stored, activity, delta)
    ensures Moved(c, s, Reward(c, stored, activity, delta), activity, delta)
    ensures delta == 0 ==> Moved(c, s, stored, activity, delta)
  {
    RewardLands(c, s, stored, activity, delta, worth);
  }

  /** How far an attempt moves its activity's credit. */
  ghost function AttemptDelta(s: State, sub: Submission, points: nat): int {
    points - PointsAt(s.attempts, Newest(s.attempts, sub.activity))
  }

  lemma {:induction false} InsertedCreditMoved(s: State, sub: Submission)
    requires StartsLast(s, sub)
    ensures CreditMoved(s, Inserted(s, sub), sub.activity, AttemptDelta(s, sub, sub.Earned()))
  {
    forall a
      ensures Credit(Inserted(s, sub), a) == Credit(s, a) + if a == sub.activity then AttemptDelta(s, sub, sub.Earned()) else 0
    {
      InsertedCredit(s, sub, a);
    }
  }

  lemma {:induction false} CommitIs(c: Content, s: State, sub: Submission)
    requires c.Valid() && Fits(c, Submit(sub)) && StartsLast(s, sub)
    ensures var delta := AttemptDelta(s, sub, sub.Earned());
            && Commit(c, s, sub, Read(s, sub)) == (if Moves(sub, Read(s, sub)) then Reward(c, Inserted(s, sub), sub.activity, delta) else Inserted(s, sub))
            && (!Moves(sub, Read(s, sub)) ==> delta == 0)
  {
    assert sub.NaturalKey() !in s.attempts;
    SnapshotIsCredit(s, sub);
  }

  lemma {:induction false} CommitMoves(c: Content, s: State, sub: Submission, worth: Id -> int)
    requires c.Valid() && Fits(c, Submit(sub)) && Shaped(c, s) && Balanced(c, s) && Within(c, s, worth) && Covers(c, worth)
    requires StartsLast(s, sub) && sub.points <= worth(sub.activity)
    ensures Moved(c, s, Commit(c, s, sub, Read(s, sub)), sub.activity, AttemptDelta(s, sub, sub.Earned()))
  {
    InsertedCreditMoved(s, sub);
    AttemptCredit(c, s, sub.activity);
    StoredAndRewarded(c, s, Inserted(s, sub), sub.activity, AttemptDelta(s, sub, sub.Earned()), worth);
    CommitIs(c, s, sub);
  }

  lemma {:induction false} StarsKeepRows(c: Content, s: State, activity: Id, scores: nat)
    requires c.Valid() && c.Knows(activity)
    ensures RowsMoved(c, s, AddStars(c, s, activity, scores), activity, 0)
  {
    if activity in c.activities {
      assert AddStars(c, s, activity, scores) == AddLessonStars(c, s, c.activities[activity], scores);
    } else {
      assert AddStars(c, s, activity, scores) == AddLevelStars(c, s, activity, scores);
    }
  }

  lemma {:induction false} StarsMoveNothing(c: Content, s: State, activity: Id, scores: nat)
    requires c.Valid() && c.Knows(activity)
    ensures Moved(c, s, AddStars(c, s, activity, scores), activity, 0)
  {
    StarsKeepRows(c, s, activity, scores);
    forall a ensures Credit(AddStars(c, s, activity, scores), a) == Credit(s, a) {
      SameCredit(s, AddStars(c, s, activity, scores), a);
    }
  }

  // ---- a repaid pass ----------------------------------------------------------------------------------------------

  lemma {:induction false} FirstPassIs(s: State, activity: Id)
    requires PassIsNewest(s) && Passed(s.attempts, activity)
    ensures FirstPass(s.attempts, activity) == Newest(s.attempts, activity) && FirstPass(s.attempts, activity).Some?
  {
    TriedHasNewest(s.attempts, activity);
    var k :| k in s.attempts && k.activity == activity && s.attempts[k].counted;
    NewestIs(s.attempts, k);
    assert IsFirstPass(s.attempts, k) by {
      forall j | j in s.attempts && j.activity == activity && s.attempts[j].counted
        ensures k == j
      {
        NewestIs(s.attempts, j);
      }
    }
    assert forall j :: IsFirstPass(s.attempts, j) && j.activity == activity ==> j == k;
  }

  ghost function Repaid(s: State, k: Key, points: nat): State
    requires k in s.attempts
  {
    s.(attempts := s.attempts[k := s.attempts[k].(points := points)])
  }

  lemma {:induction false} RepaidCreditMoved(s: State, k: Key, points: nat)
    requires IsNewest(s.attempts, k)
    ensures CreditMoved(s, Repaid(s, k, points), k.activity, points - s.attempts[k].points)
  {
    NewestIs(s.attempts, k);
    forall a
      ensures Credit(Repaid(s, k, points), a) == Credit(s, a) + if a == k.activity then points - s.attempts[k].points else 0
    {
      NewestElsewhere(s.attempts, Repaid(s, k, points).attempts, a);
      TriedHasNewest(s.attempts, a);
    }
  }

  lemma {:induction false} RepayIs(c: Content, s: State, sub: Submission, k: Key)
    requires c.Valid() && Fits(c, Submit(sub)) && PassIsNewest(s) && Passed(s.attempts, sub.activity)
    requires Newest(s.attempts, sub.activity) == Some(k) && k in s.attempts
    ensures var delta := AttemptDelta(s, sub, sub.points);
            Repay(c, s, sub) == if delta == 0 then Repaid(s, k, sub.points) else Reward(c, Repaid(s, k, sub.points), sub.activity, delta)
  {
    FirstPassIs(s, sub.activity);
  }

  lemma {:induction false} RepayMoves(c: Content, s: State, sub: Submission, worth: Id -> int)
    requires c.Valid() && Fits(c, Submit(sub))
    requires Shaped(c, s) && PassIsNewest(s) && Balanced(c, s) && Within(c, s, worth) && Covers(c, worth)
    requires Passed(s.attempts, sub.activity) && sub.points <= worth(sub.activity)
    ensures Moved(c, s, Repay(c, s, sub), sub.activity, AttemptDelta(s, sub, sub.points))
  {
    FirstPassIs(s, sub.activity);
    TriedHasNewest(s.attempts, sub.activity);
    var k := Newest(s.attempts, sub.activity).value;
    RepaidCreditMoved(s, k, sub.points);
    AttemptCredit(c, s, sub.activity);
    StoredAndRewarded(c, s, Repaid(s, k, sub.points), sub.activity, AttemptDelta(s, sub, sub.points), worth);
    RepayIs(c, s, sub, k);
  }

  // ---- a viewed learning -------------------------------------------------------------------------------------------

  lemma {:induction false} MovedThen(c: Content, s: State, t: State, u: State, activity: Id, delta: int)
    requires c.Valid() && c.Knows(activity) && Moved(c, s, t, activity, delta) && Moved(c, t, u, activity, 0)
    ensures Moved(c, s, u, activity, delta)
  {
  }

  ghost function ViewDelta(s: State, item: Id, points: nat, ended: bool): int {
    (if ended || (item in s.viewings && s.viewings[item].viewed > 0) then points else 0) - Credit(s, item)
  }

  /** A report moves points when the credit changes, and on the first view to the end. */
  ghost predicate ViewRewards(s: State, item: Id, points: nat, ended: bool) {
    ViewDelta(s, item, points, ended) != 0 || (ended && ViewStored(s, item, points, ended).viewings[item].viewed == 1)
  }

  lemma {:induction false} ViewedIs(c: Content, s: State, item: Id, points: nat, ended: bool)
    requires c.Valid() && item in c.learnings && Shaped(c, s)
    ensures var stored := ViewStored(s, item, points, ended);
            ViewMoved(c, s, item, points, ended)
              == if ViewRewards(s, item, points, ended) then Reward(c, stored, item, ViewDelta(s, item, points, ended)) else stored
  {
    TriedHasNewest(s.attempts, item);
  }

  lemma {:induction false} ViewedCredit(c: Content, s: State, item: Id, points: nat, ended: bool, a: Id)
    requires item in c.learnings && Shaped(c, s)
    ensures Credit(ViewStored(s, item, points, ended), a) == Credit(s, a) + if a == item then ViewDelta(s, item, points, ended) else 0
  {
    TriedHasNewest(s.attempts, item);
  }

  lemma {:induction false} ViewedMoves(c: Content, s: State, item: Id, points: nat, ended: bool, worth: Id -> int)
    requires c.Valid() && item in c.learnings && Shaped(c, s) && Balanced(c, s) && Within(c, s, worth) && Covers(c, worth) && points <= worth(item)
    ensures Moved(c, s, Viewed(c, s, item, points, ended), item, ViewDelta(s, item, points, ended))
  {
    var stored, delta := ViewStored(s, item, points, ended), ViewDelta(s, item, points, ended);
    forall a
      ensures Credit(stored, a) == Credit(s, a) + if a == item then delta else 0
    {
      ViewedCredit(c, s, item, points, ended, a);
    }
    TriedHasNewest(s.attempts, item);
    StoredAndRewarded(c, s, stored, item, delta, worth);
    ViewedIs(c, s, item, points, ended);
    var moved := ViewMoved(c, s, item, points, ended);
    StarsMoveNothing(c, moved, item, 0);
    if ended {
      MovedThen(c, s, moved, AddStars(c, moved, item, 0), item, delta);
    }
  }

  // ---- whole runs ------------------------------------------------------------------------------------------------

  lemma {:induction false} RewardKeepsAttempts(c: Content, s: State, activity: Id, delta: int, scores: nat)
    requires c.Valid() && c.Knows(activity)
    ensures var t := Reward(c, s, activity, delta); t.attempts == s.attempts && t.viewings == s.viewings
    ensures var t := AddStars(c, s, activity, scores); t.attempts == s.attempts && t.viewings == s.viewings
  {
  }

  /** The attempts and viewings a submission leaves. */
  lemma {:induction false} SubmittedRows(c: Content, s: State, sub: Submission)
    requires c.Valid() && Fits(c, Submit(sub)) && PassIsNewest(s)
    ensures var t := Submitted(c, s, sub);
            && t.viewings == s.viewings
            && (Passed(s.attempts, sub.activity) ==>
                  var k := Newest(s.attempts, sub.activity);
                  k.Some? && k.value in s.attempts && t.attempts == Repaid(s, k.value, sub.points).attempts)
            && (!Passed(s.attempts, sub.activity) ==>
                  t.attempts == if sub.NaturalKey() in s.attempts then s.attempts else s.attempts[sub.NaturalKey() := sub.Row()])
  {
    if Passed(s.attempts, sub.activity) {
      FirstPassIs(s, sub.activity);
      TriedHasNewest(s.attempts, sub.activity);
      var k := Newest(s.attempts, sub.activity).value;
      RepayIs(c, s, sub, k);
      RewardKeepsAttempts(c, Repaid(s, k, sub.points), sub.activity, AttemptDelta(s, sub, sub.points), 0);
    } else {
      var t := Commit(c, s, sub, Read(s, sub));
      RewardKeepsAttempts(c, Inserted(s, sub), sub.activity, sub.Earned() - Num(Read(s, sub).held), 0);
      RewardKeepsAttempts(c, t, sub.activity, 0, sub.scores);
    }
  }

  ghost function SubmitDelta(s: State, sub: Submission): int {
    if Passed(s.attempts, sub.activity) then AttemptDelta(s, sub, sub.points)
    else if sub.NaturalKey() in s.attempts then 0
    else AttemptDelta(s, sub, sub.Earned())
  }

  lemma {:induction false} SubmittedMoves(c: Content, s: State, sub: Submission, worth: Id -> int)
    requires c.Valid() && Fits(c, Submit(sub)) && Kept(c, s, worth) && Covers(c, worth) && Allowed(s, Submit(sub), worth)
    ensures Moved(c, s, Submitted(c, s, sub), sub.activity, SubmitDelta(s, sub))
  {
    var a := sub.activity;
    if Passed(s.attempts, a) {
      RepayMoves(c, s, sub, worth);
    } else if sub.NaturalKey() !in s.attempts {
      CommitMoves(c, s, sub, worth);
      var t := Commit(c, s, sub, Read(s, sub));
      StarsMoveNothing(c, t, a, sub.scores);
      MovedThen(c, s, t, AddStars(c, t, a, sub.scores), a, AttemptDelta(s, sub, sub.Earned()));
    }
  }

  lemma {:induction false} StaysWithin(c: Content, s: State, t: State, activity: Id, delta: int, worth: Id -> int)
    requires Within(c, s, worth) && CreditMoved(s, t, activity, delta)
    requires delta == 0 || Credit(s, activity) + delta <= worth(activity)
    ensures Within(c, t, worth)
  {
  }

  lemma {:induction false} PassStaysNewest(c: Content, s: State, sub: Submission)
    requires c.Valid() && Fits(c, Submit(sub)) && PassIsNewest(s)
    requires Passed(s.attempts, sub.activity) || sub.NaturalKey() in s.attempts || StartsLast(s, sub)
    ensures PassIsNewest(Submitted(c, s, sub))
  {
    SubmittedRows(c, s, sub);
    TriedHasNewest(s.attempts, sub.activity);
  }

  lemma {:induction false} StaysShaped(c: Content, s: State, op: Op)
    requires c.Valid() && Fits(c, op) && Shaped(c, s) && PassIsNewest(s)
    ensures Shaped(c, Step(c, s, op))
  {
    match op
    case Submit(sub) =>
      SubmittedRows(c, s, sub);
      TriedHasNewest(s.attempts, sub.activity);
    case View(item, points, ended) =>
      ViewedRows(c, s, item, points, ended);
  }

  lemma {:induction false} ViewedRows(c: Content, s: State, item: Id, points: nat, ended: bool)
    requires c.Valid() && item in c.learnings && Shaped(c, s)
    ensures var t := Viewed(c, s, item, points, ended);
            t.attempts == s.attempts && t.viewings == ViewStored(s, item, points, ended).viewings
  {
    ViewedIs(c, s, item, points, ended);
    var stored, delta := ViewStored(s, item, points, ended), ViewDelta(s, item, points, ended);
    RewardKeepsAttempts(c, stored, item, delta, 0);
    RewardKeepsAttempts(c, Reward(c, stored, item, delta), item, delta, 0);
  }

  lemma {:induction false} SubmitKeeps(c: Content, s: State, sub: Submission, worth: Id -> int)
    requires c.Valid() && Fits(c, Submit(sub)) && Kept(c, s, worth) && Covers(c, worth) && Allowed(s, Submit(sub), worth)
    ensures Kept(c, Submitted(c, s, sub), worth)
  {
    SubmittedMoves(c, s, sub, worth);
    MovedBalances(c, s, Submitted(c, s, sub), sub.activity, SubmitDelta(s, sub));
    PassStaysNewest(c, s, sub);
    StaysShaped(c, s, Submit(sub));
    AttemptCredit(c, s, sub.activity);
    StaysWithin(c, s, Submitted(c, s, sub), sub.activity, SubmitDelta(s, sub), worth);
  }

  lemma {:induction false} ViewKeeps(c: Content, s: State, item: Id, points: nat, ended: bool, worth: Id -> int)
    requires c.Valid() && item in c.learnings && Kept(c, s, worth) && Covers(c, worth) && points <= worth(item)
    ensures Kept(c, Viewed(c, s, item, points, ended), worth)
  {
    var delta := ViewDelta(s, item, points, ended);
    ViewedMoves(c, s, item, points, ended, worth);
    MovedBalances(c, s, Viewed(c, s, item, points, ended), item, delta);
    StaysShaped(c, s, View(item, points, ended));
    ViewedRows(c, s, item, points, ended);
    ViewStaysWithin(c, s, Viewed(c, s, item, points, ended), item, points, ended, worth);
  }

  lemma {:induction false} ViewStaysWithin(c: Content, s: State, t: State, item: Id, points: nat, ended: bool,
                                           worth: Id -> int)
    requires Within(c, s, worth) && CreditMoved(s, t, item, ViewDelta(s, item, points, ended))
    requires points <= worth(item) && Shaped(c, s) && item in c.learnings
    ensures Within(c, t, worth)
  {
    TriedHasNewest(s.attempts, item);
    assert item !in s.viewings || s.viewings[item].viewed == 0 ==> Credit(s, item) == 0;
    StaysWithin(c, s, t, item, ViewDelta(s, item, points, ended), worth);
  }

  /** One operation keeps the books. */
  lemma {:induction false} StepKeeps(c: Content, s: State, op: Op, worth: Id -> int)
    requires c.Valid() && Fits(c, op) && Kept(c, s, worth) && Covers(c, worth) && Allowed(s, op, worth)
    ensures Kept(c, Step(c, s, op), worth)
  {
    match op
    case Submit(sub) => SubmitKeeps(c, s, sub, worth);
    case View(item, points, ended) => ViewKeeps(c, s, item, points, ended, worth);
  }

  ghost predicate AllFit(c: Content, ops: seq<Op>) {
    forall op :: op in ops ==> Fits(c, op)
  }

  /** Every operation is allowed where it happens. */
  ghost predicate AllowedRun(c: Content, s: State, ops: seq<Op>, worth: Id -> int)
    requires c.Valid() && AllFit(c, ops)
  {
    ops == [] || (AllowedRun(c, s, ops[..|ops| - 1], worth) && Allowed(Run(c, s, ops[..|ops| - 1]), ops[|ops| - 1], worth))
  }

  lemma {:induction false} RunKeeps(c: Content, s: State, ops: seq<Op>, worth: Id -> int)
    requires c.Valid() && AllFit(c, ops) && Kept(c, s, worth) && Covers(c, worth) && AllowedRun(c, s, ops, worth)
    ensures Kept(c, Run(c, s, ops), worth)
  {
    if ops != [] {
      RunKeeps(c, s, ops[..|ops| - 1], worth);
      StepKeeps(c, Run(c, s, ops[..|ops| - 1]), ops[|ops| - 1], worth);
    }
  }

  // ---- runs from an empty ledger ---------------------------------------------------------------------------------

  const EMPTY := State(map[], map[], map[], map[], map[])

  lemma {:induction false} EmptyIsKept(c: Content, worth: Id -> int)
    requires forall a :: worth(a) >= 0
    ensures Kept(c, EMPTY, worth)
  {
    forall l ensures LessonBalances(c, EMPTY, l) {
      SumOfNothing(Credits(EMPTY), ActivitiesOf(c, l));
    }
    forall v ensures LevelBalances(c, EMPTY, v) {
      SumOfNothing(LessonPoints(EMPTY), LessonsOf(c, v));
    }
    forall g ensures GradeBalances(c, EMPTY, g) {
      SumOfNothing(LevelPoints(EMPTY), LevelsOf(c, g));
    }
  }

  lemma {:induction false} SumOfNothing(f: Id -> int, s: set<Id>)
    requires forall x :: f(x) == 0
    ensures Sum(f, s) == 0
    decreases |s|
  {
    if s != {} {
      var x :| x in s;
      SumPick(f, s, x);
      SumOfNothing(f, s - {x});
    }
  }

  ghost predicate Repeats(ops: seq<Op>, sub: Submission) {
    exists op :: op in ops && op.Submit? && op.sub.NaturalKey() == sub.NaturalKey()
  }

  ghost predicate StartsAfter(ops: seq<Op>, sub: Submission) {
    forall op :: op in ops && op.Submit? && op.sub.activity == sub.activity ==> op.sub.start < sub.start
  }

  /** Each submission repeats an earlier one or starts after all earlier ones of its activity. */
  ghost predicate InOrder(ops: seq<Op>) {
    ops == [] || (
      var (before, last) := (ops[..|ops| - 1], ops[|ops| - 1]);
      InOrder(before) && (last.Submit? ==> Repeats(before, last.sub) || StartsAfter(before, last.sub)))
  }

  ghost predicate WorthAtMost(ops: seq<Op>, worth: Id -> int) {
    forall op :: op in ops ==> if op.Submit? then op.sub.points <= worth(op.sub.activity) else op.points <= worth(op.item)
  }

  /** Every stored attempt was submitted, and every submission is stored or its activity was passed. */
  ghost predicate Recorded(s: State, ops: seq<Op>) {
    && (forall k :: k in s.attempts ==> exists op :: op in ops && op.Submit? && op.sub.NaturalKey() == k)
    && (forall op :: op in ops && op.Submit? ==> op.sub.NaturalKey() in s.attempts || Passed(s.attempts, op.sub.activity))
  }

  /** An operation keeps the attempts there are, with their passes, and adds at most its own. */
  lemma {:induction false} StepAttempts(c: Content, s: State, op: Op)
    requires c.Valid() && Fits(c, op) && Shaped(c, s) && PassIsNewest(s)
    ensures var t := Step(c, s, op);
            && (forall k :: k in s.attempts ==> k in t.attempts && t.attempts[k].counted == s.attempts[k].counted)
            && (forall k :: k in t.attempts && k !in s.attempts ==> op.Submit? && k == op.sub.NaturalKey())
            && (op.Submit? ==> op.sub.NaturalKey() in t.attempts || Passed(s.attempts, op.sub.activity))
  {
    match op
    case Submit(sub) => SubmittedRows(c, s, sub);
    case View(item, points, ended) => ViewedRows(c, s, item, points, ended);
  }

  lemma {:induction false} PassStays(before: map<Key, Attempt>, after: map<Key, Attempt>, activity: Id)
    requires forall k :: k in before ==> k in after && after[k].counted == before[k].counted
    requires Passed(before, activity)
    ensures Passed(after, activity)
  {
    var k :| k in before && k.activity == activity && before[k].counted;
    assert k in after && after[k].counted;
  }

  lemma {:induction false} RecordedOneMore(c: Content, s: State, ops: seq<Op>, op: Op)
    requires c.Valid() && Fits(c, op) && Shaped(c, s) && PassIsNewest(s) && Recorded(s, ops)
    ensures Recorded(Step(c, s, op), ops + [op])
  {
    StepAttempts(c, s, op);
    RecordedStill(s.attempts, Step(c, s, op).attempts, Step(c, s, op), s, ops, op);
  }

  lemma {:induction false} RecordedStill(before: map<Key, Attempt>, after: map<Key, Attempt>, t: State, s: State,
                                         ops: seq<Op>, op: Op)
    requires before == s.attempts && after == t.attempts && Recorded(s, ops)
    requires forall k :: k in before ==> k in after && after[k].counted == before[k].counted
    requires forall k :: k in after && k !in before ==> op.Submit? && k == op.sub.NaturalKey()
    requires op.Submit? ==> op.sub.NaturalKey() in after || Passed(before, op.sub.activity)
    ensures Recorded(t, ops + [op])
  {
    forall o | o in ops + [op] && o.Submit?
      ensures o.sub.NaturalKey() in after || Passed(after, o.sub.activity)
    {
      if Passed(before, o.sub.activity) {
        PassStays(before, after, o.sub.activity);
      }
    }
    forall k | k in after
      ensures exists o :: o in ops + [op] && o.Submit? && o.sub.NaturalKey() == k
    {
      if k in before {
        var o :| o in ops && o.Submit? && o.sub.NaturalKey() == k;
        assert o in ops + [op];
      } else {
        assert op in ops + [op];
      }
    }
  }

  lemma {:induction false} InOrderIsAllowed(c: Content, ops: seq<Op>, worth: Id -> int)
    requires c.Valid() && AllFit(c, ops) && Covers(c, worth) && (forall a :: worth(a) >= 0)
    requires InOrder(ops) && WorthAtMost(ops, worth)
    ensures AllowedRun(c, EMPTY, ops, worth) && Recorded(Run(c, EMPTY, ops), ops)
    ensures Kept(c, Run(c, EMPTY, ops), worth)
  {
    EmptyIsKept(c, worth);
    if ops != [] {
      var before, last := ops[..|ops| - 1], ops[|ops| - 1];
      assert ops == before + [last];
      InOrderIsAllowed(c, before, worth);
      RecordedOneMore(c, Run(c, EMPTY, before), before, last);
      RunKeeps(c, EMPTY, ops, worth);
    }
  }

  /**
   * The sum invariant, over every run: when the submissions of each activity come in the order
   * of their start times (repeats may come at any time) and each lesson's total covers what its
   * activities are worth, every lesson holds the sum of its activities' credits, every level the
   * sum of its lessons and its quiz's credit, and every grade the sum of its levels.
   */
  lemma {:induction false} InOrderRunBalances(c: Content, ops: seq<Op>, worth: Id -> int)
    requires c.Valid() && AllFit(c, ops) && Covers(c, worth) && (forall a :: worth(a) >= 0)
    requires InOrder(ops) && WorthAtMost(ops, worth)
    ensures Balanced(c, Run(c, EMPTY, ops))
  {
    InOrderIsAllowed(c, ops, worth);
  }
}
