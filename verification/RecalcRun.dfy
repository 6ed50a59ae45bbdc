/**
 * The loop over an organisation's learners: one transaction each, written or rolled back as
 * a whole, stopping when the connection is lost. Reruns converge.
 */
module RecalcRun {
  import opened Wrappers
  import opened SortedIds
  import opened RecalcPlan
  import opened RecalcTheorems
  import opened RecalcPlanner

  /** Each learner's rows. The ids of attempts are primary keys. */
  type Db = map<Id, Input>

  ghost predicate ValidDb(db: Db) {
    forall l :: l in db ==> UniqueIds(db[l].attempts)
  }

  /** What the environment does to one learner's transaction: an error may strike anywhere in it. */
  datatype Fate = Commits | Fails | LosesConnection

  datatype RunCounts = RunCounts(plans: Counts, learners: nat, failed: nat, notReached: nat)

  // ---- what a run does, as a function of the learners whose transactions commit --------------------------

  ghost function CanonicalPlan(input: Input): Plan {
    Plan(Sorted(IdSet(Zeroed(input))), LessonChanges(input, Sorted(Lessons(input))), LevelChanges(input, Sorted(Levels(input))),
         GradeChanges(input, Sorted(Grades(input))), Counts(0, 0, 0, 0, 0, 0, 0))
  }

  /** The learner's rows once the plan for them is written. */
  ghost function Settled(input: Input): Input {
    Written(input, CanonicalPlan(input))
  }

  lemma {:induction false} CanonicalIsPlan(input: Input)
    ensures IsPlanOf(input, CanonicalPlan(input))
  {
    SortedHasEach(IdSet(Zeroed(input)));
  }

  /** Whatever order the rows came in, the plan writes the same. */
  lemma {:induction false} WrittenIsSettled(input: Input, plan: Plan)
    requires IsPlanOf(input, plan)
    ensures Written(input, plan) == Settled(input)
  {
    CanonicalIsPlan(input);
  }

  lemma {:induction false} EmptyPlanWritesNothing(input: Input, plan: Plan)
    requires IsEmptyPlan(plan)
    ensures Written(input, plan) == input
  {
    assert ToSet(plan.zeroRows) == {};
    forall a | a in input.attempts
      ensures ZeroPoints(a, ToSet(plan.zeroRows)) == a
    {
    }
    assert Written(input, plan).attempts == input.attempts;
    assert UpdatedRows(input.lessonRows, []) == input.lessonRows;
    assert UpdatedRows(input.levelRows, []) == input.levelRows;
    assert UpdatedRows(input.gradeRows, []) == input.gradeRows;
  }

  /** Settled rows are settled: a second plan is empty, so it writes nothing. */
  lemma {:induction false} SettledStays(input: Input)
    ensures Settled(Settled(input)) == Settled(input)
  {
    CanonicalIsPlan(input);
    CanonicalIsPlan(Settled(input));
    SecondPlanIsEmpty(input, CanonicalPlan(input), CanonicalPlan(Settled(input)));
    EmptyPlanWritesNothing(Settled(input), CanonicalPlan(Settled(input)));
  }

  lemma {:induction false} SettledKeepsIds(input: Input)
    requires UniqueIds(input.attempts)
    ensures UniqueIds(Settled(input).attempts)
  {
  }

  ghost function AfterCommits(db: Db, committed: set<Id>): Db {
    map l | l in db :: if l in committed then Settled(db[l]) else db[l]
  }

  /** How many learners a run gets to from `i` on: up to and with the one that loses the connection. */
  ghost function SeenFrom(fates: seq<Fate>, i: nat): (n: nat)
    requires i <= |fates|
    ensures i <= n <= |fates|
    decreases |fates| - i
  {
    if i == |fates| then i
    else if fates[i] == LosesConnection then i + 1
    else SeenFrom(fates, i + 1)
  }

  ghost function SeenBy(fates: seq<Fate>): (n: nat)
    ensures n <= |fates|
  {
    SeenFrom(fates, 0)
  }

  ghost function CommittedIn(learners: seq<Id>, fates: seq<Fate>, n: nat): set<Id>
    requires n <= |fates| == |learners|
  {
    if n == 0 then {} else CommittedIn(learners, fates, n - 1) + if fates[n - 1] == Commits then {learners[n - 1]} else {}
  }

  /** The learners whose transaction committed before the connection was lost, if it was. */
  ghost function Committed(learners: seq<Id>, fates: seq<Fate>): set<Id>
    requires |fates| == |learners|
  {
    CommittedIn(learners, fates, SeenBy(fates))
  }

  ghost function FailedIn(fates: seq<Fate>, n: nat): nat
    requires n <= |fates|
  {
    if n == 0 then 0 else FailedIn(fates, n - 1) + if fates[n - 1] == Commits then 0 else 1
  }

  /** No learner before this one lost the connection. */
  predicate IsReached(fates: seq<Fate>, i: int) {
    0 <= i < |fates| && forall j :: 0 <= j < i ==> fates[j] != LosesConnection
  }

  lemma {:induction false} SeenFromIs(fates: seq<Fate>, i: nat, k: nat)
    requires i <= k < |fates| && forall j :: 0 <= j < i ==> fates[j] != LosesConnection
    ensures k < SeenFrom(fates, i) <==> IsReached(fates, k)
    decreases |fates| - i
  {
    if i < k && fates[i] != LosesConnection {
      SeenFromIs(fates, i + 1, k);
    }
  }

  lemma {:induction false} CommittedInIs(learners: seq<Id>, fates: seq<Fate>, n: nat, l: Id)
    requires n <= |fates| == |learners|
    ensures l in CommittedIn(learners, fates, n) <==> exists i :: 0 <= i < n && learners[i] == l && fates[i] == Commits
  {
    if n > 0 {
      CommittedInIs(learners, fates, n - 1, l);
    }
  }

  /** The learners that are settled: each whose transaction commits and that no lost connection came before. */
  lemma {:induction false} CommittedAre(learners: seq<Id>, fates: seq<Fate>, l: Id)
    requires |fates| == |learners|
    ensures l in Committed(learners, fates) <==> exists i :: IsReached(fates, i) && learners[i] == l && fates[i] == Commits
  {
    CommittedInIs(learners, fates, SeenBy(fates), l);
    forall i | 0 <= i < |fates| ensures i < SeenBy(fates) <==> IsReached(fates, i) {
      SeenFromIs(fates, 0, i);
    }
  }

  function ReachedAndNot(fates: seq<Fate>, n: nat): set<nat>
    requires n <= |fates|
  {
    set i: nat | i < n && fates[i] != Commits
  }

  lemma {:induction false} FailedInIs(fates: seq<Fate>, n: nat)
    requires n <= |fates|
    ensures FailedIn(fates, n) == |ReachedAndNot(fates, n)|
  {
    if n > 0 {
      FailedInIs(fates, n - 1);
      assert ReachedAndNot(fates, n) == ReachedAndNot(fates, n - 1) + if fates[n - 1] == Commits then {} else {n - 1};
    }
  }

  /** The learners counted as failed: each that was reached and did not commit, the one that lost the connection too. */
  lemma {:induction false} FailedAre(fates: seq<Fate>)
    ensures FailedIn(fates, SeenBy(fates)) == |set i: nat | i < |fates| && IsReached(fates, i) && fates[i] != Commits|
  {
    FailedInIs(fates, SeenBy(fates));
    forall i: nat | i < |fates| ensures i < SeenBy(fates) <==> IsReached(fates, i) {
      SeenFromIs(fates, 0, i);
    }
    assert ReachedAndNot(fates, SeenBy(fates)) == set i: nat | i < |fates| && IsReached(fates, i) && fates[i] != Commits;
  }

  // ---- reruns ---------------------------------------------------------------------------------------------

  /** Two runs one after the other do what one run does whose commits are those of both. */
  lemma {:induction false} TwoRuns(db: Db, first: set<Id>, second: set<Id>)
    ensures AfterCommits(AfterCommits(db, first), second) == AfterCommits(db, first + second)
  {
    forall l | l in db && l in first && l in second
      ensures Settled(Settled(db[l])) == Settled(db[l])
    {
      SettledStays(db[l]);
    }
  }

  datatype Attempted = Attempted(learners: seq<Id>, fates: seq<Fate>) {
    ghost predicate Valid() {
      |learners| == |fates|
    }
  }

  ghost predicate AllValid(runs: seq<Attempted>) {
    forall i :: 0 <= i < |runs| ==> runs[i].Valid()
  }

  ghost function AfterRuns(db: Db, runs: seq<Attempted>): Db
    requires AllValid(runs)
  {
    if runs == [] then db
    else AfterRuns(AfterCommits(db, Committed(runs[0].learners, runs[0].fates)), runs[1..])
  }

  ghost function CommittedEver(runs: seq<Attempted>): set<Id>
    requires AllValid(runs)
  {
    if runs == [] then {} else Committed(runs[0].learners, runs[0].fates) + CommittedEver(runs[1..])
  }

  /** Any series of runs, however they fail, settles exactly the learners that committed in one of them. */
  lemma {:induction false} RunsSettleTheCommitted(db: Db, runs: seq<Attempted>)
    requires AllValid(runs)
    ensures AfterRuns(db, runs) == AfterCommits(db, CommittedEver(runs))
  {
    if runs == [] {
      assert AfterCommits(db, {}) == db;
    } else {
      var committed := Committed(runs[0].learners, runs[0].fates);
      RunsSettleTheCommitted(AfterCommits(db, committed), runs[1..]);
      TwoRuns(db, committed, CommittedEver(runs[1..]));
    }
  }

  /**
   * Convergence: after any series of runs the database is that of one clean run over a roster,
   * exactly when each learner of it committed once or had nothing to change, and each learner
   * outside it never committed a change.
   */
  lemma {:induction false} RunsConverge(db: Db, runs: seq<Attempted>, roster: set<Id>)
    requires AllValid(runs)
    ensures AfterRuns(db, runs) == AfterCommits(db, roster)
      <==> forall l :: l in db && (l in CommittedEver(runs) <==> l !in roster) ==> Settled(db[l]) == db[l]
  {
    RunsSettleTheCommitted(db, runs);
    var done := CommittedEver(runs);
    if AfterCommits(db, done) == AfterCommits(db, roster) {
      forall l | l in db && (l in done <==> l !in roster)
        ensures Settled(db[l]) == db[l]
      {
        assert AfterCommits(db, done)[l] == AfterCommits(db, roster)[l];
      }
    }
  }

  /** Once every learner committed, no later run changes anything. */
  lemma {:induction false} LaterRunChangesNothing(db: Db, runs: seq<Attempted>, later: Attempted)
    requires AllValid(runs) && later.Valid()
    requires forall l :: l in later.learners ==> l in CommittedEver(runs)
    ensures AfterCommits(AfterRuns(db, runs), Committed(later.learners, later.fates)) == AfterRuns(db, runs)
  {
    RunsSettleTheCommitted(db, runs);
    CommittedAreLearners(later.learners, later.fates, SeenBy(later.fates));
    TwoRuns(db, CommittedEver(runs), Committed(later.learners, later.fates));
    assert CommittedEver(runs) + Committed(later.learners, later.fates) == CommittedEver(runs);
  }

  lemma {:induction false} CommittedAreLearners(learners: seq<Id>, fates: seq<Fate>, n: nat)
    requires n <= |fates| == |learners|
    ensures forall l :: l in CommittedIn(learners, fates, n) ==> l in learners[..n]
  {
    if n > 0 {
      CommittedAreLearners(learners, fates, n - 1);
    }
  }

  lemma {:induction false} NotCommittedYet(learners: seq<Id>, fates: seq<Fate>, n: nat)
    requires n < |fates| == |learners|
    requires forall i, j :: 0 <= i < j < |learners| ==> learners[i] != learners[j]
    ensures learners[n] !in CommittedIn(learners, fates, n)
  {
    CommittedAreLearners(learners, fates, n);
    assert forall i :: 0 <= i < n ==> learners[..n][i] != learners[n];
  }

  // ---- the run ----------------------------------------------------------------------------------------------

  /** The rows of one statement without ORDER BY: each once, in any order. */
  method ReadAttempts(attempts: set<Attempt>) returns (rows: seq<Attempt>)
    requires UniqueIds(attempts)
    ensures Distinct(rows) && ToSet(rows) == attempts
  {
    rows := [];
    var rest := attempts;
    while rest != {}
      invariant Distinct(rows) && rest <= attempts && ToSet(rows) == attempts - rest
      decreases |rest|
    {
      var a :| a in rest;
      forall i | 0 <= i < |rows|
        ensures rows[i].id != a.id
      {
        assert rows[i] in ToSet(rows);
      }
      assert ToSet(rows + [a]) == ToSet(rows) + {a};
      rows, rest := rows + [a], rest - {a};
    }
  }

  /** UPDATE ... WHERE id = ?, once per change. */
  method UpdateRows(rows: map<Id, Progress>, updates: seq<Update>) returns (after: map<Id, Progress>)
    ensures after == UpdatedRows(rows, updates)
  {
    after := rows;
    for i := 0 to |updates|
      invariant after == UpdatedRows(rows, updates[..i])
    {
      var u := updates[i];
      assert updates[..i + 1][..i] == updates[..i];
      after := map k | k in after :: if after[k].id == u.id then Progress(u.id, Some(u.points), Some(u.progress), u.completed) else after[k];
      IdsAreKept(rows, updates[..i]);
    }
    assert updates[..|updates|] == updates;
  }

  lemma {:induction false} UpdateKeepsId(row: Progress, updates: seq<Update>)
    ensures UpdatedRow(row, updates).id == row.id
  {
    if updates != [] {
      UpdateKeepsId(row, updates[..|updates| - 1]);
    }
  }

  lemma {:induction false} IdsAreKept(rows: map<Id, Progress>, updates: seq<Update>)
    ensures forall k :: k in rows ==> UpdatedRows(rows, updates)[k].id == rows[k].id
  {
    forall k | k in rows
      ensures UpdatedRow(rows[k], updates).id == rows[k].id
    {
      UpdateKeepsId(rows[k], updates);
    }
  }

  /** Writes one learner's plan: the zeroed attempts without a pass, then the lesson, level and grade rows. */
  method WritePlan(input: Input, plan: Plan) returns (after: Input)
    ensures after == Written(input, plan)
  {
    var ids := ToSet(plan.zeroRows);
    after := input.(attempts := set a | a in input.attempts :: if a.id in ids && !a.ispass then a.(points := Some(0)) else a);
    assert after.attempts == Written(input, plan).attempts;
    var lessonRows := UpdateRows(input.lessonRows, plan.lessonUpdates);
    var levelRows := UpdateRows(input.levelRows, plan.levelUpdates);
    var gradeRows := UpdateRows(input.gradeRows, plan.gradeUpdates);
    after := after.(lessonRows := lessonRows, levelRows := levelRows, gradeRows := gradeRows);
  }

  function AddCounts(a: Counts, b: Counts): Counts {
    Counts(a.quizzes + b.quizzes, a.withCountedPass + b.withCountedPass, a.withoutPass + b.withoutPass,
           a.leftOnlyUncountedPass + b.leftOnlyUncountedPass, a.leftContentMissing + b.leftContentMissing,
           a.leftUnusableTotal + b.leftUnusableTotal, a.attemptRowsToZero + b.attemptRowsToZero)
  }

  /** Every quiz seen is in one of the five outcomes. */
  predicate AccountsForQuizzes(c: Counts) {
    c.quizzes == c.withCountedPass + c.withoutPass + c.leftOnlyUncountedPass + c.leftContentMissing + c.leftUnusableTotal
  }

  /** The rows to zero of the learners whose transactions went through. */
  ghost function ZeroedUpTo(db: Db, learners: seq<Id>, fates: seq<Fate>, n: nat): nat
    requires n <= |fates| == |learners| && forall l :: l in learners ==> l in db
  {
    if n == 0 then 0
    else ZeroedUpTo(db, learners, fates, n - 1) + if fates[n - 1] == Commits then |Zeroed(db[learners[n - 1]])| else 0
  }

  lemma {:induction false} OneCommit(db: Db, learner: Id)
    requires learner in db
    ensures AfterCommits(db, {learner}) == db[learner := Settled(db[learner])] && db == db[learner := db[learner]]
  {
  }

  /** Reads, plans and, in a run that writes, writes one learner's rows. */
  method Settle(input: Input, apply: bool) returns (after: Input, counts: Counts)
    requires UniqueIds(input.attempts)
    ensures after == if apply then Settled(input) else input
    ensures AccountsForQuizzes(counts) && counts.attemptRowsToZero == |Zeroed(input)|
  {
    var rows := ReadAttempts(input.attempts);
    var plan := PlanLearner(rows, input);
    after, counts := input, plan.counts;
    WrittenIsSettled(input, plan);
    if IsEmptyPlan(plan) {
      EmptyPlanWritesNothing(input, plan);
    }
    if apply && !IsEmptyPlan(plan) {
      after := WritePlan(input, plan);
    }
  }

  class Recalculation {
    var db: Db
    var total: RunCounts

    constructor (db: Db)
      ensures this.db == db && total == RunCounts(Counts(0, 0, 0, 0, 0, 0, 0), 0, 0, 0)
    {
      this.db, total := db, RunCounts(Counts(0, 0, 0, 0, 0, 0, 0), 0, 0, 0);
    }

    /** One learner's transaction: committed whole, or rolled back and counted as failed. */
    method Learner(learner: Id, apply: bool, fate: Fate) returns (counts: Counts)
      requires learner in db && ValidDb(db)
      modifies `db
      ensures db == if apply && fate == Commits then AfterCommits(old(db), {learner}) else old(db)
      ensures AccountsForQuizzes(counts)
      ensures counts.attemptRowsToZero == if fate == Commits then |Zeroed(old(db)[learner])| else 0
    {
      var after, planned := Settle(db[learner], apply);
      if fate != Commits {
        return Counts(0, 0, 0, 0, 0, 0, 0);
      }
      OneCommit(db, learner);
      db := db[learner := after];
      counts := planned;
    }

    /**
     * The loop: whatever fails, exactly the learners whose transaction committed are settled,
     * the others are as they were, and seen and not reached add up to the roster.
     */
    method Run(learners: seq<Id>, apply: bool, fates: seq<Fate>) returns (exitCode: nat)
      requires |fates| == |learners| && ValidDb(db)
      requires forall l :: l in learners ==> l in db
      requires forall i, j :: 0 <= i < j < |learners| ==> learners[i] != learners[j]
      modifies this
      ensures db == if apply then AfterCommits(old(db), Committed(learners, fates)) else old(db)
      ensures Tallied(old(db), learners, fates, SeenBy(fates), total)
      ensures total.learners + total.notReached == |learners|
      ensures exitCode == if FailedIn(fates, SeenBy(fates)) > 0 then 2 else 0
    {
      total := RunCounts(Counts(0, 0, 0, 0, 0, 0, 0), 0, 0, 0);
      var lost := false;
      var index := 0;
      ghost var before := db;
      assert AfterCommits(before, {}) == before;
      while index < |learners| && !lost
        invariant 0 <= index <= |learners|
        invariant db == if apply then AfterCommits(before, CommittedIn(learners, fates, index)) else before
        invariant SeenBy(fates) == if lost then index else SeenFrom(fates, index)
        invariant Tallied(before, learners, fates, index, total)
        invariant total.notReached == if lost then |learners| - index else 0
        decreases |learners| - index
      {
        CommitOneMore(before, learners, fates, index);
        StaysValid(before, CommittedIn(learners, fates, index));
        var counts := Learner(learners[index], apply, fates[index]);
        lost := fates[index] == LosesConnection;
        total := TallyLearner(before, learners, fates, index, counts, total);
        index := index + 1;
      }
      exitCode := if total.failed > 0 then 2 else 0;
    }
  }

  /** The counters after the first `n` learners. */
  ghost predicate Tallied(db: Db, learners: seq<Id>, fates: seq<Fate>, n: nat, total: RunCounts)
    requires n <= |fates| == |learners| && forall l :: l in learners ==> l in db
  {
    && total.learners == n && total.failed == FailedIn(fates, n)
    && AccountsForQuizzes(total.plans) && total.plans.attemptRowsToZero == ZeroedUpTo(db, learners, fates, n)
  }

  method TallyLearner(ghost db: Db, learners: seq<Id>, fates: seq<Fate>, index: nat, counts: Counts, total: RunCounts)
    returns (next: RunCounts)
    requires index < |fates| == |learners| && forall l :: l in learners ==> l in db
    requires Tallied(db, learners, fates, index, total) && AccountsForQuizzes(counts)
    requires counts.attemptRowsToZero == if fates[index] == Commits then |Zeroed(db[learners[index]])| else 0
    ensures Tallied(db, learners, fates, index + 1, next)
    ensures next.notReached == total.notReached + if fates[index] == LosesConnection then |learners| - index - 1 else 0
  {
    next := RunCounts(AddCounts(total.plans, counts), total.learners + 1, total.failed + if fates[index] == Commits then 0 else 1,
                      total.notReached + if fates[index] == LosesConnection then |learners| - index - 1 else 0);
  }

  /** The next learner's rows are still as they were, and a commit of them is one more commit. */
  lemma {:induction false} CommitOneMore(db: Db, learners: seq<Id>, fates: seq<Fate>, n: nat)
    requires n < |fates| == |learners| && learners[n] in db
    requires forall i, j :: 0 <= i < j < |learners| ==> learners[i] != learners[j]
    ensures var after := AfterCommits(db, CommittedIn(learners, fates, n));
            && after[learners[n]] == db[learners[n]]
            && (if fates[n] == Commits then AfterCommits(after, {learners[n]}) else after)
              == AfterCommits(db, CommittedIn(learners, fates, n + 1))
  {
    NotCommittedYet(learners, fates, n);
    var done, learner := CommittedIn(learners, fates, n), learners[n];
    var after := AfterCommits(db, done);
    if fates[n] == Commits {
      assert CommittedIn(learners, fates, n + 1) == done + {learner};
      forall l | l in db
        ensures AfterCommits(after, {learner})[l] == AfterCommits(db, done + {learner})[l]
      {
        if l == learner {
          assert after[l] == db[l];
        }
      }
    }
  }

  lemma {:induction false} StaysValid(db: Db, done: set<Id>)
    requires ValidDb(db)
    ensures ValidDb(AfterCommits(db, done))
  {
    forall l | l in db
      ensures UniqueIds(AfterCommits(db, done)[l].attempts)
    {
      if l in done {
        SettledKeepsIds(db[l]);
      }
    }
  }
}
