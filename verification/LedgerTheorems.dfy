/** The ledger balances: over every run, each row holds the sum of what is credited below it. */
module LedgerTheorems {
  import opened Wrappers
  import opened Sums
  import opened LedgerSpec

  // ---- what balance means ---------------------------------------------------------------------------------

  /** What an activity is credited with: its newest attempt's points, or its points when viewed. */
  ghost function Credit(s: State, activity: Id): nat {
    PointsAt(s.attempts, Newest(s.attempts, activity))
    + if activity in s.viewings && s.viewings[activity].viewed > 0 then s.viewings[activity].points else 0
  }

  ghost function Credits(s: State): Id -> int {
    (a: Id) => Credit(s, a)
  }

  function LessonPoints(s: State): Id -> int {
    (l: Id) => if l in s.lessons then s.lessons[l].points else 0
  }

  function LevelPoints(s: State): Id -> int {
    (v: Id) => if v in s.levels then s.levels[v].points else 0
  }

  function GradePoints(s: State): Id -> int {
    (g: Id) => if g in s.grades then s.grades[g].points else 0
  }

  function ActivitiesOf(c: Content, lesson: Id): set<Id> {
    set a | a in c.activities && c.activities[a] == lesson
  }

  function LessonsOf(c: Content, level: Id): set<Id> {
    set l | l in c.lessons && c.lessons[l].level == level
  }

  function LevelsOf(c: Content, grade: Id): set<Id> {
    set v | v in c.levels && c.levels[v] == grade
  }

  /** A lesson holds its activities' credits, a level its lessons' points and its quiz's credit, a grade its levels' points. */
  ghost predicate LessonBalances(c: Content, s: State, lesson: Id) {
    LessonPoints(s)(lesson) == Sum(Credits(s), ActivitiesOf(c, lesson))
  }

  ghost predicate LevelBalances(c: Content, s: State, level: Id) {
    LevelPoints(s)(level) == Sum(LessonPoints(s), LessonsOf(c, level)) + Credit(s, level)
  }

  ghost predicate GradeBalances(c: Content, s: State, grade: Id) {
    GradePoints(s)(grade) == Sum(LevelPoints(s), LevelsOf(c, grade))
  }

  ghost predicate Balanced(c: Content, s: State) {
    && (forall l :: LessonBalances(c, s, l))
    && (forall v :: v in c.levels ==> LevelBalances(c, s, v))
    && (forall g :: GradeBalances(c, s, g))
  }

  /** Every lesson's total covers what its activities can be worth together. */
  ghost predicate Covers(c: Content, worth: Id -> int) {
    forall l :: l in c.lessons ==> Sum(worth, ActivitiesOf(c, l)) <= c.lessons[l].total
  }

  ghost predicate Within(c: Content, s: State, worth: Id -> int) {
    forall a :: a in c.activities ==> Credit(s, a) <= worth(a)
  }

  // ---- one movement ------------------------------------------------------------------------------------------

  /** `t` has `s`'s rows with `delta` more on the activity's lesson, level and grade. */
  ghost predicate RowsMoved(c: Content, s: State, t: State, activity: Id, delta: int)
    requires c.Valid() && c.Knows(activity)
  {
    var (level, grade) := (c.LevelOf(activity), c.GradeOf(activity));
    && (forall l :: LessonPoints(t)(l) == LessonPoints(s)(l) + if activity in c.activities && l == c.activities[activity] then delta else 0)
    && (forall v :: LevelPoints(t)(v) == LevelPoints(s)(v) + if v == level then delta else 0)
    && (forall g :: GradePoints(t)(g) == GradePoints(s)(g) + if g == grade then delta else 0)
  }

  /** Of all credits, only the activity's differs, by `delta`. */
  ghost predicate CreditMoved(s: State, t: State, activity: Id, delta: int) {
    forall a :: Credit(t, a) == Credit(s, a) + if a == activity then delta else 0
  }

  ghost predicate Moved(c: Content, s: State, t: State, activity: Id, delta: int)
    requires c.Valid() && c.Knows(activity)
  {
    CreditMoved(s, t, activity, delta) && RowsMoved(c, s, t, activity, delta)
  }

  lemma {:induction false} MovedLesson(c: Content, s: State, t: State, activity: Id, delta: int, l: Id)
    requires c.Valid() && c.Knows(activity) && Moved(c, s, t, activity, delta) && LessonBalances(c, s, l)
    ensures LessonBalances(c, t, l)
  {
    forall a ensures Credits(t)(a) == Credits(s)(a) + if a == activity then delta else 0 {
      assert Credit(t, a) == Credit(s, a) + if a == activity then delta else 0;
    }
    SumChange(Credits(s), Credits(t), ActivitiesOf(c, l), activity);
  }

  lemma {:induction false} MovedLevel(c: Content, s: State, t: State, activity: Id, delta: int, v: Id)
    requires c.Valid() && c.Knows(activity) && Moved(c, s, t, activity, delta) && v in c.levels && LevelBalances(c, s, v)
    ensures LevelBalances(c, t, v)
  {
    if activity in c.activities {
      SumChange(LessonPoints(s), LessonPoints(t), LessonsOf(c, v), c.activities[activity]);
      assert v != activity;
    } else {
      SumSame(LessonPoints(s), LessonPoints(t), LessonsOf(c, v));
    }
  }

  lemma {:induction false} MovedGrade(c: Content, s: State, t: State, activity: Id, delta: int, g: Id)
    requires c.Valid() && c.Knows(activity) && Moved(c, s, t, activity, delta) && GradeBalances(c, s, g)
    ensures GradeBalances(c, t, g)
  {
    SumChange(LevelPoints(s), LevelPoints(t), LevelsOf(c, g), c.LevelOf(activity));
  }

  /** The deltas telescope through all three rows. */
  lemma {:induction false} MovedBalances(c: Content, s: State, t: State, activity: Id, delta: int)
    requires c.Valid() && c.Knows(activity) && Moved(c, s, t, activity, delta) && Balanced(c, s)
    ensures Balanced(c, t)
  {
    forall l ensures LessonBalances(c, t, l) {
      assert LessonBalances(c, s, l);
      MovedLesson(c, s, t, activity, delta, l);
    }
    forall v | v in c.levels ensures LevelBalances(c, t, v) {
      assert LevelBalances(c, s, v);
      MovedLevel(c, s, t, activity, delta, v);
    }
    forall g ensures GradeBalances(c, t, g) {
      assert GradeBalances(c, s, g);
      MovedGrade(c, s, t, activity, delta, g);
    }
  }

  // ---- a reward lands in full ------------------------------------------------------------------------------------

  lemma {:induction false} RewardMovesLesson(c: Content, s: State, activity: Id, delta: int)
    requires c.Valid() && activity in c.activities
    requires var (points, total) := (LessonPoints(s)(c.activities[activity]), c.lessons[c.activities[activity]].total);
             points <= total && 0 <= points + delta <= total
    ensures var (lesson, t) := (c.activities[activity], Reward(c, s, activity, delta));
            && Landed(s.lessons, lesson, delta, c.lessons[lesson].total) == delta
            && forall l :: LessonPoints(t)(l) == LessonPoints(s)(l) + if l == lesson then delta else 0
  {
  }

  lemma {:induction false} AddedIsSum(points: nat, delta: int)
    requires 0 <= points + delta
    ensures Added(points, delta) == points + delta && (points == 0 ==> Max(delta, 0) == delta)
  {
  }

  lemma {:induction false} RewardMovesRows(c: Content, s: State, activity: Id, delta: int)
    requires c.Valid() && c.Knows(activity)
    requires activity in c.activities ==>
      var (points, total) := (LessonPoints(s)(c.activities[activity]), c.lessons[c.activities[activity]].total);
      points <= total && 0 <= points + delta <= total
    requires 0 <= LevelPoints(s)(c.LevelOf(activity)) + delta && 0 <= GradePoints(s)(c.GradeOf(activity)) + delta
    ensures RowsMoved(c, s, Reward(c, s, activity, delta), activity, delta)
  {
    AddedIsSum(LevelPoints(s)(c.LevelOf(activity)), delta);
    AddedIsSum(GradePoints(s)(c.GradeOf(activity)), delta);
    if activity in c.activities {
      RewardMovesLesson(c, s, activity, delta);
    }
  }

  lemma {:induction false} SameCredit(s: State, t: State, activity: Id)
    requires s.attempts == t.attempts && s.viewings == t.viewings
    ensures Credit(s, activity) == Credit(t, activity)
  {
  }

  /** With the rows in balance nothing is clamped: no row goes below 0, and the lesson stays under its total. */
  lemma {:induction false} RewardLands(c: Content, s: State, stored: State, activity: Id, delta: int, worth: Id -> int)
    requires c.Valid() && c.Knows(activity) && Balanced(c, s) && Covers(c, worth) && Within(c, s, worth)
    requires stored.lessons == s.lessons && stored.levels == s.levels && stored.grades == s.grades
    requires 0 <= Credit(s, activity) + delta && (activity in c.activities ==> Credit(s, activity) + delta <= worth(activity))
    requires CreditMoved(s, stored, activity, delta)
    ensures Moved(c, s, Reward(c, stored, activity, delta), activity, delta)
  {
    var t := Reward(c, stored, activity, delta);
    RowsCarryCredit(c, s, activity);
    if activity in c.activities {
      LessonHasRoom(c, s, activity, delta, worth);
    }
    RewardMovesRows(c, stored, activity, delta);
    forall a ensures Credit(t, a) == Credit(stored, a) {
      SameCredit(stored, t, a);
    }
  }

  /** The level and the grade of an activity hold at least its credit, as does its lesson. */
  lemma {:induction false} RowsCarryCredit(c: Content, s: State, activity: Id)
    requires c.Valid() && c.Knows(activity) && Balanced(c, s)
    ensures activity in c.activities ==> LessonPoints(s)(c.activities[activity]) >= Credit(s, activity)
    ensures LevelPoints(s)(c.LevelOf(activity)) >= Credit(s, activity)
    ensures GradePoints(s)(c.GradeOf(activity)) >= Credit(s, activity)
  {
    var level, grade := c.LevelOf(activity), c.GradeOf(activity);
    assert LevelBalances(c, s, level) && GradeBalances(c, s, grade);
    SumNotNegative(LessonPoints(s), LessonsOf(c, level));
    if activity in c.activities {
      var lesson := c.activities[activity];
      assert LessonBalances(c, s, lesson);
      SumAtLeast(Credits(s), ActivitiesOf(c, lesson), activity);
      SumAtLeast(LessonPoints(s), LessonsOf(c, level), lesson);
      assert LessonPoints(s)(lesson) >= Credits(s)(activity);
    }
    SumAtLeast(LevelPoints(s), LevelsOf(c, grade), level);
  }

  lemma {:induction false} LessonHasRoom(c: Content, s: State, activity: Id, delta: int, worth: Id -> int)
    requires c.Valid() && activity in c.activities && Balanced(c, s) && Covers(c, worth) && Within(c, s, worth)
    requires Credit(s, activity) + delta <= worth(activity)
    ensures LessonPoints(s)(c.activities[activity]) + delta <= c.lessons[c.activities[activity]].total
    ensures LessonPoints(s)(c.activities[activity]) <= c.lessons[c.activities[activity]].total
  {
    var lesson := c.activities[activity];
    var of := ActivitiesOf(c, lesson);
    assert LessonBalances(c, s, lesson);
    var after := (a: Id) => if a == activity then Credit(s, a) + delta else Credit(s, a);
    SumChange(Credits(s), after, of, activity);
    SumMonotone(after, worth, of);
    SumMonotone(Credits(s), worth, of);
  }

  // ---- the newest attempt ------------------------------------------------------------------------------------------

  lemma {:induction false} NewestIs(attempts: map<Key, Attempt>, k: Key)
    requires IsNewest(attempts, k)
    ensures Newest(attempts, k.activity) == Some(k)
  {
  }

  predicate IsLatest(keys: set<Key>, k: Key) {
    k in keys && forall j :: j in keys ==> j.start <= k.start
  }

  lemma {:induction false} SomeIsLatest(keys: set<Key>) returns (k: Key)
    requires keys != {}
    ensures IsLatest(keys, k)
    decreases |keys|
  {
    var x :| x in keys;
    var rest := keys - {x};
    assert forall j :: j in keys ==> j in rest || j == x;
    k := x;
    if rest != {} {
      var m := SomeIsLatest(rest);
      if m.start > x.start {
        k := m;
      }
    }
  }

  lemma {:induction false} TriedHasNewest(attempts: map<Key, Attempt>, activity: Id)
    ensures Tried(attempts, activity) <==> Newest(attempts, activity).Some?
    ensures Newest(attempts, activity).Some? ==>
      IsNewest(attempts, Newest(attempts, activity).value) && Newest(attempts, activity).value.activity == activity
  {
    if Tried(attempts, activity) {
      var x :| x in attempts && x.activity == activity;
      var tries := set k | k in attempts && k.activity == activity;
      assert x in tries;
      var k := SomeIsLatest(tries);
      assert IsNewest(attempts, k) && k.activity == activity;
    }
  }

  /** The newest attempt of one activity does not depend on the rows of another. */
  lemma {:induction false} NewestElsewhere(before: map<Key, Attempt>, after: map<Key, Attempt>, activity: Id)
    requires forall k: Key :: k.activity == activity ==> (k in before <==> k in after)
    ensures Newest(before, activity) == Newest(after, activity)
  {
    TriedHasNewest(before, activity);
    TriedHasNewest(after, activity);
    if Newest(before, activity).Some? {
      var k := Newest(before, activity).value;
      assert IsNewest(after, k);
      NewestIs(after, k);
    }
  }
}
