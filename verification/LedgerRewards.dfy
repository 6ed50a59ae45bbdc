/**
 * What a reward moves from any rows, in balance or not, and what an attempt earns: the clamps of the
 * lesson, what passes up, failed attempts under the pass rule, and what a passed activity's row holds.
 */
module LedgerRewards {
  import opened Wrappers
  import opened LedgerSpec
  import opened LedgerTheorems
  import opened LedgerRuns
  import opened LedgerStars
  import opened RepeatedDelivery

  /** The learner has the rows above an activity of a lesson. */
  ghost predicate HasAll(c: Content, s: State, activity: Id)
    requires c.Valid() && activity in c.activities
  {
    c.activities[activity] in s.lessons && c.LevelOf(activity) in s.levels && c.GradeOf(activity) in s.grades
  }

  /** How far a lesson, its level and its grade moved. */
  ghost function LessonMove(c: Content, s: State, t: State, activity: Id): int
    requires c.Valid() && activity in c.activities
  {
    LessonPoints(t)(c.activities[activity]) - LessonPoints(s)(c.activities[activity])
  }

  ghost function LevelMove(c: Content, s: State, t: State, activity: Id): int
    requires c.Valid() && c.Knows(activity)
  {
    LevelPoints(t)(c.LevelOf(activity)) - LevelPoints(s)(c.LevelOf(activity))
  }

  ghost function GradeMove(c: Content, s: State, t: State, activity: Id): int
    requires c.Valid() && c.Knows(activity)
  {
    GradePoints(t)(c.GradeOf(activity)) - GradePoints(s)(c.GradeOf(activity))
  }

  /**
   * What a lesson earns: it goes up by the whole amount or to its total, whichever is less, and its
   * level and grade go up by as much as it did.
   */
  lemma {:induction false} EarningPassesUp(c: Content, s: State, activity: Id, amount: nat)
    requires c.Valid() && activity in c.activities && HasAll(c, s, activity)
    requires LessonPoints(s)(c.activities[activity]) <= c.lessons[c.activities[activity]].total
    ensures var (t, total) := (Reward(c, s, activity, amount), c.lessons[c.activities[activity]].total);
            var moved := LessonMove(c, s, t, activity);
            && 0 <= moved <= amount && LessonPoints(t)(c.activities[activity]) <= total
            && (moved == amount || LessonPoints(t)(c.activities[activity]) == total)
            && LevelMove(c, s, t, activity) == moved == GradeMove(c, s, t, activity)
  {
  }

  /**
   * What is taken back: all of it from each row that holds as much, and nothing from one that does not;
   * the lesson, the level and the grade decide on their own.
   */
  lemma {:induction false} TakingBack(c: Content, s: State, activity: Id, amount: nat)
    requires c.Valid() && activity in c.activities && HasAll(c, s, activity) && amount > 0
    requires LessonPoints(s)(c.activities[activity]) <= c.lessons[c.activities[activity]].total
    ensures var t := Reward(c, s, activity, 0 - amount);
            && LessonMove(c, s, t, activity) == (if LessonPoints(s)(c.activities[activity]) >= amount then 0 - amount else 0)
            && LevelMove(c, s, t, activity) == (if LevelPoints(s)(c.LevelOf(activity)) >= amount then 0 - amount else 0)
            && GradeMove(c, s, t, activity) == (if GradePoints(s)(c.GradeOf(activity)) >= amount then 0 - amount else 0)
  {
  }

  /** A level's quiz moves its level and grade by the whole amount, and no lesson. */
  lemma {:induction false} QuizPassesUp(c: Content, s: State, level: Id, amount: int)
    requires c.Valid() && level in c.levels && level in s.levels && c.levels[level] in s.grades
    ensures var t := Reward(c, s, level, amount);
            && t.lessons == s.lessons
            && LevelMove(c, s, t, level) == (if LevelPoints(s)(level) + amount >= 0 then amount else 0)
            && GradeMove(c, s, t, level) == (if GradePoints(s)(c.levels[level]) + amount >= 0 then amount else 0)
  {
  }

  // ---- what an attempt earns ---------------------------------------------------------------------------------------

  /** A new attempt: not a repeat, and not after a pass. */
  ghost predicate IsNewAttempt(s: State, sub: Submission) {
    sub.NaturalKey() !in s.attempts && forall k :: k in s.attempts && k.activity == sub.activity ==> !s.attempts[k].counted
  }

  lemma {:induction false} NewIsNotPassed(s: State, sub: Submission)
    requires IsNewAttempt(s, sub)
    ensures !Passed(s.attempts, sub.activity)
  {
  }

  /** The row of a new attempt holds the activity's points, and none when the pass rule is on and it failed. */
  lemma {:induction false} AttemptHolds(c: Content, s: State, sub: Submission)
    requires c.Valid() && c.Knows(sub.activity) && IsNewAttempt(s, sub)
    ensures Submitted(c, s, sub).attempts
      == s.attempts[sub.NaturalKey() := Attempt(if sub.rule && !sub.ispass then 0 else sub.points, sub.scores, sub.counted)]
  {
    NewIsNotPassed(s, sub);
    CommitKeepsStars(c, s, sub, Read(s, sub));
    StarsKeepAttempts(c, Commit(c, s, sub, Read(s, sub)), sub);
  }

  lemma {:induction false} StarsKeepAttempts(c: Content, s: State, sub: Submission)
    requires c.Valid() && c.Knows(sub.activity)
    ensures var t := AddStars(c, s, sub.activity, sub.scores);
            t.attempts == s.attempts && SamePointsAt(s, t)
  {
    StarsKeepRows(c, s, sub.activity, sub.scores);
    RewardKeepsAttempts(c, s, sub.activity, 0, sub.scores);
  }

  /** Every row holds the points it held. */
  ghost predicate SamePointsAt(s: State, t: State) {
    && (forall l :: LessonPoints(t)(l) == LessonPoints(s)(l))
    && (forall v :: LevelPoints(t)(v) == LevelPoints(s)(v))
    && (forall g :: GradePoints(t)(g) == GradePoints(s)(g))
  }

  lemma {:induction false} SamePointsThen(s: State, t: State, u: State)
    requires SamePointsAt(s, t) && SamePointsAt(t, u)
    ensures SamePointsAt(s, u)
  {
  }

  /** Under the pass rule a failed attempt that started before another one moves no points at all. */
  lemma {:induction false} LateFailureMovesNothing(c: Content, s: State, sub: Submission, later: Key)
    requires c.Valid() && c.Knows(sub.activity) && IsNewAttempt(s, sub) && sub.rule && !sub.ispass
    requires later in s.attempts && later.activity == sub.activity && later.start > sub.start
    ensures SamePointsAt(s, Submitted(c, s, sub))
  {
    NewIsNotPassed(s, sub);
    var seen, stored := Read(s, sub), Commit(c, s, sub, Read(s, sub));
    assert Tried(s.attempts, sub.activity);
    TriedHasNewest(s.attempts, sub.activity);
    assert seen.newest.Some? && seen.newest.value >= later.start;
    assert stored == Inserted(s, sub);
    StarsKeepAttempts(c, stored, sub);
    SamePointsThen(s, stored, AddStars(c, stored, sub.activity, sub.scores));
  }

  /** A failed attempt under the pass rule raises no lesson's points, whenever it started. */
  lemma {:induction false} FailureEarnsNothing(c: Content, s: State, sub: Submission, lesson: Id)
    requires c.Valid() && sub.activity in c.activities && IsNewAttempt(s, sub) && sub.rule && !sub.ispass
    ensures LessonPoints(Submitted(c, s, sub))(lesson) <= LessonPoints(s)(lesson)
  {
    NewIsNotPassed(s, sub);
    var seen, stored := Read(s, sub), Commit(c, s, sub, Read(s, sub));
    StarsKeepAttempts(c, stored, sub);
    NothingRises(c, Inserted(s, sub), sub.activity, 0 - Num(seen.held), lesson);
  }

  lemma {:induction false} NothingRises(c: Content, s: State, activity: Id, delta: int, lesson: Id)
    requires c.Valid() && activity in c.activities && delta <= 0
    ensures LessonPoints(Reward(c, s, activity, delta))(lesson) <= LessonPoints(s)(lesson)
  {
  }

  lemma {:induction false} PaidRowHolds(s: State, activity: Id, points: nat)
    requires Passed(s.attempts, activity)
    ensures var (first, t) := (FirstPass(s.attempts, activity), PassPaid(s, activity, points).attempts);
            && first.Some? && t.Keys == s.attempts.Keys
            && forall k :: k in s.attempts ==> t[k] == if first == Some(k) then s.attempts[k].(points := points) else s.attempts[k]
  {
    PassedHasFirst(s.attempts, activity);
  }

  /** After a request for a passed activity its first pass holds the current points, and no attempt came or went. */
  lemma {:induction false} PassHoldsCurrentPoints(c: Content, s: State, sub: Submission)
    requires c.Valid() && c.Knows(sub.activity) && Passed(s.attempts, sub.activity)
    ensures var (first, t) := (FirstPass(s.attempts, sub.activity), Submitted(c, s, sub).attempts);
            && first.Some? && t.Keys == s.attempts.Keys
            && forall k :: k in s.attempts ==> t[k] == if first == Some(k) then s.attempts[k].(points := sub.points) else s.attempts[k]
  {
    PaidRowHolds(s, sub.activity, sub.points);
    RepayKeepsAttempts(c, s, sub);
  }

  lemma {:induction false} RepayKeepsAttempts(c: Content, s: State, sub: Submission)
    requires c.Valid() && c.Knows(sub.activity)
    ensures Repay(c, s, sub).attempts == PassPaid(s, sub.activity, sub.points).attempts
  {
    var held := PointsAt(s.attempts, if sub.rule then FirstPass(s.attempts, sub.activity) else Newest(s.attempts, sub.activity));
    RewardKeepsAttempts(c, PassPaid(s, sub.activity, sub.points), sub.activity, sub.points - held, 0);
  }

  /** A repeat of a stored attempt changes nothing at all. */
  lemma {:induction false} RepeatedAttemptChangesNothing(c: Content, s: State, sub: Submission)
    requires c.Valid() && c.Knows(sub.activity) && sub.NaturalKey() in s.attempts && !Passed(s.attempts, sub.activity)
    ensures Submitted(c, s, sub) == s
  {
  }
}
