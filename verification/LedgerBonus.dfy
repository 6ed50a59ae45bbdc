/**
 * When a star more is given: a lesson's the first time it is scored while full, a level's for the
 * first attempt at its quiz; and what every scoring adds to the three rows.
 */
module LedgerBonus {
  import opened ProgressRules
  import opened LedgerSpec
  import opened LedgerStars

  /** All points of the lesson as two decimals show them; a lesson worth nothing is full with any point. */
  predicate HoldsAll(points: nat, total: nat) {
    if total == 0 then points > 0 else 20000 * points >= 19999 * total
  }

  /** The lesson's row is there and full. */
  predicate FoundFull(c: Content, s: State, lesson: Id) {
    lesson in c.lessons && lesson in s.lessons && HoldsAll(s.lessons[lesson].points, c.lessons[lesson].total)
  }

  lemma {:induction false} FullIs(points: nat, total: nat)
    ensures IsFull(points, total) <==> HoldsAll(points, total)
  {
    if total > 0 {
      DivAtLeast(20000 * points + total, 2 * total, 10000);
    }
  }

  /** Up to 20000 points a lesson is full exactly when none is missing. */
  lemma {:induction false} FullMeansAllPoints(points: nat, total: nat)
    requires points <= total < 20000
    ensures IsFull(points, total) <==> points == total && total > 0
  {
    FullIs(points, total);
  }

  /** 19999 of 20000 points show as 100.00: the bonus is given a point early. */
  lemma {:induction false} FullAPointEarly()
    ensures IsFull(19999, 20000)
  {
    FullIs(19999, 20000);
  }

  lemma {:induction false} EarnsIs(c: Content, s: State, lesson: Id)
    ensures EarnsBonus(c, s, lesson) <==> FoundFull(c, s, lesson) && !s.lessons[lesson].bonus
  {
    if lesson in c.lessons && lesson in s.lessons {
      FullIs(s.lessons[lesson].points, c.lessons[lesson].total);
    }
  }

  // ---- one scoring -------------------------------------------------------------------------------------------------

  /** One lesson row, if it is there, gains stars and may get its bonus; nothing else of any changes. */
  predicate LessonGains(rows: map<Id, LessonRow>, after: map<Id, LessonRow>, lesson: Id, stars: nat, bonus: bool) {
    && after.Keys == rows.Keys
    && forall l :: l in rows ==>
         after[l] == if l == lesson then LessonRow(rows[l].points, rows[l].stars + stars, rows[l].bonus || bonus) else rows[l]
  }

  predicate LevelGains(rows: map<Id, LevelRow>, after: map<Id, LevelRow>, level: Id, stars: nat, bonus: bool) {
    && after.Keys == rows.Keys
    && forall v :: v in rows ==>
         after[v] == if v == level then LevelRow(rows[v].points, rows[v].stars + stars, rows[v].quizBonus || bonus) else rows[v]
  }

  predicate GradeGains(rows: map<Id, GradeRow>, after: map<Id, GradeRow>, grade: Id, stars: nat) {
    && after.Keys == rows.Keys
    && forall g :: g in rows ==> after[g] == if g == grade then GradeRow(rows[g].points, rows[g].stars + stars) else rows[g]
  }

  lemma {:induction false} LessonStarsAre(rows: map<Id, LessonRow>, lesson: Id, stars: nat, bonus: bool)
    ensures lesson in rows ==>
      LessonGains(rows, rows[lesson := rows[lesson].(stars := rows[lesson].stars + stars, bonus := rows[lesson].bonus || bonus)],
                  lesson, stars, bonus)
    ensures lesson !in rows ==> LessonGains(rows, rows, lesson, stars, bonus)
  {
  }

  lemma {:induction false} LevelStarsAre(rows: map<Id, LevelRow>, level: Id, stars: nat)
    ensures LevelGains(rows, if level in rows then rows[level := WithStars(rows[level], stars)] else rows, level, stars, false)
  {
  }

  lemma {:induction false} GradeStarsAre(rows: map<Id, GradeRow>, grade: Id, stars: nat)
    ensures GradeGains(rows, AddedToGrade(rows, grade, stars), grade, stars)
  {
  }

  lemma {:induction false} LessonStarsAdd(c: Content, s: State, lesson: Id, scores: nat, earned: bool)
    requires c.Valid() && lesson in c.lessons && earned == EarnsBonus(c, s, lesson)
    ensures var (t, level) := (AddLessonStars(c, s, lesson, scores), c.lessons[lesson].level);
            var stars := scores + if earned then 1 else 0;
            && t.attempts == s.attempts && t.viewings == s.viewings
            && LessonGains(s.lessons, t.lessons, lesson, stars, earned)
            && LevelGains(s.levels, t.levels, level, stars, false)
            && GradeGains(s.grades, t.grades, c.levels[level], stars)
  {
    var stars := scores + if earned then 1 else 0;
    LessonStarsAre(s.lessons, lesson, stars, earned);
    LevelStarsAre(s.levels, c.lessons[lesson].level, stars);
    GradeStarsAre(s.grades, c.levels[c.lessons[lesson].level], stars);
  }

  /**
   * Scoring an activity of a lesson adds its scores to the lesson, its level and its grade, and one star
   * more to each exactly when the lesson is found full and had no bonus yet; the lesson then has it.
   */
  lemma {:induction false} LessonScoringAdds(c: Content, s: State, activity: Id, scores: nat)
    requires c.Valid() && activity in c.activities
    ensures var (t, lesson) := (AddStars(c, s, activity, scores), c.activities[activity]);
            var earned := FoundFull(c, s, lesson) && !s.lessons[lesson].bonus;
            var stars := scores + if earned then 1 else 0;
            && t.attempts == s.attempts && t.viewings == s.viewings
            && LessonGains(s.lessons, t.lessons, lesson, stars, earned)
            && LevelGains(s.levels, t.levels, c.LevelOf(activity), stars, false)
            && GradeGains(s.grades, t.grades, c.GradeOf(activity), stars)
  {
    var lesson := c.activities[activity];
    EarnsIs(c, s, lesson);
    LessonStarsAdd(c, s, lesson, scores, FoundFull(c, s, lesson) && !s.lessons[lesson].bonus);
  }

  /** Scoring a level's quiz adds its scores to the level and its grade, and one star more to each the first time. */
  lemma {:induction false} QuizScoringAdds(c: Content, s: State, level: Id, scores: nat)
    requires c.Valid() && level in c.levels
    ensures var t := AddStars(c, s, level, scores);
            var stars := scores + if level in s.levels && !s.levels[level].quizBonus then 1 else 0;
            && t.attempts == s.attempts && t.viewings == s.viewings && t.lessons == s.lessons
            && LevelGains(s.levels, t.levels, level, stars, true)
            && GradeGains(s.grades, t.grades, c.levels[level], stars)
  {
    var stars := scores + if level in s.levels && !s.levels[level].quizBonus then 1 else 0;
    GradeStarsAre(s.grades, c.levels[level], stars);
  }

  // ---- over every run ----------------------------------------------------------------------------------------------

  /** The operation scores an activity of the lesson: a new attempt at one, or a learning item viewed to its end. */
  ghost predicate ScoresLesson(c: Content, s: State, op: Op, lesson: Id) {
    match op
    case Submit(sub) =>
      sub.activity in c.activities && c.activities[sub.activity] == lesson && !Passed(s.attempts, sub.activity) && sub.NaturalKey() !in s.attempts
    case View(item, _, ended) => ended && item in c.activities && c.activities[item] == lesson
  }

  /** The rows as the scoring of an operation finds them. */
  ghost function Found(c: Content, s: State, op: Op): State
    requires c.Valid() && Fits(c, op)
  {
    match op
    case Submit(sub) => Commit(c, s, sub, Read(s, sub))
    case View(item, points, ended) => ViewMoved(c, s, item, points, ended)
  }

  /** Some scoring of the run found the lesson full. */
  ghost predicate EverFull(c: Content, s: State, ops: seq<Op>, lesson: Id)
    requires c.Valid() && forall op :: op in ops ==> Fits(c, op)
  {
    FullBefore(c, s, ops, |ops|, lesson)
  }

  /** One of the first `n` operations did. */
  ghost predicate FullBefore(c: Content, s: State, ops: seq<Op>, n: nat, lesson: Id)
    requires c.Valid() && n <= |ops| && forall op :: op in ops ==> Fits(c, op)
  {
    exists k :: 0 <= k < n && FullAt(c, s, ops, k, lesson)
  }

  ghost predicate FullAt(c: Content, s: State, ops: seq<Op>, n: nat, lesson: Id)
    requires c.Valid() && n < |ops| && forall op :: op in ops ==> Fits(c, op)
  {
    var before := Run(c, s, ops[..n]);
    ScoresLesson(c, before, ops[n], lesson) && FoundFull(c, Found(c, before, ops[n]), lesson)
  }

  lemma {:induction false} RewardsKeepBonus(c: Content, s: State, stored: State, activity: Id, delta: int, t: State,
                                            lesson: Id)
    requires c.Valid() && c.Knows(activity) && stored.lessons == s.lessons
    requires t == stored || t == Reward(c, stored, activity, delta)
    ensures LessonBonus(t, lesson) == LessonBonus(s, lesson)
  {
    RewardKeepsStars(c, stored, activity, delta);
  }

  /** One operation gives the bonus exactly when it scores the lesson and finds it full. */
  lemma {:induction false} StepGivesBonus(c: Content, s: State, op: Op, lesson: Id)
    requires c.Valid() && Fits(c, op)
    ensures LessonBonus(Step(c, s, op), lesson) == 1
      <==> LessonBonus(s, lesson) == 1 || (ScoresLesson(c, s, op, lesson) && FoundFull(c, Found(c, s, op), lesson))
  {
    match op
    case Submit(sub) => SubmitGivesBonus(c, s, sub, lesson);
    case View(item, points, ended) => ViewGivesBonus(c, s, item, points, ended, lesson);
  }

  lemma {:induction false} SubmitGivesBonus(c: Content, s: State, sub: Submission, lesson: Id)
    requires c.Valid() && Fits(c, Submit(sub))
    ensures LessonBonus(Submitted(c, s, sub), lesson) == 1
      <==> LessonBonus(s, lesson) == 1 || (ScoresLesson(c, s, Submit(sub), lesson) && FoundFull(c, Found(c, s, Submit(sub)), lesson))
  {
    if Passed(s.attempts, sub.activity) {
      RepayGivesNoBonus(c, s, sub, lesson);
    } else if sub.NaturalKey() !in s.attempts {
      CommitGivesNoBonus(c, s, sub, Read(s, sub), lesson);
      ScoringGivesBonus(c, Commit(c, s, sub, Read(s, sub)), sub.activity, sub.scores, lesson);
    }
  }

  lemma {:induction false} RepayGivesNoBonus(c: Content, s: State, sub: Submission, lesson: Id)
    requires c.Valid() && c.Knows(sub.activity)
    ensures LessonBonus(Repay(c, s, sub), lesson) == LessonBonus(s, lesson)
  {
    var held := PointsAt(s.attempts, if sub.rule then FirstPass(s.attempts, sub.activity) else Newest(s.attempts, sub.activity));
    RewardsKeepBonus(c, s, PassPaid(s, sub.activity, sub.points), sub.activity, sub.points - held, Repay(c, s, sub), lesson);
  }

  lemma {:induction false} CommitGivesNoBonus(c: Content, s: State, sub: Submission, seen: Reads, lesson: Id)
    requires c.Valid() && c.Knows(sub.activity)
    ensures LessonBonus(Commit(c, s, sub, seen), lesson) == LessonBonus(s, lesson)
  {
    RewardsKeepBonus(c, s, Inserted(s, sub), sub.activity, sub.Earned() - Num(seen.held),
                     if sub.NaturalKey() in s.attempts then Inserted(s, sub) else Commit(c, s, sub, seen), lesson);
  }

  lemma {:induction false} ViewGivesBonus(c: Content, s: State, item: Id, points: nat, ended: bool, lesson: Id)
    requires c.Valid() && item in c.learnings
    ensures LessonBonus(Viewed(c, s, item, points, ended), lesson) == 1
      <==> LessonBonus(s, lesson) == 1
           || (ScoresLesson(c, s, View(item, points, ended), lesson) && FoundFull(c, Found(c, s, View(item, points, ended)), lesson))
  {
    var moved := ViewMoved(c, s, item, points, ended);
    var delta := ViewIsStoredOrMoved(c, s, item, points, ended);
    RewardsKeepBonus(c, s, ViewStored(s, item, points, ended), item, delta, moved, lesson);
    if ended {
      ScoringGivesBonus(c, moved, item, 0, lesson);
    }
  }

  lemma {:induction false} ScoringGivesBonus(c: Content, s: State, activity: Id, scores: nat, lesson: Id)
    requires c.Valid() && c.Knows(activity)
    ensures LessonBonus(AddStars(c, s, activity, scores), lesson) == 1
      <==> LessonBonus(s, lesson) == 1 || (activity in c.activities && c.activities[activity] == lesson && FoundFull(c, s, lesson))
  {
    if activity in c.activities {
      LessonScoringAdds(c, s, activity, scores);
    } else {
      QuizScoringAdds(c, s, activity, scores);
    }
  }

  lemma {:induction false} BonusOneMore(c: Content, s: State, ops: seq<Op>, n: nat, lesson: Id)
    requires c.Valid() && n < |ops| && forall op :: op in ops ==> Fits(c, op)
    ensures LessonBonus(Run(c, s, ops[..n + 1]), lesson) == 1
      <==> LessonBonus(Run(c, s, ops[..n]), lesson) == 1 || FullAt(c, s, ops, n, lesson)
  {
    var before := Run(c, s, ops[..n]);
    assert ops[..n + 1][..n] == ops[..n] && ops[..n + 1][n] == ops[n];
    assert Run(c, s, ops[..n + 1]) == Step(c, before, ops[n]);
    StepGivesBonus(c, before, ops[n], lesson);
  }

  lemma {:induction false} FullOneMore(c: Content, s: State, ops: seq<Op>, n: nat, lesson: Id)
    requires c.Valid() && n < |ops| && forall op :: op in ops ==> Fits(c, op)
    ensures FullBefore(c, s, ops, n + 1, lesson) <==> FullBefore(c, s, ops, n, lesson) || FullAt(c, s, ops, n, lesson)
  {
  }

  lemma {:induction false} BonusSoFar(c: Content, s: State, ops: seq<Op>, n: nat, lesson: Id)
    requires c.Valid() && n <= |ops| && forall op :: op in ops ==> Fits(c, op)
    ensures LessonBonus(Run(c, s, ops[..n]), lesson) == 1 <==> LessonBonus(s, lesson) == 1 || FullBefore(c, s, ops, n, lesson)
  {
    if n > 0 {
      BonusSoFar(c, s, ops, n - 1, lesson);
      BonusOneMore(c, s, ops, n - 1, lesson);
      FullOneMore(c, s, ops, n - 1, lesson);
    }
  }

  /** Over every run a lesson has its bonus exactly when it had it before or some scoring found it full. */
  lemma {:induction false} BonusExactlyWhenFull(c: Content, s: State, ops: seq<Op>, lesson: Id)
    requires c.Valid() && forall op :: op in ops ==> Fits(c, op)
    ensures LessonBonus(Run(c, s, ops), lesson) == 1 <==> LessonBonus(s, lesson) == 1 || EverFull(c, s, ops, lesson)
  {
    BonusSoFar(c, s, ops, |ops|, lesson);
    assert ops[..|ops|] == ops;
  }
}
