/**
 * Stars are added exactly once: over every run, in any order and with any repeats, the stars of
 * a row are the scores of the attempt rows below it and the bonuses given, each once.
 */
module LedgerStars {
  import opened Wrappers
  import opened Sums
  import opened LedgerSpec
  import opened LedgerTheorems

  function Scores(attempts: map<Key, Attempt>): Key -> int {
    (k: Key) => if k in attempts then attempts[k].scores else 0
  }

  /** The attempts at the activities of a lesson, and at a level's quiz. */
  function AttemptsIn(c: Content, attempts: map<Key, Attempt>, lesson: Id): set<Key> {
    set k | k in attempts && k.activity in c.activities && c.activities[k.activity] == lesson
  }

  function AttemptsAt(c: Content, attempts: map<Key, Attempt>, level: Id): set<Key> {
    set k | k in attempts && k.activity !in c.activities && k.activity == level
  }

  function LessonStars(s: State): Id -> int {
    (l: Id) => if l in s.lessons then s.lessons[l].stars else 0
  }

  function LevelStars(s: State): Id -> int {
    (v: Id) => if v in s.levels then s.levels[v].stars else 0
  }

  function GradeStars(s: State): Id -> int {
    (g: Id) => if g in s.grades then s.grades[g].stars else 0
  }

  function LessonBonus(s: State, lesson: Id): nat {
    if lesson in s.lessons && s.lessons[lesson].bonus then 1 else 0
  }

  function QuizBonus(s: State, level: Id): nat {
    if level in s.levels && s.levels[level].quizBonus then 1 else 0
  }

  /** What a lesson's attempt rows give that its stars do not hold yet. */
  ghost function LessonOwed(c: Content, s: State, lesson: Id): int {
    Sum(Scores(s.attempts), AttemptsIn(c, s.attempts, lesson)) + LessonBonus(s, lesson) - LessonStars(s)(lesson)
  }

  /** The same for a level's own quiz; the stars of its lessons are the level's too. */
  ghost function LevelOwed(c: Content, s: State, level: Id): int {
    Sum(Scores(s.attempts), AttemptsAt(c, s.attempts, level)) + QuizBonus(s, level)
    + Sum(LessonStars(s), LessonsOf(c, level)) - LevelStars(s)(level)
  }

  ghost predicate GradesHoldLevels(c: Content, s: State) {
    forall g :: GradeStars(s)(g) == Sum(LevelStars(s), LevelsOf(c, g))
  }

  ghost predicate HasRows(c: Content, s: State, activity: Id)
    requires c.Valid() && c.Knows(activity)
  {
    c.LevelOf(activity) in s.levels && (activity in c.activities ==> c.activities[activity] in s.lessons)
  }

  /** A stored row's level and grade rows are stored, and so are all rows above an attempt. */
  ghost predicate RowsAreThere(c: Content, s: State)
    requires c.Valid()
  {
    && (forall l :: l in s.lessons ==> l in c.lessons && c.lessons[l].level in s.levels)
    && (forall v :: v in s.levels ==> v in c.levels && c.levels[v] in s.grades)
    && (forall k :: k in s.attempts ==> c.Knows(k.activity) && HasRows(c, s, k.activity))
  }

  ghost predicate LessonsOwe(c: Content, s: State, owed: Id -> int) {
    forall l :: LessonOwed(c, s, l) == owed(l)
  }

  ghost predicate LevelsOwe(c: Content, s: State, owed: Id -> int) {
    forall v :: v in c.levels ==> LevelOwed(c, s, v) == owed(v)
  }

  /** What is still owed: `lessons(l)` to the lesson `l`, `levels(v)` to the quiz of the level `v`. */
  ghost predicate Owes(c: Content, s: State, lessons: Id -> int, levels: Id -> int)
    requires c.Valid()
  {
    RowsAreThere(c, s) && LessonsOwe(c, s, lessons) && LevelsOwe(c, s, levels) && GradesHoldLevels(c, s)
  }

  /** `f` with `n` more at `k`. */
  function With(f: Id -> int, k: Id, n: int): Id -> int {
    (x: Id) => f(x) + if x == k then n else 0
  }

  function OwedLessons(c: Content, f: Id -> int, activity: Id, n: int): Id -> int {
    if activity in c.activities then With(f, c.activities[activity], n) else f
  }

  function OwedLevels(c: Content, f: Id -> int, activity: Id, n: int): Id -> int {
    if activity in c.activities then f else With(f, activity, n)
  }

  // ---- a transaction owes the new row's scores -------------------------------------------------------------

  /** `t` has `s`'s stars and bonuses: a row that was not there has none. */
  ghost predicate SameStars(s: State, t: State) {
    && (forall l :: LessonStars(t)(l) == LessonStars(s)(l) && LessonBonus(t, l) == LessonBonus(s, l))
    && (forall v :: LevelStars(t)(v) == LevelStars(s)(v) && QuizBonus(t, v) == QuizBonus(s, v))
    && (forall g :: GradeStars(t)(g) == GradeStars(s)(g))
  }

  lemma {:induction false} LessonRewardKeepsStars(c: Content, s: State, lesson: Id, delta: int)
    requires c.Valid() && lesson in c.lessons
    ensures SameStars(s, LessonReward(c, s, lesson, delta))
  {
  }

  lemma {:induction false} LevelRewardKeepsStars(c: Content, s: State, level: Id, delta: int)
    requires level in c.levels
    ensures SameStars(s, LevelReward(c, s, level, delta))
  {
  }

  lemma {:induction false} RewardKeepsStars(c: Content, s: State, activity: Id, delta: int)
    requires c.Valid() && c.Knows(activity)
    ensures SameStars(s, Reward(c, s, activity, delta))
  {
    if activity in c.activities {
      LessonRewardKeepsStars(c, s, c.activities[activity], delta);
    } else {
      LevelRewardKeepsStars(c, s, activity, delta);
    }
  }

  lemma {:induction false} RewardStoresRows(c: Content, s: State, activity: Id, delta: int)
    requires c.Valid() && c.Knows(activity)
    ensures var t := Reward(c, s, activity, delta);
            && t.attempts == s.attempts
            && c.LevelOf(activity) in t.levels && c.GradeOf(activity) in t.grades
            && (activity in c.activities ==> c.activities[activity] in t.lessons)
            && s.lessons.Keys <= t.lessons.Keys && s.levels.Keys <= t.levels.Keys && s.grades.Keys <= t.grades.Keys
            && (forall l :: l in t.lessons ==> l in s.lessons || (activity in c.activities && l == c.activities[activity]))
            && (forall v :: v in t.levels ==> v in s.levels || v == c.LevelOf(activity))
  {
  }

  lemma {:induction false} SameStarsOwe(c: Content, s: State, t: State)
    requires SameStars(s, t) && s.attempts == t.attempts
    ensures forall l :: LessonOwed(c, t, l) == LessonOwed(c, s, l)
    ensures forall v :: LevelOwed(c, t, v) == LevelOwed(c, s, v)
    ensures GradesHoldLevels(c, s) ==> GradesHoldLevels(c, t)
  {
    forall v ensures LevelOwed(c, t, v) == LevelOwed(c, s, v) {
      SumSame(LessonStars(s), LessonStars(t), LessonsOf(c, v));
    }
    if GradesHoldLevels(c, s) {
      forall g ensures GradeStars(t)(g) == Sum(LevelStars(t), LevelsOf(c, g)) {
        assert GradeStars(s)(g) == Sum(LevelStars(s), LevelsOf(c, g));
        SumSame(LevelStars(s), LevelStars(t), LevelsOf(c, g));
      }
    }
  }

  lemma {:induction false} InsertedOwesLesson(c: Content, s: State, sub: Submission, l: Id)
    requires c.Valid() && c.Knows(sub.activity) && sub.NaturalKey() !in s.attempts
    ensures LessonOwed(c, Inserted(s, sub), l)
      == LessonOwed(c, s, l) + if sub.activity in c.activities && l == c.activities[sub.activity] then sub.scores else 0
  {
    var k, before, after := sub.NaturalKey(), s.attempts, Inserted(s, sub).attempts;
    SumSame(Scores(before), Scores(after), AttemptsIn(c, before, l));
    if sub.activity in c.activities && l == c.activities[sub.activity] {
      assert AttemptsIn(c, after, l) == AttemptsIn(c, before, l) + {k};
      SumGrow(Scores(after), AttemptsIn(c, before, l), k);
    } else {
      assert AttemptsIn(c, after, l) == AttemptsIn(c, before, l);
    }
  }

  lemma {:induction false} InsertedOwesLevel(c: Content, s: State, sub: Submission, v: Id)
    requires c.Valid() && c.Knows(sub.activity) && sub.NaturalKey() !in s.attempts
    ensures LevelOwed(c, Inserted(s, sub), v)
      == LevelOwed(c, s, v) + if sub.activity !in c.activities && v == sub.activity then sub.scores else 0
  {
    var k, before, after := sub.NaturalKey(), s.attempts, Inserted(s, sub).attempts;
    SumSame(Scores(before), Scores(after), AttemptsAt(c, before, v));
    SumSame(LessonStars(s), LessonStars(Inserted(s, sub)), LessonsOf(c, v));
    if sub.activity !in c.activities && v == sub.activity {
      assert AttemptsAt(c, after, v) == AttemptsAt(c, before, v) + {k};
      SumGrow(Scores(after), AttemptsAt(c, before, v), k);
    } else {
      assert AttemptsAt(c, after, v) == AttemptsAt(c, before, v);
    }
  }

  /** An earlier snapshot of attempts: what it found is still there. */
  ghost predicate Plausible(s: State, sub: Submission, seen: Reads) {
    seen.tried || seen.newest.Some? ==> Tried(s.attempts, sub.activity)
  }

  lemma {:induction false} CommitStoresRows(c: Content, s: State, sub: Submission, seen: Reads)
    requires c.Valid() && c.Knows(sub.activity) && RowsAreThere(c, s)
    requires sub.NaturalKey() !in s.attempts && Plausible(s, sub, seen)
    ensures RowsAreThere(c, Commit(c, s, sub, seen)) && HasRows(c, Commit(c, s, sub, seen), sub.activity)
  {
    if Moves(sub, seen) {
      RewardStoresRows(c, Inserted(s, sub), sub.activity, sub.Earned() - Num(seen.held));
    } else {
      var k :| k in s.attempts && k.activity == sub.activity;
      assert HasRows(c, s, k.activity);
    }
  }

  lemma {:induction false} InsertedOwes(c: Content, s: State, t: State, sub: Submission, lessons: Id -> int, levels: Id -> int)
    requires c.Valid() && c.Knows(sub.activity) && Owes(c, s, lessons, levels) && sub.NaturalKey() !in s.attempts
    requires RowsAreThere(c, t) && SameStars(Inserted(s, sub), t) && t.attempts == Inserted(s, sub).attempts
    ensures Owes(c, t, OwedLessons(c, lessons, sub.activity, sub.scores), OwedLevels(c, levels, sub.activity, sub.scores))
  {
    var stored := Inserted(s, sub);
    InsertedHoldsLevels(c, s, sub);
    SameStarsOwe(c, stored, t);
    forall l ensures LessonOwed(c, t, l) == OwedLessons(c, lessons, sub.activity, sub.scores)(l) {
      InsertedOwesLesson(c, s, sub, l);
    }
    forall v | v in c.levels ensures LevelOwed(c, t, v) == OwedLevels(c, levels, sub.activity, sub.scores)(v) {
      InsertedOwesLevel(c, s, sub, v);
    }
  }

  lemma {:induction false} InsertedHoldsLevels(c: Content, s: State, sub: Submission)
    requires GradesHoldLevels(c, s)
    ensures GradesHoldLevels(c, Inserted(s, sub))
  {
    var stored := Inserted(s, sub);
    forall g ensures GradeStars(stored)(g) == Sum(LevelStars(stored), LevelsOf(c, g)) {
      assert GradeStars(s)(g) == Sum(LevelStars(s), LevelsOf(c, g));
      SumSame(LevelStars(s), LevelStars(stored), LevelsOf(c, g));
    }
  }

  lemma {:induction false} CommitKeepsStars(c: Content, s: State, sub: Submission, seen: Reads)
    requires c.Valid() && c.Knows(sub.activity) && sub.NaturalKey() !in s.attempts
    ensures SameStars(Inserted(s, sub), Commit(c, s, sub, seen)) && Commit(c, s, sub, seen).attempts == Inserted(s, sub).attempts
  {
    var stored, delta := Inserted(s, sub), sub.Earned() - Num(seen.held);
    assert Commit(c, s, sub, seen) == if Moves(sub, seen) then Reward(c, stored, sub.activity, delta) else stored;
    RewardKeepsStars(c, stored, sub.activity, delta);
    RewardStoresRows(c, stored, sub.activity, delta);
  }

  /** Whatever the transaction read before, a row it creates owes its scores once. */
  lemma {:induction false} CommitOwes(c: Content, s: State, sub: Submission, seen: Reads, lessons: Id -> int,
                                      levels: Id -> int)
    requires c.Valid() && c.Knows(sub.activity) && Owes(c, s, lessons, levels)
    requires sub.NaturalKey() !in s.attempts && Plausible(s, sub, seen)
    ensures Owes(c, Commit(c, s, sub, seen), OwedLessons(c, lessons, sub.activity, sub.scores), OwedLevels(c, levels, sub.activity, sub.scores))
  {
    CommitStoresRows(c, s, sub, seen);
    CommitKeepsStars(c, s, sub, seen);
    InsertedOwes(c, s, Commit(c, s, sub, seen), sub, lessons, levels);
  }

  // ---- scoring pays it ---------------------------------------------------------------------------------------------

  function Less(f: Id -> int, k: Id, n: int): Id -> int {
    (x: Id) => f(x) - if x == k then n else 0
  }

  function PaidLessons(c: Content, f: Id -> int, activity: Id, n: int): Id -> int {
    if activity in c.activities then Less(f, c.activities[activity], n) else f
  }

  function PaidLevels(c: Content, f: Id -> int, activity: Id, n: int): Id -> int {
    if activity in c.activities then f else Less(f, activity, n)
  }

  ghost predicate LessonsGain(s: State, t: State, lesson: Id, stars: int) {
    forall l :: LessonStars(t)(l) == With(LessonStars(s), lesson, stars)(l)
  }

  ghost predicate LevelsGain(s: State, t: State, level: Id, stars: int) {
    forall v :: LevelStars(t)(v) == With(LevelStars(s), level, stars)(v)
  }

  ghost predicate GradesGain(s: State, t: State, grade: Id, stars: int) {
    forall g :: GradeStars(t)(g) == With(GradeStars(s), grade, stars)(g)
  }

  ghost predicate BonusGiven(s: State, t: State, lesson: Id, bonus: nat) {
    forall l :: LessonBonus(t, l) == LessonBonus(s, l) + if l == lesson then bonus else 0
  }

  function BonusOf(c: Content, s: State, lesson: Id): nat {
    if EarnsBonus(c, s, lesson) then 1 else 0
  }

  lemma {:induction false} LessonStarsGain(c: Content, s: State, lesson: Id, scores: nat)
    requires c.Valid() && lesson in c.lessons && RowsAreThere(c, s) && (lesson in s.lessons || scores == 0)
    ensures LessonsGain(s, AddLessonStars(c, s, lesson, scores), lesson, scores + BonusOf(c, s, lesson))
    ensures BonusGiven(s, AddLessonStars(c, s, lesson, scores), lesson, BonusOf(c, s, lesson))
  {
  }

  lemma {:induction false} LessonStarsGainAbove(c: Content, s: State, lesson: Id, scores: nat)
    requires c.Valid() && lesson in c.lessons && RowsAreThere(c, s) && (lesson in s.lessons || scores == 0)
    ensures var (t, level) := (AddLessonStars(c, s, lesson, scores), c.lessons[lesson].level);
            && LevelsGain(s, t, level, scores + BonusOf(c, s, lesson))
            && GradesGain(s, t, c.levels[level], scores + BonusOf(c, s, lesson))
            && SameQuizBonuses(s, t)
  {
  }

  lemma {:induction false} LevelStarsGain(c: Content, s: State, level: Id, scores: nat)
    requires c.Valid() && level in c.levels && RowsAreThere(c, s) && level in s.levels
    ensures var (t, bonus) := (AddLevelStars(c, s, level, scores), 1 - QuizBonus(s, level));
            && LevelsGain(s, t, level, scores + bonus)
            && GradesGain(s, t, c.levels[level], scores + bonus)
            && (forall v :: QuizBonus(t, v) == QuizBonus(s, v) + if v == level then bonus else 0)
  {
  }

  lemma {:induction false} StarsKeepTheRows(c: Content, s: State, activity: Id, scores: nat)
    requires c.Valid() && c.Knows(activity) && RowsAreThere(c, s)
    ensures var t := AddStars(c, s, activity, scores);
            && t.attempts == s.attempts && t.lessons.Keys == s.lessons.Keys && t.levels.Keys == s.levels.Keys
            && t.grades.Keys == s.grades.Keys && RowsAreThere(c, t)
  {
    var t := AddStars(c, s, activity, scores);
    assert t.lessons.Keys == s.lessons.Keys && t.levels.Keys == s.levels.Keys && t.grades.Keys == s.grades.Keys;
    forall k | k in t.attempts ensures c.Knows(k.activity) && HasRows(c, t, k.activity) {
      assert HasRows(c, s, k.activity);
    }
  }

  /** The grade rows change as the level rows below them do. */
  lemma {:induction false} GradesFollowLevels(c: Content, s: State, t: State, level: Id, stars: int)
    requires level in c.levels && GradesHoldLevels(c, s)
    requires LevelsGain(s, t, level, stars) && GradesGain(s, t, c.levels[level], stars)
    ensures GradesHoldLevels(c, t)
  {
    forall g ensures GradeStars(t)(g) == Sum(LevelStars(t), LevelsOf(c, g)) {
      assert GradeStars(s)(g) == Sum(LevelStars(s), LevelsOf(c, g));
      assert GradeStars(t)(g) == With(GradeStars(s), c.levels[level], stars)(g);
      forall v ensures LevelStars(t)(v) == LevelStars(s)(v) + if v == level then stars else 0 {
        assert LevelStars(t)(v) == With(LevelStars(s), level, stars)(v);
      }
      SumChange(LevelStars(s), LevelStars(t), LevelsOf(c, g), level);
    }
  }

  lemma {:induction false} LessonOwesLess(c: Content, s: State, t: State, lesson: Id, scores: nat, bonus: nat, l: Id)
    requires s.attempts == t.attempts && LessonsGain(s, t, lesson, scores + bonus) && BonusGiven(s, t, lesson, bonus)
    ensures LessonOwed(c, t, l) == LessonOwed(c, s, l) - if l == lesson then scores else 0
  {
    assert LessonStars(t)(l) == With(LessonStars(s), lesson, scores + bonus)(l);
  }

  lemma {:induction false} LevelOwesLess(c: Content, s: State, t: State, level: Id, scores: nat, v: Id)
    requires s.attempts == t.attempts && s.lessons == t.lessons && LevelsGain(s, t, level, scores + 1 - QuizBonus(s, level))
    requires QuizBonus(t, v) == QuizBonus(s, v) + if v == level then 1 - QuizBonus(s, level) else 0
    ensures LevelOwed(c, t, v) == LevelOwed(c, s, v) - if v == level then scores else 0
  {
    SumSame(LessonStars(s), LessonStars(t), LessonsOf(c, v));
    assert LevelStars(t)(v) == With(LevelStars(s), level, scores + 1 - QuizBonus(s, level))(v);
  }

  lemma {:induction false} LevelOwesTheSame(c: Content, s: State, t: State, lesson: Id, stars: int, v: Id)
    requires lesson in c.lessons && s.attempts == t.attempts && QuizBonus(t, v) == QuizBonus(s, v)
    requires LessonsGain(s, t, lesson, stars) && LevelsGain(s, t, c.lessons[lesson].level, stars)
    ensures LevelOwed(c, t, v) == LevelOwed(c, s, v)
  {
    assert LevelStars(t)(v) == With(LevelStars(s), c.lessons[lesson].level, stars)(v);
    forall l ensures LessonStars(t)(l) == LessonStars(s)(l) + if l == lesson then stars else 0 {
      assert LessonStars(t)(l) == With(LessonStars(s), lesson, stars)(l);
    }
    SumChange(LessonStars(s), LessonStars(t), LessonsOf(c, v), lesson);
  }

  ghost predicate SameQuizBonuses(s: State, t: State) {
    forall v :: QuizBonus(t, v) == QuizBonus(s, v)
  }

  lemma {:induction false} LessonsOweLess(c: Content, s: State, t: State, lesson: Id, scores: nat, bonus: nat,
                                          owed: Id -> int)
    requires LessonsOwe(c, s, owed) && t.attempts == s.attempts
    requires LessonsGain(s, t, lesson, scores + bonus) && BonusGiven(s, t, lesson, bonus)
    ensures LessonsOwe(c, t, Less(owed, lesson, scores))
  {
    forall l ensures LessonOwed(c, t, l) == Less(owed, lesson, scores)(l) {
      LessonOwesLess(c, s, t, lesson, scores, bonus, l);
    }
  }

  lemma {:induction false} LevelsOweTheSame(c: Content, s: State, t: State, lesson: Id, stars: int, owed: Id -> int)
    requires lesson in c.lessons && LevelsOwe(c, s, owed) && t.attempts == s.attempts && SameQuizBonuses(s, t)
    requires LessonsGain(s, t, lesson, stars) && LevelsGain(s, t, c.lessons[lesson].level, stars)
    ensures LevelsOwe(c, t, owed)
  {
    forall v | v in c.levels ensures LevelOwed(c, t, v) == owed(v) {
      LevelOwesTheSame(c, s, t, lesson, stars, v);
    }
  }

  lemma {:induction false} LessonGainPays(c: Content, s: State, t: State, lesson: Id, scores: nat, bonus: nat,
                                          lessons: Id -> int, levels: Id -> int)
    requires c.Valid() && lesson in c.lessons && t.attempts == s.attempts
    requires LessonsOwe(c, s, lessons) && LevelsOwe(c, s, levels) && GradesHoldLevels(c, s)
    requires LessonsGain(s, t, lesson, scores + bonus) && BonusGiven(s, t, lesson, bonus) && SameQuizBonuses(s, t)
    requires LevelsGain(s, t, c.lessons[lesson].level, scores + bonus)
    requires GradesGain(s, t, c.levels[c.lessons[lesson].level], scores + bonus)
    ensures LessonsOwe(c, t, Less(lessons, lesson, scores)) && LevelsOwe(c, t, levels) && GradesHoldLevels(c, t)
  {
    GradesFollowLevels(c, s, t, c.lessons[lesson].level, scores + bonus);
    LessonsOweLess(c, s, t, lesson, scores, bonus, lessons);
    LevelsOweTheSame(c, s, t, lesson, scores + bonus, levels);
  }

  lemma {:induction false} LessonPays(c: Content, s: State, activity: Id, scores: nat, lessons: Id -> int, levels: Id -> int)
    requires c.Valid() && activity in c.activities && Owes(c, s, lessons, levels) && (HasRows(c, s, activity) || scores == 0)
    ensures Owes(c, AddStars(c, s, activity, scores), Less(lessons, c.activities[activity], scores), levels)
  {
    var lesson := c.activities[activity];
    LessonStarsGain(c, s, lesson, scores);
    LessonStarsGainAbove(c, s, lesson, scores);
    StarsKeepTheRows(c, s, activity, scores);
    LessonGainPays(c, s, AddStars(c, s, activity, scores), lesson, scores, BonusOf(c, s, lesson), lessons, levels);
  }

  lemma {:induction false} LevelPays(c: Content, s: State, level: Id, scores: nat, lessons: Id -> int, levels: Id -> int)
    requires c.Valid() && level in c.levels && Owes(c, s, lessons, levels) && level in s.levels
    ensures Owes(c, AddStars(c, s, level, scores), lessons, Less(levels, level, scores))
  {
    var t, stars := AddStars(c, s, level, scores), scores + 1 - QuizBonus(s, level);
    LevelStarsGain(c, s, level, scores);
    StarsKeepTheRows(c, s, level, scores);
    GradesFollowLevels(c, s, t, level, stars);
    forall l ensures LessonOwed(c, t, l) == lessons(l) {
      assert LessonOwed(c, s, l) == lessons(l);
    }
    forall v | v in c.levels ensures LevelOwed(c, t, v) == Less(levels, level, scores)(v) {
      LevelOwesLess(c, s, t, level, scores, v);
    }
  }

  lemma {:induction false} StarsPay(c: Content, s: State, activity: Id, scores: nat, lessons: Id -> int, levels: Id -> int)
    requires c.Valid() && c.Knows(activity) && Owes(c, s, lessons, levels) && HasRows(c, s, activity)
    ensures Owes(c, AddStars(c, s, activity, scores), PaidLessons(c, lessons, activity, scores), PaidLevels(c, levels, activity, scores))
  {
    if activity in c.activities {
      LessonPays(c, s, activity, scores, lessons, levels);
    } else {
      LevelPays(c, s, activity, scores, lessons, levels);
    }
  }

  // ---- sequential runs -----------------------------------------------------------------------------------------

  function Nothing(): Id -> int {
    (x: Id) => 0
  }

  /** Nothing is owed: every row's stars are the scores and bonuses below it, each once. */
  ghost predicate StarsExact(c: Content, s: State)
    requires c.Valid()
  {
    Owes(c, s, Nothing(), Nothing())
  }

  lemma {:induction false} OwesSame(c: Content, s: State, lessons: Id -> int, levels: Id -> int, lessons': Id -> int,
                                    levels': Id -> int)
    requires c.Valid() && Owes(c, s, lessons, levels)
    requires (forall l :: lessons(l) == lessons'(l)) && (forall v :: levels(v) == levels'(v))
    ensures Owes(c, s, lessons', levels')
  {
    forall l ensures LessonOwed(c, s, l) == lessons'(l) {
      assert LessonOwed(c, s, l) == lessons(l);
    }
    forall v | v in c.levels ensures LevelOwed(c, s, v) == levels'(v) {
      assert LevelOwed(c, s, v) == levels(v);
    }
  }

  ghost predicate SameScores(before: map<Key, Attempt>, after: map<Key, Attempt>) {
    before.Keys == after.Keys && forall k :: k in before ==> after[k].scores == before[k].scores
  }

  /** Changing what rows hold, and not their scores, changes nothing that is owed, whether points move for it or not. */
  lemma {:induction false} RewardedOwesTheSame(c: Content, s: State, stored: State, activity: Id, delta: int, t: State,
                                               lessons: Id -> int, levels: Id -> int)
    requires c.Valid() && c.Knows(activity) && Owes(c, s, lessons, levels) && SameScores(s.attempts, stored.attempts)
    requires stored.lessons == s.lessons && stored.levels == s.levels && stored.grades == s.grades
    requires t == stored || t == Reward(c, stored, activity, delta)
    ensures Owes(c, t, lessons, levels)
  {
    StoredOwesTheSame(c, s, stored, lessons, levels);
    RewardOwesTheSame(c, stored, activity, delta, lessons, levels);
  }

  lemma {:induction false} StoredOwesTheSame(c: Content, s: State, stored: State, lessons: Id -> int, levels: Id -> int)
    requires c.Valid() && Owes(c, s, lessons, levels) && SameScores(s.attempts, stored.attempts)
    requires stored.lessons == s.lessons && stored.levels == s.levels && stored.grades == s.grades
    ensures Owes(c, stored, lessons, levels)
  {
    forall l ensures LessonOwed(c, stored, l) == lessons(l) {
      assert LessonOwed(c, s, l) == lessons(l);
      assert AttemptsIn(c, stored.attempts, l) == AttemptsIn(c, s.attempts, l);
      SumSame(Scores(s.attempts), Scores(stored.attempts), AttemptsIn(c, s.attempts, l));
    }
    forall v | v in c.levels ensures LevelOwed(c, stored, v) == levels(v) {
      assert LevelOwed(c, s, v) == levels(v);
      assert AttemptsAt(c, stored.attempts, v) == AttemptsAt(c, s.attempts, v);
      SumSame(Scores(s.attempts), Scores(stored.attempts), AttemptsAt(c, s.attempts, v));
      SumSame(LessonStars(s), LessonStars(stored), LessonsOf(c, v));
    }
    HoldsLevelsStill(c, s, stored);
    forall k | k in stored.attempts ensures c.Knows(k.activity) && HasRows(c, stored, k.activity) {
      assert k in s.attempts && HasRows(c, s, k.activity);
    }
  }

  lemma {:induction false} HoldsLevelsStill(c: Content, s: State, t: State)
    requires GradesHoldLevels(c, s) && t.levels == s.levels && t.grades == s.grades
    ensures GradesHoldLevels(c, t)
  {
    forall g ensures GradeStars(t)(g) == Sum(LevelStars(t), LevelsOf(c, g)) {
      assert GradeStars(s)(g) == Sum(LevelStars(s), LevelsOf(c, g));
      SumSame(LevelStars(s), LevelStars(t), LevelsOf(c, g));
    }
  }

  lemma {:induction false} RewardOwesTheSame(c: Content, s: State, activity: Id, delta: int, lessons: Id -> int,
                                             levels: Id -> int)
    requires c.Valid() && c.Knows(activity) && Owes(c, s, lessons, levels)
    ensures Owes(c, Reward(c, s, activity, delta), lessons, levels)
  {
    var t := Reward(c, s, activity, delta);
    RewardKeepsStars(c, s, activity, delta);
    RewardStoresRows(c, s, activity, delta);
    SameStarsOwe(c, s, t);
    forall l ensures LessonOwed(c, t, l) == lessons(l) {
      assert LessonOwed(c, s, l) == lessons(l);
    }
    forall v | v in c.levels ensures LevelOwed(c, t, v) == levels(v) {
      assert LevelOwed(c, s, v) == levels(v);
    }
    RewardKeepsRows(c, s, activity, delta);
  }

  lemma {:induction false} RewardKeepsRows(c: Content, s: State, activity: Id, delta: int)
    requires c.Valid() && c.Knows(activity) && RowsAreThere(c, s)
    ensures RowsAreThere(c, Reward(c, s, activity, delta))
  {
    var t := Reward(c, s, activity, delta);
    RewardStoresRows(c, s, activity, delta);
    forall k | k in t.attempts ensures c.Knows(k.activity) && HasRows(c, t, k.activity) {
      assert HasRows(c, s, k.activity);
    }
  }

  /** A created row's scores are owed, then paid. */
  lemma {:induction false} CreatedStars(c: Content, s: State, sub: Submission, seen: Reads)
    requires c.Valid() && c.Knows(sub.activity) && StarsExact(c, s)
    requires sub.NaturalKey() !in s.attempts && Plausible(s, sub, seen)
    ensures StarsExact(c, AddStars(c, Commit(c, s, sub, seen), sub.activity, sub.scores))
  {
    CommitStoresRows(c, s, sub, seen);
    CommitOwes(c, s, sub, seen, Nothing(), Nothing());
    OwedIsPaid(c, Commit(c, s, sub, seen), sub.activity, sub.scores);
  }

  lemma {:induction false} OwedThenPaid(c: Content, activity: Id, scores: nat)
    ensures forall l :: PaidLessons(c, OwedLessons(c, Nothing(), activity, scores), activity, scores)(l) == Nothing()(l)
    ensures forall v :: PaidLevels(c, OwedLevels(c, Nothing(), activity, scores), activity, scores)(v) == Nothing()(v)
  {
  }

  lemma {:induction false} OwedIsPaid(c: Content, t: State, activity: Id, scores: nat)
    requires c.Valid() && c.Knows(activity) && HasRows(c, t, activity)
    requires Owes(c, t, OwedLessons(c, Nothing(), activity, scores), OwedLevels(c, Nothing(), activity, scores))
    ensures StarsExact(c, AddStars(c, t, activity, scores))
  {
    var lessons, levels := OwedLessons(c, Nothing(), activity, scores), OwedLevels(c, Nothing(), activity, scores);
    StarsPay(c, t, activity, scores, lessons, levels);
    OwedThenPaid(c, activity, scores);
    NothingIsOwed(c, AddStars(c, t, activity, scores), PaidLessons(c, lessons, activity, scores), PaidLevels(c, levels, activity, scores));
  }

  lemma {:induction false} NothingIsOwed(c: Content, s: State, lessons: Id -> int, levels: Id -> int)
    requires c.Valid() && Owes(c, s, lessons, levels)
    requires (forall l :: lessons(l) == Nothing()(l)) && (forall v :: levels(v) == Nothing()(v))
    ensures StarsExact(c, s)
  {
    OwesSame(c, s, lessons, levels, Nothing(), Nothing());
  }

  lemma {:induction false} SubmittedStars(c: Content, s: State, sub: Submission)
    requires c.Valid() && Fits(c, Submit(sub)) && StarsExact(c, s)
    ensures StarsExact(c, Submitted(c, s, sub))
  {
    if Passed(s.attempts, sub.activity) {
      RepaidStars(c, s, sub);
    } else if sub.NaturalKey() !in s.attempts {
      ReadIsPlausible(s, sub);
      CreatedStars(c, s, sub, Read(s, sub));
    }
  }

  lemma {:induction false} ReadIsPlausible(s: State, sub: Submission)
    ensures Plausible(s, sub, Read(s, sub))
  {
    TriedHasNewest(s.attempts, sub.activity);
  }

  lemma {:induction false} PassPaidScores(s: State, activity: Id, points: nat)
    ensures SameScores(s.attempts, PassPaid(s, activity, points).attempts)
  {
  }

  lemma {:induction false} RepaidStars(c: Content, s: State, sub: Submission)
    requires c.Valid() && Fits(c, Submit(sub)) && StarsExact(c, s)
    ensures StarsExact(c, Repay(c, s, sub))
  {
    var held := PointsAt(s.attempts, if sub.rule then FirstPass(s.attempts, sub.activity) else Newest(s.attempts, sub.activity));
    var paid := PassPaid(s, sub.activity, sub.points);
    PassPaidScores(s, sub.activity, sub.points);
    RewardedOwesTheSame(c, s, paid, sub.activity, sub.points - held, Repay(c, s, sub), Nothing(), Nothing());
  }

  lemma {:induction false} ViewIsStoredOrMoved(c: Content, s: State, item: Id, points: nat, ended: bool) returns (delta: int)
    requires c.Valid() && item in c.activities
    ensures var (t, stored) := (ViewMoved(c, s, item, points, ended), ViewStored(s, item, points, ended));
            t == stored || t == Reward(c, stored, item, delta)
  {
    var (before, stored) := (ViewingOf(s, item), ViewStored(s, item, points, ended));
    var held := if item in s.viewings && stored.viewings[item].viewed > 0 then OldPoints(before.points, points) else None;
    delta := points - Num(held);
  }

  lemma {:induction false} ViewMovedStars(c: Content, s: State, item: Id, points: nat, ended: bool)
    requires c.Valid() && item in c.activities && StarsExact(c, s)
    ensures StarsExact(c, ViewMoved(c, s, item, points, ended))
  {
    var delta := ViewIsStoredOrMoved(c, s, item, points, ended);
    RewardedOwesTheSame(c, s, ViewStored(s, item, points, ended), item, delta, ViewMoved(c, s, item, points, ended), Nothing(), Nothing());
  }

  lemma {:induction false} ViewedStars(c: Content, s: State, item: Id, points: nat, ended: bool)
    requires c.Valid() && item in c.activities && StarsExact(c, s)
    ensures StarsExact(c, Viewed(c, s, item, points, ended))
  {
    ViewMovedStars(c, s, item, points, ended);
    var moved := ViewMoved(c, s, item, points, ended);
    LessonPays(c, moved, item, 0, Nothing(), Nothing());
    OwesSame(c, AddStars(c, moved, item, 0), Less(Nothing(), c.activities[item], 0), Nothing(), Nothing(), Nothing());
  }

  /** Exactly once, over every run: in any order, with any repeats, every star is accounted for by one row. */
  lemma {:induction false} RunStarsAreExact(c: Content, s: State, ops: seq<Op>)
    requires c.Valid() && StarsExact(c, s) && forall op :: op in ops ==> Fits(c, op)
    ensures StarsExact(c, Run(c, s, ops))
  {
    if ops != [] {
      var before, last := Run(c, s, ops[..|ops| - 1]), ops[|ops| - 1];
      RunStarsAreExact(c, s, ops[..|ops| - 1]);
      assert Fits(c, last);
      match last
      case Submit(sub) => SubmittedStars(c, before, sub);
      case View(item, points, ended) => ViewedStars(c, before, item, points, ended);
    }
  }
}
