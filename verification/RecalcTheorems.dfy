/** What the planner promises: a second run does nothing, and exactly what a lesson lost comes off. */
module RecalcTheorems {
  import opened Wrappers
  import opened SortedIds
  import opened ProgressRules
  import opened RecalcPlan

  // ---- writing a plan ---------------------------------------------------------------------------------

  function ZeroPoints(a: Attempt, ids: set<Id>): Attempt {
    if a.id in ids && !a.ispass then a.(points := Some(0)) else a
  }

  function UpdatedRow(row: Progress, updates: seq<Update>): Progress {
    if updates == [] then row
    else
      var before, u := UpdatedRow(row, updates[..|updates| - 1]), updates[|updates| - 1];
      if u.id == row.id then Progress(row.id, Some(u.points), Some(u.progress), u.completed) else before
  }

  function UpdatedRows(rows: map<Id, Progress>, updates: seq<Update>): map<Id, Progress> {
    map k | k in rows :: UpdatedRow(rows[k], updates)
  }

  /** The learner's rows after a plan is written. */
  ghost function Written(input: Input, plan: Plan): Input {
    input.(
      attempts := set a | a in input.attempts :: ZeroPoints(a, ToSet(plan.zeroRows)),
      lessonRows := UpdatedRows(input.lessonRows, plan.lessonUpdates),
      levelRows := UpdatedRows(input.levelRows, plan.levelUpdates),
      gradeRows := UpdatedRows(input.gradeRows, plan.gradeUpdates))
  }

  predicate IsEmptyPlan(plan: Plan) {
    plan.zeroRows == [] && plan.lessonUpdates == [] && plan.levelUpdates == [] && plan.gradeUpdates == []
  }

  // ---- a second run does nothing --------------------------------------------------------------------------

  /** A row of a quiz after the write is a row before it, with the same pass. */
  lemma {:induction false} RowBefore(input: Input, plan: Plan, quiz: Id, after: Attempt) returns (before: Attempt)
    requires after in AttemptsAt(Written(input, plan).attempts, quiz)
    ensures before in AttemptsAt(input.attempts, quiz) && after == ZeroPoints(before, ToSet(plan.zeroRows))
  {
    before :| before in input.attempts && after == ZeroPoints(before, ToSet(plan.zeroRows));
  }

  lemma {:induction false} RowAfter(input: Input, plan: Plan, quiz: Id, before: Attempt)
    requires before in AttemptsAt(input.attempts, quiz)
    ensures ZeroPoints(before, ToSet(plan.zeroRows)) in AttemptsAt(Written(input, plan).attempts, quiz)
  {
  }

  ghost predicate AnyCounted(input: Input, quiz: Id) {
    exists a :: a in AttemptsAt(input.attempts, quiz) && IsCounted(a, input.needsVerified)
  }

  ghost predicate AnyPass(input: Input, quiz: Id) {
    exists a :: a in AttemptsAt(input.attempts, quiz) && a.ispass
  }

  /** Writing a plan changes no quiz's outcome: passes are never touched. */
  lemma {:induction false} OutcomeIsKept(input: Input, plan: Plan, quiz: Id)
    ensures OutcomeOf(Written(input, plan), quiz) == OutcomeOf(input, quiz)
  {
    var after := Written(input, plan);
    if a :| a in AttemptsAt(input.attempts, quiz) && IsCounted(a, input.needsVerified) {
      RowAfter(input, plan, quiz, a);
    }
    if a :| a in AttemptsAt(input.attempts, quiz) && a.ispass {
      RowAfter(input, plan, quiz, a);
    }
    if a :| a in AttemptsAt(after.attempts, quiz) && IsCounted(a, input.needsVerified) {
      var b := RowBefore(input, plan, quiz, a);
    }
    if a :| a in AttemptsAt(after.attempts, quiz) && a.ispass {
      var b := RowBefore(input, plan, quiz, a);
    }
    assert AnyCounted(after, quiz) == AnyCounted(input, quiz);
    assert AnyPass(after, quiz) == AnyPass(input, quiz);
  }

  /** After the write no failed attempt of a planned quiz holds points. */
  lemma {:induction false} NothingIsHeld(input: Input, plan: Plan, quiz: Id)
    requires IsPlanOf(input, plan) && quiz in QuizIds(input)
    requires OutcomeOf(input, quiz) in {CountedPass, NoPass}
    ensures Holding(AttemptsAt(Written(input, plan).attempts, quiz)) == {}
  {
    var after := Written(input, plan);
    forall a | a in AttemptsAt(after.attempts, quiz) && !a.ispass
      ensures Num(a.points) == 0
    {
      var b := RowBefore(input, plan, quiz, a);
      if Num(b.points) != 0 {
        SortedHasEach(QuizIds(input));
        assert b in ZeroedFor(input, quiz);
        assert b in Zeroed(input);
      }
    }
  }

  lemma {:induction false} NoPassHasNoPass(input: Input, quiz: Id, a: Attempt)
    requires OutcomeOf(input, quiz) == NoPass && a in AttemptsAt(input.attempts, quiz)
    ensures !a.ispass
  {
  }

  lemma {:induction false} NothingMoreComesOff(input: Input, plan: Plan, quiz: Id, lesson: Id)
    requires IsPlanOf(input, plan)
    ensures HeldFor(Written(input, plan), quiz, lesson) == 0 && ZeroedFor(Written(input, plan), quiz) == {}
  {
    var after := Written(input, plan);
    OutcomeIsKept(input, plan, quiz);
    var rows := AttemptsAt(after.attempts, quiz);
    if rows != {} {
      var a :| a in rows;
      var b := RowBefore(input, plan, quiz, a);
      assert quiz in QuizIds(input);
      if OutcomeOf(input, quiz) in {CountedPass, NoPass} {
        NothingIsHeld(input, plan, quiz);
      }
      forall n | OutcomeOf(after, quiz) == NoPass && IsNewest(rows, n)
        ensures Num(n.points) == 0
      {
        NoPassHasNoPass(after, quiz, n);
        assert n !in Holding(rows);
      }
    }
  }

  lemma {:induction false} NothingMoreIn(input: Input, plan: Plan, quizzes: seq<Id>, lesson: Id)
    requires IsPlanOf(input, plan)
    ensures HeldIn(Written(input, plan), quizzes, lesson) == 0
  {
    if quizzes != [] {
      NothingMoreIn(input, plan, quizzes[..|quizzes| - 1], lesson);
      NothingMoreComesOff(input, plan, quizzes[|quizzes| - 1], lesson);
    }
  }

  lemma {:induction false} EmptySetOfNothing(ids: seq<Id>)
    ensures ToSet(ids) == {} <==> ids == []
  {
    if |ids| > 0 {
      assert ids[0] in ToSet(ids);
    }
  }

  /** Idempotence, for every input: planning again after a plan was written plans nothing. */
  lemma {:induction false} SecondPlanIsEmpty(input: Input, plan: Plan, second: Plan)
    requires IsPlanOf(input, plan) && IsPlanOf(Written(input, plan), second)
    ensures IsEmptyPlan(second)
  {
    var after := Written(input, plan);
    forall q
      ensures ZeroedFor(after, q) == {}
    {
      NothingMoreComesOff(input, plan, q, q);
    }
    forall l
      ensures Held(after, l) == 0
    {
      NothingMoreIn(input, plan, Sorted(QuizIds(after)), l);
    }
    assert Lessons(after) == {} && Levels(after) == {} && Grades(after) == {};
    assert Zeroed(after) == {};
    EmptySetOfNothing(second.zeroRows);
  }

  /** No row with a pass is ever set to 0. */
  lemma {:induction false} PassesAreNeverZeroed(input: Input, plan: Plan, a: Attempt)
    requires IsPlanOf(input, plan) && UniqueIds(input.attempts)
    requires a in input.attempts && a.id in ToSet(plan.zeroRows)
    ensures !a.ispass && Num(a.points) != 0 && !(OutcomeOf(input, a.quiz) in {OnlyUncountedPass, ContentMissing, UnusableTotal})
  {
    var b :| b in Zeroed(input) && b.id == a.id;
    var q :| q in Sorted(QuizIds(input)) && b in ZeroedFor(input, q);
  }

  // ---- exactly what the lesson lost comes off ----------------------------------------------------------------

  function Most(a: int, b: int): int {
    if a > b then a else b
  }

  /** A lesson ends at what is left of it, or at what its other parts add up to, whichever is more. */
  lemma {:induction false} LessonEndsAt(input: Input, lesson: Id)
    requires lesson in input.lessonRows
    ensures var stored := Num(input.lessonRows[lesson].points);
            LessonNext(input, lesson) == Most(stored - Held(input, lesson), Least2(stored, Rest(input, lesson)))
  {
  }

  /**
   * Exactness: a lesson that held its other parts and the failed credit, as far as they fitted
   * under its total, ends at its other parts as far as they fit.
   */
  lemma {:induction false} LessonEndsExactly(input: Input, lesson: Id, total: nat)
    requires lesson in input.lessonRows
    requires Num(input.lessonRows[lesson].points) == Least2(total, Rest(input, lesson) + Held(input, lesson))
    ensures LessonNext(input, lesson) == Least2(total, Rest(input, lesson))
  {
  }

  /** Nothing goes below 0, and nothing goes up. */
  lemma {:induction false} LessonOnlyGoesDown(input: Input, lesson: Id)
    requires lesson in input.lessonRows
    ensures LessonNext(input, lesson) <= Num(input.lessonRows[lesson].points)
    ensures Reduction(input, lesson) <= Held(input, lesson)
  {
  }

  /** What the learner's row of a lesson loses. */
  ghost function LessonLoss(input: Input, lesson: Id): nat {
    if lesson in input.lessonRows then Num(input.lessonRows[lesson].points) - LessonNext(input, lesson) else 0
  }

  ghost function LossIn(input: Input, lessons: seq<Id>, level: Id): nat {
    if lessons == [] then 0
    else
      var l := lessons[|lessons| - 1];
      LossIn(input, lessons[..|lessons| - 1], level)
      + if l in input.lessons && input.lessons[l].level == level then LessonLoss(input, l) else 0
  }

  ghost predicate RowMissing(input: Input, lessons: seq<Id>, level: Id) {
    exists l :: l in lessons && l in input.lessons && input.lessons[l].level == level && l !in input.lessonRows
  }

  /**
   * A level loses what its lessons lost, exactly when the learner has a row for each of the
   * lessons something comes off; for a lesson without a row the level loses the whole credit.
   */
  lemma {:induction false} LevelLosesWhatLessonsLost(input: Input, lessons: seq<Id>, level: Id)
    requires forall l :: l in lessons ==> Held(input, l) > 0
    ensures LevelLoss(input, lessons, level) >= LossIn(input, lessons, level)
    ensures LevelLoss(input, lessons, level) == LossIn(input, lessons, level) <==> !RowMissing(input, lessons, level)
  {
    if lessons != [] {
      var before, last := lessons[..|lessons| - 1], lessons[|lessons| - 1];
      assert lessons == before + [last];
      LevelLosesWhatLessonsLost(input, before, level);
      if RowMissing(input, before, level) {
        var l :| l in before && l in input.lessons && input.lessons[l].level == level && l !in input.lessonRows;
        assert l in lessons;
      }
    }
  }

  /** The losses of the levels of one grade. */
  ghost function LevelLosses(input: Input, lessons: seq<Id>, levels: seq<Id>, grade: Id): nat {
    if levels == [] then 0
    else
      var v := levels[|levels| - 1];
      LevelLosses(input, lessons, levels[..|levels| - 1], grade)
      + if v in input.levels && input.levels[v].grade == grade then LevelLoss(input, lessons, v) else 0
  }

  /** One lesson more adds its reduction to its own level, once. */
  lemma {:induction false} LevelLossesOneMore(input: Input, lessons: seq<Id>, levels: seq<Id>, grade: Id)
    requires lessons != []
    requires forall i, j :: 0 <= i < j < |levels| ==> levels[i] != levels[j]
    ensures var l := lessons[|lessons| - 1];
            LevelLosses(input, lessons, levels, grade)
            == LevelLosses(input, lessons[..|lessons| - 1], levels, grade)
               + if GradeOf(input, l) == Some(grade) && input.lessons[l].level in levels then Reduction(input, l) else 0
  {
    if levels != [] {
      var before, v := levels[..|levels| - 1], levels[|levels| - 1];
      assert levels == before + [v];
      LevelLossesOneMore(input, lessons, before, grade);
    }
  }

  /** A grade loses the sum of what its levels lose. */
  lemma {:induction false} GradeLosesWhatLevelsLose(input: Input, lessons: seq<Id>, levels: seq<Id>, grade: Id)
    requires forall i, j :: 0 <= i < j < |levels| ==> levels[i] != levels[j]
    requires forall l :: l in lessons && l in input.lessons ==> input.lessons[l].level in levels
    ensures GradeLoss(input, lessons, grade) == LevelLosses(input, lessons, levels, grade)
  {
    if lessons == [] {
      NoLossWithoutLessons(input, levels, grade);
    } else {
      var before, last := lessons[..|lessons| - 1], lessons[|lessons| - 1];
      assert lessons == before + [last];
      GradeLosesWhatLevelsLose(input, before, levels, grade);
      LevelLossesOneMore(input, lessons, levels, grade);
    }
  }

  lemma {:induction false} NoLossWithoutLessons(input: Input, levels: seq<Id>, grade: Id)
    ensures LevelLosses(input, [], levels, grade) == 0
  {
    if levels != [] {
      NoLossWithoutLessons(input, levels[..|levels| - 1], grade);
    }
  }

  /** For the whole plan: every grade of the learner loses the sum of its levels' losses. */
  lemma {:induction false} PlanConservesLosses(input: Input, grade: Id)
    ensures GradeLoss(input, Sorted(Lessons(input)), grade)
      == LevelLosses(input, Sorted(Lessons(input)), Sorted(Levels(input)), grade)
  {
    SortedHasEach(Lessons(input));
    SortedHasEach(Levels(input));
    SortedIsDistinct(Levels(input));
    GradeLosesWhatLevelsLose(input, Sorted(Lessons(input)), Sorted(Levels(input)), grade);
  }

  // ---- the changed rows after the write ------------------------------------------------------------------------

  ghost predicate DistinctRows(rows: map<Id, Progress>) {
    forall j, k :: j in rows && k in rows && rows[j].id == rows[k].id ==> j == k
  }

  /** The changes of the other lessons are to other rows. */
  lemma {:induction false} ChangesAreOfTheirRows(input: Input, lessons: seq<Id>, u: Update)
    requires u in LessonChanges(input, lessons)
    ensures exists l :: l in lessons && l in input.lessonRows && u in LessonChange(input, l) && u.id == input.lessonRows[l].id
  {
    var before, last := lessons[..|lessons| - 1], lessons[|lessons| - 1];
    assert lessons == before + [last];
    if u in LessonChanges(input, before) {
      ChangesAreOfTheirRows(input, before, u);
      var l :| l in before && l in input.lessonRows && u in LessonChange(input, l) && u.id == input.lessonRows[l].id;
      assert l in lessons;
    } else {
      assert u in LessonChange(input, last);
    }
  }

  lemma {:induction false} UpdatedRowAt(row: Progress, updates: seq<Update>)
    ensures (forall u :: u in updates ==> u.id != row.id) ==> UpdatedRow(row, updates) == row
    ensures UpdatedRow(row, updates) == row
      || exists u :: u in updates && u.id == row.id && UpdatedRow(row, updates) == Progress(row.id, Some(u.points), Some(u.progress), u.completed)
    ensures (exists u :: u in updates && u.id == row.id) ==>
      exists u :: u in updates && u.id == row.id && UpdatedRow(row, updates) == Progress(row.id, Some(u.points), Some(u.progress), u.completed)
  {
    if updates != [] {
      var before, last := updates[..|updates| - 1], updates[|updates| - 1];
      assert updates == before + [last];
      UpdatedRowAt(row, before);
    }
  }

  /** After the write every lesson row the plan is about holds the planned points. */
  lemma {:induction false} LessonRowAfter(input: Input, plan: Plan, lesson: Id)
    requires IsPlanOf(input, plan) && DistinctRows(input.lessonRows)
    requires lesson in Lessons(input) && lesson in input.lessonRows
    ensures Num(Written(input, plan).lessonRows[lesson].points) == LessonNext(input, lesson)
    ensures Written(input, plan).lessonRows[lesson].completed == PassMarkReached(LessonNext(input, lesson), input.lessons[lesson])
  {
    var row, updates := input.lessonRows[lesson], plan.lessonUpdates;
    HeldLessonIsUsable(input, Sorted(QuizIds(input)), lesson);
    UpdatedRowAt(row, updates);
    forall u | u in updates && u.id == row.id
      ensures u in LessonChange(input, lesson)
    {
      ChangesAreOfTheirRows(input, Sorted(Lessons(input)), u);
    }
    if LessonChange(input, lesson) != [] {
      SortedHasEach(Lessons(input));
      ChangeIsIncluded(input, Sorted(Lessons(input)), lesson);
      assert LessonChange(input, lesson)[0] in updates;
    }
  }

  lemma {:induction false} ChangeIsIncluded(input: Input, lessons: seq<Id>, lesson: Id)
    requires lesson in lessons
    ensures forall u :: u in LessonChange(input, lesson) ==> u in LessonChanges(input, lessons)
  {
    var before, last := lessons[..|lessons| - 1], lessons[|lessons| - 1];
    assert lessons == before + [last];
    if lesson != last {
      ChangeIsIncluded(input, before, lesson);
    }
  }
}
