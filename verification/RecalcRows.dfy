/**
 * What a written plan leaves in the level and grade rows, and the learner whose level loses what no
 * lesson row of theirs lost.
 */
module RecalcRows {
  import opened Wrappers
  import opened SortedIds
  import opened ProgressRules
  import opened RecalcPlan
  import opened RecalcTheorems

  // ---- the level and grade rows after the write -----------------------------------------------------------------

  /** The row after a loss: never below 0, and completed again by its new percentage. */
  function RowAfterLoss(row: Progress, loss: nat, total: Option<nat>): Progress
    requires Usable(total)
  {
    if loss == 0 then row
    else
      var next := Most(Num(row.points) - loss, 0);
      var percent := ProgressPercent(next, total).value;
      Progress(row.id, Some(next), Some(percent), PercentCompleted(percent))
  }

  /** A row that holds no value in a column holds 0 there. */
  predicate SameValues(a: Progress, b: Progress) {
    a.id == b.id && Num(a.points) == Num(b.points) && Num(a.progress) == Num(b.progress) && a.completed == b.completed
  }

  /** A row, updated by changes of which only its own are to it. */
  lemma {:induction false} OwnChangeIsApplied(rows: map<Id, Progress>, key: Id, loss: nat, total: Option<nat>,
                                              updates: seq<Update>)
    requires key in rows && Usable(total)
    requires forall u :: u in updates && u.id == rows[key].id ==> u in Reduced(rows, key, loss, total)
    requires forall u :: u in Reduced(rows, key, loss, total) ==> u in updates
    ensures SameValues(UpdatedRow(rows[key], updates), RowAfterLoss(rows[key], loss, total))
  {
    var row, own := rows[key], Reduced(rows, key, loss, total);
    UpdatedRowAt(row, updates);
    if own != [] {
      assert own[0] in updates && own[0].id == row.id;
    }
  }

  ghost function LevelChange(input: Input, level: Id): seq<Update> {
    Reduced(input.levelRows, level, LevelLoss(input, Sorted(Lessons(input)), level), LevelTotal(input, level))
  }

  lemma {:induction false} LevelChangesAreOfTheirRows(input: Input, levels: seq<Id>, u: Update)
    requires u in LevelChanges(input, levels)
    ensures exists v :: v in levels && v in input.levelRows && u.id == input.levelRows[v].id
                        && u in LevelChange(input, v)
  {
    var before, last := levels[..|levels| - 1], levels[|levels| - 1];
    assert levels == before + [last];
    if u in LevelChanges(input, before) {
      LevelChangesAreOfTheirRows(input, before, u);
      var v :| v in before && v in input.levelRows && u.id == input.levelRows[v].id
               && u in LevelChange(input, v);
      assert v in levels;
    } else {
      assert last in levels;
    }
  }

  lemma {:induction false} LevelChangeIsIncluded(input: Input, levels: seq<Id>, level: Id)
    requires level in levels
    ensures forall u :: u in LevelChange(input, level) ==> u in LevelChanges(input, levels)
  {
    var before, last := levels[..|levels| - 1], levels[|levels| - 1];
    assert levels == before + [last];
    if level != last {
      LevelChangeIsIncluded(input, before, level);
    }
  }

  /** After the write every level row of the learner has lost what its lessons lose, down to 0 at most, and no other changed. */
  lemma {:induction false} LevelRowAfter(input: Input, plan: Plan, level: Id)
    requires IsPlanOf(input, plan) && DistinctRows(input.levelRows) && level in input.levelRows
    ensures level in Levels(input) ==> Usable(LevelTotal(input, level))
    ensures level in Levels(input) ==>
      var loss := LevelLoss(input, Sorted(Lessons(input)), level);
      SameValues(Written(input, plan).levelRows[level], RowAfterLoss(input.levelRows[level], loss, LevelTotal(input, level)))
    ensures level !in Levels(input) ==> Written(input, plan).levelRows[level] == input.levelRows[level]
  {
    var updates, loss := plan.levelUpdates, LevelLoss(input, Sorted(Lessons(input)), level);
    LevelUpdatesAreOwn(input, plan, level);
    UpdatedRowAt(input.levelRows[level], updates);
    if level in Levels(input) {
      LevelIsUsable(input, level);
      SortedHasEach(Levels(input));
      LevelChangeIsIncluded(input, Sorted(Levels(input)), level);
      OwnChangeIsApplied(input.levelRows, level, loss, LevelTotal(input, level), updates);
    }
  }

  lemma {:induction false} LevelUpdatesAreOwn(input: Input, plan: Plan, level: Id)
    requires IsPlanOf(input, plan) && DistinctRows(input.levelRows) && level in input.levelRows
    ensures forall u :: u in plan.levelUpdates && u.id == input.levelRows[level].id ==> level in Levels(input) && u in LevelChange(input, level)
  {
    SortedHasEach(Levels(input));
    forall u | u in plan.levelUpdates && u.id == input.levelRows[level].id
      ensures level in Levels(input) && u in LevelChange(input, level)
    {
      LevelChangesAreOfTheirRows(input, Sorted(Levels(input)), u);
    }
  }

  lemma {:induction false} LevelIsUsable(input: Input, level: Id)
    requires level in Levels(input)
    ensures Usable(LevelTotal(input, level))
  {
    var l :| l in Lessons(input) && input.lessons[l].level == level;
    HeldLessonIsUsable(input, Sorted(QuizIds(input)), l);
  }

  ghost function GradeChange(input: Input, grade: Id): seq<Update> {
    Reduced(input.gradeRows, grade, GradeLoss(input, Sorted(Lessons(input)), grade), GradeTotal(input, grade))
  }

  lemma {:induction false} GradeChangesAreOfTheirRows(input: Input, grades: seq<Id>, u: Update)
    requires u in GradeChanges(input, grades)
    ensures exists g :: g in grades && g in input.gradeRows && u.id == input.gradeRows[g].id
                        && u in GradeChange(input, g)
  {
    var before, last := grades[..|grades| - 1], grades[|grades| - 1];
    assert grades == before + [last];
    if u in GradeChanges(input, before) {
      GradeChangesAreOfTheirRows(input, before, u);
      var g :| g in before && g in input.gradeRows && u.id == input.gradeRows[g].id
               && u in GradeChange(input, g);
      assert g in grades;
    } else {
      assert last in grades;
    }
  }

  lemma {:induction false} GradeChangeIsIncluded(input: Input, grades: seq<Id>, grade: Id)
    requires grade in grades
    ensures forall u :: u in GradeChange(input, grade) ==> u in GradeChanges(input, grades)
  {
    var before, last := grades[..|grades| - 1], grades[|grades| - 1];
    assert grades == before + [last];
    if grade != last {
      GradeChangeIsIncluded(input, before, grade);
    }
  }

  /** The same of every grade row. */
  lemma {:induction false} GradeRowAfter(input: Input, plan: Plan, grade: Id)
    requires IsPlanOf(input, plan) && DistinctRows(input.gradeRows) && grade in input.gradeRows
    ensures grade in Grades(input) ==> Usable(GradeTotal(input, grade))
    ensures grade in Grades(input) ==>
      var loss := GradeLoss(input, Sorted(Lessons(input)), grade);
      SameValues(Written(input, plan).gradeRows[grade], RowAfterLoss(input.gradeRows[grade], loss, GradeTotal(input, grade)))
    ensures grade !in Grades(input) ==> Written(input, plan).gradeRows[grade] == input.gradeRows[grade]
  {
    var updates, loss := plan.gradeUpdates, GradeLoss(input, Sorted(Lessons(input)), grade);
    GradeUpdatesAreOwn(input, plan, grade);
    UpdatedRowAt(input.gradeRows[grade], updates);
    if grade in Grades(input) {
      GradeIsUsable(input, grade);
      SortedHasEach(Grades(input));
      GradeChangeIsIncluded(input, Sorted(Grades(input)), grade);
      OwnChangeIsApplied(input.gradeRows, grade, loss, GradeTotal(input, grade), updates);
    }
  }

  lemma {:induction false} GradeUpdatesAreOwn(input: Input, plan: Plan, grade: Id)
    requires IsPlanOf(input, plan) && DistinctRows(input.gradeRows) && grade in input.gradeRows
    ensures forall u :: u in plan.gradeUpdates && u.id == input.gradeRows[grade].id ==> grade in Grades(input) && u in GradeChange(input, grade)
  {
    SortedHasEach(Grades(input));
    forall u | u in plan.gradeUpdates && u.id == input.gradeRows[grade].id
      ensures grade in Grades(input) && u in GradeChange(input, grade)
    {
      GradeChangesAreOfTheirRows(input, Sorted(Grades(input)), u);
    }
  }

  lemma {:induction false} GradeIsUsable(input: Input, grade: Id)
    requires grade in Grades(input)
    ensures Usable(GradeTotal(input, grade))
  {
    var l :| l in Lessons(input) && input.lessons[l].level in input.levels && input.levels[input.lessons[l].level].grade == grade;
    HeldLessonIsUsable(input, Sorted(QuizIds(input)), l);
  }

  /** The update is to one of these rows, and the row holds other values. */
  ghost predicate ChangesOne(rows: map<Id, Progress>, u: Update) {
    exists k :: k in rows && rows[k].id == u.id
                && (u.points != Num(rows[k].points) || u.progress != Num(rows[k].progress) || u.completed != rows[k].completed)
  }

  /** No update is planned that would change nothing. */
  lemma {:induction false} EveryUpdateChangesARow(input: Input, plan: Plan)
    requires IsPlanOf(input, plan)
    ensures forall u :: u in plan.lessonUpdates ==> ChangesOne(input.lessonRows, u)
    ensures forall u :: u in plan.levelUpdates ==> ChangesOne(input.levelRows, u)
    ensures forall u :: u in plan.gradeUpdates ==> ChangesOne(input.gradeRows, u)
  {
    forall u | u in plan.lessonUpdates ensures ChangesOne(input.lessonRows, u) {
      ChangesAreOfTheirRows(input, Sorted(Lessons(input)), u);
    }
    forall u | u in plan.levelUpdates ensures ChangesOne(input.levelRows, u) {
      LevelChangesAreOfTheirRows(input, Sorted(Levels(input)), u);
    }
    forall u | u in plan.gradeUpdates ensures ChangesOne(input.gradeRows, u) {
      GradeChangesAreOfTheirRows(input, Sorted(Grades(input)), u);
    }
  }

  // ---- a learner without a row for the lesson --------------------------------------------------------------------------

  const ONE := Id(1)

  /** A failed attempt of five points at the only quiz; the learner has a level and a grade row, and none for the lesson. */
  const FAILED := Attempt(ONE, ONE, false, false, Some(5), 0)

  const NO_ROW := Input(false, {FAILED}, map[ONE := Quiz(ONE, false)], map[ONE := Lesson(ONE, Some(10), None)],
                        map[ONE := Level(ONE, Some(10))], map[ONE := Grade(Some(10))], map[],
                        map[ONE := Progress(ONE, Some(9), None, false)], map[ONE := Progress(ONE, Some(9), None, false)], map[], map[])

  lemma {:induction false} SortedOne(ids: set<Id>)
    requires ids == {ONE}
    ensures Sorted(ids) == [ONE]
  {
    assert Least(ids) == ONE && ids - {ONE} == {};
  }

  lemma {:induction false} FailedCreditComesOff()
    ensures OutcomeOf(NO_ROW, ONE) == NoPass && HeldFor(NO_ROW, ONE, ONE) == 5
  {
    var rows := AttemptsAt(NO_ROW.attempts, ONE);
    assert rows == {FAILED} && IsNewest(rows, FAILED);
  }

  lemma {:induction false} OneLessonLoses()
    ensures Held(NO_ROW, ONE) == 5 && Lessons(NO_ROW) == {ONE} && Sorted(Lessons(NO_ROW)) == [ONE]
  {
    FailedCreditComesOff();
    assert FAILED in NO_ROW.attempts;
    assert QuizIds(NO_ROW) == {ONE};
    SortedOne(QuizIds(NO_ROW));
    assert [ONE][..0] == [] && HeldIn(NO_ROW, [ONE], ONE) == HeldIn(NO_ROW, [], ONE) + HeldFor(NO_ROW, ONE, ONE);
    SortedOne(Lessons(NO_ROW));
  }

  /** The level loses five points and its lesson none: there is no row to lose them. */
  lemma {:induction false} MissingRowCostsTheLevel()
    ensures RowMissing(NO_ROW, Sorted(Lessons(NO_ROW)), ONE)
    ensures LevelLoss(NO_ROW, Sorted(Lessons(NO_ROW)), ONE) == 5 && LossIn(NO_ROW, Sorted(Lessons(NO_ROW)), ONE) == 0
  {
    OneLessonLoses();
    var lessons := Sorted(Lessons(NO_ROW));
    assert lessons[..0] == [] && lessons[|lessons| - 1] == ONE && ONE in lessons;
    assert LevelLoss(NO_ROW, lessons, ONE) == LevelLoss(NO_ROW, [], ONE) + Reduction(NO_ROW, ONE);
    assert LossIn(NO_ROW, lessons, ONE) == LossIn(NO_ROW, [], ONE) + LessonLoss(NO_ROW, ONE);
  }
}
