/**
 * Where the recalculation leaves a lesson, read off the learner's attempts and parts: what is taken
 * off is the failed credit, and what stays is what the other parts add up to.
 */
module RecalcGuarantees {
  import opened Wrappers
  import opened SortedIds
  import opened Sums
  import opened ProgressRules
  import opened RecalcPlan
  import opened RecalcTheorems

  // ---- the points an attempt row gives -------------------------------------------------------------------------

  predicate Passes(input: Input, a: Attempt) {
    a.ispass && (input.needsVerified ==> a.verified)
  }

  /** `a` started before `b`, ties by id. */
  predicate Before(a: Attempt, b: Attempt) {
    a.starttime < b.starttime || (a.starttime == b.starttime && a.id.rank < b.id.rank)
  }

  ghost predicate IsFirstPass(input: Input, a: Attempt) {
    && a in input.attempts && Passes(input, a)
    && forall b :: b in input.attempts && b.quiz == a.quiz && Passes(input, b) && b != a ==> Before(a, b)
  }

  ghost predicate IsLastTry(input: Input, a: Attempt) {
    a in input.attempts && forall b :: b in input.attempts && b.quiz == a.quiz && b != a ==> Before(b, a)
  }

  ghost predicate HasPass(input: Input, quiz: Id) {
    exists a :: a in input.attempts && a.quiz == quiz && a.ispass
  }

  ghost predicate HasCountedPass(input: Input, quiz: Id) {
    exists a :: a in input.attempts && a.quiz == quiz && Passes(input, a)
  }

  /** `n` is what a quiz keeps: its first counted pass's points, or its last attempt's when no pass of it counts. */
  ghost predicate Keeps(input: Input, quiz: Id, n: nat) {
    if HasCountedPass(input, quiz) then exists a :: IsFirstPass(input, a) && a.quiz == quiz && n == Num(a.points)
    else if HasPass(input, quiz) then exists a :: IsLastTry(input, a) && a.quiz == quiz && n == Num(a.points)
    else n == 0
  }

  /** The lesson, its level and its grade are there, with totals that give a percentage. */
  predicate CanLose(input: Input, lesson: Id) {
    && lesson in input.lessons && input.lessons[lesson].level in input.levels
    && input.levels[input.lessons[lesson].level].grade in input.grades
    && input.lessons[lesson].total.Some? && input.lessons[lesson].total.value > 0
    && var level := input.levels[input.lessons[lesson].level];
    && level.points.Some? && level.points.value > 0
    && input.grades[level.grade].points.Some? && input.grades[level.grade].points.value > 0
  }

  /** `n` is what a quiz held without any pass: its last attempt's points. */
  ghost predicate Fails(input: Input, quiz: Id, lesson: Id, n: nat) {
    if CanLose(input, lesson) && !HasPass(input, quiz) && exists a :: a in input.attempts && a.quiz == quiz
    then exists a :: IsLastTry(input, a) && a.quiz == quiz && n == Num(a.points)
    else n == 0
  }

  /** The quizzes of a lesson. */
  function QuizzesOf(input: Input, lesson: Id): set<Id> {
    set q | q in input.quizzes && input.quizzes[q].lesson == lesson
  }

  /** Amounts for the quizzes of a lesson, what each keeps and what each fails. */
  ghost predicate PartsOf(input: Input, lesson: Id, keeps: Id -> int, fails: Id -> int) {
    forall q :: q in QuizzesOf(input, lesson) ==>
      keeps(q) >= 0 && Keeps(input, q, keeps(q)) && fails(q) >= 0 && Fails(input, q, lesson, fails(q))
  }

  // ---- they are the planner's --------------------------------------------------------------------------------------

  lemma {:induction false} OrderIs(a: Attempt, b: Attempt)
    ensures Before(a, b) <==> Newer(b, a)
  {
  }

  lemma {:induction false} OldestIsFirst(input: Input, quiz: Id, a: Attempt)
    ensures IsOldest(CountedOf(AttemptsAt(input.attempts, quiz), input.needsVerified), a) <==> IsFirstPass(input, a) && a.quiz == quiz
  {
    var rows := CountedOf(AttemptsAt(input.attempts, quiz), input.needsVerified);
    forall b ensures b in rows <==> b in input.attempts && b.quiz == quiz && Passes(input, b) {
    }
    forall b ensures Before(a, b) <==> Newer(b, a) {
      OrderIs(a, b);
    }
  }

  lemma {:induction false} NewestIsLast(input: Input, quiz: Id, a: Attempt)
    ensures IsNewest(AttemptsAt(input.attempts, quiz), a) <==> IsLastTry(input, a) && a.quiz == quiz
  {
    forall b ensures Before(b, a) <==> Newer(a, b) {
      OrderIs(b, a);
    }
  }

  lemma {:induction false} SomeIsFirst(rows: set<Attempt>) returns (a: Attempt)
    requires rows != {} && UniqueIds(rows)
    ensures IsOldest(rows, a)
    decreases |rows|
  {
    var x :| x in rows;
    if rows == {x} {
      a := x;
    } else {
      assert rows - {x} != {} by {
        assert rows == (rows - {x}) + {x};
      }
      a := SomeIsFirst(rows - {x});
      NewerIsTotal(a, x);
      if Newer(a, x) {
        forall b | b in rows && b != x ensures Newer(b, x) {
          assert b != a ==> Newer(b, a);
        }
        a := x;
      }
    }
  }

  lemma {:induction false} SomeIsLast(rows: set<Attempt>) returns (a: Attempt)
    requires rows != {} && UniqueIds(rows)
    ensures IsNewest(rows, a)
    decreases |rows|
  {
    var x :| x in rows;
    if rows == {x} {
      a := x;
    } else {
      assert rows - {x} != {} by {
        assert rows == (rows - {x}) + {x};
      }
      a := SomeIsLast(rows - {x});
      NewerIsTotal(a, x);
      if Newer(x, a) {
        forall b | b in rows && b != x ensures Newer(x, b) {
          assert b != a ==> Newer(a, b);
        }
        a := x;
      }
    }
  }

  lemma {:induction false} OnlyOneNewest(rows: set<Attempt>, a: Attempt)
    requires IsNewest(rows, a)
    ensures NewestPoints(rows) == Num(a.points)
  {
    forall b | IsNewest(rows, b) ensures b == a {
      assert b != a ==> Newer(a, b) && Newer(b, a);
    }
  }

  lemma {:induction false} OnlyOneOldest(rows: set<Attempt>, a: Attempt)
    requires IsOldest(rows, a)
    ensures OldestPoints(rows) == Num(a.points)
  {
    forall b | IsOldest(rows, b) ensures b == a {
      assert b != a ==> Newer(a, b) && Newer(b, a);
    }
  }

  lemma {:induction false} PassesAre(input: Input, quiz: Id)
    ensures HasPass(input, quiz) <==> AnyPass(input, quiz)
    ensures HasCountedPass(input, quiz) <==> AnyCounted(input, quiz)
  {
    if a :| a in input.attempts && a.quiz == quiz && a.ispass {
      assert a in AttemptsAt(input.attempts, quiz);
    }
    if a :| a in input.attempts && a.quiz == quiz && Passes(input, a) {
      assert a in AttemptsAt(input.attempts, quiz) && IsCounted(a, input.needsVerified);
    }
  }

  /** What a quiz keeps is decided by the attempts alone. */
  lemma {:induction false} KeepsIsCredit(input: Input, quiz: Id, lesson: Id, n: nat)
    requires UniqueIds(input.attempts) && quiz in QuizzesOf(input, lesson) && Keeps(input, quiz, n)
    ensures CreditFor(input, quiz, lesson) == n
  {
    PassesAre(input, quiz);
    var rows := AttemptsAt(input.attempts, quiz);
    if HasCountedPass(input, quiz) {
      assert OutcomeOf(input, quiz) == CountedPass;
      var a :| IsFirstPass(input, a) && a.quiz == quiz && n == Num(a.points);
      OldestIsFirst(input, quiz, a);
      OnlyOneOldest(CountedOf(rows, input.needsVerified), a);
    } else if HasPass(input, quiz) {
      assert OutcomeOf(input, quiz) == OnlyUncountedPass;
      var a :| IsLastTry(input, a) && a.quiz == quiz && n == Num(a.points);
      NewestIsLast(input, quiz, a);
      OnlyOneNewest(rows, a);
    } else {
      assert OutcomeOf(input, quiz) in {ContentMissing, UnusableTotal, NoPass};
    }
  }

  lemma {:induction false} FailsIsHeld(input: Input, quiz: Id, lesson: Id, n: nat)
    requires UniqueIds(input.attempts) && quiz in QuizzesOf(input, lesson) && Fails(input, quiz, lesson, n)
    requires quiz in QuizIds(input)
    ensures HeldFor(input, quiz, lesson) == n
  {
    PassesAre(input, quiz);
    var rows := AttemptsAt(input.attempts, quiz);
    if !HasPass(input, quiz) {
      assert !HasCountedPass(input, quiz);
      assert OutcomeOf(input, quiz) == NoPass <==> CanLose(input, lesson);
      if CanLose(input, lesson) {
        var a :| IsLastTry(input, a) && a.quiz == quiz && n == Num(a.points);
        NewestIsLast(input, quiz, a);
        OnlyOneNewest(rows, a);
      }
    } else {
      assert OutcomeOf(input, quiz) in {CountedPass, OnlyUncountedPass};
    }
  }

  // ---- sums over the quizzes of a lesson ----------------------------------------------------------------------------

  /** The quizzes of a lesson among those of a list. */
  ghost function OfLesson(input: Input, quizzes: seq<Id>, lesson: Id): set<Id> {
    set q | q in quizzes && q in QuizzesOf(input, lesson)
  }

  lemma {:induction false} PartsAddUp(input: Input, quizzes: seq<Id>, lesson: Id, keeps: Id -> int, fails: Id -> int)
    requires UniqueIds(input.attempts) && PartsOf(input, lesson, keeps, fails)
    requires forall i, j :: 0 <= i < j < |quizzes| ==> quizzes[i] != quizzes[j]
    requires forall q :: q in quizzes ==> q in QuizIds(input)
    ensures CreditIn(input, quizzes, lesson) == Sum(keeps, OfLesson(input, quizzes, lesson))
    ensures HeldIn(input, quizzes, lesson) == Sum(fails, OfLesson(input, quizzes, lesson))
  {
    if quizzes != [] {
      var before, q := quizzes[..|quizzes| - 1], quizzes[|quizzes| - 1];
      assert quizzes == before + [q];
      PartsAddUp(input, before, lesson, keeps, fails);
      var own := OfLesson(input, before, lesson);
      assert q !in before;
      if q in QuizzesOf(input, lesson) {
        KeepsIsCredit(input, q, lesson, keeps(q));
        FailsIsHeld(input, q, lesson, fails(q));
        assert OfLesson(input, quizzes, lesson) == own + {q};
        SumGrow(keeps, own, q);
        SumGrow(fails, own, q);
      } else {
        assert OfLesson(input, quizzes, lesson) == own;
        NothingOfOthers(input, q, lesson);
      }
    }
  }

  /** A quiz of another lesson, or of none, counts for nothing here. */
  lemma {:induction false} NothingOfOthers(input: Input, quiz: Id, lesson: Id)
    requires quiz !in QuizzesOf(input, lesson)
    ensures CreditFor(input, quiz, lesson) == 0 && HeldFor(input, quiz, lesson) == 0
  {
  }

  /** A quiz without an attempt keeps nothing and fails nothing. */
  lemma {:induction false} NothingWithoutAttempts(input: Input, quiz: Id, lesson: Id, n: nat, m: nat)
    requires quiz !in QuizIds(input) && Keeps(input, quiz, n) && Fails(input, quiz, lesson, m)
    ensures n == 0 && m == 0
  {
    assert forall a :: a in input.attempts ==> a.quiz in QuizIds(input);
  }

  lemma {:induction false} PartsAre(input: Input, lesson: Id, keeps: Id -> int, fails: Id -> int)
    requires UniqueIds(input.attempts) && PartsOf(input, lesson, keeps, fails)
    ensures Credit(input, lesson) == Sum(keeps, QuizzesOf(input, lesson)) && Held(input, lesson) == Sum(fails, QuizzesOf(input, lesson))
  {
    var all, quizzes := QuizzesOf(input, lesson), Sorted(QuizIds(input));
    SortedHasEach(QuizIds(input));
    SortedIsDistinct(QuizIds(input));
    PartsAddUp(input, quizzes, lesson, keeps, fails);
    var tried := OfLesson(input, quizzes, lesson);
    forall q | q in all - tried ensures keeps(q) == 0 && fails(q) == 0 {
      NothingWithoutAttempts(input, q, lesson, keeps(q), fails(q));
    }
    SumSplits(keeps, all, tried);
    SumSplits(fails, all, tried);
    SumIsZero(keeps, all - tried);
    SumIsZero(fails, all - tried);
  }

  // ---- the lesson row ---------------------------------------------------------------------------------------------------

  /** A lesson's mark, of its own or four fifths of its total, is reached. */
  predicate Reaches(lesson: Lesson, points: nat) {
    if lesson.passing.Some? && lesson.passing.value > 0 then points >= lesson.passing.value
    else lesson.total.Some? && lesson.total.value > 0 && 100 * points >= 80 * lesson.total.value
  }

  lemma {:induction false} MarkIs(lesson: Lesson, points: nat)
    ensures PassMarkReached(points, lesson) <==> Reaches(lesson, points)
  {
    if !(lesson.passing.Some? && lesson.passing.value > 0) && lesson.total.Some? && lesson.total.value > 0 {
      FallbackPassMark(points, lesson.total.value);
    }
  }

  lemma {:induction false} LessonRowIsKept(input: Input, plan: Plan, lesson: Id)
    requires IsPlanOf(input, plan) && DistinctRows(input.lessonRows) && lesson in input.lessonRows && Held(input, lesson) == 0
    ensures Written(input, plan).lessonRows[lesson] == input.lessonRows[lesson]
  {
    var row, updates := input.lessonRows[lesson], plan.lessonUpdates;
    SortedHasEach(Lessons(input));
    UpdatedRowAt(row, updates);
    forall u | u in updates ensures u.id != row.id {
      ChangesAreOfTheirRows(input, Sorted(Lessons(input)), u);
      var l :| l in Sorted(Lessons(input)) && l in input.lessonRows && u in LessonChange(input, l) && u.id == input.lessonRows[l].id;
      assert Held(input, l) > 0;
    }
  }

  /** What the lesson's parts add up to, as the planner has it. */
  lemma {:induction false} RestIs(input: Input, lesson: Id, kept: int)
    requires Credit(input, lesson) == kept
    ensures Rest(input, lesson) == (if lesson in input.practice then input.practice[lesson] else 0)
                                   + (if lesson in input.learning then input.learning[lesson] else 0) + kept
  {
  }

  lemma {:induction false} LessonRowEnds(input: Input, plan: Plan, lesson: Id)
    requires IsPlanOf(input, plan) && DistinctRows(input.lessonRows) && lesson in input.lessonRows
    ensures var (was, now) := (Num(input.lessonRows[lesson].points), Written(input, plan).lessonRows[lesson]);
            && Num(now.points) == Most(was - Held(input, lesson), Least2(was, Rest(input, lesson)))
            && (Held(input, lesson) > 0 ==> lesson in input.lessons && (now.completed <==> Reaches(input.lessons[lesson], Num(now.points))))
  {
    if Held(input, lesson) > 0 {
      HeldLessonIsUsable(input, Sorted(QuizIds(input)), lesson);
      LessonRowAfter(input, plan, lesson);
      LessonEndsAt(input, lesson);
      MarkIs(input.lessons[lesson], LessonNext(input, lesson));
    } else {
      LessonRowIsKept(input, plan, lesson);
    }
  }

  /**
   * After a plan is written every lesson row of the learner holds its old points less the failed
   * credit, but not less than its practice, its learning items and its counted quizzes add up to, as
   * far as it held that. Where something failed, it is completed exactly when its mark is reached.
   */
  lemma {:induction false} LessonEndsByItsParts(input: Input, plan: Plan, lesson: Id, keeps: Id -> int, fails: Id -> int)
    requires IsPlanOf(input, plan) && UniqueIds(input.attempts) && DistinctRows(input.lessonRows) && lesson in input.lessonRows
    requires PartsOf(input, lesson, keeps, fails)
    ensures var (was, now) := (Num(input.lessonRows[lesson].points), Written(input, plan).lessonRows[lesson]);
            var failed := Sum(fails, QuizzesOf(input, lesson));
            var parts := (if lesson in input.practice then input.practice[lesson] else 0)
                         + (if lesson in input.learning then input.learning[lesson] else 0) + Sum(keeps, QuizzesOf(input, lesson));
            && Num(now.points) == (if was - failed > parts then was - failed else if was < parts then was else parts)
            && was - failed <= Num(now.points) <= was
            && (failed > 0 ==> lesson in input.lessons && (now.completed <==> Reaches(input.lessons[lesson], Num(now.points))))
  {
    PartsAre(input, lesson, keeps, fails);
    RestIs(input, lesson, Sum(keeps, QuizzesOf(input, lesson)));
    LessonRowEnds(input, plan, lesson);
  }

  /** There are such amounts for every learner. */
  lemma {:induction false} EveryLessonHasParts(input: Input, lesson: Id) returns (keeps: Id -> int, fails: Id -> int)
    requires UniqueIds(input.attempts)
    ensures PartsOf(input, lesson, keeps, fails)
  {
    keeps := (q: Id) => CreditFor(input, q, lesson);
    fails := (q: Id) => if q in QuizIds(input) then HeldFor(input, q, lesson) else 0;
    forall q | q in QuizzesOf(input, lesson)
      ensures Keeps(input, q, keeps(q)) && Fails(input, q, lesson, fails(q))
    {
      QuizHasParts(input, lesson, q);
    }
  }

  lemma {:induction false} QuizKeeps(input: Input, quiz: Id) returns (n: nat)
    requires UniqueIds(input.attempts)
    ensures Keeps(input, quiz, n)
  {
    PassesAre(input, quiz);
    var rows := AttemptsAt(input.attempts, quiz);
    n := 0;
    if HasCountedPass(input, quiz) {
      var b :| b in rows && IsCounted(b, input.needsVerified);
      assert b in CountedOf(rows, input.needsVerified);
      var a := SomeIsFirst(CountedOf(rows, input.needsVerified));
      OldestIsFirst(input, quiz, a);
      n := Num(a.points);
    } else if HasPass(input, quiz) {
      var b :| b in rows && b.ispass;
      var a := SomeIsLast(rows);
      NewestIsLast(input, quiz, a);
      n := Num(a.points);
    }
  }

  lemma {:induction false} QuizFails(input: Input, quiz: Id, lesson: Id) returns (n: nat)
    requires UniqueIds(input.attempts)
    ensures Fails(input, quiz, lesson, n)
  {
    n := 0;
    if b :| b in input.attempts && b.quiz == quiz {
      if CanLose(input, lesson) && !HasPass(input, quiz) {
        assert b in AttemptsAt(input.attempts, quiz);
        var a := SomeIsLast(AttemptsAt(input.attempts, quiz));
        NewestIsLast(input, quiz, a);
        n := Num(a.points);
      }
    }
  }

  lemma {:induction false} QuizHasParts(input: Input, lesson: Id, quiz: Id)
    requires UniqueIds(input.attempts) && quiz in QuizzesOf(input, lesson)
    ensures Keeps(input, quiz, CreditFor(input, quiz, lesson))
    ensures Fails(input, quiz, lesson, if quiz in QuizIds(input) then HeldFor(input, quiz, lesson) else 0)
  {
    var n := QuizKeeps(input, quiz);
    KeepsIsCredit(input, quiz, lesson, n);
    var m := QuizFails(input, quiz, lesson);
    if quiz in QuizIds(input) {
      FailsIsHeld(input, quiz, lesson, m);
    } else {
      NothingWithoutAttempts(input, quiz, lesson, n, m);
    }
  }

  // ---- a learner with every part ----------------------------------------------------------------------------------

  const ONE := Id(1)

  const TWO := Id(2)

  const PASSED := Attempt(ONE, ONE, true, true, Some(7), 0)

  const FAILED := Attempt(TWO, TWO, false, false, Some(40), 1)

  /** A lesson of 75 points: 3 of its practice, 20 of its learning, 7 of one quiz passed, 40 of another failed, and 5 more. */
  const LEARNER := Input(false, {PASSED, FAILED}, map[ONE := Quiz(ONE, false), TWO := Quiz(ONE, false)],
                         map[ONE := Lesson(ONE, Some(100), None)], map[ONE := Level(ONE, Some(100))], map[ONE := Grade(Some(100))],
                         map[ONE := Progress(ONE, Some(75), Some(7500), false)], map[], map[], map[ONE := 3], map[ONE := 20])

  function Sevens(): Id -> int {
    (q: Id) => if q == ONE then 7 else 0
  }

  function Forties(): Id -> int {
    (q: Id) => if q == TWO then 40 else 0
  }

  lemma {:induction false} LearnersSums(all: set<Id>)
    requires all == {ONE, TWO}
    ensures Sum(Sevens(), all) == 7 && Sum(Forties(), all) == 40
  {
    SumPick(Sevens(), all, ONE);
    SumPick(Forties(), all, TWO);
    assert all - {ONE} == {TWO} && all - {TWO} == {ONE};
    SumIsZero(Sevens(), {TWO});
    SumIsZero(Forties(), {ONE});
  }

  lemma {:induction false} LearnersParts()
    ensures UniqueIds(LEARNER.attempts) && PartsOf(LEARNER, ONE, Sevens(), Forties())
    ensures Sum(Sevens(), QuizzesOf(LEARNER, ONE)) == 7 && Sum(Forties(), QuizzesOf(LEARNER, ONE)) == 40
  {
    assert PASSED in LEARNER.attempts && FAILED in LEARNER.attempts;
    assert IsFirstPass(LEARNER, PASSED) && IsLastTry(LEARNER, FAILED);
    assert HasCountedPass(LEARNER, ONE) && !HasPass(LEARNER, TWO) && CanLose(LEARNER, ONE) && HasPass(LEARNER, ONE);
    LearnersSums(QuizzesOf(LEARNER, ONE));
  }

  /** The failed 40 come off whole: 35 stay, with the 30 of the three other parts below them. */
  lemma {:induction false} FailedCreditComesOffWhole(plan: Plan)
    requires IsPlanOf(LEARNER, plan)
    ensures Num(Written(LEARNER, plan).lessonRows[ONE].points) == 35
  {
    LearnersParts();
    EndsBy(LEARNER, plan, ONE, Sevens(), Forties(), 75, 23, 7, 40);
  }

  lemma {:induction false} EndsBy(input: Input, plan: Plan, lesson: Id, keeps: Id -> int, fails: Id -> int, was: nat,
                                  others: nat, kept: int, failed: int)
    requires IsPlanOf(input, plan) && UniqueIds(input.attempts) && DistinctRows(input.lessonRows) && PartsOf(input, lesson, keeps, fails)
    requires lesson in input.lessonRows && Num(input.lessonRows[lesson].points) == was
    requires lesson in input.practice && lesson in input.learning && input.practice[lesson] + input.learning[lesson] == others
    requires Sum(keeps, QuizzesOf(input, lesson)) == kept && Sum(fails, QuizzesOf(input, lesson)) == failed
    ensures Num(Written(input, plan).lessonRows[lesson].points)
      == if was - failed > others + kept then was - failed else if was < others + kept then was else others + kept
  {
    LessonEndsByItsParts(input, plan, lesson, keeps, fails);
  }

  /** The same learner with 60 points: only 30 come off, down to the practice's 3, the learning's 20 and the pass's 7. */
  const WITH_LESS := LEARNER.(lessonRows := map[ONE := Progress(ONE, Some(60), Some(6000), false)])

  lemma {:induction false} LessonStopsAtItsParts(plan: Plan)
    requires IsPlanOf(WITH_LESS, plan)
    ensures Num(Written(WITH_LESS, plan).lessonRows[ONE].points) == 30
  {
    LearnersParts();
    assert WITH_LESS.attempts == LEARNER.attempts && WITH_LESS.quizzes == LEARNER.quizzes;
    SameParts(LEARNER, WITH_LESS, ONE, Sevens(), Forties());
    EndsBy(WITH_LESS, plan, ONE, Sevens(), Forties(), 60, 23, 7, 40);
  }

  /** The parts do not depend on the progress rows. */
  lemma {:induction false} SameParts(a: Input, b: Input, lesson: Id, keeps: Id -> int, fails: Id -> int)
    requires PartsOf(a, lesson, keeps, fails) && b == a.(lessonRows := b.lessonRows)
    ensures PartsOf(b, lesson, keeps, fails) && QuizzesOf(b, lesson) == QuizzesOf(a, lesson)
  {
    forall x ensures IsFirstPass(b, x) <==> IsFirstPass(a, x) {
    }
    forall x ensures IsLastTry(b, x) <==> IsLastTry(a, x) {
    }
    forall q ensures HasPass(b, q) <==> HasPass(a, q) {
    }
    forall q ensures HasCountedPass(b, q) <==> HasCountedPass(a, q) {
    }
    forall q | q in QuizzesOf(b, lesson) ensures Keeps(b, q, keeps(q)) && Fails(b, q, lesson, fails(q)) {
      assert q in QuizzesOf(a, lesson);
    }
  }

  // ---- the attempts ------------------------------------------------------------------------------------------------------

  /** The quiz's lesson, level and grade can lose points. */
  predicate QuizCanLose(input: Input, quiz: Id) {
    quiz in input.quizzes && CanLose(input, input.quizzes[quiz].lesson)
  }

  /** The quiz, its lesson, its level and its grade are all there. */
  predicate QuizIsThere(input: Input, quiz: Id) {
    && quiz in input.quizzes && input.quizzes[quiz].lesson in input.lessons
    && input.lessons[input.quizzes[quiz].lesson].level in input.levels
    && input.levels[input.lessons[input.quizzes[quiz].lesson].level].grade in input.grades
  }

  /** What becomes of a quiz, from its attempts and its content. */
  lemma {:induction false} OutcomeIs(input: Input, quiz: Id)
    ensures OutcomeOf(input, quiz) == CountedPass <==> HasCountedPass(input, quiz)
    ensures OutcomeOf(input, quiz) == OnlyUncountedPass <==> HasPass(input, quiz) && !HasCountedPass(input, quiz)
    ensures OutcomeOf(input, quiz) == ContentMissing <==> !HasPass(input, quiz) && !QuizIsThere(input, quiz)
    ensures OutcomeOf(input, quiz) == UnusableTotal <==> !HasPass(input, quiz) && QuizIsThere(input, quiz) && !QuizCanLose(input, quiz)
    ensures OutcomeOf(input, quiz) == NoPass <==> !HasPass(input, quiz) && QuizCanLose(input, quiz)
  {
    PassesAre(input, quiz);
    assert HasContent(input, quiz) <==> QuizIsThere(input, quiz);
    assert HasContent(input, quiz) && TotalsUsable(input, input.quizzes[quiz].lesson) <==> QuizCanLose(input, quiz);
  }

  lemma {:induction false} ZeroedById(input: Input, plan: Plan, a: Attempt)
    requires IsPlanOf(input, plan) && UniqueIds(input.attempts) && a in input.attempts
    ensures a.id in ToSet(plan.zeroRows) <==> a in ZeroedFor(input, a.quiz)
  {
    SortedHasEach(QuizIds(input));
    assert a.quiz in Sorted(QuizIds(input));
    if b :| b in Zeroed(input) && b.id == a.id {
      var q :| q in Sorted(QuizIds(input)) && b in ZeroedFor(input, q);
      assert b in input.attempts && b.quiz == q;
    }
    if a in ZeroedFor(input, a.quiz) {
      assert a in Zeroed(input);
    }
  }

  /**
   * Exactly the failed attempts that hold points are zeroed, of the quizzes with a counted pass and of
   * those without any pass whose lesson, level and grade can lose them.
   */
  lemma {:induction false} ZeroedExactly(input: Input, plan: Plan, a: Attempt)
    requires IsPlanOf(input, plan) && UniqueIds(input.attempts) && a in input.attempts
    ensures a.id in ToSet(plan.zeroRows) <==>
      !a.ispass && Num(a.points) > 0 && (HasCountedPass(input, a.quiz) || (!HasPass(input, a.quiz) && QuizCanLose(input, a.quiz)))
  {
    ZeroedById(input, plan, a);
    OutcomeIs(input, a.quiz);
  }
}
