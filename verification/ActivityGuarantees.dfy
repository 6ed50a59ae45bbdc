/**
 * What a learner is shown of a lesson, read from the stored rows: which activities are listed, when
 * each is done, in progress or to do, and what its figures are.
 */
module ActivityGuarantees {
  import opened ProgressRules
  import opened ActivityProgress

  // ---- filters --------------------------------------------------------------------------------------------------------

  lemma {:induction false} WhereHas<T(!new)>(s: seq<T>, p: T -> bool, x: T)
    ensures x in Where(s, p) <==> x in s && p(x)
  {
    if s != [] {
      WhereHas(s[..|s| - 1], p, x);
      assert s == s[..|s| - 1] + [s[|s| - 1]];
    }
  }

  lemma {:induction false} LastOfWhere<T(!new)>(s: seq<T>, p: T -> bool, i: nat)
    requires i < |s| && p(s[i]) && forall j :: i < j < |s| ==> !p(s[j])
    ensures Where(s, p) != [] && Where(s, p)[|Where(s, p)| - 1] == s[i]
  {
    if i < |s| - 1 {
      LastOfWhere(s[..|s| - 1], p, i);
    }
  }

  function Places<T>(s: seq<T>, p: T -> bool): set<nat> {
    set i: nat | i < |s| && p(s[i])
  }

  lemma {:induction false} WhereCounts<T(!new)>(s: seq<T>, p: T -> bool)
    ensures |Where(s, p)| == |Places(s, p)|
  {
    if s != [] {
      var n := |s| - 1;
      WhereCounts(s[..n], p);
      assert Places(s, p) == Places(s[..n], p) + if p(s[n]) then {n} else {};
    }
  }

  // ---- a learning item --------------------------------------------------------------------------------------------------

  ghost predicate IsViewing(db: Stored, student: Id, id: Id, i: int) {
    0 <= i < |db.viewings| && db.viewings[i].student == student && db.viewings[i].item == id
  }

  /** An item the learner has no row of is to do. */
  lemma {:induction false} UnseenIsTodo(db: Stored, student: Id, id: Id)
    requires forall i :: !IsViewing(db, student, id, i)
    ensures LearningOf(db, student, id) == LearningProgress(id, Todo, 0)
  {
    var own := Where(db.viewings, (v: Viewing) => v.student == student && v.item == id);
    if own != [] {
      WhereHas(db.viewings, (v: Viewing) => v.student == student && v.item == id, own[0]);
      var i :| 0 <= i < |db.viewings| && db.viewings[i] == own[0];
      assert IsViewing(db, student, id, i);
    }
  }

  /**
   * An item is done once it was viewed to its end, and shows as whole; before that it is in progress
   * from the first percent on, and shows the percentage reached, held between 0 and 100.
   */
  lemma {:induction false} LearningShows(db: Stored, student: Id, id: Id, i: nat)
    requires IsViewing(db, student, id, i) && forall j :: i < j ==> !IsViewing(db, student, id, j)
    ensures var (row, shown) := (db.viewings[i], LearningOf(db, student, id));
            && shown.id == id
            && (shown.status == Done <==> row.viewed > 0)
            && (shown.status == InProgress <==> row.viewed == 0 && row.percentage > 0)
            && (row.viewed > 0 || row.percentage >= 100 ==> shown.percentage == 100)
            && (row.viewed == 0 && 0 <= row.percentage <= 100 ==> shown.percentage == row.percentage)
            && (row.viewed == 0 && row.percentage <= 0 ==> shown.percentage == 0)
  {
    forall j | i < j < |db.viewings| ensures !(db.viewings[j].student == student && db.viewings[j].item == id) {
      assert !IsViewing(db, student, id, j);
    }
    LastOfWhere(db.viewings, (v: Viewing) => v.student == student && v.item == id, i);
  }

  // ---- a quiz and a practice ----------------------------------------------------------------------------------------------

  predicate IsAttempt(a: Attempt, student: Id, kind: Kind, id: Id) {
    a.student == student && a.kind == kind && a.activity == id
  }

  lemma {:induction false} AttemptsAre(db: Stored, student: Id, kind: Kind, id: Id)
    ensures forall a :: a in AttemptsOf(db, student, kind, id) <==> a in db.attempts && IsAttempt(a, student, kind, id)
    ensures |AttemptsOf(db, student, kind, id)|
      == |set i: nat | i < |db.attempts| && IsAttempt(db.attempts[i], student, kind, id)|
  {
    var p := (a: Attempt) => a.student == student && a.kind == kind && a.activity == id;
    forall a ensures a in Where(db.attempts, p) <==> a in db.attempts && IsAttempt(a, student, kind, id) {
      WhereHas(db.attempts, p, a);
    }
    WhereCounts(db.attempts, p);
    assert Places(db.attempts, p) == set i: nat | i < |db.attempts| && IsAttempt(db.attempts[i], student, kind, id);
  }

  lemma {:induction false} QuestionsAre(questions: seq<Question>, id: Id)
    ensures |QuestionsOf(questions, id)| == |set i: nat | i < |questions| && questions[i].active && questions[i].activity == id|
  {
    var p := (q: Question) => q.active && q.activity == id;
    WhereCounts(questions, p);
    assert Places(questions, p) == set i: nat | i < |questions| && questions[i].active && questions[i].activity == id;
  }

  lemma {:induction false} BestPercentageIsOne(own: seq<Attempt>)
    requires own != []
    ensures exists a :: a in own && a.percentage == BestPercentage(own)
    ensures forall a :: a in own ==> a.percentage <= BestPercentage(own)
  {
    var before, last := own[..|own| - 1], own[|own| - 1];
    assert own == before + [last] && last in own;
    if before != [] {
      BestPercentageIsOne(before);
    }
  }

  /**
   * A quiz is done when one of the learner's attempts at it reached 80 percent, in progress when
   * there are attempts and none did, and to do before the first; it shows how many there are, the
   * highest percentage among them, and its active questions.
   */
  lemma {:induction false} QuizShows(db: Stored, student: Id, id: Id)
    ensures var shown := QuizOf(db, student, id);
            && shown.id == id
            && (shown.status == Done <==> exists a :: a in db.attempts && IsAttempt(a, student, Quiz, id) && a.percentage >= 8000)
            && (shown.status == Todo <==> forall a :: a in db.attempts ==> !IsAttempt(a, student, Quiz, id))
            && shown.attempts == |set i: nat | i < |db.attempts| && IsAttempt(db.attempts[i], student, Quiz, id)|
            && (shown.best.None? <==> shown.status == Todo)
            && (shown.best.Some? ==> (exists a :: a in db.attempts && IsAttempt(a, student, Quiz, id) && a.percentage == shown.best.value))
            && (shown.best.Some? ==> forall a :: a in db.attempts && IsAttempt(a, student, Quiz, id) ==> a.percentage <= shown.best.value)
            && shown.questions == |set i: nat | i < |db.quizQuestions| && db.quizQuestions[i].active && db.quizQuestions[i].activity == id|
  {
    var own := AttemptsOf(db, student, Quiz, id);
    AttemptsAre(db, student, Quiz, id);
    QuestionsAre(db.quizQuestions, id);
    BestReaches(own, 8000);
    if own != [] {
      assert own[0] in own;
      BestPercentageIsOne(own);
    }
  }

  /**
   * A practice is done when an attempt holds 79.995 percent of the questions it has now, or when it
   * was attempted and has none left; with questions left, the percentage shown is that of the most
   * marks of an attempt, to the nearest hundredth and at most 100.
   */
  lemma {:induction false} PracticeShows(db: Stored, student: Id, id: Id)
    ensures var shown := PracticeOf(db, student, id);
            && shown.id == id
            && shown.questions
               == |set i: nat | i < |db.practiceQuestions| && db.practiceQuestions[i].active && db.practiceQuestions[i].activity == id|
            && shown.attempts == |set i: nat | i < |db.attempts| && IsAttempt(db.attempts[i], student, Practice, id)|
            && (shown.status == Done
                <==> exists a :: a in db.attempts && IsAttempt(a, student, Practice, id) && 20000 * a.marks >= 15999 * shown.questions)
            && (shown.status == Todo <==> forall a :: a in db.attempts ==> !IsAttempt(a, student, Practice, id))
            && (shown.best.Some? <==> shown.status != Todo && shown.questions > 0)
  {
    var own := AttemptsOf(db, student, Practice, id);
    AttemptsAre(db, student, Practice, id);
    QuestionsAre(db.practiceQuestions, id);
    if own != [] {
      assert own[0] in own;
      BestIsOne(own);
      PassReaches(BestMarks(own), |QuestionsOf(db.practiceQuestions, id)|);
    }
  }

  /** The percentage a practice shows: the nearest hundredth of its best marks, never above 100. */
  lemma {:induction false} PracticeBestShows(db: Stored, student: Id, id: Id, a: Attempt)
    requires a in db.attempts && IsAttempt(a, student, Practice, id) && PracticeOf(db, student, id).questions > 0
    requires forall b :: b in db.attempts && IsAttempt(b, student, Practice, id) ==> b.marks <= a.marks
    ensures var (n, best) := (PracticeOf(db, student, id).questions, PracticeOf(db, student, id).best);
            && best.Some?
            && (if a.marks >= n then best.value == 10000
                else 2 * n * best.value <= 20000 * a.marks + n < 2 * n * (best.value + 1))
  {
    var own := AttemptsOf(db, student, Practice, id);
    AttemptsAre(db, student, Practice, id);
    BestIsOne(own);
    assert BestMarks(own) == a.marks;
    var n := |QuestionsOf(db.practiceQuestions, id)|;
    RoundedIsNearest(a.marks, n);
    WholeIsCapped(a.marks, n);
  }

  lemma {:induction false} WholeIsCapped(marks: nat, n: nat)
    requires n > 0
    ensures if marks >= n then RoundedPercent(marks, n) >= 10000 else RoundedPercent(marks, n) <= 10000
  {
    DivAtLeast(20000 * marks + n, 2 * n, 10000);
    DivAtLeast(20000 * marks + n, 2 * n, 10001);
  }

  // ---- a lesson ---------------------------------------------------------------------------------------------------------

  predicate IsActive(items: seq<Item>, lesson: Id, i: int) {
    0 <= i < |items| && items[i].active && items[i].lesson == lesson
  }

  lemma {:induction false} ActiveAre(items: seq<Item>, lesson: Id, id: Id)
    ensures (exists x :: x in ActiveIn(items, lesson) && x.id == id) <==> exists i :: IsActive(items, lesson, i) && items[i].id == id
  {
    forall x: Item ensures x in ActiveIn(items, lesson) <==> x in items && x.active && x.lesson == lesson {
      WhereHas(items, (x: Item) => x.active && x.lesson == lesson, x);
    }
    forall i | IsActive(items, lesson, i) ensures items[i] in ActiveIn(items, lesson) {
      assert items[i] in items;
    }
    forall x | x in ActiveIn(items, lesson) ensures exists i :: IsActive(items, lesson, i) && items[i] == x {
      var i :| 0 <= i < |items| && items[i] == x;
      assert IsActive(items, lesson, i);
    }
  }

  lemma {:induction false} EachHas<T(!new)>(items: seq<Item>, f: Id -> T, y: T)
    ensures y in Each(items, f) <==> exists x :: x in items && f(x.id) == y
  {
    if y in Each(items, f) {
      var i :| 0 <= i < |items| && Each(items, f)[i] == y;
      assert items[i] in items;
    }
    forall x | x in items && f(x.id) == y ensures y in Each(items, f) {
      var i :| 0 <= i < |items| && items[i] == x;
      assert Each(items, f)[i] == y;
    }
  }

  /** A lesson lists exactly its own switched-on learning items, each with what the learner's rows say of it. */
  lemma {:induction false} LessonListsLearnings(db: Stored, student: Id, lesson: Id, l: LearningProgress)
    ensures l in ActivitiesOf(db, student, lesson).learnings
      <==> exists i :: IsActive(db.learnings, lesson, i) && l == LearningOf(db, student, db.learnings[i].id)
  {
    EachHas(ActiveIn(db.learnings, lesson), id => LearningOf(db, student, id), l);
    ActiveAre(db.learnings, lesson, l.id);
  }

  /** And so its practices. */
  lemma {:induction false} LessonListsPractices(db: Stored, student: Id, lesson: Id, a: AttemptProgress)
    ensures a in ActivitiesOf(db, student, lesson).practices
      <==> exists i :: IsActive(db.practices, lesson, i) && a == PracticeOf(db, student, db.practices[i].id)
  {
    EachHas(ActiveIn(db.practices, lesson), id => PracticeOf(db, student, id), a);
    ActiveAre(db.practices, lesson, a.id);
  }

  /** And its quizzes. */
  lemma {:induction false} LessonListsQuizzes(db: Stored, student: Id, lesson: Id, a: AttemptProgress)
    ensures a in ActivitiesOf(db, student, lesson).quizzes
      <==> exists i :: IsActive(db.quizzes, lesson, i) && a == QuizOf(db, student, db.quizzes[i].id)
  {
    EachHas(ActiveIn(db.quizzes, lesson), id => QuizOf(db, student, id), a);
    ActiveAre(db.quizzes, lesson, a.id);
  }
}
