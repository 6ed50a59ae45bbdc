/**
 * What a token opens, said from the tables alone: from an id of each kind, row by row, up to a
 * curriculum its organisation owns and its holder has now.
 */
module AccessGuarantees {
  import opened Wrappers
  import opened ContentAccess

  /** The token's organisation owns the curriculum, and the school's list (for staff) or the learner's own has it. */
  predicate Sees(db: Database, u: Token, c: Id) {
    && u.organisation.Some? && u.school.Some?
    && c in db.curriculums && db.curriculums[c] == u.organisation
    && (if u.staff
        then u.school.value in db.schools && db.schools[u.school.value].owner == u.organisation
             && c in db.schools[u.school.value].curriculums
        else u.student.Some? && u.student.value in db.students && c in db.students[u.student.value])
  }

  predicate GradeOpens(db: Database, u: Token, g: Id) {
    g in db.grades && db.grades[g].Some? && Sees(db, u, db.grades[g].value)
  }

  predicate LevelOpens(db: Database, u: Token, l: Id) {
    l in db.levels && db.levels[l].on && db.levels[l].grade.Some? && GradeOpens(db, u, db.levels[l].grade.value)
  }

  predicate LessonOpens(db: Database, u: Token, lesson: Option<Id>) {
    lesson.Some? && lesson.value in db.lessons && db.lessons[lesson.value].Some? && LevelOpens(db, u, db.lessons[lesson.value].value)
  }

  /** The row names a parent in its table. */
  predicate Names(table: map<Id, Option<Id>>, id: Id, parent: Id) {
    id in table && table[id] == Some(parent)
  }

  // ---- the lists ----------------------------------------------------------------------------------------------------------

  lemma {:induction false} ScopeIs(db: Database, u: Token, c: Id)
    ensures c in CurriculumIdsInScope(db, u) <==> Sees(db, u, c)
  {
  }

  /** The lists of curricula, grades and levels, for a learner and for staff. */
  lemma {:induction false} ListsAre(db: Database, u: Token)
    ensures forall c :: c in CurriculumIdsInScope(db, u) <==> Sees(db, u, c)
    ensures forall g :: g in GradeIdsInScope(db, u) <==> GradeOpens(db, u, g)
    ensures forall l :: l in LevelIdsInScope(db, u) <==> LevelOpens(db, u, l)
  {
    forall c ensures c in CurriculumIdsInScope(db, u) <==> Sees(db, u, c) {
      ScopeIs(db, u, c);
    }
  }

  lemma {:induction false} LevelListed(db: Database, u: Token, l: Id)
    ensures l in LevelIdsInScope(db, u) <==> LevelOpens(db, u, l)
  {
    ListsAre(db, u);
  }

  // ---- the guard ------------------------------------------------------------------------------------------------------------

  /** Curricula and grades follow their curriculum, whatever levels are on. */
  lemma {:induction false} AboveLevelsOpens(db: Database, u: Token, id: Id)
    ensures CanAccessContent(db, u, CurriculumKind, id) <==> Sees(db, u, id)
    ensures CanAccessContent(db, u, GradeKind, id) <==> GradeOpens(db, u, id)
  {
    ListsAre(db, u);
    GuardAgreesAboveLevels(db, u, id);
  }

  lemma {:induction false} BaselineOpens(db: Database, u: Token, id: Id)
    ensures CanAccessContent(db, u, BaselineKind, id) <==> exists c :: Names(db.baselines, id, c) && Sees(db, u, c)
  {
    GuardAgreesAboveLevels(db, u, id);
    forall c ensures Names(db.baselines, id, c) && Sees(db, u, c) <==> Parent(db.baselines, Some(id)) == Some(c) && c in CurriculumIdsInScope(db, u) {
      ScopeIs(db, u, c);
    }
  }

  /** So does baseline content, a question through its baseline. */
  lemma {:induction false} BaselinesOpen(db: Database, u: Token, id: Id)
    ensures CanAccessContent(db, u, BaselineKind, id) <==> exists c :: Names(db.baselines, id, c) && Sees(db, u, c)
    ensures CanAccessContent(db, u, BaselineQuestionKind, id)
      <==> exists b, c :: Names(db.baselineQuestions, id, b) && Names(db.baselines, b, c) && Sees(db, u, c)
  {
    BaselineOpens(db, u, id);
    GuardAgreesAboveLevels(db, u, id);
    forall b ensures CanAccessContent(db, u, BaselineKind, b) <==> exists c :: Names(db.baselines, b, c) && Sees(db, u, c) {
      BaselineOpens(db, u, b);
    }
    forall b ensures Names(db.baselineQuestions, id, b) <==> Parent(db.baselineQuestions, Some(id)) == Some(b) {
    }
  }

  lemma {:induction false} UnderLesson(db: Database, u: Token, kind: Kind, id: Id)
    requires HangsFromLevel(kind) && kind != LevelKind && kind != LevelQuestionKind && kind != DocumentKind
    ensures CanAccessContent(db, u, kind, id) <==> exists lesson :: OfLessonId(db, kind, id, lesson) && LessonOpens(db, u, Some(lesson))
  {
    if CanAccessContent(db, u, kind, id) {
      LessonOfOpen(db, u, kind, id);
    }
    forall lesson | OfLessonId(db, kind, id, lesson) && LessonOpens(db, u, Some(lesson)) ensures CanAccessContent(db, u, kind, id) {
      OpenByLesson(db, u, kind, id, lesson);
    }
  }

  lemma {:induction false} LessonOfOpen(db: Database, u: Token, kind: Kind, id: Id)
    requires HangsFromLevel(kind) && kind != LevelKind && kind != LevelQuestionKind && CanAccessContent(db, u, kind, id)
    ensures exists lesson :: OfLessonId(db, kind, id, lesson) && LessonOpens(db, u, Some(lesson))
  {
    GuardAgreesWithLevels(db, u, kind, id);
    var level :| IsUnder(db, kind, id, level) && level in LevelIdsInScope(db, u);
    var lesson :| OfLessonId(db, kind, id, lesson) && LessonIsUnder(db, lesson, level);
    LevelListed(db, u, level);
    assert LessonOpens(db, u, Some(lesson));
  }

  lemma {:induction false} OpenByLesson(db: Database, u: Token, kind: Kind, id: Id, lesson: Id)
    requires HangsFromLevel(kind) && kind != LevelKind && kind != LevelQuestionKind && OwnerAllows(db, u, kind, id)
    requires OfLessonId(db, kind, id, lesson) && LessonOpens(db, u, Some(lesson))
    ensures CanAccessContent(db, u, kind, id)
  {
    GuardAgreesWithLevels(db, u, kind, id);
    LevelListed(db, u, db.lessons[lesson].value);
    assert LessonIsUnder(db, lesson, db.lessons[lesson].value);
    assert IsUnder(db, kind, id, db.lessons[lesson].value);
  }

  /** A level opens while it is on and its grade does; a lesson with its level; a level's question with its level. */
  lemma {:induction false} LevelsAndLessonsOpen(db: Database, u: Token, id: Id)
    ensures CanAccessContent(db, u, LevelKind, id) <==> LevelOpens(db, u, id)
    ensures CanAccessContent(db, u, LevelQuestionKind, id) <==> exists l :: Names(db.levelQuestions, id, l) && LevelOpens(db, u, l)
    ensures CanAccessContent(db, u, LessonKind, id) <==> LessonOpens(db, u, Some(id))
  {
    ListsAre(db, u);
    GuardAgreesWithLevels(db, u, LevelKind, id);
    GuardAgreesWithLevels(db, u, LevelQuestionKind, id);
    forall l ensures IsUnder(db, LevelQuestionKind, id, l) <==> Names(db.levelQuestions, id, l) {
    }
    UnderLesson(db, u, LessonKind, id);
    assert OfLessonId(db, LessonKind, id, id);
  }

  /** A learning item or plan opens with its lesson. */
  lemma {:induction false} LearningsAndPlansOpen(db: Database, u: Token, id: Id)
    ensures CanAccessContent(db, u, LearningKind, id) <==> id in db.learnings && LessonOpens(db, u, db.learnings[id].lesson)
    ensures CanAccessContent(db, u, PlanKind, id) <==> id in db.plans && LessonOpens(db, u, db.plans[id].lesson)
  {
    UnderLesson(db, u, LearningKind, id);
    UnderLesson(db, u, PlanKind, id);
    if id in db.learnings && LessonOpens(db, u, db.learnings[id].lesson) {
      assert OfLessonId(db, LearningKind, id, db.learnings[id].lesson.value);
    }
    if id in db.plans && LessonOpens(db, u, db.plans[id].lesson) {
      assert OfLessonId(db, PlanKind, id, db.plans[id].lesson.value);
    }
  }

  /** So does a practice or a quiz. */
  lemma {:induction false} PracticesAndQuizzesOpen(db: Database, u: Token, id: Id)
    ensures CanAccessContent(db, u, PracticeKind, id) <==> id in db.practices && LessonOpens(db, u, db.practices[id])
    ensures CanAccessContent(db, u, QuizKind, id) <==> id in db.quizzes && LessonOpens(db, u, db.quizzes[id])
  {
    UnderLesson(db, u, PracticeKind, id);
    UnderLesson(db, u, QuizKind, id);
    if id in db.practices && LessonOpens(db, u, db.practices[id]) {
      assert OfLessonId(db, PracticeKind, id, db.practices[id].value);
    }
    if id in db.quizzes && LessonOpens(db, u, db.quizzes[id]) {
      assert OfLessonId(db, QuizKind, id, db.quizzes[id].value);
    }
  }

  /** And a question, with the lesson of the practice or quiz it is asked in. */
  lemma {:induction false} QuestionsOpen(db: Database, u: Token, id: Id)
    ensures CanAccessContent(db, u, PracticeQuestionKind, id)
      <==> exists p :: Names(db.practiceQuestions, id, p) && p in db.practices && LessonOpens(db, u, db.practices[p])
    ensures CanAccessContent(db, u, QuizQuestionKind, id)
      <==> exists q :: Names(db.quizQuestions, id, q) && q in db.quizzes && LessonOpens(db, u, db.quizzes[q])
  {
    UnderLesson(db, u, PracticeQuestionKind, id);
    UnderLesson(db, u, QuizQuestionKind, id);
    forall p | Names(db.practiceQuestions, id, p) && p in db.practices && LessonOpens(db, u, db.practices[p])
      ensures OfLessonId(db, PracticeQuestionKind, id, db.practices[p].value)
    {
      assert Parent(db.practiceQuestions, Some(id)) == Some(p) && Parent(db.practices, Some(p)) == db.practices[p];
    }
    forall q | Names(db.quizQuestions, id, q) && q in db.quizzes && LessonOpens(db, u, db.quizzes[q])
      ensures OfLessonId(db, QuizQuestionKind, id, db.quizzes[q].value)
    {
      assert Parent(db.quizQuestions, Some(id)) == Some(q) && Parent(db.quizzes, Some(q)) == db.quizzes[q];
    }
  }

  // ---- documents ----------------------------------------------------------------------------------------------------------

  /** A learning item that shows the document itself, or links it. */
  predicate LearningUses(db: Database, l: Id, document: Id) {
    l in db.learnings && (db.learnings[l].document == Some(document) || (l, document) in db.links)
  }

  predicate PlanUses(db: Database, p: Id, document: Id) {
    p in db.plans && db.plans[p].document == Some(document)
  }

  lemma {:induction false} UsingLessonsAre(db: Database, document: Id, lesson: Id)
    ensures lesson in UsingLessons(db, document)
      <==> (exists l :: LearningUses(db, l, document) && db.learnings[l].lesson == Some(lesson))
           || (exists p :: PlanUses(db, p, document) && db.plans[p].lesson == Some(lesson))
  {
  }

  /**
   * A document opens exactly when the token's organisation owns it and a lesson that opens uses it:
   * by a learning item that shows it or links it, or by a plan.
   */
  lemma {:induction false} DocumentsOpen(db: Database, u: Token, id: Id)
    ensures CanAccessContent(db, u, DocumentKind, id)
      <==> && id in db.documents && db.documents[id].Some? && db.documents[id] == u.organisation
           && ((exists l :: LearningUses(db, l, id) && LessonOpens(db, u, db.learnings[l].lesson))
               || (exists p :: PlanUses(db, p, id) && LessonOpens(db, u, db.plans[p].lesson)))
  {
    if CanAccessContent(db, u, DocumentKind, id) {
      LessonOfOpen(db, u, DocumentKind, id);
      var lesson :| OfLessonId(db, DocumentKind, id, lesson) && LessonOpens(db, u, Some(lesson));
      UsingLessonsAre(db, id, lesson);
    }
    if Parent(db.documents, Some(id)) == u.organisation {
      forall l | LearningUses(db, l, id) && LessonOpens(db, u, db.learnings[l].lesson) ensures CanAccessContent(db, u, DocumentKind, id) {
        UsingLessonsAre(db, id, db.learnings[l].lesson.value);
        OpenByLesson(db, u, DocumentKind, id, db.learnings[l].lesson.value);
      }
      forall p | PlanUses(db, p, id) && LessonOpens(db, u, db.plans[p].lesson) ensures CanAccessContent(db, u, DocumentKind, id) {
        UsingLessonsAre(db, id, db.plans[p].lesson.value);
        OpenByLesson(db, u, DocumentKind, id, db.plans[p].lesson.value);
      }
    }
  }
}
