/**
 * Who may see which content: the guard that follows one id up to its curriculum, and the lists that
 * go down from the curricula in scope, agree on every id of every kind.
 */
module ContentAccess {
  import opened Wrappers

  type Id = string

  datatype Level = Level(grade: Option<Id>, on: bool)

  /** A learning item or a plan: the lesson it is of and the document it uses. */
  datatype Use = Use(lesson: Option<Id>, document: Option<Id>)

  datatype School = School(owner: Option<Id>, curriculums: set<Id>)

  /** The tables: owners, parents, uses of documents, and the lists of schools and learners. */
  datatype Database = Database(
    curriculums: map<Id, Option<Id>>, grades: map<Id, Option<Id>>, levels: map<Id, Level>, lessons: map<Id, Option<Id>>,
    learnings: map<Id, Use>, plans: map<Id, Use>, links: set<(Id, Id)>,
    practices: map<Id, Option<Id>>, quizzes: map<Id, Option<Id>>,
    practiceQuestions: map<Id, Option<Id>>, quizQuestions: map<Id, Option<Id>>, levelQuestions: map<Id, Option<Id>>,
    baselines: map<Id, Option<Id>>, baselineQuestions: map<Id, Option<Id>>,
    documents: map<Id, Option<Id>>, schools: map<Id, School>, students: map<Id, set<Id>>)

  datatype Kind =
    | CurriculumKind | GradeKind | LevelKind | LessonKind | LearningKind | PlanKind | PracticeKind | QuizKind
    | BaselineKind | PracticeQuestionKind | QuizQuestionKind | LevelQuestionKind | BaselineQuestionKind | DocumentKind

  datatype Token = Token(organisation: Option<Id>, school: Option<Id>, staff: bool, student: Option<Id>)

  // ---- up: the curricula of a piece of content ----------------------------------------------------------------------

  function Parent(table: map<Id, Option<Id>>, id: Option<Id>): Option<Id> {
    if id.Some? && id.value in table then table[id.value] else None
  }

  function Only(id: Option<Id>): set<Id> {
    if id.Some? then {id.value} else {}
  }

  function OfLevel(db: Database, level: Option<Id>, liveOnly: bool): set<Id> {
    if level.None? || level.value !in db.levels then {}
    else if liveOnly && !db.levels[level.value].on then {}
    else Only(Parent(db.grades, db.levels[level.value].grade))
  }

  function OfLesson(db: Database, lesson: Option<Id>, liveOnly: bool): set<Id> {
    OfLevel(db, Parent(db.lessons, lesson), liveOnly)
  }

  /** The lessons whose learning items, directly or by a link, or whose plans use a document. */
  function UsingLessons(db: Database, document: Id): set<Id> {
    (set l | l in db.learnings && db.learnings[l].lesson.Some?
             && (db.learnings[l].document == Some(document) || (l, document) in db.links) :: db.learnings[l].lesson.value)
    + (set p | p in db.plans && db.plans[p].lesson.Some? && db.plans[p].document == Some(document) :: db.plans[p].lesson.value)
  }

  function OfDocument(db: Database, document: Id, liveOnly: bool): set<Id> {
    set lesson, c | lesson in UsingLessons(db, document) && c in OfLesson(db, Some(lesson), liveOnly) :: c
  }

  function CurriculumIdsOf(db: Database, kind: Kind, id: Id, liveOnly: bool): set<Id> {
    match kind
    case CurriculumKind => if id in db.curriculums then {id} else {}
    case GradeKind => Only(Parent(db.grades, Some(id)))
    case LevelKind => OfLevel(db, Some(id), liveOnly)
    case LessonKind => OfLesson(db, Some(id), liveOnly)
    case LearningKind => if id in db.learnings then OfLesson(db, db.learnings[id].lesson, liveOnly) else {}
    case PlanKind => if id in db.plans then OfLesson(db, db.plans[id].lesson, liveOnly) else {}
    case PracticeKind => OfLesson(db, Parent(db.practices, Some(id)), liveOnly)
    case QuizKind => OfLesson(db, Parent(db.quizzes, Some(id)), liveOnly)
    case PracticeQuestionKind => OfLesson(db, Parent(db.practices, Parent(db.practiceQuestions, Some(id))), liveOnly)
    case QuizQuestionKind => OfLesson(db, Parent(db.quizzes, Parent(db.quizQuestions, Some(id))), liveOnly)
    case LevelQuestionKind => OfLevel(db, Parent(db.levelQuestions, Some(id)), liveOnly)
    case BaselineKind => Only(Parent(db.baselines, Some(id)))
    case BaselineQuestionKind => Only(Parent(db.baselines, Parent(db.baselineQuestions, Some(id))))
    case DocumentKind => OfDocument(db, id, liveOnly)
  }

  // ---- the curricula in scope -----------------------------------------------------------------------------------------

  function CurriculaInScope(db: Database, organisation: Id, listed: Option<set<Id>>, candidates: set<Id>): set<Id> {
    set c | c in candidates && c in db.curriculums && db.curriculums[c] == Some(organisation) && (listed.None? || c in listed.value)
  }

  function SchoolList(db: Database, organisation: Id, school: Id): set<Id> {
    if school in db.schools && db.schools[school].owner == Some(organisation) then db.schools[school].curriculums else {}
  }

  function LearnerList(db: Database, student: Option<Id>): set<Id> {
    if student.Some? && student.value in db.students then db.students[student.value] else {}
  }

  /** A token with no organisation or school claim is nobody's. */
  predicate IsCaller(u: Token) {
    u.organisation.Some? && u.school.Some?
  }

  function CurriculumIdsInScope(db: Database, u: Token): set<Id> {
    if !IsCaller(u) then {}
    else
      var candidates := if u.staff then SchoolList(db, u.organisation.value, u.school.value) else LearnerList(db, u.student);
      CurriculaInScope(db, u.organisation.value, None, candidates)
  }

  function EnrolledCurriculumIds(db: Database, u: Token): set<Id> {
    if !IsCaller(u) then {}
    else
      var listed := if u.staff then Some(SchoolList(db, u.organisation.value, u.school.value)) else None;
      CurriculaInScope(db, u.organisation.value, listed, LearnerList(db, u.student))
  }

  // ---- down: the lists ---------------------------------------------------------------------------------------------

  function GradeIdsInScope(db: Database, u: Token): set<Id> {
    set g | g in db.grades && db.grades[g].Some? && db.grades[g].value in CurriculumIdsInScope(db, u)
  }

  function LiveLevelsOf(levels: map<Id, Level>, grades: set<Id>): set<Id> {
    set l | l in levels && levels[l].on && levels[l].grade.Some? && levels[l].grade.value in grades
  }

  function LevelIdsInScope(db: Database, u: Token): set<Id> {
    LiveLevelsOf(db.levels, GradeIdsInScope(db, u))
  }

  // ---- the guard -----------------------------------------------------------------------------------------------------

  function CanAccessContent(db: Database, u: Token, kind: Kind, id: Id): bool {
    IsCaller(u)
    && var own := CurriculumIdsOf(db, kind, id, true);
    && own * CurriculumIdsInScope(db, u) != {}
    && (kind == DocumentKind ==> Parent(db.documents, Some(id)) == u.organisation)
  }

  // ---- what it comes to ------------------------------------------------------------------------------------------------

  /** The kinds that hang from a level. */
  predicate HangsFromLevel(kind: Kind) {
    kind !in {CurriculumKind, GradeKind, BaselineKind, BaselineQuestionKind}
  }

  /** The lesson a row is of: its own, or that of the activity it belongs to; for a document, any that uses it. */
  ghost predicate OfLessonId(db: Database, kind: Kind, id: Id, lesson: Id) {
    match kind
    case LessonKind => id == lesson
    case LearningKind => id in db.learnings && db.learnings[id].lesson == Some(lesson)
    case PlanKind => id in db.plans && db.plans[id].lesson == Some(lesson)
    case PracticeKind => Parent(db.practices, Some(id)) == Some(lesson)
    case QuizKind => Parent(db.quizzes, Some(id)) == Some(lesson)
    case PracticeQuestionKind =>
      exists p :: Parent(db.practiceQuestions, Some(id)) == Some(p) && Parent(db.practices, Some(p)) == Some(lesson)
    case QuizQuestionKind =>
      exists q :: Parent(db.quizQuestions, Some(id)) == Some(q) && Parent(db.quizzes, Some(q)) == Some(lesson)
    case DocumentKind => lesson in UsingLessons(db, id)
    case _ => false
  }

  predicate LessonIsUnder(db: Database, lesson: Id, level: Id) {
    Parent(db.lessons, Some(lesson)) == Some(level)
  }

  ghost predicate IsUnder(db: Database, kind: Kind, id: Id, level: Id) {
    match kind
    case LevelKind => id == level
    case LevelQuestionKind => Parent(db.levelQuestions, Some(id)) == Some(level)
    case _ => exists lesson :: OfLessonId(db, kind, id, lesson) && LessonIsUnder(db, lesson, level)
  }

  predicate OwnerAllows(db: Database, u: Token, kind: Kind, id: Id) {
    kind == DocumentKind ==> Parent(db.documents, Some(id)) == u.organisation
  }

  lemma {:induction false} LevelIsListed(db: Database, u: Token, level: Id)
    ensures level in LevelIdsInScope(db, u) <==> OfLevel(db, Some(level), true) * CurriculumIdsInScope(db, u) != {}
  {
    if level in db.levels {
      var up := Parent(db.grades, db.levels[level].grade);
      if db.levels[level].on && up.Some? {
        assert OfLevel(db, Some(level), true) == {up.value};
        assert up.value in CurriculumIdsInScope(db, u) ==> up.value in {up.value} * CurriculumIdsInScope(db, u);
      }
    }
  }

  /** Up from an id of a kind below a level: the curricula of the live levels it is under. */
  lemma {:induction false} CurriculaAreOfLevels(db: Database, kind: Kind, id: Id, c: Id)
    requires HangsFromLevel(kind)
    ensures c in CurriculumIdsOf(db, kind, id, true)
      <==> exists level :: IsUnder(db, kind, id, level) && c in OfLevel(db, Some(level), true)
  {
    if kind == LevelKind {
      assert IsUnder(db, kind, id, id);
    } else if kind == LevelQuestionKind {
      var level := Parent(db.levelQuestions, Some(id));
      assert level.Some? ==> IsUnder(db, kind, id, level.value);
    } else {
      CurriculaAreOfLessons(db, kind, id, c);
      forall lesson | OfLessonId(db, kind, id, lesson) && c in OfLesson(db, Some(lesson), true)
        ensures exists level :: IsUnder(db, kind, id, level) && c in OfLevel(db, Some(level), true)
      {
        assert LessonIsUnder(db, lesson, Parent(db.lessons, Some(lesson)).value);
        assert IsUnder(db, kind, id, Parent(db.lessons, Some(lesson)).value);
      }
    }
  }

  lemma {:induction false} CurriculaAreOfLessons(db: Database, kind: Kind, id: Id, c: Id)
    requires HangsFromLevel(kind) && kind != LevelKind && kind != LevelQuestionKind
    ensures c in CurriculumIdsOf(db, kind, id, true)
      <==> exists lesson :: OfLessonId(db, kind, id, lesson) && c in OfLesson(db, Some(lesson), true)
  {
    if c in CurriculumIdsOf(db, kind, id, true) && kind != DocumentKind {
      var lesson :=
        match kind
        case LearningKind => db.learnings[id].lesson
        case PlanKind => db.plans[id].lesson
        case PracticeKind => Parent(db.practices, Some(id))
        case QuizKind => Parent(db.quizzes, Some(id))
        case PracticeQuestionKind => Parent(db.practices, Parent(db.practiceQuestions, Some(id)))
        case QuizQuestionKind => Parent(db.quizzes, Parent(db.quizQuestions, Some(id)))
        case _ => Some(id);
      assert OfLessonId(db, kind, id, lesson.value);
    }
  }

  /**
   * The guard and the lists agree: content below a level can be opened exactly when it is under a
   * level that is listed (and, for a document, when it is the organisation's own).
   */
  lemma {:induction false} GuardAgreesWithLevels(db: Database, u: Token, kind: Kind, id: Id)
    requires HangsFromLevel(kind)
    ensures CanAccessContent(db, u, kind, id)
      <==> OwnerAllows(db, u, kind, id) && exists level :: IsUnder(db, kind, id, level) && level in LevelIdsInScope(db, u)
  {
    var own, visible := CurriculumIdsOf(db, kind, id, true), CurriculumIdsInScope(db, u);
    if own * visible != {} {
      var c :| c in own * visible;
      CurriculaAreOfLevels(db, kind, id, c);
      var level :| IsUnder(db, kind, id, level) && c in OfLevel(db, Some(level), true);
      LevelIsListed(db, u, level);
      assert c in OfLevel(db, Some(level), true) * visible;
    }
    forall level | IsUnder(db, kind, id, level) && level in LevelIdsInScope(db, u) ensures own * visible != {} {
      LevelIsListed(db, u, level);
      var c :| c in OfLevel(db, Some(level), true) * visible;
      CurriculaAreOfLevels(db, kind, id, c);
      assert c in own * visible;
    }
  }

  /**
   * Above the levels too: a curriculum and a grade can be opened exactly when they are listed,
   * baseline content when its curriculum is.
   */
  lemma {:induction false} GuardAgreesAboveLevels(db: Database, u: Token, id: Id)
    ensures CanAccessContent(db, u, CurriculumKind, id) <==> id in CurriculumIdsInScope(db, u)
    ensures CanAccessContent(db, u, GradeKind, id) <==> id in GradeIdsInScope(db, u)
    ensures CanAccessContent(db, u, BaselineKind, id)
      <==> exists c :: Parent(db.baselines, Some(id)) == Some(c) && c in CurriculumIdsInScope(db, u)
    ensures CanAccessContent(db, u, BaselineQuestionKind, id)
      <==> exists b :: Parent(db.baselineQuestions, Some(id)) == Some(b) && CanAccessContent(db, u, BaselineKind, b)
  {
    var visible := CurriculumIdsInScope(db, u);
    forall up: Option<Id> ensures Only(up) * visible != {} <==> up.Some? && up.value in visible {
      assert up.Some? && up.value in visible ==> up.value in Only(up) * visible;
    }
    assert CurriculumIdsOf(db, CurriculumKind, id, true) == Only(if id in db.curriculums then Some(id) else None);
  }

  /** Whatever can be opened belongs to a curriculum the token's organisation owns and its holder has now. */
  lemma {:induction false} AccessIsOwnedAndCurrent(db: Database, u: Token, kind: Kind, id: Id)
    requires CanAccessContent(db, u, kind, id)
    ensures exists c :: c in CurriculumIdsOf(db, kind, id, true) && c in db.curriculums && db.curriculums[c] == u.organisation
                        && c in (if u.staff then SchoolList(db, u.organisation.value, u.school.value) else LearnerList(db, u.student))
  {
    var c :| c in CurriculumIdsOf(db, kind, id, true) * CurriculumIdsInScope(db, u);
  }

  /** No piece of content can be opened by holders of two organisations' tokens, a document used in both included. */
  lemma {:induction false} ContentIsOneOrganisations(db: Database, u: Token, v: Token, kind: Kind, id: Id)
    requires CanAccessContent(db, u, kind, id) && CanAccessContent(db, v, kind, id)
    ensures u.organisation == v.organisation
  {
    if kind != DocumentKind {
      AccessIsOwnedAndCurrent(db, u, kind, id);
      AccessIsOwnedAndCurrent(db, v, kind, id);
    }
  }

  /**
   * A learner's enrolled curricula are all they can see; for staff with a learner record they are the
   * ones of it among those.
   */
  lemma {:induction false} EnrolledIsInScope(db: Database, u: Token)
    ensures EnrolledCurriculumIds(db, u)
      == if u.staff then CurriculumIdsInScope(db, u) * LearnerList(db, u.student) else CurriculumIdsInScope(db, u)
  {
  }

  function SwitchedOff(db: Database, level: Id): Database {
    if level in db.levels then db.(levels := db.levels[level := db.levels[level].(on := false)]) else db
  }

  lemma {:induction false} ScopeSwitchedOff(db: Database, u: Token, off: Id)
    ensures CurriculumIdsInScope(SwitchedOff(db, off), u) == CurriculumIdsInScope(db, u)
  {
    var after := SwitchedOff(db, off);
    assert after.curriculums == db.curriculums && after.schools == db.schools && after.students == db.students;
    if IsCaller(u) {
      var candidates := if u.staff then SchoolList(db, u.organisation.value, u.school.value) else LearnerList(db, u.student);
      assert CurriculaInScope(after, u.organisation.value, None, candidates) == CurriculaInScope(db, u.organisation.value, None, candidates);
    }
  }

  lemma {:induction false} GradesSwitchedOff(db: Database, u: Token, off: Id)
    ensures GradeIdsInScope(SwitchedOff(db, off), u) == GradeIdsInScope(db, u)
  {
    ScopeSwitchedOff(db, u, off);
  }

  lemma {:induction false} LiveWithout(levels: map<Id, Level>, grades: set<Id>, off: Id)
    requires off in levels
    ensures LiveLevelsOf(levels[off := levels[off].(on := false)], grades) == LiveLevelsOf(levels, grades) - {off}
  {
  }

  lemma {:induction false} ListsSwitchedOff(db: Database, u: Token, off: Id)
    ensures LevelIdsInScope(SwitchedOff(db, off), u) == LevelIdsInScope(db, u) - {off}
  {
    GradesSwitchedOff(db, u, off);
    if off in db.levels {
      LiveWithout(db.levels, GradeIdsInScope(db, u), off);
    }
  }

  lemma {:induction false} UnderSwitchedOff(db: Database, kind: Kind, id: Id, off: Id, level: Id)
    ensures IsUnder(SwitchedOff(db, off), kind, id, level) <==> IsUnder(db, kind, id, level)
  {
    var after := SwitchedOff(db, off);
    forall lesson
      ensures OfLessonId(after, kind, id, lesson) && LessonIsUnder(after, lesson, level)
        <==> OfLessonId(db, kind, id, lesson) && LessonIsUnder(db, lesson, level)
    {
      if kind == DocumentKind {
        assert UsingLessons(after, id) == UsingLessons(db, id);
      }
    }
  }

  /** Switching a level off takes away, for every token, exactly what hangs from it and from no other level in scope. */
  lemma {:induction false} SwitchingOffHides(db: Database, u: Token, kind: Kind, id: Id, off: Id)
    requires HangsFromLevel(kind)
    ensures CanAccessContent(SwitchedOff(db, off), u, kind, id)
      <==> OwnerAllows(db, u, kind, id) && exists level :: IsUnder(db, kind, id, level) && level in LevelIdsInScope(db, u) - {off}
  {
    var after := SwitchedOff(db, off);
    GuardAgreesWithLevels(after, u, kind, id);
    ListsSwitchedOff(db, u, off);
    forall level ensures IsUnder(after, kind, id, level) <==> IsUnder(db, kind, id, level) {
      UnderSwitchedOff(db, kind, id, off, level);
    }
    assert OwnerAllows(after, u, kind, id) == OwnerAllows(db, u, kind, id);
  }

  /** The loops of the document case: lessons that use it, each once, and their curricula into one set. */
  method DocumentCurricula(db: Database, document: Id, liveOnly: bool) returns (out: set<Id>)
    ensures out == OfDocument(db, document, liveOnly)
  {
    var rest := UsingLessons(db, document);
    ghost var gone: set<Id> := {};
    out := {};
    while rest != {}
      invariant gone + rest == UsingLessons(db, document) && gone !! rest
      invariant out == set lesson, c | lesson in gone && c in OfLesson(db, Some(lesson), liveOnly) :: c
      decreases rest
    {
      var lesson :| lesson in rest;
      out := out + OfLesson(db, Some(lesson), liveOnly);
      gone, rest := gone + {lesson}, rest - {lesson};
    }
  }
}
