/**
 * The planner that takes back lesson quiz credit no counted pass stands for: one learner's
 * rows in, changes out. The specification reads the attempts as a set, so it cannot depend
 * on the order the rows come in.
 */
module RecalcPlan {
  import opened Wrappers
  import opened SortedIds
  import opened ProgressRules

  datatype Attempt = Attempt(id: Id, quiz: Id, ispass: bool, verified: bool, points: Option<nat>, starttime: int)
  datatype Quiz = Quiz(lesson: Id, retired: bool)
  datatype Lesson = Lesson(level: Id, total: Option<nat>, passing: Option<nat>)
  datatype Level = Level(grade: Id, points: Option<nat>)
  datatype Grade = Grade(points: Option<nat>)

  /** A stored lesson, level or grade row of the learner. */
  datatype Progress = Progress(id: Id, points: Option<nat>, progress: Option<nat>, completed: bool)

  /** What is read for one learner. The attempts are a set: their order carries no meaning. */
  datatype Input = Input(
    needsVerified: bool,
    attempts: set<Attempt>,
    quizzes: map<Id, Quiz>,
    lessons: map<Id, Lesson>,
    levels: map<Id, Level>,
    grades: map<Id, Grade>,
    lessonRows: map<Id, Progress>,
    levelRows: map<Id, Progress>,
    gradeRows: map<Id, Progress>,
    practice: map<Id, nat>,
    learning: map<Id, nat>)

  datatype Update = Update(id: Id, points: nat, progress: nat, completed: bool)

  datatype Counts = Counts(
    quizzes: nat,
    withCountedPass: nat,
    withoutPass: nat,
    leftOnlyUncountedPass: nat,
    leftContentMissing: nat,
    leftUnusableTotal: nat,
    attemptRowsToZero: nat)

  datatype Plan = Plan(zeroRows: seq<Id>, lessonUpdates: seq<Update>, levelUpdates: seq<Update>, gradeUpdates: seq<Update>, counts: Counts)

  function Num(v: Option<nat>): nat {
    if v.Some? then v.value else 0
  }

  function NumAt(m: map<Id, nat>, k: Id): nat {
    if k in m then m[k] else 0
  }

  function ToSet<T>(s: seq<T>): set<T> {
    set x | x in s
  }

  // ---- the attempts of one quiz -------------------------------------------------------------------

  predicate IsCounted(a: Attempt, needsVerified: bool) {
    a.ispass && (!needsVerified || a.verified)
  }

  /** `a` comes before `b` in the newest-first order: later start, ties by the greater id. */
  predicate Newer(a: Attempt, b: Attempt) {
    a.starttime > b.starttime || (a.starttime == b.starttime && a.id.rank > b.id.rank)
  }

  function IdSet(attempts: set<Attempt>): set<Id> {
    set a | a in attempts :: a.id
  }

  ghost predicate UniqueIds(attempts: set<Attempt>) {
    forall a, b :: a in attempts && b in attempts && a.id == b.id ==> a == b
  }

  ghost predicate IsNewest(rows: set<Attempt>, a: Attempt) {
    a in rows && forall b :: b in rows && b != a ==> Newer(a, b)
  }

  ghost predicate IsOldest(rows: set<Attempt>, a: Attempt) {
    a in rows && forall b :: b in rows && b != a ==> Newer(b, a)
  }

  /** Two attempts under distinct ids are ordered one way or the other. */
  lemma {:induction false} NewerIsTotal(a: Attempt, b: Attempt)
    requires a.id != b.id
    ensures Newer(a, b) <==> !Newer(b, a)
  {
    assert a.id.rank == b.id.rank ==> a.id == b.id;
  }

  ghost function AttemptsAt(attempts: set<Attempt>, quiz: Id): set<Attempt> {
    set a | a in attempts && a.quiz == quiz
  }

  ghost function CountedOf(rows: set<Attempt>, needsVerified: bool): set<Attempt> {
    set a | a in rows && IsCounted(a, needsVerified)
  }

  /** The points of the newest attempt: what the app treats as credited while there is no pass. */
  ghost function NewestPoints(rows: set<Attempt>): nat {
    if a :| IsNewest(rows, a) then Num(a.points) else 0
  }

  ghost function OldestPoints(rows: set<Attempt>): nat {
    if a :| IsOldest(rows, a) then Num(a.points) else 0
  }

  /** The failed attempts that hold points. */
  ghost function Holding(rows: set<Attempt>): set<Attempt> {
    set a | a in rows && !a.ispass && Num(a.points) != 0
  }

  // ---- what becomes of a quiz -------------------------------------------------------------------------

  datatype Outcome = CountedPass | OnlyUncountedPass | ContentMissing | UnusableTotal | NoPass

  predicate Usable(total: Option<nat>) {
    ProgressPercent(0, total).Some?
  }

  ghost function OutcomeOf(input: Input, quiz: Id): Outcome {
    var rows := AttemptsAt(input.attempts, quiz);
    if exists a :: a in rows && IsCounted(a, input.needsVerified) then CountedPass
    else if exists a :: a in rows && a.ispass then OnlyUncountedPass
    else if !HasContent(input, quiz) then ContentMissing
    else if !TotalsUsable(input, input.quizzes[quiz].lesson) then UnusableTotal
    else NoPass
  }

  predicate LessonHasContent(input: Input, lesson: Id) {
    && lesson in input.lessons
    && input.lessons[lesson].level in input.levels
    && input.levels[input.lessons[lesson].level].grade in input.grades
  }

  predicate HasContent(input: Input, quiz: Id) {
    quiz in input.quizzes && LessonHasContent(input, input.quizzes[quiz].lesson)
  }

  predicate TotalsUsable(input: Input, lesson: Id)
    requires LessonHasContent(input, lesson)
  {
    var level := input.lessons[lesson].level;
    && Usable(input.lessons[lesson].total)
    && Usable(input.levels[level].points)
    && Usable(input.grades[input.levels[level].grade].points)
  }

  ghost function QuizIds(input: Input): set<Id> {
    set a | a in input.attempts :: a.quiz
  }

  /** What comes off a lesson for a quiz: its newest attempt's points when it has no pass of any kind. */
  ghost function HeldFor(input: Input, quiz: Id, lesson: Id): nat {
    if OutcomeOf(input, quiz) == NoPass && input.quizzes[quiz].lesson == lesson
    then NewestPoints(AttemptsAt(input.attempts, quiz)) else 0
  }

  /** The quiz credit a lesson keeps after the plan. */
  ghost function CreditFor(input: Input, quiz: Id, lesson: Id): nat {
    var rows := AttemptsAt(input.attempts, quiz);
    if !(quiz in input.quizzes && input.quizzes[quiz].lesson == lesson) then 0
    else match OutcomeOf(input, quiz)
      case CountedPass => OldestPoints(CountedOf(rows, input.needsVerified))
      case OnlyUncountedPass => NewestPoints(rows)
      case _ => 0
  }

  /** The attempts of a quiz that the plan sets to 0. */
  ghost function ZeroedFor(input: Input, quiz: Id): set<Attempt> {
    if OutcomeOf(input, quiz) in {CountedPass, NoPass} then Holding(AttemptsAt(input.attempts, quiz)) else {}
  }

  ghost function ZeroedIn(input: Input, quizzes: seq<Id>): set<Attempt> {
    set q, a | q in quizzes && a in ZeroedFor(input, q) :: a
  }

  ghost function Zeroed(input: Input): set<Attempt> {
    ZeroedIn(input, Sorted(QuizIds(input)))
  }

  ghost function HeldIn(input: Input, quizzes: seq<Id>, lesson: Id): nat {
    if quizzes == [] then 0
    else HeldIn(input, quizzes[..|quizzes| - 1], lesson) + HeldFor(input, quizzes[|quizzes| - 1], lesson)
  }

  ghost function CreditIn(input: Input, quizzes: seq<Id>, lesson: Id): nat {
    if quizzes == [] then 0
    else CreditIn(input, quizzes[..|quizzes| - 1], lesson) + CreditFor(input, quizzes[|quizzes| - 1], lesson)
  }

  /** The credit that comes off a lesson, and the credit it keeps. */
  ghost function Held(input: Input, lesson: Id): nat {
    HeldIn(input, Sorted(QuizIds(input)), lesson)
  }

  ghost function Credit(input: Input, lesson: Id): nat {
    CreditIn(input, Sorted(QuizIds(input)), lesson)
  }

  /** Only a lesson whose totals all give a percentage loses anything. */
  lemma {:induction false} HeldLessonIsUsable(input: Input, quizzes: seq<Id>, lesson: Id)
    requires HeldIn(input, quizzes, lesson) > 0
    ensures LessonHasContent(input, lesson) && TotalsUsable(input, lesson)
  {
    if HeldFor(input, quizzes[|quizzes| - 1], lesson) == 0 {
      HeldLessonIsUsable(input, quizzes[..|quizzes| - 1], lesson);
    }
  }

  // ---- the lessons, then the levels and grades -------------------------------------------------------------

  /** The lessons something comes off. */
  ghost function Lessons(input: Input): set<Id> {
    set l | l in input.lessons && Held(input, l) > 0
  }

  /** What the lesson's other parts add up to. */
  ghost function Rest(input: Input, lesson: Id): nat {
    NumAt(input.practice, lesson) + NumAt(input.learning, lesson) + Credit(input, lesson)
  }

  function Least2(a: int, b: int): int {
    if a < b then a else b
  }

  /** How far a lesson holding `stored` goes down when `amount` comes off and `rest` stays. */
  function ReductionOf(stored: nat, amount: nat, rest: nat): nat {
    Least2(amount, stored - Least2(stored, rest))
  }

  /** What the lesson's level and grade lose for it: the whole credit when the learner has no row for the lesson. */
  ghost function Reduction(input: Input, lesson: Id): nat {
    if lesson in input.lessonRows
    then ReductionOf(Num(input.lessonRows[lesson].points), Held(input, lesson), Rest(input, lesson))
    else Held(input, lesson)
  }

  ghost function LessonNext(input: Input, lesson: Id): nat
    requires lesson in input.lessonRows
  {
    Num(input.lessonRows[lesson].points) - Reduction(input, lesson)
  }

  predicate PassMarkReached(points: nat, lesson: Lesson) {
    LessonPassMark(lesson.passing, lesson.total).Some? && points >= LessonPassMark(lesson.passing, lesson.total).value
  }

  /** One row's change, or none when the row already holds it. */
  function Change(row: Progress, next: nat, percent: nat, completed: bool): seq<Update> {
    if next == Num(row.points) && percent == Num(row.progress) && completed == row.completed then []
    else [Update(row.id, next, percent, completed)]
  }

  ghost function LessonChange(input: Input, lesson: Id): seq<Update> {
    if lesson in input.lessonRows && lesson in input.lessons && Usable(input.lessons[lesson].total) then
      var next := LessonNext(input, lesson);
      Change(input.lessonRows[lesson], next, ProgressPercent(next, input.lessons[lesson].total).value,
             PassMarkReached(next, input.lessons[lesson]))
    else []
  }

  ghost function LessonChanges(input: Input, lessons: seq<Id>): seq<Update> {
    if lessons == [] then []
    else LessonChanges(input, lessons[..|lessons| - 1]) + LessonChange(input, lessons[|lessons| - 1])
  }

  /** What a level loses: the sum of its lessons' reductions. */
  ghost function LevelLoss(input: Input, lessons: seq<Id>, level: Id): nat {
    if lessons == [] then 0
    else
      var l := lessons[|lessons| - 1];
      LevelLoss(input, lessons[..|lessons| - 1], level)
      + if l in input.lessons && input.lessons[l].level == level then Reduction(input, l) else 0
  }

  ghost function GradeOf(input: Input, lesson: Id): Option<Id> {
    if lesson in input.lessons && input.lessons[lesson].level in input.levels
    then Some(input.levels[input.lessons[lesson].level].grade) else None
  }

  ghost function GradeLoss(input: Input, lessons: seq<Id>, grade: Id): nat {
    if lessons == [] then 0
    else
      var l := lessons[|lessons| - 1];
      GradeLoss(input, lessons[..|lessons| - 1], grade) + if GradeOf(input, l) == Some(grade) then Reduction(input, l) else 0
  }

  /** One level or grade row, floored at 0. */
  function Reduced(rows: map<Id, Progress>, key: Id, amount: nat, total: Option<nat>): seq<Update> {
    if amount == 0 || key !in rows || !Usable(total) then []
    else
      var next := if Num(rows[key].points) < amount then 0 else Num(rows[key].points) - amount;
      var percent := ProgressPercent(next, total).value;
      Change(rows[key], next, percent, PercentCompleted(percent))
  }

  ghost function LevelTotal(input: Input, level: Id): Option<nat> {
    if level in input.levels then input.levels[level].points else None
  }

  ghost function GradeTotal(input: Input, grade: Id): Option<nat> {
    if grade in input.grades then input.grades[grade].points else None
  }

  ghost function LevelChanges(input: Input, levels: seq<Id>): seq<Update> {
    if levels == [] then []
    else
      var v := levels[|levels| - 1];
      LevelChanges(input, levels[..|levels| - 1])
      + Reduced(input.levelRows, v, LevelLoss(input, Sorted(Lessons(input)), v), LevelTotal(input, v))
  }

  ghost function GradeChanges(input: Input, grades: seq<Id>): seq<Update> {
    if grades == [] then []
    else
      var g := grades[|grades| - 1];
      GradeChanges(input, grades[..|grades| - 1])
      + Reduced(input.gradeRows, g, GradeLoss(input, Sorted(Lessons(input)), g), GradeTotal(input, g))
  }

  ghost function Levels(input: Input): set<Id> {
    set l | l in Lessons(input) :: input.lessons[l].level
  }

  ghost function Grades(input: Input): set<Id> {
    set l | l in Lessons(input) && input.lessons[l].level in input.levels :: input.levels[input.lessons[l].level].grade
  }

  ghost function OutcomeCount(input: Input, quizzes: seq<Id>, outcome: Outcome): nat {
    if quizzes == [] then 0
    else
      OutcomeCount(input, quizzes[..|quizzes| - 1], outcome)
      + if OutcomeOf(input, quizzes[|quizzes| - 1]) == outcome then 1 else 0
  }

  /** Each quiz is in exactly one outcome counter, and every zeroed row is counted once. */
  ghost predicate CountsOf(input: Input, quizzes: seq<Id>, counts: Counts) {
    && counts.quizzes == |quizzes|
    && counts.withCountedPass == OutcomeCount(input, quizzes, CountedPass)
    && counts.withoutPass == OutcomeCount(input, quizzes, NoPass)
    && counts.leftOnlyUncountedPass == OutcomeCount(input, quizzes, OnlyUncountedPass)
    && counts.leftContentMissing == OutcomeCount(input, quizzes, ContentMissing)
    && counts.leftUnusableTotal == OutcomeCount(input, quizzes, UnusableTotal)
    && counts.quizzes == counts.withCountedPass + counts.withoutPass + counts.leftOnlyUncountedPass
                         + counts.leftContentMissing + counts.leftUnusableTotal
  }

  ghost predicate IsPlanOf(input: Input, plan: Plan) {
    && ToSet(plan.zeroRows) == IdSet(Zeroed(input))
    && plan.lessonUpdates == LessonChanges(input, Sorted(Lessons(input)))
    && plan.levelUpdates == LevelChanges(input, Sorted(Levels(input)))
    && plan.gradeUpdates == GradeChanges(input, Sorted(Grades(input)))
  }
}
