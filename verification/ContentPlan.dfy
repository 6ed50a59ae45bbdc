/**
 * The curriculum plan: a content file and what the database holds become steps, or a refusal.
 * Ids are symbolic: the derivation of the real ones is taken to give each row an id of its own.
 */
module ContentPlan {
  import opened Wrappers
  import opened Sums
  import opened PlanSteps

  const MAX_QUESTIONS_PER_SET: nat := 4
  const MAX_LESSONS: nat := 12
  const FIXED_LESSONS: nat := 4
  const POOL: nat := 7
  const LESSON_TOTAL_POINTS: nat := 100
  const LESSON_LEARNING_POINTS: nat := 20
  const LESSON_QUIZ_POINTS: nat := 40
  const LESSON_PRACTICE_POINTS: nat := 40
  const LESSON_PASS_POINTS: nat := 80
  const DEFAULT_QUIZ_POINTS: nat := 20

  // ---- the file -----------------------------------------------------------------------------------------

  datatype Bilingual = Bilingual(en: string, km: string)
  datatype Choice = Choice(text: Bilingual, correct: bool)
  datatype Asked = Asked(ident: string, text: Bilingual, options: seq<Choice>, correctMessage: Option<Bilingual>, incorrectMessage: Option<Bilingual>)

  /** `fixed` is the fixed lesson a Module 1 lesson names by its id; every other lesson goes by its order. */
  datatype Lesson = Lesson(fixed: Option<nat>, order: nat, name: Bilingual, keep: bool, filename: string, practice: seq<Asked>, quiz: seq<Asked>) {
    function Set(kind: Kind): seq<Asked> {
      match kind
      case PracticeKind => practice
      case QuizKind => quiz
    }

    function SlotOf(): Slot {
      if fixed.Some? then FixedSlot(fixed.value) else DerivedSlot(order)
    }
  }

  datatype Content = Content(number: nat, programme: Bilingual, name: Bilingual, lessons: seq<Lesson>)

  /** The slots of module `m`. */
  predicate IsSlot(m: nat, s: Slot) {
    match s
    case FixedSlot(n) => m == 1 && 1 <= n <= FIXED_LESSONS
    case DerivedSlot(n) => (if m == 1 then 2 else 1) <= n <= MAX_LESSONS
  }

  function CorrectCount(options: seq<Choice>): nat {
    if options == [] then 0
    else CorrectCount(options[..|options| - 1]) + if options[|options| - 1].correct then 1 else 0
  }

  predicate ValidQuestion(q: Asked) {
    2 <= |q.options| <= 8 && CorrectCount(q.options) == 1
  }

  predicate ValidLesson(m: nat, l: Lesson) {
    && IsSlot(m, l.SlotOf()) && l.order >= 1
    && |l.practice| <= MAX_QUESTIONS_PER_SET && |l.quiz| <= MAX_QUESTIONS_PER_SET
    && (forall j :: 0 <= j < |l.practice| ==> ValidQuestion(l.practice[j]))
    && (forall j :: 0 <= j < |l.quiz| ==> ValidQuestion(l.quiz[j]))
  }

  /** The questions of the lessons that draw from the seven fixed ids. */
  function Pooled(lessons: seq<Lesson>): nat {
    if lessons == [] then 0
    else Pooled(lessons[..|lessons| - 1]) + PooledIn(lessons[|lessons| - 1])
  }

  function PooledIn(l: Lesson): nat {
    if l.fixed.Some? then |l.practice| + |l.quiz| else 0
  }

  predicate DistinctLessons(lessons: seq<Lesson>) {
    forall i, j :: 0 <= i < j < |lessons| ==> lessons[i].order != lessons[j].order && lessons[i].SlotOf() != lessons[j].SlotOf()
  }

  predicate AllValid(m: nat, lessons: seq<Lesson>) {
    forall i :: 0 <= i < |lessons| ==> ValidLesson(m, lessons[i])
  }

  predicate Valid(c: Content) {
    && c.number >= 1 && c.lessons != []
    && AllValid(c.number, c.lessons) && DistinctLessons(c.lessons) && Pooled(c.lessons) <= POOL
  }

  // ---- placing the questions --------------------------------------------------------------------------------

  /** The lessons in order. */
  function InOrder(lessons: seq<Lesson>): seq<Lesson> {
    if lessons == [] then [] else InsertByOrder(InOrder(lessons[..|lessons| - 1]), lessons[|lessons| - 1])
  }

  function InsertByOrder(sorted: seq<Lesson>, l: Lesson): seq<Lesson> {
    if sorted == [] then [l]
    else if l.order < sorted[|sorted| - 1].order then InsertByOrder(sorted[..|sorted| - 1], l) + [sorted[|sorted| - 1]]
    else sorted + [l]
  }

  /** The id of a question: the next of the seven, or the slot's own for its place. */
  function IdOf(l: Lesson, kind: Kind, j: nat, next: nat): QuestionId {
    if l.fixed.Some? then PoolQuestion(next + (if kind == QuizKind then |l.practice| else 0) + j)
    else OwnQuestion(l.SlotOf(), kind, j)
  }

  datatype Placed = Placed(slot: Slot, kind: Kind, place: nat, question: Asked, id: QuestionId)

  function PlaceSet(l: Lesson, kind: Kind, next: nat, n: nat): seq<Placed>
    requires n <= |l.Set(kind)|
  {
    if n == 0 then []
    else PlaceSet(l, kind, next, n - 1) + [Placed(l.SlotOf(), kind, n - 1, l.Set(kind)[n - 1], IdOf(l, kind, n - 1, next))]
  }

  /** A lesson's placed questions: its practice, then its quiz. */
  function PlaceLesson(l: Lesson, next: nat): seq<Placed> {
    PlaceSet(l, PracticeKind, next, |l.practice|) + PlaceSet(l, QuizKind, next, |l.quiz|)
  }

  /** All placed questions of lessons in order; the pool is drawn from lesson by lesson. */
  function PlaceAll(live: seq<Lesson>): seq<Placed> {
    if live == [] then []
    else PlaceAll(live[..|live| - 1]) + PlaceLesson(live[|live| - 1], Pooled(live[..|live| - 1]))
  }

  // ---- points and pass marks -----------------------------------------------------------------------------------

  function Num(row: Row, col: Column): int {
    if col in row && row[col].Number? then row[col].n else 0
  }

  function NumOr(row: Row, col: Column, fallback: nat): int {
    if Num(row, col) > 0 then Num(row, col) else fallback
  }

  /** What the sets of a lesson can give on top of its learning step. */
  function Reachable(l: Lesson, learning: int, quiz: int, practice: int): int {
    learning + (if l.quiz != [] then quiz else 0) + (if l.practice != [] then practice else 0)
  }

  function LessonPassingPoints(l: Lesson): int {
    var reachable := Reachable(l, LESSON_LEARNING_POINTS, LESSON_QUIZ_POINTS, LESSON_PRACTICE_POINTS);
    if reachable < LESSON_PASS_POINTS then reachable else LESSON_PASS_POINTS
  }

  /** The pass mark the app applies to a stored lesson; none when nothing completes it. */
  function StoredPassMark(row: Row): Option<int> {
    if Num(row, Passing) > 0 then Some(Num(row, Passing))
    else if Num(row, Total) > 0 then Some((Num(row, Total) * 80 + 99) / 100)
    else None
  }

  function ReachablePoints(row: Row, l: Lesson): int {
    Reachable(l, NumOr(row, Column.LearningPoints, LESSON_LEARNING_POINTS),
              NumOr(row, Column.QuizzesPoints, LESSON_QUIZ_POINTS), NumOr(row, Column.PracticesPoints, LESSON_PRACTICE_POINTS))
  }

  // ---- what the plan reads ---------------------------------------------------------------------------------------

  datatype LevelSwitch = Draft | Live | Keep

  datatype Flags = Flags(owner: string, levelSwitch: LevelSwitch, renameLessons: bool)

  /** What the seed's own pass writes for a question: an identifier and options. */
  datatype Seeded = Seeded(ident: string, options: seq<(string, bool)>)

  predicate IsSeedPlaceholder(row: Row, seeded: map<QuestionId, Seeded>, q: QuestionId) {
    && q in seeded && Identifier in row && row[Identifier] == Words(seeded[q].ident)
    && Options in row && row[Options] == Choices(seeded[q].options)
  }

  predicate IsJoinOf(id: RowId, kind: Kind) {
    (id.JoinRow? && id.kind == kind) || (id.OtherJoin? && id.otherKind == kind)
  }

  /** A set of this kind has an active join row for the question. */
  predicate HasRole(rows: map<RowId, Row>, q: QuestionId, kind: Kind) {
    exists id :: id in rows && IsJoinOf(id, kind) && IsActiveJoin(rows[id], q)
  }

  predicate IsActiveJoin(row: Row, q: QuestionId) {
    Num(row, Status) == 1 && Asks in row && row[Asks] == Question(q)
  }

  function Other(kind: Kind): Kind {
    if kind == PracticeKind then QuizKind else PracticeKind
  }

  function FirstCorrect(options: seq<(string, bool)>): int {
    if options == [] then -1
    else
      var before := FirstCorrect(options[..|options| - 1]);
      if before >= 0 then before else if options[|options| - 1].1 then |options| - 1 else -1
  }

  function StoredChoices(options: seq<Choice>): seq<(string, bool)> {
    if options == [] then []
    else StoredChoices(options[..|options| - 1]) + [(options[|options| - 1].text.en, options[|options| - 1].correct)]
  }

  /** A question that is there, and is no placeholder, stays in its set, with its number of options and its correct one. */
  predicate KeepsMeaning(rows: map<RowId, Row>, seeded: map<QuestionId, Seeded>, p: Placed) {
    var id := QuestionRow(p.id);
    id in rows && !IsSeedPlaceholder(rows[id], seeded, p.id) ==>
      && (HasRole(rows, p.id, Other(p.kind)) ==> HasRole(rows, p.id, p.kind))
      && (Options in rows[id] && rows[id][Options].Choices? ==>
            |rows[id][Options].c| == |p.question.options| && FirstCorrect(rows[id][Options].c) == FirstCorrect(StoredChoices(p.question.options)))
  }

  predicate KeepsName(rows: map<RowId, Row>, l: Lesson) {
    var id := SlotRow(LessonPart, l.SlotOf());
    l.fixed.None? && id in rows ==> Name in rows[id] && rows[id][Name] == Words(l.name.en)
  }

  /** A lesson that is there is not left with a mark no learner can reach. */
  predicate StaysCompletable(rows: map<RowId, Row>, l: Lesson) {
    var id := SlotRow(LessonPart, l.SlotOf());
    id in rows && StoredPassMark(rows[id]).Some? ==> StoredPassMark(rows[id]).value <= ReachablePoints(rows[id], l)
  }

  /** The rows that must be there: the programme's for a later module, and the document of a kept video. */
  predicate RequiredAreThere(c: Content, rows: map<RowId, Row>) {
    && (c.number != 1 ==> CurriculumRow in rows && GradeRow in rows)
    && forall i :: 0 <= i < |c.lessons| && c.lessons[i].keep ==>
         SlotRow(DocumentPart, c.lessons[i].SlotOf()) in rows && Num(rows[SlotRow(DocumentPart, c.lessons[i].SlotOf())], IsDeleted) == 0
  }

  predicate OwnedOrFree(rows: map<RowId, Row>, id: RowId, owner: string) {
    id in rows && Owner in rows[id] ==> rows[id][Owner] in {Null, Words(owner)}
  }

  /** The rows whose translations this organisation writes are its own or nobody's. */
  predicate OwnedIsOwn(c: Content, rows: map<RowId, Row>, owner: string) {
    && OwnedOrFree(rows, CurriculumRow, owner)
    && (forall i :: 0 <= i < |c.lessons| ==> OwnedOrFree(rows, SlotRow(DocumentPart, c.lessons[i].SlotOf()), owner))
    && (forall k :: 0 <= k < |PlaceAll(InOrder(c.lessons))| ==> OwnedOrFree(rows, QuestionRow(PlaceAll(InOrder(c.lessons))[k].id), owner))
  }

  /** The run goes ahead: nothing of the file, the flags or the database refuses it. */
  predicate Accepts(c: Content, flags: Flags, seeded: map<QuestionId, Seeded>, rows: map<RowId, Row>) {
    && Valid(c)
    && !(flags.levelSwitch == Draft && c.number == 1)
    && (LevelRow !in rows ==> flags.levelSwitch != Keep)
    && (!flags.renameLessons ==> forall i :: 0 <= i < |c.lessons| ==> KeepsName(rows, c.lessons[i]))
    && (forall k :: 0 <= k < |PlaceAll(InOrder(c.lessons))| ==> KeepsMeaning(rows, seeded, PlaceAll(InOrder(c.lessons))[k]))
    && (forall i :: 0 <= i < |c.lessons| ==> StaysCompletable(rows, c.lessons[i]))
    && RequiredAreThere(c, rows) && OwnedIsOwn(c, rows, flags.owner)
  }

  /** The three values the steps take from the database. */
  datatype Numbers = Numbers(levelstatus: int, levelpoints: int, gradepoints: int)

  /** A lesson that is there keeps its total. */
  function LessonPoints(rows: map<RowId, Row>, slot: Slot): int {
    var id := SlotRow(LessonPart, slot);
    if id in rows then Num(rows[id], Total) else LESSON_TOTAL_POINTS
  }

  function LivePoints(rows: map<RowId, Row>, live: seq<Lesson>): int {
    if live == [] then 0 else LivePoints(rows, live[..|live| - 1]) + LessonPoints(rows, live[|live| - 1].SlotOf())
  }

  /** The points of a level's quiz count only while it has an active question. */
  function CountedQuizPoints(rows: map<RowId, Row>): int {
    if LevelRow in rows && Num(rows[LevelRow], QuizRows) > 0 then Num(rows[LevelRow], QuizPoints) else 0
  }

  predicate IsLiveLevel(rows: map<RowId, Row>, id: RowId) {
    id in rows && (id.OtherLevel? || id.LevelRow?) && Num(rows[id], Status) == 1 && Num(rows[id], IsDeleted) == 0
  }

  function LiveSiblings(rows: map<RowId, Row>): set<RowId> {
    set id | id in rows && id != LevelRow && IsLiveLevel(rows, id)
  }

  function PointsIn(rows: map<RowId, Row>): RowId -> int {
    (id: RowId) => if id in rows then Num(rows[id], Points) else 0
  }

  ghost function NumbersOf(c: Content, flags: Flags, rows: map<RowId, Row>): Numbers {
    var levelstatus := match flags.levelSwitch
      case Draft => 0
      case Live => 1
      case Keep => if LevelRow in rows then Num(rows[LevelRow], Status) else 1;
    var levelpoints := LivePoints(rows, InOrder(c.lessons)) + CountedQuizPoints(rows);
    Numbers(levelstatus, levelpoints, Sum(PointsIn(rows), LiveSiblings(rows)) + if levelstatus == 0 then 0 else levelpoints)
  }

  // ---- the steps ---------------------------------------------------------------------------------------------------

  function CurriculumStep(c: Content, flags: Flags): Step {
    Put(CurriculumRow,
        map[Name := Words(c.programme.en), Status := Number(1), Description := Words(""), IsDeleted := Number(0), Owner := Words(flags.owner)],
        if c.number != 1 then {Name} else {Name, Description, Status, IsDeleted})
  }

  function GradeStep(c: Content, numbers: Numbers): Step {
    Put(GradeRow,
        map[Name := Words(c.programme.en), Status := Number(1), Description := Words(""), Order := Number(1), IsDeleted := Number(0),
            Passing := Number(80), Points := Number(numbers.gradepoints)],
        if c.number != 1 then {Name, Points} else {Name, Description, Status, IsDeleted, Points})
  }

  function LevelStep(c: Content, flags: Flags, numbers: Numbers): Step {
    Put(LevelRow,
        map[Name := Words(c.name.en), Description := Words(""), IsDeleted := Number(0), Status := Number(numbers.levelstatus),
            Order := Number(c.number), Passing := Number(80), QuizPoints := Number(DEFAULT_QUIZ_POINTS), Points := Number(numbers.levelpoints)],
        {Name, Description, Points, IsDeleted} + (if flags.levelSwitch != Keep then {Status} else {}) + (if c.number != 1 then {Order} else {}))
  }

  function HasAny(set_: seq<Asked>): Value {
    Number(if set_ != [] then 1 else 0)
  }

  function LessonStep(l: Lesson): Step {
    Put(SlotRow(LessonPart, l.SlotOf()),
        map[Name := Words(l.name.en), Description := Words(""), PracticeCount := HasAny(l.practice), QuizCount := HasAny(l.quiz),
            Order := Number(l.order), Status := Number(1), IsDeleted := Number(0), Total := Number(LESSON_TOTAL_POINTS),
            Passing := Number(LessonPassingPoints(l)), Column.LearningPoints := Number(LESSON_LEARNING_POINTS),
            Column.QuizzesPoints := Number(LESSON_QUIZ_POINTS), Column.PracticesPoints := Number(LESSON_PRACTICE_POINTS)],
        {Name, Description, Order, Status, IsDeleted})
  }

  function DocumentStep(l: Lesson, flags: Flags): Step {
    Put(SlotRow(DocumentPart, l.SlotOf()),
        map[FileName := Words(l.filename), IsDeleted := Number(0), Owner := Words(flags.owner)], {FileName, IsDeleted})
  }

  function PartStep(l: Lesson, part: Part, status: Value, points: int): Step {
    Put(SlotRow(part, l.SlotOf()),
        map[Name := Words(l.name.en), Description := Words(""), Status := status, Order := Number(1), Points := Number(points)],
        {Name, Description, Status})
  }

  /** A lesson's rows; a set with no question is written switched off, and a kept video's document is not written. */
  function LessonSteps(l: Lesson, flags: Flags): seq<Step> {
    [LessonStep(l)] + (if l.keep then [] else [DocumentStep(l, flags)])
    + [PartStep(l, LearningPart, Number(1), 20), PartStep(l, PracticePart, HasAny(l.practice), 40), PartStep(l, QuizPart, HasAny(l.quiz), 40)]
  }

  function AllLessonSteps(live: seq<Lesson>, flags: Flags): seq<Step> {
    if live == [] then [] else AllLessonSteps(live[..|live| - 1], flags) + LessonSteps(live[|live| - 1], flags)
  }

  function QuestionStep(p: Placed, flags: Flags): Step {
    Put(QuestionRow(p.id),
        map[Body := Words(p.question.text.en), Options := Choices(StoredChoices(p.question.options)), IsDeleted := Number(0), Status := Number(1),
            Identifier := Words(p.question.ident), Feedback := FeedbackOf(p.question), Owner := Words(flags.owner)],
        {Body, Options, IsDeleted, Status, Identifier, Feedback})
  }

  function FeedbackOf(q: Asked): Value {
    if q.correctMessage.None? && q.incorrectMessage.None? then Null
    else Choices((if q.correctMessage.Some? then [(q.correctMessage.value.en, true)] else [])
                 + (if q.incorrectMessage.Some? then [(q.incorrectMessage.value.en, false)] else []))
  }

  function JoinStep(p: Placed): Step {
    Put(JoinRow(p.slot, p.kind, p.place),
        map[SetOf := InSet(p.kind, p.slot), Status := Number(1), Asks := Question(p.id), Order := Number(p.place + 1)],
        {SetOf, Status, Asks, Order})
  }

  function QuestionSteps(placed: seq<Placed>, flags: Flags): seq<Step> {
    if placed == [] then [] else QuestionSteps(placed[..|placed| - 1], flags) + [QuestionStep(placed[|placed| - 1], flags)]
  }

  function JoinSteps(placed: seq<Placed>): seq<Step> {
    if placed == [] then [] else JoinSteps(placed[..|placed| - 1]) + [JoinStep(placed[|placed| - 1])]
  }

  // ---- what is hidden ------------------------------------------------------------------------------------------------

  function DerivedFrom(from: nat): seq<Slot>
    requires from <= MAX_LESSONS
  {
    seq(MAX_LESSONS + 1 - from, (i: nat) => DerivedSlot(from + i))
  }

  /** The slots of a module, each once. */
  function AllSlots(m: nat): seq<Slot> {
    if m == 1 then seq(FIXED_LESSONS, (i: nat) => FixedSlot(i + 1)) + DerivedFrom(2) else DerivedFrom(1)
  }

  predicate Named(lessons: seq<Lesson>, s: Slot) {
    exists i :: 0 <= i < |lessons| && lessons[i].SlotOf() == s
  }

  function SwitchColumn(part: Part): Column {
    if part == LessonPart || part == DocumentPart then IsDeleted else Status
  }

  function HiddenValue(part: Part): Value {
    if part == LessonPart || part == DocumentPart then Number(1) else Number(0)
  }

  function HidePart(slots: seq<Slot>, part: Part): seq<Step> {
    if slots == [] then []
    else HidePart(slots[..|slots| - 1], part) + [Hide(SlotRow(part, slots[|slots| - 1]), SwitchColumn(part), HiddenValue(part))]
  }

  function Unnamed(slots: seq<Slot>, lessons: seq<Lesson>): seq<Slot> {
    if slots == [] then []
    else Unnamed(slots[..|slots| - 1], lessons) + if Named(lessons, slots[|slots| - 1]) then [] else [slots[|slots| - 1]]
  }

  datatype Join = Join(slot: Slot, kind: Kind, place: nat)

  function JoinsAt(s: Slot, kind: Kind): seq<Join> {
    seq(MAX_QUESTIONS_PER_SET, (j: nat) => Join(s, kind, j))
  }

  function JoinsOf(slots: seq<Slot>, kind: Kind): seq<Join> {
    if slots == [] then []
    else
      var s := slots[|slots| - 1];
      JoinsOf(slots[..|slots| - 1], kind) + JoinsAt(s, kind)
  }

  predicate UsedJoin(placed: seq<Placed>, j: Join) {
    exists k :: 0 <= k < |placed| && Join(placed[k].slot, placed[k].kind, placed[k].place) == j
  }

  function HideJoins(joins: seq<Join>, placed: seq<Placed>): seq<Step> {
    if joins == [] then []
    else
      var j := joins[|joins| - 1];
      HideJoins(joins[..|joins| - 1], placed)
      + if UsedJoin(placed, j) then [] else [Hide(JoinRow(j.slot, j.kind, j.place), Status, Number(0))]
  }

  function QuestionsAt(s: Slot, kind: Kind): seq<QuestionId> {
    seq(MAX_QUESTIONS_PER_SET, (j: nat) => OwnQuestion(s, kind, j))
  }

  function OwnQuestions(slots: seq<Slot>): seq<QuestionId> {
    if slots == [] then []
    else
      var s := slots[|slots| - 1];
      OwnQuestions(slots[..|slots| - 1]) + if s.FixedSlot? then [] else QuestionsAt(s, PracticeKind) + QuestionsAt(s, QuizKind)
  }

  /** The question ids of a module: Module 1's seven, and each derived slot's eight. */
  function QuestionIds(m: nat): seq<QuestionId> {
    (if m == 1 then seq(POOL, (k: nat) => PoolQuestion(k)) else []) + OwnQuestions(AllSlots(m))
  }

  predicate Assigned(placed: seq<Placed>, q: QuestionId) {
    exists k :: 0 <= k < |placed| && placed[k].id == q
  }

  function HideQuestions(ids: seq<QuestionId>, placed: seq<Placed>): seq<Step> {
    if ids == [] then []
    else HideQuestions(ids[..|ids| - 1], placed)
         + if Assigned(placed, ids[|ids| - 1]) then [] else [Hide(QuestionRow(ids[|ids| - 1]), IsDeleted, Number(1))]
  }

  function HideSlots(slots: seq<Slot>): seq<Step> {
    HidePart(slots, LessonPart) + HidePart(slots, DocumentPart) + HidePart(slots, LearningPart)
    + HidePart(slots, PracticePart) + HidePart(slots, QuizPart)
  }

  // ---- the translations ------------------------------------------------------------------------------------------------

  function TextStep(hash: string -> string, row: RowId, field: TextField, text: Bilingual, owner: string, stamp: int): Step {
    Translate(TextKey(row, field), owner, text.km, hash(text.en), stamp)
  }

  function LessonTexts(hash: string -> string, l: Lesson, owner: string, stamp: int): seq<Step> {
    [TextStep(hash, SlotRow(LessonPart, l.SlotOf()), NameField, l.name, owner, stamp),
     TextStep(hash, SlotRow(LearningPart, l.SlotOf()), NameField, l.name, owner, stamp),
     TextStep(hash, SlotRow(PracticePart, l.SlotOf()), NameField, l.name, owner, stamp),
     TextStep(hash, SlotRow(QuizPart, l.SlotOf()), NameField, l.name, owner, stamp)]
  }

  function AllLessonTexts(hash: string -> string, live: seq<Lesson>, owner: string, stamp: int): seq<Step> {
    if live == [] then [] else AllLessonTexts(hash, live[..|live| - 1], owner, stamp) + LessonTexts(hash, live[|live| - 1], owner, stamp)
  }

  function OptionTexts(hash: string -> string, q: QuestionId, options: seq<Choice>, owner: string, stamp: int): seq<Step> {
    if options == [] then []
    else OptionTexts(hash, q, options[..|options| - 1], owner, stamp)
         + [TextStep(hash, QuestionRow(q), OptionField(|options| - 1), options[|options| - 1].text, owner, stamp)]
  }

  /** A question's texts: the text, the heading, the options, and the feedback it has. */
  function QuestionTexts(hash: string -> string, p: Placed, owner: string, stamp: int): seq<Step> {
    var row := QuestionRow(p.id);
    [TextStep(hash, row, TextField.TextField, p.question.text, owner, stamp), TextStep(hash, row, HeadingField, p.question.text, owner, stamp)]
    + OptionTexts(hash, p.id, p.question.options, owner, stamp)
    + (if p.question.correctMessage.Some? then [TextStep(hash, row, CorrectMessage, p.question.correctMessage.value, owner, stamp)] else [])
    + (if p.question.incorrectMessage.Some? then [TextStep(hash, row, IncorrectMessage, p.question.incorrectMessage.value, owner, stamp)] else [])
  }

  function AllQuestionTexts(hash: string -> string, placed: seq<Placed>, owner: string, stamp: int): seq<Step> {
    if placed == [] then [] else AllQuestionTexts(hash, placed[..|placed| - 1], owner, stamp) + QuestionTexts(hash, placed[|placed| - 1], owner, stamp)
  }

  // ---- the plan -------------------------------------------------------------------------------------------------------------

  function RowSteps(c: Content, flags: Flags, numbers: Numbers): seq<Step> {
    var (live, slots) := (InOrder(c.lessons), AllSlots(c.number));
    var placed := PlaceAll(live);
    [CurriculumStep(c, flags), GradeStep(c, numbers), LevelStep(c, flags, numbers)]
    + AllLessonSteps(live, flags) + QuestionSteps(placed, flags) + JoinSteps(placed)
    + HideSlots(Unnamed(slots, c.lessons))
    + HideJoins(JoinsOf(slots, PracticeKind), placed) + HideJoins(JoinsOf(slots, QuizKind), placed)
    + HideQuestions(QuestionIds(c.number), placed)
  }

  function TextSteps(hash: string -> string, c: Content, owner: string, stamp: int): seq<Step> {
    var live := InOrder(c.lessons);
    [TextStep(hash, CurriculumRow, NameField, c.programme, owner, stamp), TextStep(hash, GradeRow, NameField, c.programme, owner, stamp),
     TextStep(hash, LevelRow, NameField, c.name, owner, stamp)]
    + AllLessonTexts(hash, live, owner, stamp) + AllQuestionTexts(hash, PlaceAll(live), owner, stamp)
  }

  /** The steps of a run at the moment `stamp` against the rows it finds. */
  ghost function PlanOf(hash: string -> string, c: Content, flags: Flags, rows: map<RowId, Row>, stamp: int): seq<Step> {
    RowSteps(c, flags, NumbersOf(c, flags, rows)) + TextSteps(hash, c, flags.owner, stamp)
  }
}
