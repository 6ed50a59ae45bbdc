/**
 * The rows of the programme, the module and its lessons after an accepted run, column by column; and
 * what an accepted run never does to rows that were there.
 */
module ContentRows {
  import opened PlanSteps
  import opened ContentPlan
  import opened ContentPlacing
  import opened ContentPlanRuns
  import opened ContentRerun
  import opened ContentGuarantees

  // ---- lessons and their parts ---------------------------------------------------------------------------------------

  /** Apart from these columns the row is as it was. */
  predicate SameBut(row: Row, was: Row, cols: set<Column>) {
    forall col :: col !in cols ==> (col in row <==> col in was) && (col in row ==> row[col] == was[col])
  }

  /** 20 points for the learning step, 40 each for a practice and a quiz, and no more than 80 of them asked. */
  function NewPassMark(l: Lesson): int {
    var reachable := 20 + (if l.practice != [] then 40 else 0) + (if l.quiz != [] then 40 else 0);
    if reachable < 80 then reachable else 80
  }

  predicate LessonSays(before: map<RowId, Row>, row: Row, l: Lesson) {
    var id := SlotRow(LessonPart, PlaceOf(l));
    && Has(row, Name, Words(l.name.en)) && Has(row, Description, Words("")) && Has(row, Order, Number(l.order))
    && Has(row, Status, Number(1)) && Has(row, IsDeleted, Number(0))
    && (if id in before then SameBut(row, before[id], {Name, Description, Order, Status, IsDeleted})
        else
          && Has(row, Total, Number(100)) && Has(row, Passing, Number(NewPassMark(l))) && Has(row, Column.LearningPoints, Number(20))
          && Has(row, QuizzesPoints, Number(40)) && Has(row, PracticesPoints, Number(40))
          && Has(row, PracticeCount, Number(if l.practice != [] then 1 else 0)) && Has(row, QuizCount, Number(if l.quiz != [] then 1 else 0)))
  }

  /** The learning step is on; a practice or a quiz is on exactly when it has a question. */
  function PartIsOn(l: Lesson, part: Part): int {
    match part
    case PracticePart => if l.practice != [] then 1 else 0
    case QuizPart => if l.quiz != [] then 1 else 0
    case _ => 1
  }

  predicate PartSays(before: map<RowId, Row>, row: Row, l: Lesson, part: Part) {
    var id := SlotRow(part, PlaceOf(l));
    && Has(row, Name, Words(l.name.en)) && Has(row, Description, Words("")) && Has(row, Status, Number(PartIsOn(l, part)))
    && (if id in before then SameBut(row, before[id], {Name, Description, Status})
        else Has(row, Order, Number(1)) && Has(row, Points, Number(if part == LearningPart then 20 else 40)))
  }

  predicate DocumentSays(before: map<RowId, Row>, row: Row, l: Lesson, owner: string) {
    var id := SlotRow(DocumentPart, PlaceOf(l));
    && Has(row, FileName, Words(l.filename)) && Has(row, IsDeleted, Number(0))
    && (if id in before then SameBut(row, before[id], {FileName, IsDeleted}) else Has(row, Owner, Words(owner)))
  }

  lemma {:induction false} LessonStepSays(before: map<RowId, Row>, l: Lesson)
    ensures var step := LessonStep(l);
            step.id == SlotRow(LessonPart, PlaceOf(l)) && LessonSays(before, PutRow(before, step.id, step.values, step.update), l)
  {
  }

  lemma {:induction false} DocumentStepSays(before: map<RowId, Row>, l: Lesson, flags: Flags)
    ensures var step := DocumentStep(l, flags);
            step.id == SlotRow(DocumentPart, PlaceOf(l)) && DocumentSays(before, PutRow(before, step.id, step.values, step.update), l, flags.owner)
  {
  }

  function PartStepOf(l: Lesson, part: Part): Step
    requires part in {LearningPart, PracticePart, QuizPart}
  {
    match part
    case LearningPart => PartStep(l, LearningPart, Number(1), 20)
    case PracticePart => PartStep(l, PracticePart, HasAny(l.practice), 40)
    case QuizPart => PartStep(l, QuizPart, HasAny(l.quiz), 40)
  }

  lemma {:induction false} PartStepSays(before: map<RowId, Row>, l: Lesson, part: Part)
    requires part in {LearningPart, PracticePart, QuizPart}
    ensures var step := PartStepOf(l, part);
            step.id == SlotRow(part, PlaceOf(l)) && PartSays(before, PutRow(before, step.id, step.values, step.update), l, part)
  {
  }

  lemma {:induction false} LessonStepsInWrites(c: Content, flags: Flags, numbers: Numbers, l: Lesson, step: Step)
    requires l in c.lessons && step in LessonSteps(l, flags)
    ensures step in Writes(c, flags, numbers)
  {
    var live := InOrder(c.lessons);
    InOrderHas(c.lessons, l);
    LessonStepsAreIn(live, flags, l);
    InWrites(HeadSteps(c, flags, numbers), AllLessonSteps(live, flags), QuestionSteps(PlaceAll(live), flags), JoinSteps(PlaceAll(live)), step);
  }

  lemma {:induction false} PartStepIsIn(l: Lesson, flags: Flags, part: Part)
    requires part in {LearningPart, PracticePart, QuizPart}
    ensures PartStepOf(l, part) in LessonSteps(l, flags)
  {
    var parts := [PartStep(l, LearningPart, Number(1), 20), PartStep(l, PracticePart, HasAny(l.practice), 40),
                  PartStep(l, QuizPart, HasAny(l.quiz), 40)];
    assert parts[0] in parts && parts[1] in parts && parts[2] in parts;
    assert LessonSteps(l, flags) == ([LessonStep(l)] + (if l.keep then [] else [DocumentStep(l, flags)])) + parts;
  }

  /** Each lesson of the file has its row and its parts, with the file's name and order, and its document unless its video is kept. */
  lemma {:induction false} EveryLessonIsStored(hash: string -> string, c: Content, flags: Flags, db: Db, stamp: int,
                                               l: Lesson)
    requires Valid(c) && l in c.lessons
    ensures var (rows, id) := (After(hash, c, flags, db, stamp).rows, SlotRow(LessonPart, PlaceOf(l)));
            id in rows && LessonSays(db.rows, rows[id], l)
    ensures var (rows, id) := (After(hash, c, flags, db, stamp).rows, SlotRow(DocumentPart, PlaceOf(l)));
            if l.keep then (id in rows <==> id in db.rows) && (id in rows ==> rows[id] == db.rows[id])
            else id in rows && DocumentSays(db.rows, rows[id], l, flags.owner)
  {
    LessonRow(hash, c, flags, db, stamp, l);
    LessonStepSays(db.rows, l);
    DocumentRow(hash, c, flags, db, stamp, l);
    DocumentStepSays(db.rows, l, flags);
  }

  lemma {:induction false} EveryPartIsStored(hash: string -> string, c: Content, flags: Flags, db: Db, stamp: int, l: Lesson,
                                             part: Part)
    requires Valid(c) && l in c.lessons && part in {LearningPart, PracticePart, QuizPart}
    ensures var (rows, id) := (After(hash, c, flags, db, stamp).rows, SlotRow(part, PlaceOf(l)));
            id in rows && PartSays(db.rows, rows[id], l, part)
  {
    PartStepIsIn(l, flags, part);
    LessonStepsInWrites(c, flags, NumbersOf(c, flags, db.rows), l, PartStepOf(l, part));
    PartStepSays(db.rows, l, part);
    WrittenRow(hash, c, flags, db, stamp, PartStepOf(l, part));
  }

  /** The programme and the module have the file's names; the module is switched as the flags say, or left as it was. */
  lemma {:induction false} HeadsAreStored(hash: string -> string, c: Content, flags: Flags, seeded: map<QuestionId, Seeded>,
                                          db: Db, stamp: int)
    requires Accepts(c, flags, seeded, db.rows)
    ensures var rows := After(hash, c, flags, db, stamp).rows;
            && CurriculumRow in rows && GradeRow in rows && LevelRow in rows
            && Has(rows[CurriculumRow], Name, Words(c.programme.en)) && Has(rows[GradeRow], Name, Words(c.programme.en))
            && Has(rows[LevelRow], Name, Words(c.name.en)) && Has(rows[LevelRow], IsDeleted, Number(0))
            && (flags.levelSwitch == Draft ==> c.number != 1 && Has(rows[LevelRow], Status, Number(0)))
            && (flags.levelSwitch == Live ==> Has(rows[LevelRow], Status, Number(1)))
            && (flags.levelSwitch == Keep ==> LevelRow in db.rows && Num(rows[LevelRow], Status) == Num(db.rows[LevelRow], Status))
            && (LevelRow !in db.rows || c.number != 1 ==> Has(rows[LevelRow], Order, Number(c.number)))
  {
    AcceptsSwitch(c, flags, seeded, db.rows);
    HeadRowsSay(hash, c, flags, db, stamp);
    KeepsSwitch(db.rows, RowAt(After(hash, c, flags, db, stamp).rows, LevelRow), c, flags);
  }

  lemma {:induction false} AcceptsSwitch(c: Content, flags: Flags, seeded: map<QuestionId, Seeded>, rows: map<RowId, Row>)
    requires Accepts(c, flags, seeded, rows)
    ensures Valid(c) && (flags.levelSwitch == Draft ==> c.number != 1) && (flags.levelSwitch == Keep ==> LevelRow in rows)
  {
  }

  lemma {:induction false} KeepsSwitch(before: map<RowId, Row>, row: Row, c: Content, flags: Flags)
    requires LevelSays(before, row, c, flags) && (flags.levelSwitch == Keep ==> LevelRow in before)
    ensures flags.levelSwitch == Keep ==> Num(row, Status) == Num(before[LevelRow], Status)
  {
  }

  /** A later module only renames the programme; Module 1 also puts it back in use. */
  predicate CurriculumSays(before: map<RowId, Row>, row: Row, c: Content, owner: string) {
    && Has(row, Name, Words(c.programme.en))
    && (CurriculumRow !in before || c.number == 1 ==>
          Has(row, Description, Words("")) && Has(row, Status, Number(1)) && Has(row, IsDeleted, Number(0)))
    && (if CurriculumRow in before
        then SameBut(row, before[CurriculumRow], if c.number == 1 then {Name, Description, Status, IsDeleted} else {Name})
        else Has(row, Owner, Words(owner)))
  }

  /** And the same of its one grade, whose points are always written. */
  predicate GradeSays(before: map<RowId, Row>, row: Row, c: Content) {
    && Has(row, Name, Words(c.programme.en))
    && (GradeRow !in before || c.number == 1 ==>
          Has(row, Description, Words("")) && Has(row, Status, Number(1)) && Has(row, IsDeleted, Number(0)))
    && (if GradeRow in before
        then SameBut(row, before[GradeRow], if c.number == 1 then {Name, Description, Status, IsDeleted, Points} else {Name, Points})
        else Has(row, Order, Number(1)) && Has(row, Passing, Number(80)))
  }

  /** A module keeps its switch without a flag, Module 1 its order, and any module its pass mark and its quiz's points. */
  predicate LevelSays(before: map<RowId, Row>, row: Row, c: Content, flags: Flags) {
    && Has(row, Name, Words(c.name.en)) && Has(row, Description, Words("")) && Has(row, IsDeleted, Number(0))
    && (LevelRow !in before || c.number != 1 ==> Has(row, Order, Number(c.number)))
    && (flags.levelSwitch == Draft ==> Has(row, Status, Number(0))) && (flags.levelSwitch == Live ==> Has(row, Status, Number(1)))
    && (if LevelRow in before
        then SameBut(row, before[LevelRow], {Name, Description, IsDeleted, Points} + (if c.number != 1 then {Order} else {})
                                            + (if flags.levelSwitch == Keep then {} else {Status}))
        else Has(row, Passing, Number(80)) && Has(row, QuizPoints, Number(20)))
  }

  lemma {:induction false} CurriculumStepSays(c: Content, flags: Flags, before: map<RowId, Row>)
    ensures var step := CurriculumStep(c, flags); CurriculumSays(before, PutRow(before, CurriculumRow, step.values, step.update), c, flags.owner)
  {
  }

  lemma {:induction false} GradeStepSays(c: Content, before: map<RowId, Row>, numbers: Numbers)
    ensures var step := GradeStep(c, numbers); GradeSays(before, PutRow(before, GradeRow, step.values, step.update), c)
  {
  }

  lemma {:induction false} LevelStepSays(c: Content, flags: Flags, before: map<RowId, Row>, numbers: Numbers)
    requires flags.levelSwitch == Draft ==> numbers.levelstatus == 0
    requires flags.levelSwitch == Live ==> numbers.levelstatus == 1
    ensures var step := LevelStep(c, flags, numbers); LevelSays(before, PutRow(before, LevelRow, step.values, step.update), c, flags)
  {
  }

  /** The rows of the programme, its grade and the module, column by column. */
  lemma {:induction false} HeadRowsSay(hash: string -> string, c: Content, flags: Flags, db: Db, stamp: int)
    requires Valid(c)
    ensures var rows := After(hash, c, flags, db, stamp).rows;
            && CurriculumRow in rows && CurriculumSays(db.rows, rows[CurriculumRow], c, flags.owner)
            && GradeRow in rows && GradeSays(db.rows, rows[GradeRow], c)
            && LevelRow in rows && LevelSays(db.rows, rows[LevelRow], c, flags)
  {
    var numbers := NumbersOf(c, flags, db.rows);
    HeadStepsAreIn(c, flags, numbers);
    WrittenRow(hash, c, flags, db, stamp, CurriculumStep(c, flags));
    WrittenRow(hash, c, flags, db, stamp, GradeStep(c, numbers));
    WrittenRow(hash, c, flags, db, stamp, LevelStep(c, flags, numbers));
    CurriculumStepSays(c, flags, db.rows);
    GradeStepSays(c, db.rows, numbers);
    LevelStepSays(c, flags, db.rows, numbers);
  }

  /** The messages for a right and a wrong answer, each there when the file has it. */
  predicate HoldsFeedback(row: Row, q: Asked) {
    var right := if q.correctMessage.Some? then [(q.correctMessage.value.en, true)] else [];
    var wrong := if q.incorrectMessage.Some? then [(q.incorrectMessage.value.en, false)] else [];
    Has(row, Feedback, if right + wrong == [] then Null else Choices(right + wrong))
  }

  lemma {:induction false} QuestionStepSays(before: map<RowId, Row>, p: Placed, flags: Flags)
    ensures var (step, id) := (QuestionStep(p, flags), QuestionRow(p.id));
            var row := PutRow(before, id, step.values, step.update);
            && HoldsFeedback(row, p.question)
            && (if id in before then SameBut(row, before[id], {Body, Options, IsDeleted, Status, Identifier, Feedback})
                else Has(row, Owner, Words(flags.owner)))
  {
  }

  /** A stored question has the file's messages; a new one is the run's owner's, and one that was there keeps the rest of its row. */
  lemma {:induction false} QuestionRowSays(hash: string -> string, c: Content, flags: Flags, db: Db, stamp: int, l: Lesson,
                                           kind: Kind, j: nat, q: QuestionId)
    requires Valid(c) && l in c.lessons && j < |QuestionsOf(l, kind)|
    requires Has(RowAt(After(hash, c, flags, db, stamp).rows, JoinRow(PlaceOf(l), kind, j)), Asks, Question(q))
    ensures var (rows, id) := (After(hash, c, flags, db, stamp).rows, QuestionRow(q));
            && id in rows && HoldsFeedback(rows[id], QuestionsOf(l, kind)[j])
            && (if id in db.rows then SameBut(rows[id], db.rows[id], {Body, Options, IsDeleted, Status, Identifier, Feedback})
                else Has(rows[id], Owner, Words(flags.owner)))
  {
    InOrderHas(c.lessons, l);
    var k := PlacedHas(InOrder(c.lessons), l, kind, j);
    var p := PlaceAll(InOrder(c.lessons))[k];
    PlacedIsAsked(hash, c, flags, db, stamp, k);
    PlacedStepsInWrites(c, flags, NumbersOf(c, flags, db.rows), k);
    WrittenRow(hash, c, flags, db, stamp, QuestionStep(p, flags));
    QuestionStepSays(db.rows, p, flags);
  }

  // ---- what an accepted run never does ---------------------------------------------------------------------------------

  /** The mark that completes a stored lesson, its own or four fifths of its total, can be reached with the sets the file gives it. */
  lemma {:induction false} MarkCanBeReached(hash: string -> string, c: Content, flags: Flags, seeded: map<QuestionId, Seeded>,
                                            db: Db, stamp: int, l: Lesson)
    requires Accepts(c, flags, seeded, db.rows) && l in c.lessons
    ensures var row := RowAt(After(hash, c, flags, db, stamp).rows, SlotRow(LessonPart, PlaceOf(l)));
            var reach := (if Num(row, Column.LearningPoints) > 0 then Num(row, Column.LearningPoints) else 20)
                         + (if l.quiz == [] then 0 else if Num(row, QuizzesPoints) > 0 then Num(row, QuizzesPoints) else 40)
                         + (if l.practice == [] then 0 else if Num(row, PracticesPoints) > 0 then Num(row, PracticesPoints) else 40);
            if Num(row, Passing) > 0 then Num(row, Passing) <= reach else Num(row, Total) > 0 ==> 80 * Num(row, Total) <= 100 * reach
  {
    EveryLessonCanBeCompleted(hash, c, flags, seeded, db, stamp, l);
  }

  /** The first option marked correct. */
  predicate IsFirstCorrect(options: seq<(string, bool)>, k: int) {
    0 <= k < |options| && options[k].1 && forall i :: 0 <= i < k ==> !options[i].1
  }

  lemma {:induction false} FirstCorrectIs(options: seq<(string, bool)>, k: int)
    ensures IsFirstCorrect(options, k) <==> 0 <= k == FirstCorrect(options)
    ensures -1 <= FirstCorrect(options) < |options|
    ensures FirstCorrect(options) >= 0 ==> options[FirstCorrect(options)].1
  {
    if options != [] {
      var before := options[..|options| - 1];
      FirstCorrectIs(before, k);
      FirstCorrectIs(before, FirstCorrect(before));
      if FirstCorrect(before) < 0 {
        forall i | 0 <= i < |before| ensures !before[i].1 {
          SomeFirstCorrect(before, i);
          FirstCorrectIs(before, FirstCorrect(before));
        }
      }
    }
  }

  lemma {:induction false} SomeFirstCorrect(options: seq<(string, bool)>, i: nat)
    requires i < |options|
    ensures options[i].1 ==> FirstCorrect(options) >= 0
  {
    if i < |options| - 1 {
      SomeFirstCorrect(options[..|options| - 1], i);
    }
  }

  /** An active row of a set asks the question, in this module or elsewhere. */
  predicate IsAskedIn(rows: map<RowId, Row>, q: QuestionId, kind: Kind) {
    exists id :: id in rows && ((id.JoinRow? && id.kind == kind) || (id.OtherJoin? && id.otherKind == kind))
                 && Num(rows[id], Status) == 1 && Has(rows[id], Asks, Question(q))
  }

  lemma {:induction false} AskedIsRole(rows: map<RowId, Row>, q: QuestionId, kind: Kind)
    ensures IsAskedIn(rows, q, kind) <==> HasRole(rows, q, kind)
  {
    if id :| id in rows && IsJoinOf(id, kind) && IsActiveJoin(rows[id], q) {
      assert Has(rows[id], Asks, Question(q));
    }
    if id :| id in rows && ((id.JoinRow? && id.kind == kind) || (id.OtherJoin? && id.otherKind == kind))
             && Num(rows[id], Status) == 1 && Has(rows[id], Asks, Question(q)) {
      assert IsJoinOf(id, kind) && IsActiveJoin(rows[id], q);
    }
  }

  /**
   * A question that was there, and was no seed placeholder, keeps its meaning: it does not move to the
   * other kind of set, and its options keep their number and their first correct one.
   */
  lemma {:induction false} MeaningIsNeverChanged(hash: string -> string, c: Content, flags: Flags,
                                                 seeded: map<QuestionId, Seeded>, db: Db, stamp: int, l: Lesson, kind: Kind,
                                                 j: nat, q: QuestionId, at: int)
    requires Accepts(c, flags, seeded, db.rows) && l in c.lessons && j < |QuestionsOf(l, kind)|
    requires Has(RowAt(After(hash, c, flags, db, stamp).rows, JoinRow(PlaceOf(l), kind, j)), Asks, Question(q))
    requires QuestionRow(q) in db.rows && Options in db.rows[QuestionRow(q)] && db.rows[QuestionRow(q)][Options].Choices?
    requires q in seeded ==> !(Has(db.rows[QuestionRow(q)], Identifier, Words(seeded[q].ident))
                               && db.rows[QuestionRow(q)][Options] == Choices(seeded[q].options))
    ensures IsAskedIn(db.rows, q, if kind == QuizKind then PracticeKind else QuizKind) ==> IsAskedIn(db.rows, q, kind)
    ensures var (was, now) := (db.rows[QuestionRow(q)][Options].c, RowAt(After(hash, c, flags, db, stamp).rows, QuestionRow(q)));
            && Options in now && now[Options].Choices? && |now[Options].c| == |was|
            && (IsFirstCorrect(was, at) <==> IsFirstCorrect(now[Options].c, at))
  {
    InOrderHas(c.lessons, l);
    var k := PlacedHas(InOrder(c.lessons), l, kind, j);
    var p := PlaceAll(InOrder(c.lessons))[k];
    var rows: map<RowId, Row> := After(hash, c, flags, db, stamp).rows;
    PlacedIsAsked(hash, c, flags, db, stamp, k);
    assert p.id == q && KeepsMeaning(db.rows, seeded, p);
    AskedIsRole(db.rows, q, PracticeKind);
    AskedIsRole(db.rows, q, QuizKind);
    OptionsAreKept(db.rows[QuestionRow(q)][Options].c, rows[QuestionRow(q)][Options].c, p.question, at);
  }

  lemma {:induction false} OptionsAreKept(was: seq<(string, bool)>, now: seq<(string, bool)>, q: Asked, at: int)
    requires |was| == |q.options| == |now| && FirstCorrect(was) == FirstCorrect(StoredChoices(q.options))
    requires forall k :: 0 <= k < |q.options| ==> now[k] == (q.options[k].text.en, q.options[k].correct)
    ensures IsFirstCorrect(was, at) <==> IsFirstCorrect(now, at)
  {
    ChoicesAre(q.options);
    assert now == StoredChoices(q.options);
    FirstCorrectIs(was, at);
    FirstCorrectIs(now, at);
  }

  /** Without the rename flag a lesson by its order keeps the name it had. */
  lemma {:induction false} NamesAreNeverChanged(hash: string -> string, c: Content, flags: Flags,
                                                seeded: map<QuestionId, Seeded>, db: Db, stamp: int, l: Lesson)
    requires Accepts(c, flags, seeded, db.rows) && !flags.renameLessons && l in c.lessons && l.fixed.None?
    requires SlotRow(LessonPart, PlaceOf(l)) in db.rows
    ensures var (rows, id) := (After(hash, c, flags, db, stamp).rows, SlotRow(LessonPart, PlaceOf(l)));
            id in rows && Name in db.rows[id] && Has(rows[id], Name, db.rows[id][Name])
  {
    var i :| 0 <= i < |c.lessons| && c.lessons[i] == l;
    assert KeepsName(db.rows, c.lessons[i]);
    EveryLessonIsStored(hash, c, flags, db, stamp, l);
  }

  /** No row of another organisation is written: the programme's, a document's or a question's had this owner or none. */
  lemma {:induction false} NoOthersRowIsWritten(hash: string -> string, c: Content, flags: Flags,
                                                seeded: map<QuestionId, Seeded>, db: Db, stamp: int, id: RowId)
    requires Accepts(c, flags, seeded, db.rows) && id in db.rows && Owner in db.rows[id]
    requires id == CurriculumRow || (id.SlotRow? && id.part == DocumentPart && HasLesson(c, id.slot))
             || (id.QuestionRow? && exists k :: 0 <= k < |PlaceAll(InOrder(c.lessons))| && PlaceAll(InOrder(c.lessons))[k].id == id.question)
    ensures db.rows[id][Owner] == Null || db.rows[id][Owner] == Words(flags.owner)
  {
    if id.SlotRow? {
      FileIs(c, id.slot);
      var i :| 0 <= i < |c.lessons| && c.lessons[i].SlotOf() == id.slot;
      assert OwnedOrFree(db.rows, SlotRow(DocumentPart, c.lessons[i].SlotOf()), flags.owner);
    } else if id.QuestionRow? {
      var k :| 0 <= k < |PlaceAll(InOrder(c.lessons))| && PlaceAll(InOrder(c.lessons))[k].id == id.question;
      assert OwnedOrFree(db.rows, QuestionRow(PlaceAll(InOrder(c.lessons))[k].id), flags.owner);
    }
  }

  // ---- the pool ------------------------------------------------------------------------------------------------------------

  /** How many questions of fixed lessons come before place `n`. */
  function PooledBefore(placed: seq<Placed>, n: nat): nat
    requires n <= |placed|
  {
    if n == 0 then 0 else PooledBefore(placed, n - 1) + if placed[n - 1].slot.FixedSlot? then 1 else 0
  }

  lemma {:induction false} PooledBeforePrefix(a: seq<Placed>, b: seq<Placed>, n: nat)
    requires n <= |a|
    ensures PooledBefore(a + b, n) == PooledBefore(a, n)
  {
    if n > 0 {
      PooledBeforePrefix(a, b, n - 1);
    }
  }

  lemma {:induction false} PooledBeforeRest(a: seq<Placed>, b: seq<Placed>, n: nat)
    requires n <= |b|
    ensures PooledBefore(a + b, |a| + n) == PooledBefore(a, |a|) + PooledBefore(b, n)
  {
    if n == 0 {
      PooledBeforePrefix(a, b, |a|);
    } else {
      PooledBeforeRest(a, b, n - 1);
      assert (a + b)[|a| + n - 1] == b[n - 1];
    }
  }

  lemma {:induction false} LessonsPool(l: Lesson, next: nat, n: nat)
    requires n <= |PlaceLesson(l, next)|
    ensures |PlaceLesson(l, next)| == |l.practice| + |l.quiz|
    ensures PooledBefore(PlaceLesson(l, next), n) == if l.fixed.Some? then n else 0
    ensures n < |PlaceLesson(l, next)| && l.fixed.Some? ==> PlaceLesson(l, next)[n].id == PoolQuestion(next + n)
  {
    SetIds(l, PracticeKind, next, |l.practice|);
    SetIds(l, QuizKind, next, |l.quiz|);
    PlacedInSet(l, PracticeKind, next, |l.practice|);
    PlacedInSet(l, QuizKind, next, |l.quiz|);
    if n > 0 {
      LessonsPool(l, next, n - 1);
    }
  }

  lemma {:induction false} SetIds(l: Lesson, kind: Kind, next: nat, n: nat)
    requires n <= |l.Set(kind)|
    ensures |PlaceSet(l, kind, next, n)| == n
    ensures forall j :: 0 <= j < n ==> PlaceSet(l, kind, next, n)[j].id == IdOf(l, kind, j, next)
  {
    if n > 0 {
      SetIds(l, kind, next, n - 1);
    }
  }

  /** The id of the `n`th question of a lesson. */
  lemma {:induction false} LessonIds(l: Lesson, next: nat, n: nat)
    requires n < |PlaceLesson(l, next)|
    ensures var p := PlaceLesson(l, next)[n];
            p.slot == PlaceOf(l) && p.id == if l.fixed.Some? then PoolQuestion(next + n) else OwnQuestion(p.slot, p.kind, p.place)
  {
    LessonsPool(l, next, n);
    PlacedInSet(l, PracticeKind, next, |l.practice|);
    PlacedInSet(l, QuizKind, next, |l.quiz|);
    SetIds(l, PracticeKind, next, |l.practice|);
    SetIds(l, QuizKind, next, |l.quiz|);
  }

  /**
   * The seven ids are dealt in the order of the lessons, in each the practice before the quiz: a question
   * of a fixed lesson has the id of as many as come before it; any other has its own place's.
   */
  lemma {:induction false} PoolIsDealtInOrder(live: seq<Lesson>, k: nat)
    requires k < |PlaceAll(live)|
    ensures var (placed, p) := (PlaceAll(live), PlaceAll(live)[k]);
            p.id == if p.slot.FixedSlot? then PoolQuestion(PooledBefore(placed, k)) else OwnQuestion(p.slot, p.kind, p.place)
  {
    var before, last := live[..|live| - 1], live[|live| - 1];
    var a, b := PlaceAll(before), PlaceLesson(last, Pooled(before));
    assert PlaceAll(live) == a + b;
    if k < |a| {
      PoolIsDealtInOrder(before, k);
      PooledBeforePrefix(a, b, k);
    } else {
      AllPooled(before);
      LessonsPool(last, Pooled(before), k - |a|);
      LessonIds(last, Pooled(before), k - |a|);
      PooledBeforeRest(a, b, k - |a|);
    }
  }

  lemma {:induction false} AllPooled(live: seq<Lesson>)
    ensures PooledBefore(PlaceAll(live), |PlaceAll(live)|) == Pooled(live)
  {
    if live != [] {
      var before, last := live[..|live| - 1], live[|live| - 1];
      AllPooled(before);
      var b := PlaceLesson(last, Pooled(before));
      LessonsPool(last, Pooled(before), |b|);
      PooledBeforeRest(PlaceAll(before), b, |b|);
    }
  }
}
