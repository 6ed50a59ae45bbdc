/**
 * When a content run goes ahead and what it makes the points of, said of the file and the stored rows
 * alone: which files are sound, which stored questions, lessons, documents and owners stand in the way.
 */
module ContentAcceptance {
  import opened Sums
  import opened PlanSteps
  import opened ContentPlan
  import opened ContentPlacing
  import opened ContentPlanTheorems
  import opened ContentRerun
  import opened ContentGuarantees
  import opened ContentRows

  // ---- the file ------------------------------------------------------------------------------------------------------

  predicate OneCorrect(options: seq<Choice>) {
    exists k :: 0 <= k < |options| && options[k].correct && NoOtherCorrect(options, k)
  }

  predicate NoOtherCorrect(options: seq<Choice>, k: int) {
    forall i :: 0 <= i < |options| && i != k ==> !options[i].correct
  }

  lemma {:induction false} CountIsOne(options: seq<Choice>)
    ensures CorrectCount(options) == 0 <==> NoOtherCorrect(options, -1)
    ensures CorrectCount(options) == 1 <==> OneCorrect(options)
  {
    if options != [] {
      var before, last := options[..|options| - 1], options[|options| - 1];
      CountIsOne(before);
      assert forall i :: 0 <= i < |before| ==> before[i] == options[i];
      if k :| 0 <= k < |before| && before[k].correct && NoOtherCorrect(before, k) {
        assert !last.correct ==> NoOtherCorrect(options, k);
      }
      if last.correct && NoOtherCorrect(before, -1) {
        assert NoOtherCorrect(options, |before|);
      }
      if k :| 0 <= k < |options| && options[k].correct && NoOtherCorrect(options, k) {
        assert k < |before| ==> before[k].correct && NoOtherCorrect(before, k);
        assert k == |before| ==> NoOtherCorrect(before, -1);
      }
    }
  }

  /** Two to eight options, one of them correct. */
  predicate SoundQuestion(q: Asked) {
    2 <= |q.options| <= 8 && OneCorrect(q.options)
  }

  predicate SoundLesson(m: nat, l: Lesson) {
    && InModule(m, PlaceOf(l)) && l.order >= 1 && |l.practice| <= 4 && |l.quiz| <= 4
    && (forall j :: 0 <= j < |l.practice| ==> SoundQuestion(l.practice[j]))
    && (forall j :: 0 <= j < |l.quiz| ==> SoundQuestion(l.quiz[j]))
  }

  /** The questions of a fixed lesson draw from the seven fixed ids. */
  function Draws(): Lesson -> int {
    (l: Lesson) => if l.fixed.Some? then |l.practice| + |l.quiz| else 0
  }

  function LessonSet(lessons: seq<Lesson>): set<Lesson> {
    set l | l in lessons
  }

  predicate NoTwoAlike(lessons: seq<Lesson>) {
    forall i, j :: 0 <= i < j < |lessons| ==> lessons[i].order != lessons[j].order && PlaceOf(lessons[i]) != PlaceOf(lessons[j])
  }

  /** A file with lessons of the module, no two of one order or place, that together draw at most seven ids. */
  ghost predicate SoundFile(c: Content) {
    && c.number >= 1 && c.lessons != []
    && (forall l :: l in c.lessons ==> SoundLesson(c.number, l))
    && NoTwoAlike(c.lessons)
    && Sum(Draws(), LessonSet(c.lessons)) <= 7
  }

  lemma {:induction false} LessonIsSound(m: nat, l: Lesson)
    ensures ValidLesson(m, l) <==> SoundLesson(m, l)
  {
    forall j | 0 <= j < |l.practice| ensures ValidQuestion(l.practice[j]) <==> SoundQuestion(l.practice[j]) {
      CountIsOne(l.practice[j].options);
    }
    forall j | 0 <= j < |l.quiz| ensures ValidQuestion(l.quiz[j]) <==> SoundQuestion(l.quiz[j]) {
      CountIsOne(l.quiz[j].options);
    }
  }

  lemma {:induction false} DrawnInAll(lessons: seq<Lesson>)
    requires NoTwoAlike(lessons)
    ensures Pooled(lessons) == Sum(Draws(), LessonSet(lessons))
  {
    if lessons != [] {
      var before, last := lessons[..|lessons| - 1], lessons[|lessons| - 1];
      DrawnInAll(before);
      assert lessons == before + [last];
      assert LessonSet(lessons) == LessonSet(before) + {last};
      forall i | 0 <= i < |before| ensures before[i] != last {
        assert lessons[i].order != lessons[|before|].order;
      }
      SumGrow(Draws(), LessonSet(before), last);
    }
  }

  /** The files that are read without a complaint are the sound ones. */
  lemma {:induction false} ValidIsSound(c: Content)
    ensures Valid(c) <==> SoundFile(c)
  {
    forall l ensures ValidLesson(c.number, l) <==> SoundLesson(c.number, l) {
      LessonIsSound(c.number, l);
    }
    assert forall i :: 0 <= i < |c.lessons| ==> c.lessons[i] in c.lessons;
    if NoTwoAlike(c.lessons) {
      DrawnInAll(c.lessons);
    }
    assert DistinctLessons(c.lessons) <==> NoTwoAlike(c.lessons);
    assert AllValid(c.number, c.lessons) <==> forall l :: l in c.lessons ==> SoundLesson(c.number, l);
  }

  // ---- the id of a question ----------------------------------------------------------------------------------------------

  /** The lessons of a lower order. */
  function EarlierThan(lessons: seq<Lesson>, l: Lesson): set<Lesson> {
    set x | x in lessons && x.order < l.order
  }

  /**
   * A question of a fixed lesson has the id of as many as the earlier lessons draw and come before it
   * in its own, practice first; any other has its place's.
   */
  ghost predicate IsIdOf(c: Content, l: Lesson, kind: Kind, j: nat, q: QuestionId) {
    if l.fixed.None? then q == OwnQuestion(PlaceOf(l), kind, j)
    else q.PoolQuestion? && q.k == Sum(Draws(), EarlierThan(c.lessons, l)) + (if kind == QuizKind then |l.practice| else 0) + j
  }

  lemma {:induction false} PlacedAt(live: seq<Lesson>, i: nat, kind: Kind, j: nat) returns (k: nat)
    requires i < |live| && j < |QuestionsOf(live[i], kind)|
    ensures k < |PlaceAll(live)|
    ensures PlaceAll(live)[k] == Placed(PlaceOf(live[i]), kind, j, QuestionsOf(live[i], kind)[j], IdOf(live[i], kind, j, Pooled(live[..i])))
  {
    var before, last := live[..|live| - 1], live[|live| - 1];
    if i < |before| {
      assert before[i] == live[i] && before[..i] == live[..i];
      k := PlacedAt(before, i, kind, j);
    } else {
      var next := Pooled(before);
      PlaceSetFacts(last, PracticeKind, next, |last.practice|);
      PlaceSetFacts(last, QuizKind, next, |last.quiz|);
      k := |PlaceAll(before)| + (if kind == PracticeKind then 0 else |last.practice|) + j;
    }
  }

  lemma {:induction false} PlacedFrom(live: seq<Lesson>, k: nat) returns (i: nat, kind: Kind, j: nat)
    requires k < |PlaceAll(live)|
    ensures i < |live| && j < |QuestionsOf(live[i], kind)|
    ensures PlaceAll(live)[k] == Placed(PlaceOf(live[i]), kind, j, QuestionsOf(live[i], kind)[j], IdOf(live[i], kind, j, Pooled(live[..i])))
  {
    var before, last := live[..|live| - 1], live[|live| - 1];
    if k < |PlaceAll(before)| {
      i, kind, j := PlacedFrom(before, k);
      assert before[i] == live[i] && before[..i] == live[..i];
    } else {
      var next, at := Pooled(before), k - |PlaceAll(before)|;
      PlaceSetFacts(last, PracticeKind, next, |last.practice|);
      PlaceSetFacts(last, QuizKind, next, |last.quiz|);
      i := |before|;
      kind := if at < |last.practice| then PracticeKind else QuizKind;
      j := if at < |last.practice| then at else at - |last.practice|;
    }
  }

  lemma {:induction false} DrawnBefore(c: Content, i: nat)
    requires DistinctLessons(c.lessons) && i < |InOrder(c.lessons)|
    ensures Pooled(InOrder(c.lessons)[..i]) == Sum(Draws(), EarlierThan(c.lessons, InOrder(c.lessons)[i]))
  {
    var live := InOrder(c.lessons);
    InOrderKeeps(c.lessons);
    InOrderIsDistinct(c.lessons);
    assert NoTwoAlike(live[..i]) by {
      assert forall a :: 0 <= a < i ==> live[..i][a] == live[a];
    }
    DrawnInAll(live[..i]);
    EarlierInOrder(c.lessons, live, i);
  }

  lemma {:induction false} EarlierInOrder(lessons: seq<Lesson>, live: seq<Lesson>, i: nat)
    requires live == InOrder(lessons) && DistinctLessons(live) && Ascending(live) && i < |live|
    ensures LessonSet(live[..i]) == EarlierThan(lessons, live[i])
  {
    forall l ensures l in live[..i] <==> l in lessons && l.order < live[i].order {
      InOrderHas(lessons, l);
      if l in live[..i] {
        var a :| 0 <= a < i && live[..i][a] == l;
        assert live[a].order <= live[i].order && live[a].order != live[i].order;
      }
      if l in live && l.order < live[i].order {
        var a :| 0 <= a < |live| && live[a] == l;
        LowerIsEarlier(live, a, i);
        assert live[..i][a] == l;
      }
    }
  }

  lemma {:induction false} LowerIsEarlier(live: seq<Lesson>, a: nat, i: nat)
    requires Ascending(live) && a < |live| && i < |live| && live[a].order < live[i].order
    ensures a < i
  {
  }

  lemma {:induction false} IdAt(c: Content, i: nat, kind: Kind, j: nat)
    requires DistinctLessons(c.lessons) && i < |InOrder(c.lessons)|
    ensures IsIdOf(c, InOrder(c.lessons)[i], kind, j, IdOf(InOrder(c.lessons)[i], kind, j, Pooled(InOrder(c.lessons)[..i])))
  {
    DrawnBefore(c, i);
  }

  /** Each question of the file is asked under its id: in its set and place, by a row with its text and options. */
  lemma {:induction false} EveryQuestionHasItsId(hash: string -> string, c: Content, flags: Flags, db: Db, stamp: int,
                                                 l: Lesson, kind: Kind, j: nat, q: QuestionId)
    requires Valid(c) && l in c.lessons && j < |QuestionsOf(l, kind)| && IsIdOf(c, l, kind, j, q)
    ensures var (rows, join) := (After(hash, c, flags, db, stamp).rows, JoinRow(PlaceOf(l), kind, j));
            && join in rows && PutsAt(rows[join], PlaceOf(l), kind, j, q)
            && QuestionRow(q) in rows && HoldsQuestion(rows[QuestionRow(q)], QuestionsOf(l, kind)[j])
  {
    var k := PlacedOf(c, l, kind, j, q);
    PlacedIsAsked(hash, c, flags, db, stamp, k);
  }

  // ---- what stands in the way ----------------------------------------------------------------------------------------------

  /** Option `at` is the first correct one. */
  predicate IsFirstRight(options: seq<Choice>, at: int) {
    0 <= at < |options| && options[at].correct && forall i :: 0 <= i < at ==> !options[i].correct
  }

  /** What the seed writes for this id, untouched. */
  predicate IsPlaceholder(row: Row, seeded: map<QuestionId, Seeded>, q: QuestionId) {
    q in seeded && Has(row, Identifier, Words(seeded[q].ident)) && Has(row, Options, Choices(seeded[q].options))
  }

  /** As many options as before, and the same one the first correct. */
  ghost predicate SameChoices(stored: seq<(string, bool)>, options: seq<Choice>) {
    |stored| == |options| && forall at :: IsFirstCorrect(stored, at) <==> IsFirstRight(options, at)
  }

  /** A stored question is free for the file's: it is a placeholder, or it is asked in no other set and keeps its choices. */
  ghost predicate IsFree(rows: map<RowId, Row>, seeded: map<QuestionId, Seeded>, q: QuestionId, asked: Asked, kind: Kind) {
    QuestionRow(q) in rows && !IsPlaceholder(rows[QuestionRow(q)], seeded, q) ==>
      && (IsAskedIn(rows, q, if kind == QuizKind then PracticeKind else QuizKind) ==> IsAskedIn(rows, q, kind))
      && (Options in rows[QuestionRow(q)] && rows[QuestionRow(q)][Options].Choices? ==> SameChoices(rows[QuestionRow(q)][Options].c, asked.options))
  }

  lemma {:induction false} FirstRightIsStored(options: seq<Choice>, at: int)
    ensures IsFirstRight(options, at) <==> IsFirstCorrect(StoredChoices(options), at)
  {
    ChoicesAre(options);
  }

  lemma {:induction false} SameFirst(stored: seq<(string, bool)>, options: seq<Choice>)
    ensures FirstCorrect(stored) == FirstCorrect(StoredChoices(options))
      <==> forall at :: IsFirstCorrect(stored, at) <==> IsFirstRight(options, at)
  {
    var a, b := FirstCorrect(stored), FirstCorrect(StoredChoices(options));
    forall at
      ensures IsFirstCorrect(stored, at) <==> 0 <= at == a
      ensures IsFirstRight(options, at) <==> 0 <= at == b
    {
      FirstCorrectIs(stored, at);
      FirstCorrectIs(StoredChoices(options), at);
      FirstRightIsStored(options, at);
    }
    FirstCorrectIs(stored, a);
    FirstCorrectIs(StoredChoices(options), b);
    assert IsFirstCorrect(stored, a) <==> a >= 0;
    assert IsFirstRight(options, b) <==> b >= 0;
  }

  lemma {:induction false} FreeKeepsMeaning(rows: map<RowId, Row>, seeded: map<QuestionId, Seeded>, p: Placed)
    ensures KeepsMeaning(rows, seeded, p) <==> IsFree(rows, seeded, p.id, p.question, p.kind)
  {
    AskedIsRole(rows, p.id, PracticeKind);
    AskedIsRole(rows, p.id, QuizKind);
    var id := QuestionRow(p.id);
    if id in rows && Options in rows[id] && rows[id][Options].Choices? {
      SameFirst(rows[id][Options].c, p.question.options);
    }
  }

  ghost predicate QuestionsAreFree(c: Content, seeded: map<QuestionId, Seeded>, rows: map<RowId, Row>) {
    forall l, kind, j: nat, q :: l in c.lessons && j < |QuestionsOf(l, kind)| && IsIdOf(c, l, kind, j, q) ==>
      IsFree(rows, seeded, q, QuestionsOf(l, kind)[j], kind)
  }

  ghost predicate AllKeepMeaning(rows: map<RowId, Row>, seeded: map<QuestionId, Seeded>, placed: seq<Placed>) {
    forall k :: 0 <= k < |placed| ==> KeepsMeaning(rows, seeded, placed[k])
  }

  lemma {:induction false} FreeIsMeaning(c: Content, seeded: map<QuestionId, Seeded>, rows: map<RowId, Row>)
    requires Valid(c)
    ensures AllKeepMeaning(rows, seeded, PlaceAll(InOrder(c.lessons))) <==> QuestionsAreFree(c, seeded, rows)
  {
    var live, placed := InOrder(c.lessons), PlaceAll(InOrder(c.lessons));
    if QuestionsAreFree(c, seeded, rows) {
      forall k | 0 <= k < |placed| ensures KeepsMeaning(rows, seeded, placed[k]) {
        var i, kind, j := PlacedFrom(live, k);
        InOrderHas(c.lessons, live[i]);
        IdAt(c, i, kind, j);
        FreeKeepsMeaning(rows, seeded, placed[k]);
      }
    }
    if AllKeepMeaning(rows, seeded, placed) {
      forall l, kind, j: nat, q | l in c.lessons && j < |QuestionsOf(l, kind)| && IsIdOf(c, l, kind, j, q)
        ensures IsFree(rows, seeded, q, QuestionsOf(l, kind)[j], kind)
      {
        var k := PlacedOf(c, l, kind, j, q);
        FreeKeepsMeaning(rows, seeded, placed[k]);
      }
    }
  }

  lemma {:induction false} PlacedOf(c: Content, l: Lesson, kind: Kind, j: nat, q: QuestionId) returns (k: nat)
    requires Valid(c) && l in c.lessons && j < |QuestionsOf(l, kind)| && IsIdOf(c, l, kind, j, q)
    ensures k < |PlaceAll(InOrder(c.lessons))|
    ensures PlaceAll(InOrder(c.lessons))[k] == Placed(PlaceOf(l), kind, j, QuestionsOf(l, kind)[j], q)
  {
    var live := InOrder(c.lessons);
    InOrderHas(c.lessons, l);
    var i :| 0 <= i < |live| && live[i] == l;
    k := PlacedAt(live, i, kind, j);
    IdAt(c, i, kind, j);
  }

  /** Without the rename flag a stored lesson by its order has the file's name. */
  predicate NamesAgree(c: Content, rows: map<RowId, Row>) {
    forall l :: l in c.lessons && l.fixed.None? && SlotRow(LessonPart, PlaceOf(l)) in rows ==>
      Has(rows[SlotRow(LessonPart, PlaceOf(l))], Name, Words(l.name.en))
  }

  /** The points a stored lesson can give with the sets the file gives it. */
  function Reach(row: Row, l: Lesson): int {
    (if Num(row, Column.LearningPoints) > 0 then Num(row, Column.LearningPoints) else 20)
    + (if l.quiz == [] then 0 else if Num(row, QuizzesPoints) > 0 then Num(row, QuizzesPoints) else 40)
    + (if l.practice == [] then 0 else if Num(row, PracticesPoints) > 0 then Num(row, PracticesPoints) else 40)
  }

  /** They reach the mark that completes it: its own, or four fifths of its total. */
  predicate MarksAreInReach(c: Content, rows: map<RowId, Row>) {
    forall l :: l in c.lessons && SlotRow(LessonPart, PlaceOf(l)) in rows ==>
      MarkIsInReach(rows[SlotRow(LessonPart, PlaceOf(l))], l)
  }

  predicate MarkIsInReach(row: Row, l: Lesson) {
    if Num(row, Passing) > 0 then Num(row, Passing) <= Reach(row, l) else Num(row, Total) > 0 ==> 80 * Num(row, Total) <= 100 * Reach(row, l)
  }

  /** A kept video has its document, not deleted. */
  predicate KeptVideosAreThere(c: Content, rows: map<RowId, Row>) {
    forall l :: l in c.lessons && l.keep ==>
      SlotRow(DocumentPart, PlaceOf(l)) in rows && Num(rows[SlotRow(DocumentPart, PlaceOf(l))], IsDeleted) == 0
  }

  predicate IsOwnersOrNobodys(rows: map<RowId, Row>, id: RowId, owner: string) {
    id in rows && Owner in rows[id] ==> rows[id][Owner] == Null || rows[id][Owner] == Words(owner)
  }

  /** The programme's row, the lessons' documents and the questions are the owner's or nobody's. */
  ghost predicate NothingIsOthers(c: Content, rows: map<RowId, Row>, owner: string) {
    && IsOwnersOrNobodys(rows, CurriculumRow, owner)
    && (forall l :: l in c.lessons ==> IsOwnersOrNobodys(rows, SlotRow(DocumentPart, PlaceOf(l)), owner))
    && (forall l, kind, j: nat, q :: l in c.lessons && j < |QuestionsOf(l, kind)| && IsIdOf(c, l, kind, j, q) ==>
          IsOwnersOrNobodys(rows, QuestionRow(q), owner))
  }

  lemma {:induction false} NamesAre(c: Content, rows: map<RowId, Row>)
    ensures (forall i :: 0 <= i < |c.lessons| ==> KeepsName(rows, c.lessons[i])) <==> NamesAgree(c, rows)
  {
    forall l ensures KeepsName(rows, l) <==>
      (l.fixed.None? && SlotRow(LessonPart, PlaceOf(l)) in rows ==> Has(rows[SlotRow(LessonPart, PlaceOf(l))], Name, Words(l.name.en)))
    {
    }
    assert forall i :: 0 <= i < |c.lessons| ==> c.lessons[i] in c.lessons;
  }

  lemma {:induction false} MarksAre(c: Content, rows: map<RowId, Row>)
    ensures (forall i :: 0 <= i < |c.lessons| ==> StaysCompletable(rows, c.lessons[i])) <==> MarksAreInReach(c, rows)
  {
    forall l ensures StaysCompletable(rows, l) <==>
      (SlotRow(LessonPart, PlaceOf(l)) in rows ==> MarkIsInReach(rows[SlotRow(LessonPart, PlaceOf(l))], l))
    {
      if SlotRow(LessonPart, PlaceOf(l)) in rows {
        var row := rows[SlotRow(LessonPart, PlaceOf(l))];
        assert ReachablePoints(row, l) == Reach(row, l);
      }
    }
    assert forall i :: 0 <= i < |c.lessons| ==> c.lessons[i] in c.lessons;
  }

  lemma {:induction false} VideosAre(c: Content, rows: map<RowId, Row>)
    ensures RequiredAreThere(c, rows) <==> (c.number == 1 || (CurriculumRow in rows && GradeRow in rows)) && KeptVideosAreThere(c, rows)
  {
    assert forall i :: 0 <= i < |c.lessons| ==> c.lessons[i] in c.lessons;
    assert forall l :: l in c.lessons ==> PlaceOf(l) == l.SlotOf();
  }

  lemma {:induction false} OwnersAre(c: Content, rows: map<RowId, Row>, owner: string)
    requires Valid(c)
    ensures OwnedIsOwn(c, rows, owner) <==> NothingIsOthers(c, rows, owner)
  {
    var live, placed := InOrder(c.lessons), PlaceAll(InOrder(c.lessons));
    forall id ensures OwnedOrFree(rows, id, owner) <==> IsOwnersOrNobodys(rows, id, owner) {
    }
    assert forall i :: 0 <= i < |c.lessons| ==> c.lessons[i] in c.lessons && PlaceOf(c.lessons[i]) == c.lessons[i].SlotOf();
    if NothingIsOthers(c, rows, owner) {
      forall k | 0 <= k < |placed| ensures OwnedOrFree(rows, QuestionRow(placed[k].id), owner) {
        var i, kind, j := PlacedFrom(live, k);
        InOrderHas(c.lessons, live[i]);
        IdAt(c, i, kind, j);
        assert IsOwnersOrNobodys(rows, QuestionRow(placed[k].id), owner);
      }
    }
    if OwnedIsOwn(c, rows, owner) {
      forall l, kind, j: nat, q | l in c.lessons && j < |QuestionsOf(l, kind)| && IsIdOf(c, l, kind, j, q)
        ensures IsOwnersOrNobodys(rows, QuestionRow(q), owner)
      {
        var k := PlacedOf(c, l, kind, j, q);
        assert OwnedOrFree(rows, QuestionRow(placed[k].id), owner);
      }
    }
  }

  /**
   * A run goes ahead exactly when the file is sound, Module 1 is not drafted, a module that is not there
   * is given a switch, and no stored name, question, mark, missing row or owner stands in the way.
   */
  lemma {:induction false} AcceptedExactly(c: Content, flags: Flags, seeded: map<QuestionId, Seeded>, rows: map<RowId, Row>)
    ensures Accepts(c, flags, seeded, rows) <==>
      && SoundFile(c)
      && (c.number == 1 ==> flags.levelSwitch != Draft)
      && (LevelRow in rows || flags.levelSwitch == Draft || flags.levelSwitch == Live)
      && (flags.renameLessons || NamesAgree(c, rows))
      && QuestionsAreFree(c, seeded, rows)
      && MarksAreInReach(c, rows)
      && (c.number == 1 || (CurriculumRow in rows && GradeRow in rows))
      && KeptVideosAreThere(c, rows)
      && NothingIsOthers(c, rows, flags.owner)
  {
    ValidIsSound(c);
    NamesAre(c, rows);
    MarksAre(c, rows);
    VideosAre(c, rows);
    if Valid(c) {
      FreeIsMeaning(c, seeded, rows);
      OwnersAre(c, rows, flags.owner);
    }
  }

  // ---- the points ----------------------------------------------------------------------------------------------------------

  /** The lessons of the module that are there and not deleted. */
  ghost function LessonsThere(m: nat, rows: map<RowId, Row>): set<RowId> {
    set id | id in rows && id.SlotRow? && id.part == LessonPart && InModule(m, id.slot) && Num(rows[id], IsDeleted) == 0
  }

  /** The levels of the grade, this one and the others, that are on and not deleted. */
  ghost function LevelsOn(rows: map<RowId, Row>): set<RowId> {
    set id | id in rows && (id == LevelRow || id.OtherLevel?) && Num(rows[id], Status) == 1 && Num(rows[id], IsDeleted) == 0
  }

  function ValueOf(rows: map<RowId, Row>, col: Column): RowId -> int {
    (id: RowId) => if id in rows then Num(rows[id], col) else 0
  }

  function LessonRowsOf(slots: set<Slot>): set<RowId> {
    set s | s in slots :: SlotRow(LessonPart, s)
  }

  lemma {:induction false} VisibleTotals(rows: map<RowId, Row>, slots: set<Slot>)
    requires forall s :: s in slots ==> SlotRow(LessonPart, s) in rows
    ensures Sum(TotalsIn(rows), slots) == Sum(ValueOf(rows, Total), LessonRowsOf(slots))
    decreases |slots|
  {
    if slots != {} {
      var s :| s in slots;
      VisibleTotals(rows, slots - {s});
      SumPick(TotalsIn(rows), slots, s);
      SumPick(ValueOf(rows, Total), LessonRowsOf(slots), SlotRow(LessonPart, s));
      assert LessonRowsOf(slots) - {SlotRow(LessonPart, s)} == LessonRowsOf(slots - {s});
    }
  }

  lemma {:induction false} VisibleAreThere(m: nat, rows: map<RowId, Row>)
    ensures LessonRowsOf(Visible(m, rows)) == LessonsThere(m, rows)
  {
    forall s ensures s in AllSlots(m) <==> InModule(m, s) {
      SlotsAre(m, s);
    }
    forall id | id in LessonsThere(m, rows) ensures id.slot in Visible(m, rows) {
    }
  }

  lemma {:induction false} LevelsAre(rows: map<RowId, Row>)
    ensures Sum(PointsIn(rows), set id | id in rows && IsLiveLevel(rows, id)) == Sum(ValueOf(rows, Points), LevelsOn(rows))
  {
    assert (set id | id in rows && IsLiveLevel(rows, id)) == LevelsOn(rows);
    SumSame(PointsIn(rows), ValueOf(rows, Points), LevelsOn(rows));
  }

  /**
   * After an accepted run the level is worth the totals of its lessons that are there, and its quiz's
   * points while it has an active question; the grade is worth its levels that are on.
   */
  lemma {:induction false} PointsAreSums(hash: string -> string, c: Content, flags: Flags, seeded: map<QuestionId, Seeded>,
                                         db: Db, stamp: int)
    requires Accepts(c, flags, seeded, db.rows)
    requires LevelRow in db.rows && flags.levelSwitch == Keep ==> Num(db.rows[LevelRow], Status) in {0, 1}
    ensures var rows := After(hash, c, flags, db, stamp).rows;
            && LevelRow in rows && GradeRow in rows
            && Num(rows[LevelRow], Points) == Sum(ValueOf(rows, Total), LessonsThere(c.number, rows))
                                              + (if Num(rows[LevelRow], QuizRows) > 0 then Num(rows[LevelRow], QuizPoints) else 0)
            && Num(rows[GradeRow], Points) == Sum(ValueOf(rows, Points), LevelsOn(rows))
  {
    var rows := After(hash, c, flags, db, stamp).rows;
    PointsAreTheSums(hash, c, flags, seeded, db, stamp);
    VisibleTotals(rows, Visible(c.number, rows));
    VisibleAreThere(c.number, rows);
    LevelsAre(rows);
  }
}
