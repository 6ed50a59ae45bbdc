/**
 * What the stored rows and texts say after an accepted run, against the content file alone: its
 * questions are asked in their sets and places, its lessons have their parts, its Khmer is stored with
 * the hash of its English, and whatever else the module has is switched off.
 */
module ContentGuarantees {
  import opened PlanSteps
  import opened ContentPlan
  import opened ContentPlacing
  import opened ContentPlanTheorems
  import opened ContentPlanRuns
  import opened ContentRerun

  // ---- the file ------------------------------------------------------------------------------------------------------

  /** The place of a lesson in its module: the fixed lesson it names, or the one of its order. */
  function PlaceOf(l: Lesson): Slot {
    if l.fixed.Some? then FixedSlot(l.fixed.value) else DerivedSlot(l.order)
  }

  function QuestionsOf(l: Lesson, kind: Kind): seq<Asked> {
    if kind == PracticeKind then l.practice else l.quiz
  }

  /** A place of module `m`: Module 1 has four fixed ones and those of orders 2 to 12, a later module those of orders 1 to 12. */
  predicate InModule(m: nat, s: Slot) {
    (m == 1 && s.FixedSlot? && 1 <= s.n <= 4) || (s.DerivedSlot? && (if m == 1 then 2 else 1) <= s.n <= 12)
  }

  predicate HasLesson(c: Content, s: Slot) {
    exists l :: l in c.lessons && PlaceOf(l) == s
  }

  lemma {:induction false} FileIs(c: Content, s: Slot)
    ensures InModule(c.number, s) <==> IsSlot(c.number, s)
    ensures HasLesson(c, s) <==> Named(c.lessons, s)
    ensures forall l :: l in c.lessons ==> PlaceOf(l) == l.SlotOf()
  {
    if l :| l in c.lessons && PlaceOf(l) == s {
      var i :| 0 <= i < |c.lessons| && c.lessons[i] == l;
      assert c.lessons[i].SlotOf() == s;
    }
    if i :| 0 <= i < |c.lessons| && c.lessons[i].SlotOf() == s {
      assert c.lessons[i] in c.lessons && PlaceOf(c.lessons[i]) == s;
    }
  }

  // ---- the questions -------------------------------------------------------------------------------------------------

  predicate Has(row: Row, col: Column, value: Value) {
    col in row && row[col] == value
  }

  /** The row holds the question's text and its options in order, each with the flag on the correct one. */
  predicate HoldsQuestion(row: Row, q: Asked) {
    && Has(row, Body, Words(q.text.en)) && Has(row, Identifier, Words(q.ident))
    && Has(row, IsDeleted, Number(0)) && Has(row, Status, Number(1))
    && Options in row && row[Options].Choices? && |row[Options].c| == |q.options|
    && forall k :: 0 <= k < |q.options| ==> row[Options].c[k] == (q.options[k].text.en, q.options[k].correct)
  }

  /** The row puts this question in the set of the lesson, at this place, switched on. */
  predicate PutsAt(row: Row, s: Slot, kind: Kind, place: nat, q: QuestionId) {
    Has(row, SetOf, InSet(kind, s)) && Has(row, Asks, Question(q)) && Has(row, Order, Number(place + 1)) && Has(row, Status, Number(1))
  }

  lemma {:induction false} PlacedHas(live: seq<Lesson>, l: Lesson, kind: Kind, j: nat) returns (k: nat)
    requires l in live && j < |QuestionsOf(l, kind)|
    ensures k < |PlaceAll(live)|
    ensures var p := PlaceAll(live)[k];
            p.slot == PlaceOf(l) && p.kind == kind && p.place == j && p.question == QuestionsOf(l, kind)[j]
  {
    var before, last := live[..|live| - 1], live[|live| - 1];
    assert live == before + [last];
    if l in before {
      k := PlacedHas(before, l, kind, j);
    } else {
      var next := Pooled(before);
      PlacedInSet(l, PracticeKind, next, |l.practice|);
      PlacedInSet(l, QuizKind, next, |l.quiz|);
      k := |PlaceAll(before)| + (if kind == PracticeKind then 0 else |l.practice|) + j;
    }
  }

  lemma {:induction false} PlacedInSet(l: Lesson, kind: Kind, next: nat, n: nat)
    requires n <= |l.Set(kind)|
    ensures |PlaceSet(l, kind, next, n)| == n
    ensures forall j :: 0 <= j < n ==>
      var p := PlaceSet(l, kind, next, n)[j];
      p.slot == PlaceOf(l) && p.kind == kind && p.place == j && p.question == QuestionsOf(l, kind)[j]
  {
    if n > 0 {
      PlacedInSet(l, kind, next, n - 1);
    }
  }

  lemma {:induction false} ChoicesAre(options: seq<Choice>)
    ensures |StoredChoices(options)| == |options|
    ensures forall k :: 0 <= k < |options| ==> StoredChoices(options)[k] == (options[k].text.en, options[k].correct)
  {
    if options != [] {
      ChoicesAre(options[..|options| - 1]);
    }
  }

  lemma {:induction false} QuestionStepHolds(before: map<RowId, Row>, p: Placed, flags: Flags)
    ensures var step := QuestionStep(p, flags);
            HoldsQuestion(PutRow(before, QuestionRow(p.id), step.values, step.update), p.question)
  {
    ChoicesAre(p.question.options);
  }

  lemma {:induction false} JoinStepPuts(before: map<RowId, Row>, p: Placed)
    ensures var step := JoinStep(p);
            PutsAt(PutRow(before, JoinRow(p.slot, p.kind, p.place), step.values, step.update), p.slot, p.kind, p.place, p.id)
  {
  }

  /** The id a question of the file is stored under. */
  lemma {:induction false} PlacedIsAsked(hash: string -> string, c: Content, flags: Flags, db: Db, stamp: int, k: nat)
    requires Valid(c) && k < |PlaceAll(InOrder(c.lessons))|
    ensures var (rows, p) := (After(hash, c, flags, db, stamp).rows, PlaceAll(InOrder(c.lessons))[k]);
            && JoinRow(p.slot, p.kind, p.place) in rows && PutsAt(rows[JoinRow(p.slot, p.kind, p.place)], p.slot, p.kind, p.place, p.id)
            && QuestionRow(p.id) in rows && HoldsQuestion(rows[QuestionRow(p.id)], p.question)
  {
    var p := PlaceAll(InOrder(c.lessons))[k];
    PlacedStepsInWrites(c, flags, NumbersOf(c, flags, db.rows), k);
    WrittenRow(hash, c, flags, db, stamp, QuestionStep(p, flags));
    WrittenRow(hash, c, flags, db, stamp, JoinStep(p));
    QuestionStepHolds(db.rows, p, flags);
    JoinStepPuts(db.rows, p);
  }

  /**
   * Each question of the file is asked where the file has it: the row of its lesson, set and place is on,
   * in that set, at that place, and asks a question row with its text, its options and the correct one.
   */
  lemma {:induction false} EveryQuestionIsAsked(hash: string -> string, c: Content, flags: Flags, db: Db, stamp: int,
                                                l: Lesson, kind: Kind, j: nat)
    returns (q: QuestionId)
    requires Valid(c) && l in c.lessons && j < |QuestionsOf(l, kind)|
    ensures var (rows, join) := (After(hash, c, flags, db, stamp).rows, JoinRow(PlaceOf(l), kind, j));
            && join in rows && PutsAt(rows[join], PlaceOf(l), kind, j, q)
            && QuestionRow(q) in rows && HoldsQuestion(rows[QuestionRow(q)], QuestionsOf(l, kind)[j])
  {
    InOrderHas(c.lessons, l);
    var k := PlacedHas(InOrder(c.lessons), l, kind, j);
    PlacedIsAsked(hash, c, flags, db, stamp, k);
    q := PlaceAll(InOrder(c.lessons))[k].id;
  }

  // ---- everything else is off -----------------------------------------------------------------------------------------

  /** A hidden row of the module has its switch off, and the rest as it was. */
  lemma {:induction false} HiddenRow(hash: string -> string, c: Content, flags: Flags, db: Db, stamp: int, id: RowId,
                                     col: Column, value: Value)
    requires Valid(c) && Hide(id, col, value) in Hides(c)
    ensures var rows := After(hash, c, flags, db, stamp).rows;
            (id in rows <==> id in db.rows) && (id in rows ==> rows[id] == db.rows[id][col := value])
  {
    var numbers, steps := NumbersOf(c, flags, db.rows), PlanOf(hash, c, flags, db.rows, stamp);
    RowStepsAre(c, flags, numbers);
    PlanIsDistinct(hash, c, flags, numbers, stamp);
    StepInWhole(Writes(c, flags, numbers), Hides(c), Hide(id, col, value));
    StepInWhole(RowSteps(c, flags, numbers), TextSteps(hash, c, flags.owner, stamp), Hide(id, col, value));
    var k :| 0 <= k < |steps| && steps[k] == Hide(id, col, value);
    ApplyAt(db, steps, k);
  }

  lemma {:induction false} InHides(a: seq<Step>, b: seq<Step>, d: seq<Step>, e: seq<Step>, step: Step)
    requires step in a || step in b || step in d || step in e
    ensures step in a + b + d + e
  {
  }

  lemma {:induction false} JoinIsHidden(joins: seq<Join>, placed: seq<Placed>, j: Join)
    requires j in joins && !UsedJoin(placed, j)
    ensures Hide(JoinRow(j.slot, j.kind, j.place), Status, Number(0)) in HideJoins(joins, placed)
  {
    var before, last := joins[..|joins| - 1], joins[|joins| - 1];
    assert joins == before + [last];
    if j != last {
      JoinIsHidden(before, placed, j);
    }
  }

  lemma {:induction false} QuestionIsHidden(ids: seq<QuestionId>, placed: seq<Placed>, q: QuestionId)
    requires q in ids && !Assigned(placed, q)
    ensures Hide(QuestionRow(q), IsDeleted, Number(1)) in HideQuestions(ids, placed)
  {
    var before, last := ids[..|ids| - 1], ids[|ids| - 1];
    assert ids == before + [last];
    if q != last {
      QuestionIsHidden(before, placed, q);
    }
  }

  /** A place of a set in the file. */
  predicate InFile(c: Content, s: Slot, kind: Kind, place: nat) {
    exists l :: l in c.lessons && PlaceOf(l) == s && place < |QuestionsOf(l, kind)|
  }

  lemma {:induction false} PlacedIsInFile(live: seq<Lesson>, k: nat) returns (l: Lesson)
    requires k < |PlaceAll(live)|
    ensures var p := PlaceAll(live)[k]; l in live && PlaceOf(l) == p.slot && p.place < |QuestionsOf(l, p.kind)|
  {
    var before, last := live[..|live| - 1], live[|live| - 1];
    assert live == before + [last];
    if k < |PlaceAll(before)| {
      l := PlacedIsInFile(before, k);
    } else {
      l := last;
      PlacedInSet(last, PracticeKind, Pooled(before), |last.practice|);
      PlacedInSet(last, QuizKind, Pooled(before), |last.quiz|);
    }
  }

  /** No other row of the module's sets is switched on. */
  lemma {:induction false} NoOtherQuestionIsAsked(hash: string -> string, c: Content, flags: Flags, db: Db, stamp: int,
                                                  s: Slot, kind: Kind, place: nat)
    requires Valid(c) && InModule(c.number, s) && place < 4 && !InFile(c, s, kind, place)
    ensures var (rows, join) := (After(hash, c, flags, db, stamp).rows, JoinRow(s, kind, place));
            (join in rows <==> join in db.rows) && (join in rows ==> rows[join] == db.rows[join][Status := Number(0)])
  {
    var slots, placed := AllSlots(c.number), PlaceAll(InOrder(c.lessons));
    FileIs(c, s);
    SlotsAre(c.number, s);
    JoinsOfHas(slots, kind, Join(s, kind, place));
    if k :| 0 <= k < |placed| && Join(placed[k].slot, placed[k].kind, placed[k].place) == Join(s, kind, place) {
      var l := PlacedIsInFile(InOrder(c.lessons), k);
      InOrderHas(c.lessons, l);
    }
    JoinIsHidden(JoinsOf(slots, kind), placed, Join(s, kind, place));
    InHides(HideSlots(Unnamed(slots, c.lessons)), HideJoins(JoinsOf(slots, PracticeKind), placed),
            HideJoins(JoinsOf(slots, QuizKind), placed), HideQuestions(QuestionIds(c.number), placed),
            Hide(JoinRow(s, kind, place), Status, Number(0)));
    HiddenRow(hash, c, flags, db, stamp, JoinRow(s, kind, place), Status, Number(0));
  }

  /** A question id of the module that no row of its sets asks is deleted. */
  lemma {:induction false} UnusedQuestionIsDeleted(hash: string -> string, c: Content, flags: Flags, db: Db, stamp: int,
                                                   q: QuestionId)
    requires Valid(c) && IsQuestionOf(c.number, q)
    requires forall s, kind, place: nat :: InModule(c.number, s) && InFile(c, s, kind, place) ==>
      !Has(RowAt(After(hash, c, flags, db, stamp).rows, JoinRow(s, kind, place)), Asks, Question(q))
    ensures var (rows, id) := (After(hash, c, flags, db, stamp).rows, QuestionRow(q));
            (id in rows <==> id in db.rows) && (id in rows ==> rows[id] == db.rows[id][IsDeleted := Number(1)])
  {
    var placed, rows := PlaceAll(InOrder(c.lessons)), After(hash, c, flags, db, stamp).rows;
    forall k | 0 <= k < |placed| ensures placed[k].id != q {
      var l := PlacedIsInFile(InOrder(c.lessons), k);
      InOrderHas(c.lessons, l);
      QuestionsFit(c);
      FileIs(c, placed[k].slot);
      PlacedIsAsked(hash, c, flags, db, stamp, k);
      assert InFile(c, placed[k].slot, placed[k].kind, placed[k].place);
    }
    QuestionIdsAre(c.number, q);
    QuestionIsHidden(QuestionIds(c.number), placed, q);
    InHides(HideSlots(Unnamed(AllSlots(c.number), c.lessons)), HideJoins(JoinsOf(AllSlots(c.number), PracticeKind), placed),
            HideJoins(JoinsOf(AllSlots(c.number), QuizKind), placed), HideQuestions(QuestionIds(c.number), placed),
            Hide(QuestionRow(q), IsDeleted, Number(1)));
    HiddenRow(hash, c, flags, db, stamp, QuestionRow(q), IsDeleted, Number(1));
  }

  function RowAt(rows: map<RowId, Row>, id: RowId): Row {
    if id in rows then rows[id] else map[]
  }

  lemma {:induction false} PartIsHidden(slots: seq<Slot>, part: Part, s: Slot)
    requires s in slots
    ensures Hide(SlotRow(part, s), SwitchColumn(part), HiddenValue(part)) in HideSlots(slots)
  {
    HidePartIs(slots, part);
    var k :| 0 <= k < |slots| && slots[k] == s;
    var step := Hide(SlotRow(part, s), SwitchColumn(part), HiddenValue(part));
    assert HidePart(slots, part)[k] == step;
    InHides(HidePart(slots, LessonPart), HidePart(slots, DocumentPart), HidePart(slots, LearningPart),
            HidePart(slots, PracticePart) + HidePart(slots, QuizPart), step);
    assert HideSlots(slots) == HidePart(slots, LessonPart) + HidePart(slots, DocumentPart) + HidePart(slots, LearningPart)
                               + (HidePart(slots, PracticePart) + HidePart(slots, QuizPart));
  }

  /** A place of the module without a lesson in the file: its lesson and document are deleted, its parts are off. */
  lemma {:induction false} PlaceLeftOutIsOff(hash: string -> string, c: Content, flags: Flags, db: Db, stamp: int, s: Slot,
                                             part: Part)
    requires Valid(c) && InModule(c.number, s) && !HasLesson(c, s)
    ensures var (rows, id) := (After(hash, c, flags, db, stamp).rows, SlotRow(part, s));
            && (id in rows <==> id in db.rows)
            && (id in rows && part in {LessonPart, DocumentPart} ==> rows[id] == db.rows[id][IsDeleted := Number(1)])
            && (id in rows && part in {LearningPart, PracticePart, QuizPart} ==> rows[id] == db.rows[id][Status := Number(0)])
  {
    var slots, placed := AllSlots(c.number), PlaceAll(InOrder(c.lessons));
    FileIs(c, s);
    SlotsAre(c.number, s);
    UnnamedAre(slots, c.lessons);
    PartIsHidden(Unnamed(slots, c.lessons), part, s);
    InHides(HideSlots(Unnamed(slots, c.lessons)), HideJoins(JoinsOf(slots, PracticeKind), placed),
            HideJoins(JoinsOf(slots, QuizKind), placed), HideQuestions(QuestionIds(c.number), placed),
            Hide(SlotRow(part, s), SwitchColumn(part), HiddenValue(part)));
    HiddenRow(hash, c, flags, db, stamp, SlotRow(part, s), SwitchColumn(part), HiddenValue(part));
  }
}
