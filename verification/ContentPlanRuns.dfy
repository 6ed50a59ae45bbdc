/** The plan as a whole: no row is touched twice, and a run after a run changes nothing. */
module ContentPlanRuns {
  import opened PlanSteps
  import opened ContentPlan
  import opened ContentPlacing
  import opened ContentPlanTheorems

  // ---- rows -------------------------------------------------------------------------------------------------

  function HeadSteps(c: Content, flags: Flags, numbers: Numbers): seq<Step> {
    [CurriculumStep(c, flags), GradeStep(c, numbers), LevelStep(c, flags, numbers)]
  }

  /** The steps that write a row. */
  function Writes(c: Content, flags: Flags, numbers: Numbers): seq<Step> {
    HeadSteps(c, flags, numbers) + AllLessonSteps(InOrder(c.lessons), flags)
    + QuestionSteps(PlaceAll(InOrder(c.lessons)), flags) + JoinSteps(PlaceAll(InOrder(c.lessons)))
  }

  /** The steps that hide one. */
  function Hides(c: Content): seq<Step> {
    var (slots, placed) := (AllSlots(c.number), PlaceAll(InOrder(c.lessons)));
    HideSlots(Unnamed(slots, c.lessons)) + HideJoins(JoinsOf(slots, PracticeKind), placed)
    + HideJoins(JoinsOf(slots, QuizKind), placed) + HideQuestions(QuestionIds(c.number), placed)
  }

  lemma {:induction false} RowStepsAre(c: Content, flags: Flags, numbers: Numbers)
    ensures RowSteps(c, flags, numbers) == Writes(c, flags, numbers) + Hides(c)
  {
  }

  lemma {:induction false} NamedInOrder(lessons: seq<Lesson>, s: Slot)
    ensures Named(InOrder(lessons), s) <==> Named(lessons, s)
  {
    if i :| 0 <= i < |lessons| && lessons[i].SlotOf() == s {
      InOrderHas(lessons, lessons[i]);
      var k :| 0 <= k < |InOrder(lessons)| && InOrder(lessons)[k] == lessons[i];
      assert InOrder(lessons)[k].SlotOf() == s;
    }
    if i :| 0 <= i < |InOrder(lessons)| && InOrder(lessons)[i].SlotOf() == s {
      InOrderHas(lessons, InOrder(lessons)[i]);
      var k :| 0 <= k < |lessons| && lessons[k] == InOrder(lessons)[i];
      assert lessons[k].SlotOf() == s;
    }
  }

  predicate IsHead(t: Target) {
    t in {OfRow(CurriculumRow), OfRow(GradeRow), OfRow(LevelRow)}
  }

  predicate IsJoinTarget(t: Target) {
    t.OfRow? && t.id.JoinRow?
  }

  function JoinOf(t: Target): Join
    requires IsJoinTarget(t)
  {
    Join(t.id.joinSlot, t.id.kind, t.id.place)
  }

  /** A written row: the programme's three, a named slot's, an assigned question, a used join. */
  predicate IsWritten(c: Content, t: Target) {
    var placed := PlaceAll(InOrder(c.lessons));
    || IsHead(t)
    || (t.OfRow? && t.id.SlotRow? && Named(c.lessons, t.id.slot))
    || (t.OfRow? && t.id.QuestionRow? && Assigned(placed, t.id.question))
    || (IsJoinTarget(t) && UsedJoin(placed, JoinOf(t)))
  }

  /** A hidden row: one of the module's slots, questions or joins that the file does not use. */
  predicate IsHidden(c: Content, t: Target) {
    var placed := PlaceAll(InOrder(c.lessons));
    || (t.OfRow? && t.id.SlotRow? && IsSlot(c.number, t.id.slot) && !Named(c.lessons, t.id.slot))
    || (t.OfRow? && t.id.QuestionRow? && IsQuestionOf(c.number, t.id.question) && !Assigned(placed, t.id.question))
    || (IsJoinTarget(t) && IsSlot(c.number, t.id.joinSlot) && t.id.place < MAX_QUESTIONS_PER_SET && !UsedJoin(placed, JoinOf(t)))
  }

  lemma {:induction false} WritesTargets(c: Content, flags: Flags, numbers: Numbers, t: Target)
    ensures Targets(Writes(c, flags, numbers), t) ==> IsWritten(c, t)
  {
    var live, placed := InOrder(c.lessons), PlaceAll(InOrder(c.lessons));
    var (h, l, q, j) := (HeadSteps(c, flags, numbers), AllLessonSteps(live, flags), QuestionSteps(placed, flags), JoinSteps(placed));
    TargetsConcat(h, l, t);
    TargetsConcat(h + l, q, t);
    TargetsConcat(h + l + q, j, t);
    AllLessonStepsTargets(live, flags, t);
    QuestionStepsTargets(placed, flags, t);
    if t.OfRow? && t.id.SlotRow? {
      NamedInOrder(c.lessons, t.id.slot);
    }
  }

  lemma {:induction false} HidesTargets(c: Content, t: Target)
    ensures Targets(Hides(c), t) <==> IsHidden(c, t)
  {
    var slots, placed := AllSlots(c.number), PlaceAll(InOrder(c.lessons));
    var (s, p, z, q) := (HideSlots(Unnamed(slots, c.lessons)), HideJoins(JoinsOf(slots, PracticeKind), placed),
                         HideJoins(JoinsOf(slots, QuizKind), placed), HideQuestions(QuestionIds(c.number), placed));
    TargetsConcat(s, p, t);
    TargetsConcat(s + p, z, t);
    TargetsConcat(s + p + z, q, t);
    HideSlotsTargets(Unnamed(slots, c.lessons), t);
    UnnamedAre(slots, c.lessons);
    HideJoinsTargets(JoinsOf(slots, PracticeKind), placed, t);
    HideJoinsTargets(JoinsOf(slots, QuizKind), placed, t);
    HideQuestionsTargets(QuestionIds(c.number), placed, t);
    if t.OfRow? && t.id.SlotRow? {
      SlotsAre(c.number, t.id.slot);
    }
    if IsJoinTarget(t) {
      JoinsOfHas(slots, PracticeKind, JoinOf(t));
      JoinsOfHas(slots, QuizKind, JoinOf(t));
      SlotsAre(c.number, t.id.joinSlot);
    }
    if t.OfRow? && t.id.QuestionRow? {
      QuestionIdsAre(c.number, t.id.question);
    }
  }

  lemma {:induction false} HeadDistinct(c: Content, flags: Flags, numbers: Numbers)
    ensures Distinct(HeadSteps(c, flags, numbers)) && AllOfKind(HeadSteps(c, flags, numbers), {ProgrammeKind})
  {
  }

  lemma {:induction false} LessonStepsKind(live: seq<Lesson>, flags: Flags)
    ensures AllOfKind(AllLessonSteps(live, flags), {SlotKind})
  {
    forall t ensures Targets(AllLessonSteps(live, flags), t) ==> KindOf(t) == SlotKind {
      AllLessonStepsTargets(live, flags, t);
    }
    KindsByTargets(AllLessonSteps(live, flags), {SlotKind});
  }

  lemma {:induction false} QuestionStepsKind(placed: seq<Placed>, flags: Flags)
    ensures AllOfKind(QuestionSteps(placed, flags), {QuestionKind}) && AllOfKind(JoinSteps(placed), JOINS)
  {
    forall t
      ensures Targets(QuestionSteps(placed, flags), t) ==> KindOf(t) == QuestionKind
      ensures Targets(JoinSteps(placed), t) ==> KindOf(t) in JOINS
    {
      KindsOfTargets(t);
      QuestionStepsTargets(placed, flags, t);
    }
    KindsByTargets(QuestionSteps(placed, flags), {QuestionKind});
    KindsByTargets(JoinSteps(placed), JOINS);
  }

  lemma {:induction false} FourDistinct(h: seq<Step>, l: seq<Step>, q: seq<Step>, j: seq<Step>)
    requires Distinct(h) && Distinct(l) && Distinct(q) && Distinct(j)
    requires AllOfKind(h, {ProgrammeKind}) && AllOfKind(l, {SlotKind}) && AllOfKind(q, {QuestionKind}) && AllOfKind(j, JOINS)
    ensures Distinct(h + l + q + j)
  {
    DistinctByKind(h, l, {ProgrammeKind}, {SlotKind});
    DistinctByKind(h + l, q, {ProgrammeKind, SlotKind}, {QuestionKind});
    DistinctByKind(h + l + q, j, {ProgrammeKind, SlotKind, QuestionKind}, JOINS);
  }

  lemma {:induction false} WritesDistinct(c: Content, flags: Flags, numbers: Numbers)
    requires Valid(c)
    ensures Distinct(Writes(c, flags, numbers))
  {
    var live, placed := InOrder(c.lessons), PlaceAll(InOrder(c.lessons));
    InOrderIsValid(c);
    QuestionsFit(c);
    AllLessonStepsDistinct(live, flags);
    QuestionStepsDistinct(placed, flags);
    LessonStepsKind(live, flags);
    QuestionStepsKind(placed, flags);
    HeadDistinct(c, flags, numbers);
    FourDistinct(HeadSteps(c, flags, numbers), AllLessonSteps(live, flags), QuestionSteps(placed, flags), JoinSteps(placed));
  }

  lemma {:induction false} HidesDistinct(c: Content)
    ensures Distinct(Hides(c))
  {
    var slots, placed := AllSlots(c.number), PlaceAll(InOrder(c.lessons));
    var (s, p, z, q) := (HideSlots(Unnamed(slots, c.lessons)), HideJoins(JoinsOf(slots, PracticeKind), placed),
                         HideJoins(JoinsOf(slots, QuizKind), placed), HideQuestions(QuestionIds(c.number), placed));
    AllSlotsDistinct(c.number);
    UnnamedAre(slots, c.lessons);
    HideSlotsDistinct(Unnamed(slots, c.lessons));
    JoinsOfDistinct(slots, PracticeKind);
    JoinsOfDistinct(slots, QuizKind);
    HideJoinsDistinct(JoinsOf(slots, PracticeKind), placed);
    HideJoinsDistinct(JoinsOf(slots, QuizKind), placed);
    QuestionIdsDistinct(c.number);
    HideQuestionsDistinct(QuestionIds(c.number), placed);
    forall t
      ensures Targets(s, t) ==> KindOf(t) == SlotKind
      ensures Targets(p, t) ==> KindOf(t) == JoinKind(PracticeKind)
      ensures Targets(z, t) ==> KindOf(t) == JoinKind(QuizKind)
      ensures Targets(q, t) ==> KindOf(t) == QuestionKind
    {
      HideSlotsTargets(Unnamed(slots, c.lessons), t);
      HideJoinsTargets(JoinsOf(slots, PracticeKind), placed, t);
      HideJoinsTargets(JoinsOf(slots, QuizKind), placed, t);
      HideQuestionsTargets(QuestionIds(c.number), placed, t);
      if IsJoinTarget(t) {
        JoinsOfHas(slots, PracticeKind, JoinOf(t));
        JoinsOfHas(slots, QuizKind, JoinOf(t));
      }
    }
    KindsByTargets(s, {SlotKind});
    KindsByTargets(p, {JoinKind(PracticeKind)});
    KindsByTargets(z, {JoinKind(QuizKind)});
    KindsByTargets(q, {QuestionKind});
    DistinctByKind(s, p, {SlotKind}, {JoinKind(PracticeKind)});
    DistinctByKind(s + p, z, {SlotKind, JoinKind(PracticeKind)}, {JoinKind(QuizKind)});
    DistinctByKind(s + p + z, q, {SlotKind, JoinKind(PracticeKind), JoinKind(QuizKind)}, {QuestionKind});
  }

  lemma {:induction false} RowStepsDistinct(c: Content, flags: Flags, numbers: Numbers)
    requires Valid(c)
    ensures Distinct(RowSteps(c, flags, numbers))
  {
    RowStepsAre(c, flags, numbers);
    WritesDistinct(c, flags, numbers);
    HidesDistinct(c);
    forall t ensures !(Targets(Writes(c, flags, numbers), t) && Targets(Hides(c), t)) {
      WritesTargets(c, flags, numbers, t);
      HidesTargets(c, t);
    }
    DistinctConcat(Writes(c, flags, numbers), Hides(c));
  }

  /**
   * The partition: each of the module's question ids is written by the plan or hidden by it, never
   * both, and so are its lesson slots and its join rows; no row of another module is touched.
   */
  lemma {:induction false} EverySlotIsWrittenOrHidden(c: Content, flags: Flags, numbers: Numbers, t: Target)
    requires Valid(c)
    ensures Targets(RowSteps(c, flags, numbers), t) ==> IsWritten(c, t) != IsHidden(c, t)
    ensures t.OfRow? && t.id.QuestionRow? ==>
      (IsQuestionOf(c.number, t.id.question) <==> Targets(RowSteps(c, flags, numbers), t))
    ensures t.OfRow? && t.id.SlotRow? && t.id.part == LessonPart ==>
      (IsSlot(c.number, t.id.slot) <==> Targets(RowSteps(c, flags, numbers), t))
    ensures IsJoinTarget(t) ==>
      (IsSlot(c.number, t.id.joinSlot) && t.id.place < MAX_QUESTIONS_PER_SET <==> Targets(RowSteps(c, flags, numbers), t))
  {
    RowTargets(c, flags, numbers, t);
    WrittenXorHidden(c, t);
    if IsWritten(c, t) {
      WrittenAreTheModules(c, t);
    }
  }

  lemma {:induction false} WrittenXorHidden(c: Content, t: Target)
    ensures !(IsWritten(c, t) && IsHidden(c, t))
  {
  }

  lemma {:induction false} RowTargets(c: Content, flags: Flags, numbers: Numbers, t: Target)
    ensures Targets(RowSteps(c, flags, numbers), t) ==> IsWritten(c, t) || IsHidden(c, t)
    ensures IsHidden(c, t) ==> Targets(RowSteps(c, flags, numbers), t)
    ensures IsWritten(c, t) && !IsHead(t) && !(t.id.SlotRow? && t.id.part != LessonPart) ==> Targets(RowSteps(c, flags, numbers), t)
  {
    RowStepsAre(c, flags, numbers);
    TargetsConcat(Writes(c, flags, numbers), Hides(c), t);
    WritesTargets(c, flags, numbers, t);
    HidesTargets(c, t);
    WrittenIsTargeted(c, flags, numbers, t);
  }

  /** What is written is of the module. */
  lemma {:induction false} WrittenAreTheModules(c: Content, t: Target)
    requires Valid(c) && IsWritten(c, t)
    ensures t.id.QuestionRow? ==> IsQuestionOf(c.number, t.id.question)
    ensures t.id.SlotRow? ==> IsSlot(c.number, t.id.slot)
    ensures t.id.JoinRow? ==> IsSlot(c.number, t.id.joinSlot) && t.id.place < MAX_QUESTIONS_PER_SET
  {
    QuestionsFit(c);
    if t.id.SlotRow? {
      var i :| 0 <= i < |c.lessons| && c.lessons[i].SlotOf() == t.id.slot;
      assert ValidLesson(c.number, c.lessons[i]);
    }
  }

  /** What is to be written is: assigned questions, used joins, and the lesson row of each named slot. */
  lemma {:induction false} WrittenIsTargeted(c: Content, flags: Flags, numbers: Numbers, t: Target)
    ensures IsWritten(c, t) && !IsHead(t) && !(t.id.SlotRow? && t.id.part != LessonPart) ==> Targets(Writes(c, flags, numbers), t)
  {
    var live, placed := InOrder(c.lessons), PlaceAll(InOrder(c.lessons));
    var (h, l, q, j) := (HeadSteps(c, flags, numbers), AllLessonSteps(live, flags), QuestionSteps(placed, flags), JoinSteps(placed));
    TargetsConcat(h, l, t);
    TargetsConcat(h + l, q, t);
    TargetsConcat(h + l + q, j, t);
    QuestionStepsTargets(placed, flags, t);
    if t.OfRow? && t.id.SlotRow? && Named(c.lessons, t.id.slot) {
      var i :| 0 <= i < |c.lessons| && c.lessons[i].SlotOf() == t.id.slot;
      InOrderHas(c.lessons, c.lessons[i]);
      LessonStepIsIn(live, flags, c.lessons[i]);
    }
  }

  /** A live lesson's own step is among the steps. */
  lemma {:induction false} LessonStepIsIn(live: seq<Lesson>, flags: Flags, l: Lesson)
    requires l in live
    ensures exists k :: 0 <= k < |AllLessonSteps(live, flags)| && AllLessonSteps(live, flags)[k] == LessonStep(l)
    ensures Targets(AllLessonSteps(live, flags), OfRow(SlotRow(LessonPart, l.SlotOf())))
  {
    var before, last := live[..|live| - 1], live[|live| - 1];
    assert live == before + [last];
    if l in before {
      LessonStepIsIn(before, flags, l);
      var k :| 0 <= k < |AllLessonSteps(before, flags)| && AllLessonSteps(before, flags)[k] == LessonStep(l);
      assert AllLessonSteps(live, flags)[k] == LessonStep(l);
    } else {
      assert AllLessonSteps(live, flags)[|AllLessonSteps(before, flags)|] == LessonStep(l);
    }
    var k :| 0 <= k < |AllLessonSteps(live, flags)| && AllLessonSteps(live, flags)[k] == LessonStep(l);
    assert TargetOf(AllLessonSteps(live, flags)[k]) == OfRow(SlotRow(LessonPart, l.SlotOf()));
  }

  // ---- texts ------------------------------------------------------------------------------------------------------

  predicate TextOfSlot(t: Target, lessons: seq<Lesson>) {
    t.OfText? && t.key.row.SlotRow? && Named(lessons, t.key.row.slot)
  }

  lemma {:induction false} LessonTextsTargets(hash: string -> string, l: Lesson, owner: string, stamp: int, t: Target)
    ensures Distinct(LessonTexts(hash, l, owner, stamp))
    ensures Targets(LessonTexts(hash, l, owner, stamp), t) ==> t.OfText? && t.key.row.SlotRow? && t.key.row.slot == l.SlotOf()
  {
  }

  lemma {:induction false} AllLessonTextsTargets(hash: string -> string, live: seq<Lesson>, owner: string, stamp: int,
                                                 t: Target)
    ensures Targets(AllLessonTexts(hash, live, owner, stamp), t) ==> TextOfSlot(t, live)
  {
    if live != [] {
      var before, last := live[..|live| - 1], live[|live| - 1];
      assert live == before + [last];
      AllLessonTextsTargets(hash, before, owner, stamp, t);
      LessonTextsTargets(hash, last, owner, stamp, t);
      TargetsConcat(AllLessonTexts(hash, before, owner, stamp), LessonTexts(hash, last, owner, stamp), t);
      if t.OfText? && t.key.row.SlotRow? {
        NamedInMore(before, last, t.key.row.slot);
      }
    }
  }

  lemma {:induction false} AllLessonTextsDistinct(hash: string -> string, live: seq<Lesson>, owner: string, stamp: int)
    requires DistinctLessons(live)
    ensures Distinct(AllLessonTexts(hash, live, owner, stamp))
  {
    if live != [] {
      var before, last := live[..|live| - 1], live[|live| - 1];
      AllLessonTextsDistinct(hash, before, owner, stamp);
      LessonTextsTargets(hash, last, owner, stamp, OfRow(CurriculumRow));
      forall t ensures !(Targets(AllLessonTexts(hash, before, owner, stamp), t) && Targets(LessonTexts(hash, last, owner, stamp), t)) {
        AllLessonTextsTargets(hash, before, owner, stamp, t);
        LessonTextsTargets(hash, last, owner, stamp, t);
        if TextOfSlot(t, before) {
          var i :| 0 <= i < |before| && before[i].SlotOf() == t.key.row.slot;
          assert live[i].SlotOf() != last.SlotOf();
        }
      }
      DistinctConcat(AllLessonTexts(hash, before, owner, stamp), LessonTexts(hash, last, owner, stamp));
    }
  }

  lemma {:induction false} OptionTextsAre(hash: string -> string, q: QuestionId, options: seq<Choice>, owner: string,
                                          stamp: int)
    ensures |OptionTexts(hash, q, options, owner, stamp)| == |options|
    ensures forall k :: 0 <= k < |options| ==>
      TargetOf(OptionTexts(hash, q, options, owner, stamp)[k]) == OfText(TextKey(QuestionRow(q), OptionField(k)))
  {
    if options != [] {
      OptionTextsAre(hash, q, options[..|options| - 1], owner, stamp);
    }
  }

  lemma {:induction false} QuestionTextsTargets(hash: string -> string, p: Placed, owner: string, stamp: int, t: Target)
    ensures Distinct(QuestionTexts(hash, p, owner, stamp))
    ensures Targets(QuestionTexts(hash, p, owner, stamp), t) ==> t.OfText? && t.key.row == QuestionRow(p.id)
  {
    OptionTextsAre(hash, p.id, p.question.options, owner, stamp);
  }

  lemma {:induction false} AllQuestionTextsTargets(hash: string -> string, placed: seq<Placed>, owner: string, stamp: int,
                                                   t: Target)
    ensures Targets(AllQuestionTexts(hash, placed, owner, stamp), t) ==> t.OfText? && t.key.row.QuestionRow? && Assigned(placed, t.key.row.question)
  {
    if placed != [] {
      var before, last := placed[..|placed| - 1], placed[|placed| - 1];
      assert placed == before + [last];
      AllQuestionTextsTargets(hash, before, owner, stamp, t);
      QuestionTextsTargets(hash, last, owner, stamp, t);
      TargetsConcat(AllQuestionTexts(hash, before, owner, stamp), QuestionTexts(hash, last, owner, stamp), t);
      if t.OfText? && t.key.row.QuestionRow? && Assigned(before, t.key.row.question) {
        var k :| 0 <= k < |before| && before[k].id == t.key.row.question;
        assert placed[k].id == t.key.row.question;
      }
    }
  }

  lemma {:induction false} AllQuestionTextsDistinct(hash: string -> string, placed: seq<Placed>, owner: string, stamp: int)
    requires DistinctPlaced(placed)
    ensures Distinct(AllQuestionTexts(hash, placed, owner, stamp))
  {
    if placed != [] {
      var before, last := placed[..|placed| - 1], placed[|placed| - 1];
      AllQuestionTextsDistinct(hash, before, owner, stamp);
      QuestionTextsTargets(hash, last, owner, stamp, OfRow(CurriculumRow));
      forall t ensures !(Targets(AllQuestionTexts(hash, before, owner, stamp), t) && Targets(QuestionTexts(hash, last, owner, stamp), t)) {
        AllQuestionTextsTargets(hash, before, owner, stamp, t);
        QuestionTextsTargets(hash, last, owner, stamp, t);
        if t.OfText? && t.key.row.QuestionRow? && Assigned(before, t.key.row.question) {
          var k :| 0 <= k < |before| && before[k].id == t.key.row.question;
          assert placed[k].id != last.id;
        }
      }
      DistinctConcat(AllQuestionTexts(hash, before, owner, stamp), QuestionTexts(hash, last, owner, stamp));
    }
  }

  function HeadTexts(hash: string -> string, c: Content, owner: string, stamp: int): seq<Step> {
    [TextStep(hash, CurriculumRow, NameField, c.programme, owner, stamp), TextStep(hash, GradeRow, NameField, c.programme, owner, stamp),
     TextStep(hash, LevelRow, NameField, c.name, owner, stamp)]
  }

  lemma {:induction false} HeadTextsDistinct(hash: string -> string, c: Content, owner: string, stamp: int)
    ensures Distinct(HeadTexts(hash, c, owner, stamp)) && AllOfKind(HeadTexts(hash, c, owner, stamp), {ProgrammeText})
  {
  }

  lemma {:induction false} TextStepsAre(hash: string -> string, c: Content, owner: string, stamp: int)
    ensures var live := InOrder(c.lessons);
            TextSteps(hash, c, owner, stamp)
              == HeadTexts(hash, c, owner, stamp) + AllLessonTexts(hash, live, owner, stamp) + AllQuestionTexts(hash, PlaceAll(live), owner, stamp)
  {
  }

  lemma {:induction false} LessonTextsKind(hash: string -> string, live: seq<Lesson>, owner: string, stamp: int)
    ensures AllOfKind(AllLessonTexts(hash, live, owner, stamp), {SlotText})
  {
    forall t ensures Targets(AllLessonTexts(hash, live, owner, stamp), t) ==> KindOf(t) == SlotText {
      AllLessonTextsTargets(hash, live, owner, stamp, t);
    }
    KindsByTargets(AllLessonTexts(hash, live, owner, stamp), {SlotText});
  }

  lemma {:induction false} QuestionTextsKind(hash: string -> string, placed: seq<Placed>, owner: string, stamp: int)
    ensures AllOfKind(AllQuestionTexts(hash, placed, owner, stamp), {QuestionText})
  {
    forall t ensures Targets(AllQuestionTexts(hash, placed, owner, stamp), t) ==> KindOf(t) == QuestionText {
      AllQuestionTextsTargets(hash, placed, owner, stamp, t);
    }
    KindsByTargets(AllQuestionTexts(hash, placed, owner, stamp), {QuestionText});
  }

  lemma {:induction false} ThreeDistinct(h: seq<Step>, l: seq<Step>, q: seq<Step>)
    requires Distinct(h) && Distinct(l) && Distinct(q)
    requires AllOfKind(h, {ProgrammeText}) && AllOfKind(l, {SlotText}) && AllOfKind(q, {QuestionText})
    ensures Distinct(h + l + q) && AllOfKind(h + l + q, TEXTS)
  {
    DistinctByKind(h, l, {ProgrammeText}, {SlotText});
    DistinctByKind(h + l, q, {ProgrammeText, SlotText}, {QuestionText});
  }

  lemma {:induction false} TextStepsDistinct(hash: string -> string, c: Content, owner: string, stamp: int)
    requires Valid(c)
    ensures Distinct(TextSteps(hash, c, owner, stamp))
    ensures AllOfKind(TextSteps(hash, c, owner, stamp), TEXTS)
  {
    var live, placed := InOrder(c.lessons), PlaceAll(InOrder(c.lessons));
    InOrderIsValid(c);
    QuestionsFit(c);
    AllLessonTextsDistinct(hash, live, owner, stamp);
    AllQuestionTextsDistinct(hash, placed, owner, stamp);
    LessonTextsKind(hash, live, owner, stamp);
    QuestionTextsKind(hash, placed, owner, stamp);
    HeadTextsDistinct(hash, c, owner, stamp);
    ThreeDistinct(HeadTexts(hash, c, owner, stamp), AllLessonTexts(hash, live, owner, stamp), AllQuestionTexts(hash, placed, owner, stamp));
    TextStepsAre(hash, c, owner, stamp);
  }

  /** No row and no translation is the target of two of the plan's steps. */
  lemma {:induction false} PlanIsDistinct(hash: string -> string, c: Content, flags: Flags, numbers: Numbers, stamp: int)
    requires Valid(c)
    ensures Distinct(RowSteps(c, flags, numbers) + TextSteps(hash, c, flags.owner, stamp))
  {
    RowStepsDistinct(c, flags, numbers);
    TextStepsDistinct(hash, c, flags.owner, stamp);
    forall t ensures Targets(RowSteps(c, flags, numbers), t) ==> KindOf(t) in ROWS {
      RowStepsAre(c, flags, numbers);
      TargetsConcat(Writes(c, flags, numbers), Hides(c), t);
      WritesTargets(c, flags, numbers, t);
      HidesTargets(c, t);
      KindsOfTargets(t);
    }
    KindsByTargets(RowSteps(c, flags, numbers), ROWS);
    DistinctByKind(RowSteps(c, flags, numbers), TextSteps(hash, c, flags.owner, stamp), ROWS, TEXTS);
  }
}
