/** What a curriculum plan promises: each slot written or hidden, and a second run that changes nothing. */
module ContentPlanTheorems {
  import opened PlanSteps
  import opened ContentPlan
  import opened ContentPlacing

  // ---- what each part of the plan targets ---------------------------------------------------------------------

  predicate PartOf(t: Target, s: Slot) {
    t.OfRow? && t.id.SlotRow? && t.id.slot == s
  }

  lemma {:induction false} LessonStepsTargets(l: Lesson, flags: Flags, t: Target)
    ensures Distinct(LessonSteps(l, flags))
    ensures Targets(LessonSteps(l, flags), t) ==> PartOf(t, l.SlotOf())
  {
  }

  lemma {:induction false} AllLessonStepsTargets(live: seq<Lesson>, flags: Flags, t: Target)
    ensures Targets(AllLessonSteps(live, flags), t) ==> t.OfRow? && t.id.SlotRow? && Named(live, t.id.slot)
  {
    if live != [] {
      var before, last := live[..|live| - 1], live[|live| - 1];
      assert live == before + [last];
      AllLessonStepsTargets(before, flags, t);
      LessonStepsTargets(last, flags, t);
      TargetsConcat(AllLessonSteps(before, flags), LessonSteps(last, flags), t);
      if t.OfRow? && t.id.SlotRow? {
        NamedInMore(before, last, t.id.slot);
      }
    }
  }

  lemma {:induction false} AllLessonStepsDistinct(live: seq<Lesson>, flags: Flags)
    requires DistinctLessons(live)
    ensures Distinct(AllLessonSteps(live, flags))
  {
    if live != [] {
      var before, last := live[..|live| - 1], live[|live| - 1];
      AllLessonStepsDistinct(before, flags);
      LessonStepsTargets(last, flags, OfRow(CurriculumRow));
      forall t ensures !(Targets(AllLessonSteps(before, flags), t) && Targets(LessonSteps(last, flags), t)) {
        AllLessonStepsTargets(before, flags, t);
        LessonStepsTargets(last, flags, t);
        if t.OfRow? && t.id.SlotRow? && Named(before, t.id.slot) {
          var i :| 0 <= i < |before| && before[i].SlotOf() == t.id.slot;
          assert live[i].SlotOf() != last.SlotOf();
        }
      }
      DistinctConcat(AllLessonSteps(before, flags), LessonSteps(last, flags));
    }
  }

  lemma {:induction false} QuestionStepsAre(placed: seq<Placed>, flags: Flags)
    ensures |QuestionSteps(placed, flags)| == |placed| == |JoinSteps(placed)|
    ensures forall k :: 0 <= k < |placed| ==>
      QuestionSteps(placed, flags)[k] == QuestionStep(placed[k], flags) && JoinSteps(placed)[k] == JoinStep(placed[k])
  {
    if placed != [] {
      QuestionStepsAre(placed[..|placed| - 1], flags);
    }
  }

  lemma {:induction false} QuestionStepsTargets(placed: seq<Placed>, flags: Flags, t: Target)
    ensures Targets(QuestionSteps(placed, flags), t) <==> t.OfRow? && t.id.QuestionRow? && Assigned(placed, t.id.question)
    ensures Targets(JoinSteps(placed), t) <==> t.OfRow? && t.id.JoinRow? && UsedJoin(placed, Join(t.id.joinSlot, t.id.kind, t.id.place))
  {
    QuestionStepsAre(placed, flags);
    if t.OfRow? && t.id.QuestionRow? && Assigned(placed, t.id.question) {
      var k :| 0 <= k < |placed| && placed[k].id == t.id.question;
      assert TargetOf(QuestionSteps(placed, flags)[k]) == t;
    }
    if t.OfRow? && t.id.JoinRow? && UsedJoin(placed, Join(t.id.joinSlot, t.id.kind, t.id.place)) {
      var k :| 0 <= k < |placed| && Join(placed[k].slot, placed[k].kind, placed[k].place) == Join(t.id.joinSlot, t.id.kind, t.id.place);
      assert TargetOf(JoinSteps(placed)[k]) == t;
    }
  }

  lemma {:induction false} QuestionStepsDistinct(placed: seq<Placed>, flags: Flags)
    requires DistinctPlaced(placed)
    ensures Distinct(QuestionSteps(placed, flags)) && Distinct(JoinSteps(placed))
  {
    QuestionStepsAre(placed, flags);
  }

  // ---- the hides ----------------------------------------------------------------------------------------------------

  predicate DistinctSlots(slots: seq<Slot>) {
    forall i, j :: 0 <= i < j < |slots| ==> slots[i] != slots[j]
  }

  lemma {:induction false} HidePartIs(slots: seq<Slot>, part: Part)
    ensures |HidePart(slots, part)| == |slots|
    ensures forall k :: 0 <= k < |slots| ==> HidePart(slots, part)[k] == Hide(SlotRow(part, slots[k]), SwitchColumn(part), HiddenValue(part))
  {
    if slots != [] {
      HidePartIs(slots[..|slots| - 1], part);
    }
  }

  lemma {:induction false} HidePartTargets(slots: seq<Slot>, part: Part, t: Target)
    ensures Targets(HidePart(slots, part), t) <==> t.OfRow? && t.id.SlotRow? && t.id.part == part && t.id.slot in slots
    ensures DistinctSlots(slots) ==> Distinct(HidePart(slots, part))
  {
    HidePartIs(slots, part);
    if t.OfRow? && t.id.SlotRow? && t.id.part == part && t.id.slot in slots {
      var k :| 0 <= k < |slots| && slots[k] == t.id.slot;
      assert TargetOf(HidePart(slots, part)[k]) == t;
    }
  }

  lemma {:induction false} UnnamedAre(slots: seq<Slot>, lessons: seq<Lesson>)
    ensures forall s :: s in Unnamed(slots, lessons) <==> s in slots && !Named(lessons, s)
    ensures DistinctSlots(slots) ==> DistinctSlots(Unnamed(slots, lessons))
  {
    if slots != [] {
      var before, last := slots[..|slots| - 1], slots[|slots| - 1];
      assert slots == before + [last];
      UnnamedAre(before, lessons);
      if DistinctSlots(slots) {
        forall i | 0 <= i < |Unnamed(before, lessons)| ensures Unnamed(before, lessons)[i] != last {
          assert Unnamed(before, lessons)[i] in before;
        }
      }
    }
  }

  lemma {:induction false} HideSlotsTargets(slots: seq<Slot>, t: Target)
    ensures Targets(HideSlots(slots), t) <==> t.OfRow? && t.id.SlotRow? && t.id.slot in slots
  {
    var (a, b, c, d, e) := (HidePart(slots, LessonPart), HidePart(slots, DocumentPart), HidePart(slots, LearningPart),
                            HidePart(slots, PracticePart), HidePart(slots, QuizPart));
    HidePartTargets(slots, LessonPart, t);
    HidePartTargets(slots, DocumentPart, t);
    HidePartTargets(slots, LearningPart, t);
    HidePartTargets(slots, PracticePart, t);
    HidePartTargets(slots, QuizPart, t);
    TargetsConcat(a, b, t);
    TargetsConcat(a + b, c, t);
    TargetsConcat(a + b + c, d, t);
    TargetsConcat(a + b + c + d, e, t);
  }

  lemma {:induction false} HideSlotsDistinct(slots: seq<Slot>)
    requires DistinctSlots(slots)
    ensures Distinct(HideSlots(slots))
  {
    var (a, b, c, d, e) := (HidePart(slots, LessonPart), HidePart(slots, DocumentPart), HidePart(slots, LearningPart),
                            HidePart(slots, PracticePart), HidePart(slots, QuizPart));
    forall t
      ensures Targets(a, t) ==> t.OfRow? && t.id.SlotRow? && t.id.part == LessonPart
      ensures Targets(a + b, t) ==> t.OfRow? && t.id.SlotRow? && t.id.part in {LessonPart, DocumentPart}
      ensures Targets(a + b + c, t) ==> t.OfRow? && t.id.SlotRow? && t.id.part in {LessonPart, DocumentPart, LearningPart}
      ensures Targets(a + b + c + d, t) ==> t.OfRow? && t.id.SlotRow? && t.id.part in {LessonPart, DocumentPart, LearningPart, PracticePart}
      ensures Targets(b, t) ==> t.OfRow? && t.id.SlotRow? && t.id.part == DocumentPart
      ensures Targets(c, t) ==> t.OfRow? && t.id.SlotRow? && t.id.part == LearningPart
      ensures Targets(d, t) ==> t.OfRow? && t.id.SlotRow? && t.id.part == PracticePart
      ensures Targets(e, t) ==> t.OfRow? && t.id.SlotRow? && t.id.part == QuizPart
    {
      HidePartTargets(slots, LessonPart, t);
      HidePartTargets(slots, DocumentPart, t);
      HidePartTargets(slots, LearningPart, t);
      HidePartTargets(slots, PracticePart, t);
      HidePartTargets(slots, QuizPart, t);
      TargetsConcat(a, b, t);
      TargetsConcat(a + b, c, t);
      TargetsConcat(a + b + c, d, t);
    }
    HidePartTargets(slots, LessonPart, OfRow(CurriculumRow));
    HidePartTargets(slots, DocumentPart, OfRow(CurriculumRow));
    HidePartTargets(slots, LearningPart, OfRow(CurriculumRow));
    HidePartTargets(slots, PracticePart, OfRow(CurriculumRow));
    HidePartTargets(slots, QuizPart, OfRow(CurriculumRow));
    DistinctConcat(a, b);
    DistinctConcat(a + b, c);
    DistinctConcat(a + b + c, d);
    DistinctConcat(a + b + c + d, e);
  }

  predicate DistinctJoins(joins: seq<Join>) {
    forall i, j :: 0 <= i < j < |joins| ==> joins[i] != joins[j]
  }

  lemma {:induction false} JoinsAtHas(s: Slot, kind: Kind, j: Join)
    ensures j in JoinsAt(s, kind) <==> j.slot == s && j.kind == kind && j.place < MAX_QUESTIONS_PER_SET
    ensures DistinctJoins(JoinsAt(s, kind))
  {
    if j.slot == s && j.kind == kind && j.place < MAX_QUESTIONS_PER_SET {
      assert JoinsAt(s, kind)[j.place] == j;
    }
  }

  lemma {:induction false} JoinsOfHas(slots: seq<Slot>, kind: Kind, j: Join)
    ensures j in JoinsOf(slots, kind) <==> j.slot in slots && j.kind == kind && j.place < MAX_QUESTIONS_PER_SET
  {
    if slots != [] {
      var before, last := slots[..|slots| - 1], slots[|slots| - 1];
      assert slots == before + [last];
      JoinsOfHas(before, kind, j);
      JoinsAtHas(last, kind, j);
    }
  }

  lemma {:induction false} JoinsOfDistinct(slots: seq<Slot>, kind: Kind)
    requires DistinctSlots(slots)
    ensures DistinctJoins(JoinsOf(slots, kind))
  {
    if slots != [] {
      var before, last := slots[..|slots| - 1], slots[|slots| - 1];
      assert slots == before + [last];
      JoinsOfDistinct(before, kind);
      var a, b := JoinsOf(before, kind), JoinsAt(last, kind);
      forall i, j | 0 <= i < |a| && 0 <= j < |b| ensures a[i] != b[j] {
        JoinsOfHas(before, kind, a[i]);
        JoinsAtHas(last, kind, b[j]);
      }
      JoinsAtHas(last, kind, Join(last, kind, 0));
    }
  }

  lemma {:induction false} HideJoinsTargets(joins: seq<Join>, placed: seq<Placed>, t: Target)
    ensures Targets(HideJoins(joins, placed), t) <==>
      t.OfRow? && t.id.JoinRow? && Join(t.id.joinSlot, t.id.kind, t.id.place) in joins
      && !UsedJoin(placed, Join(t.id.joinSlot, t.id.kind, t.id.place))
  {
    if joins != [] {
      var before, last := joins[..|joins| - 1], joins[|joins| - 1];
      assert joins == before + [last];
      HideJoinsTargets(before, placed, t);
      var more := if UsedJoin(placed, last) then [] else [Hide(JoinRow(last.slot, last.kind, last.place), Status, Number(0))];
      TargetsConcat(HideJoins(before, placed), more, t);
      assert Targets(more, t) <==> more != [] && TargetOf(more[0]) == t;
    }
  }

  lemma {:induction false} HideJoinsDistinct(joins: seq<Join>, placed: seq<Placed>)
    requires DistinctJoins(joins)
    ensures Distinct(HideJoins(joins, placed))
  {
    if joins != [] {
      var before, last := joins[..|joins| - 1], joins[|joins| - 1];
      assert joins == before + [last];
      HideJoinsDistinct(before, placed);
      var more := if UsedJoin(placed, last) then [] else [Hide(JoinRow(last.slot, last.kind, last.place), Status, Number(0))];
      forall t ensures !(Targets(HideJoins(before, placed), t) && Targets(more, t)) {
        HideJoinsTargets(before, placed, t);
      }
      DistinctConcat(HideJoins(before, placed), more);
    }
  }

  predicate DistinctIds(ids: seq<QuestionId>) {
    forall i, j :: 0 <= i < j < |ids| ==> ids[i] != ids[j]
  }

  predicate IsOwnOf(slots: seq<Slot>, q: QuestionId) {
    q.OwnQuestion? && q.slot in slots && q.slot.DerivedSlot? && q.place < MAX_QUESTIONS_PER_SET
  }

  lemma {:induction false} QuestionsAtHas(s: Slot, kind: Kind, q: QuestionId)
    ensures q in QuestionsAt(s, kind) <==> q.OwnQuestion? && q.slot == s && q.kind == kind && q.place < MAX_QUESTIONS_PER_SET
  {
    if q.OwnQuestion? && q.slot == s && q.kind == kind && q.place < MAX_QUESTIONS_PER_SET {
      assert QuestionsAt(s, kind)[q.place] == q;
    }
  }

  lemma {:induction false} QuestionsAtAre(s: Slot, q: QuestionId)
    ensures q in QuestionsAt(s, PracticeKind) + QuestionsAt(s, QuizKind) <==> q.OwnQuestion? && q.slot == s && q.place < MAX_QUESTIONS_PER_SET
    ensures DistinctIds(QuestionsAt(s, PracticeKind) + QuestionsAt(s, QuizKind))
  {
    QuestionsAtHas(s, PracticeKind, q);
    QuestionsAtHas(s, QuizKind, q);
  }

  lemma {:induction false} OwnQuestionsAre(slots: seq<Slot>, q: QuestionId)
    ensures q in OwnQuestions(slots) <==> IsOwnOf(slots, q)
  {
    if slots != [] {
      var before, last := slots[..|slots| - 1], slots[|slots| - 1];
      assert slots == before + [last];
      OwnQuestionsAre(before, q);
      QuestionsAtAre(last, q);
    }
  }

  lemma {:induction false} IdsApart(a: seq<QuestionId>, b: seq<QuestionId>)
    requires DistinctIds(a) && DistinctIds(b) && forall q :: !(q in a && q in b)
    ensures DistinctIds(a + b)
  {
    forall i, j | 0 <= i < |a| && 0 <= j < |b| ensures a[i] != b[j] {
      assert a[i] in a && b[j] in b;
    }
  }

  lemma {:induction false} OwnQuestionsDistinct(slots: seq<Slot>)
    requires DistinctSlots(slots)
    ensures DistinctIds(OwnQuestions(slots))
  {
    if slots != [] {
      var before, last := slots[..|slots| - 1], slots[|slots| - 1];
      assert slots == before + [last];
      OwnQuestionsDistinct(before);
      if last.DerivedSlot? {
        var more := QuestionsAt(last, PracticeKind) + QuestionsAt(last, QuizKind);
        QuestionsAtAre(last, PoolQuestion(0));
        forall q ensures !(q in OwnQuestions(before) && q in more) {
          OwnQuestionsAre(before, q);
          QuestionsAtAre(last, q);
        }
        IdsApart(OwnQuestions(before), more);
      }
    }
  }

  lemma {:induction false} HideQuestionsTargets(ids: seq<QuestionId>, placed: seq<Placed>, t: Target)
    ensures Targets(HideQuestions(ids, placed), t) <==>
      t.OfRow? && t.id.QuestionRow? && t.id.question in ids && !Assigned(placed, t.id.question)
  {
    if ids != [] {
      var before, last := ids[..|ids| - 1], ids[|ids| - 1];
      assert ids == before + [last];
      HideQuestionsTargets(before, placed, t);
      var more := if Assigned(placed, last) then [] else [Hide(QuestionRow(last), IsDeleted, Number(1))];
      TargetsConcat(HideQuestions(before, placed), more, t);
      assert Targets(more, t) <==> more != [] && TargetOf(more[0]) == t;
    }
  }

  lemma {:induction false} HideQuestionsDistinct(ids: seq<QuestionId>, placed: seq<Placed>)
    requires DistinctIds(ids)
    ensures Distinct(HideQuestions(ids, placed))
  {
    if ids != [] {
      var before, last := ids[..|ids| - 1], ids[|ids| - 1];
      assert ids == before + [last];
      HideQuestionsDistinct(before, placed);
      var more := if Assigned(placed, last) then [] else [Hide(QuestionRow(last), IsDeleted, Number(1))];
      forall t ensures !(Targets(HideQuestions(before, placed), t) && Targets(more, t)) {
        HideQuestionsTargets(before, placed, t);
      }
      DistinctConcat(HideQuestions(before, placed), more);
    }
  }

  // ---- the slots of a module -----------------------------------------------------------------------------------------

  lemma {:induction false} DerivedAre(from: nat, s: Slot)
    requires from <= MAX_LESSONS
    ensures s in DerivedFrom(from) <==> s.DerivedSlot? && from <= s.n <= MAX_LESSONS
    ensures DistinctSlots(DerivedFrom(from))
  {
    if s.DerivedSlot? && from <= s.n <= MAX_LESSONS {
      assert DerivedFrom(from)[s.n - from] == s;
    }
  }

  lemma {:induction false} SlotsAre(m: nat, s: Slot)
    ensures s in AllSlots(m) <==> IsSlot(m, s)
  {
    DerivedAre(1, s);
    DerivedAre(2, s);
    var fixed := seq(FIXED_LESSONS, (i: nat) => FixedSlot(i + 1));
    if s.FixedSlot? && 1 <= s.n <= FIXED_LESSONS {
      assert fixed[s.n - 1] == s;
    }
  }

  lemma {:induction false} AllSlotsDistinct(m: nat)
    ensures DistinctSlots(AllSlots(m))
  {
    DerivedAre(1, FixedSlot(0));
    DerivedAre(2, FixedSlot(0));
  }

  lemma {:induction false} PoolIs(q: QuestionId)
    ensures q in seq(POOL, (k: nat) => PoolQuestion(k)) <==> q.PoolQuestion? && q.k < POOL
    ensures DistinctIds(seq(POOL, (k: nat) => PoolQuestion(k)))
  {
    var pool := seq(POOL, (k: nat) => PoolQuestion(k));
    if q.PoolQuestion? && q.k < POOL {
      assert pool[q.k] == q;
    }
  }

  lemma {:induction false} QuestionIdsAre(m: nat, q: QuestionId)
    ensures q in QuestionIds(m) <==> IsQuestionOf(m, q)
  {
    PoolIs(q);
    OwnQuestionsAre(AllSlots(m), q);
    if q.OwnQuestion? {
      SlotsAre(m, q.slot);
    }
  }

  lemma {:induction false} QuestionIdsDistinct(m: nat)
    ensures DistinctIds(QuestionIds(m))
  {
    AllSlotsDistinct(m);
    OwnQuestionsDistinct(AllSlots(m));
    if m == 1 {
      var pool := seq(POOL, (k: nat) => PoolQuestion(k));
      PoolIs(PoolQuestion(0));
      forall q ensures !(q in pool && q in OwnQuestions(AllSlots(m))) {
        PoolIs(q);
        OwnQuestionsAre(AllSlots(m), q);
      }
      IdsApart(pool, OwnQuestions(AllSlots(m)));
    }
  }
}
