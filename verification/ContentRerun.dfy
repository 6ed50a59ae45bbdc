/**
 * A run after a run: planned against the rows the first one left, the same file is accepted and
 * changes nothing; and what the first one left obeys the points rule and can be completed.
 */
module ContentRerun {
  import opened Wrappers
  import opened Sums
  import opened PlanSteps
  import opened ContentPlan
  import opened ContentPlacing
  import opened ContentPlanTheorems
  import opened ContentPlanRuns

  ghost function After(hash: string -> string, c: Content, flags: Flags, db: Db, stamp: int): Db {
    Apply(db, PlanOf(hash, c, flags, db.rows, stamp))
  }

  // ---- one row after the run -------------------------------------------------------------------------------

  lemma {:induction false} StepInWhole(a: seq<Step>, b: seq<Step>, step: Step)
    requires step in a || step in b
    ensures step in a + b
  {
  }

  /** A row the plan writes holds what the plan wrote: all of it when it is new, the update list when it was there. */
  lemma {:induction false} WrittenRow(hash: string -> string, c: Content, flags: Flags, db: Db, stamp: int, step: Step)
    requires Valid(c) && step.Put? && step in Writes(c, flags, NumbersOf(c, flags, db.rows))
    ensures var rows := After(hash, c, flags, db, stamp).rows;
            step.id in rows && rows[step.id] == PutRow(db.rows, step.id, step.values, step.update)
  {
    var numbers := NumbersOf(c, flags, db.rows);
    var steps := PlanOf(hash, c, flags, db.rows, stamp);
    PlanIsDistinct(hash, c, flags, numbers, stamp);
    RowStepsAre(c, flags, numbers);
    StepInWhole(Writes(c, flags, numbers), Hides(c), step);
    StepInWhole(RowSteps(c, flags, numbers), TextSteps(hash, c, flags.owner, stamp), step);
    var k :| 0 <= k < |steps| && steps[k] == step;
    ApplyAt(db, steps, k);
  }

  /** A row the plan neither writes nor hides is as it was. */
  lemma {:induction false} UntouchedRow(hash: string -> string, c: Content, flags: Flags, db: Db, stamp: int, id: RowId)
    requires Valid(c)
    requires !Targets(Writes(c, flags, NumbersOf(c, flags, db.rows)), OfRow(id)) && !IsHidden(c, OfRow(id))
    ensures var rows := After(hash, c, flags, db, stamp).rows;
            (id in rows <==> id in db.rows) && (id in rows ==> rows[id] == db.rows[id])
  {
    var numbers := NumbersOf(c, flags, db.rows);
    var (w, h, x) := (Writes(c, flags, numbers), Hides(c), TextSteps(hash, c, flags.owner, stamp));
    RowStepsAre(c, flags, numbers);
    HidesTargets(c, OfRow(id));
    TargetsConcat(w, h, OfRow(id));
    TargetsConcat(w + h, x, OfRow(id));
    TextStepsDistinct(hash, c, flags.owner, stamp);
    TextsTargetNoRow(x, id);
    ApplyElsewhere(db, PlanOf(hash, c, flags, db.rows, stamp), OfRow(id));
  }

  lemma {:induction false} TextsTargetNoRow(steps: seq<Step>, id: RowId)
    requires AllOfKind(steps, TEXTS)
    ensures !Targets(steps, OfRow(id))
  {
    KindsOfTargets(OfRow(id));
  }

  lemma {:induction false} HeadStepsAreIn(c: Content, flags: Flags, numbers: Numbers)
    ensures CurriculumStep(c, flags) in Writes(c, flags, numbers)
    ensures GradeStep(c, numbers) in Writes(c, flags, numbers)
    ensures LevelStep(c, flags, numbers) in Writes(c, flags, numbers)
  {
    var w := Writes(c, flags, numbers);
    assert w[0] == CurriculumStep(c, flags) && w[1] == GradeStep(c, numbers) && w[2] == LevelStep(c, flags, numbers);
  }

  lemma {:induction false} LessonStepInWrites(c: Content, flags: Flags, numbers: Numbers, l: Lesson)
    requires l in c.lessons
    ensures LessonStep(l) in Writes(c, flags, numbers)
    ensures !l.keep ==> DocumentStep(l, flags) in Writes(c, flags, numbers)
  {
    var live := InOrder(c.lessons);
    InOrderHas(c.lessons, l);
    LessonStepsAreIn(live, flags, l);
    var (h, a, q, j) := (HeadSteps(c, flags, numbers), AllLessonSteps(live, flags), QuestionSteps(PlaceAll(live), flags), JoinSteps(PlaceAll(live)));
    InWrites(h, a, q, j, LessonStep(l));
    if !l.keep {
      InWrites(h, a, q, j, DocumentStep(l, flags));
    }
  }

  lemma {:induction false} InWrites(h: seq<Step>, a: seq<Step>, q: seq<Step>, j: seq<Step>, step: Step)
    requires step in a || step in q || step in j
    ensures step in h + a + q + j
  {
  }

  lemma {:induction false} LessonStepsAreIn(live: seq<Lesson>, flags: Flags, l: Lesson)
    requires l in live
    ensures forall step :: step in LessonSteps(l, flags) ==> step in AllLessonSteps(live, flags)
    ensures LessonStep(l) in LessonSteps(l, flags) && (!l.keep ==> DocumentStep(l, flags) in LessonSteps(l, flags))
  {
    var before, last := live[..|live| - 1], live[|live| - 1];
    assert live == before + [last];
    if l in before {
      LessonStepsAreIn(before, flags, l);
    }
    assert LessonSteps(l, flags)[0] == LessonStep(l);
    if !l.keep {
      assert LessonSteps(l, flags)[1] == DocumentStep(l, flags);
    }
  }

  lemma {:induction false} PlacedStepsInWrites(c: Content, flags: Flags, numbers: Numbers, k: nat)
    requires k < |PlaceAll(InOrder(c.lessons))|
    ensures QuestionStep(PlaceAll(InOrder(c.lessons))[k], flags) in Writes(c, flags, numbers)
    ensures JoinStep(PlaceAll(InOrder(c.lessons))[k]) in Writes(c, flags, numbers)
  {
    var live, placed := InOrder(c.lessons), PlaceAll(InOrder(c.lessons));
    QuestionStepsAre(placed, flags);
    var (h, a, q, j) := (HeadSteps(c, flags, numbers), AllLessonSteps(live, flags), QuestionSteps(placed, flags), JoinSteps(placed));
    assert q[k] == QuestionStep(placed[k], flags) && j[k] == JoinStep(placed[k]);
    InWrites(h, a, q, j, QuestionStep(placed[k], flags));
    InWrites(h, a, q, j, JoinStep(placed[k]));
  }

  /** The lesson row of a named lesson after the run. */
  lemma {:induction false} LessonRow(hash: string -> string, c: Content, flags: Flags, db: Db, stamp: int, l: Lesson)
    requires Valid(c) && l in c.lessons
    ensures var (rows, id) := (After(hash, c, flags, db, stamp).rows, SlotRow(LessonPart, l.SlotOf()));
            id in rows && rows[id] == PutRow(db.rows, id, LessonStep(l).values, LessonStep(l).update)
  {
    LessonStepInWrites(c, flags, NumbersOf(c, flags, db.rows), l);
    WrittenRow(hash, c, flags, db, stamp, LessonStep(l));
  }

  /** The columns of a written lesson row that a further run reads. */
  lemma {:induction false} PutLessonColumns(before: map<RowId, Row>, rows: map<RowId, Row>, l: Lesson)
    requires var id := SlotRow(LessonPart, l.SlotOf()); id in rows && rows[id] == PutRow(before, id, LessonStep(l).values, LessonStep(l).update)
    ensures var id := SlotRow(LessonPart, l.SlotOf());
            && Name in rows[id] && rows[id][Name] == Words(l.name.en) && Num(rows[id], IsDeleted) == 0
            && (id !in before ==> rows[id] == LessonStep(l).values && Num(rows[id], Total) == LESSON_TOTAL_POINTS)
            && (id in before ==> forall col :: col in {Total, Passing, Column.LearningPoints, QuizzesPoints, PracticesPoints} ==>
                  Num(rows[id], col) == Num(before[id], col))
  {
  }

  lemma {:induction false} LessonColumns(hash: string -> string, c: Content, flags: Flags, db: Db, stamp: int, l: Lesson)
    requires Valid(c) && l in c.lessons
    ensures var (rows, id) := (After(hash, c, flags, db, stamp).rows, SlotRow(LessonPart, l.SlotOf()));
            && id in rows && Name in rows[id] && rows[id][Name] == Words(l.name.en) && Num(rows[id], IsDeleted) == 0
            && LessonPoints(rows, l.SlotOf()) == LessonPoints(db.rows, l.SlotOf())
            && (id in db.rows ==> StoredPassMark(rows[id]) == StoredPassMark(db.rows[id]) && ReachablePoints(rows[id], l) == ReachablePoints(db.rows[id], l))
            && (id !in db.rows ==> rows[id] == LessonStep(l).values)
  {
    LessonRow(hash, c, flags, db, stamp, l);
    LessonColumnsOf(db.rows, After(hash, c, flags, db, stamp).rows, l);
  }

  lemma {:induction false} LessonColumnsOf(before: map<RowId, Row>, rows: map<RowId, Row>, l: Lesson)
    requires var id := SlotRow(LessonPart, l.SlotOf()); id in rows && rows[id] == PutRow(before, id, LessonStep(l).values, LessonStep(l).update)
    ensures var id := SlotRow(LessonPart, l.SlotOf());
            && Name in rows[id] && rows[id][Name] == Words(l.name.en) && Num(rows[id], IsDeleted) == 0
            && LessonPoints(rows, l.SlotOf()) == LessonPoints(before, l.SlotOf())
            && (id in before ==> StoredPassMark(rows[id]) == StoredPassMark(before[id]) && ReachablePoints(rows[id], l) == ReachablePoints(before[id], l))
            && (id !in before ==> rows[id] == LessonStep(l).values)
  {
    PutLessonColumns(before, rows, l);
    var id := SlotRow(LessonPart, l.SlotOf());
    if id in before {
      SameMark(rows[id], before[id], l);
    }
  }

  lemma {:induction false} SameMark(row: Row, was: Row, l: Lesson)
    requires forall col :: col in {Total, Passing, Column.LearningPoints, QuizzesPoints, PracticesPoints} ==> Num(row, col) == Num(was, col)
    ensures StoredPassMark(row) == StoredPassMark(was) && ReachablePoints(row, l) == ReachablePoints(was, l) && Num(row, Total) == Num(was, Total)
  {
  }

  // ---- the numbers --------------------------------------------------------------------------------------------

  lemma {:induction false} LevelColumnsOf(c: Content, flags: Flags, before: map<RowId, Row>, rows: map<RowId, Row>,
                                          numbers: Numbers)
    requires LevelRow in rows && (LevelRow !in before ==> flags.levelSwitch != Keep)
    requires var step := LevelStep(c, flags, numbers); rows[LevelRow] == PutRow(before, LevelRow, step.values, step.update)
    ensures Num(rows[LevelRow], IsDeleted) == 0 && Num(rows[LevelRow], Points) == numbers.levelpoints
    ensures Num(rows[LevelRow], Status) == if flags.levelSwitch == Keep then Num(before[LevelRow], Status) else numbers.levelstatus
    ensures CountedQuizPoints(rows) == CountedQuizPoints(before)
  {
  }

  lemma {:induction false} LevelColumns(hash: string -> string, c: Content, flags: Flags, db: Db, stamp: int)
    requires Valid(c) && (LevelRow !in db.rows ==> flags.levelSwitch != Keep)
    ensures var (rows, numbers) := (After(hash, c, flags, db, stamp).rows, NumbersOf(c, flags, db.rows));
            && LevelRow in rows && Num(rows[LevelRow], Status) == numbers.levelstatus && Num(rows[LevelRow], IsDeleted) == 0
            && Num(rows[LevelRow], Points) == numbers.levelpoints
            && CountedQuizPoints(rows) == CountedQuizPoints(db.rows)
  {
    var numbers := NumbersOf(c, flags, db.rows);
    HeadStepsAreIn(c, flags, numbers);
    WrittenRow(hash, c, flags, db, stamp, LevelStep(c, flags, numbers));
    LevelColumnsOf(c, flags, db.rows, After(hash, c, flags, db, stamp).rows, numbers);
  }

  lemma {:induction false} OtherLevelIsUntouched(hash: string -> string, c: Content, flags: Flags, db: Db, stamp: int,
                                                 id: RowId)
    requires Valid(c) && id.OtherLevel?
    ensures var rows := After(hash, c, flags, db, stamp).rows;
            (id in rows <==> id in db.rows) && (id in rows ==> rows[id] == db.rows[id])
  {
    WritesTargets(c, flags, NumbersOf(c, flags, db.rows), OfRow(id));
    UntouchedRow(hash, c, flags, db, stamp, id);
  }

  lemma {:induction false} SiblingsAreTheSame(hash: string -> string, c: Content, flags: Flags, db: Db, stamp: int)
    requires Valid(c)
    ensures var rows := After(hash, c, flags, db, stamp).rows;
            LiveSiblings(rows) == LiveSiblings(db.rows) && Sum(PointsIn(rows), LiveSiblings(rows)) == Sum(PointsIn(db.rows), LiveSiblings(db.rows))
  {
    var rows := After(hash, c, flags, db, stamp).rows;
    forall id: RowId | id.OtherLevel?
      ensures (id in rows <==> id in db.rows) && (id in rows ==> rows[id] == db.rows[id])
    {
      OtherLevelIsUntouched(hash, c, flags, db, stamp, id);
    }
    assert LiveSiblings(rows) == LiveSiblings(db.rows);
    SumSame(PointsIn(rows), PointsIn(db.rows), LiveSiblings(rows));
  }

  lemma {:induction false} LivePointsAreTheSame(hash: string -> string, c: Content, flags: Flags, db: Db, stamp: int,
                                                live: seq<Lesson>)
    requires Valid(c) && forall l :: l in live ==> l in c.lessons
    ensures LivePoints(After(hash, c, flags, db, stamp).rows, live) == LivePoints(db.rows, live)
  {
    if live != [] {
      LivePointsAreTheSame(hash, c, flags, db, stamp, live[..|live| - 1]);
      LessonColumns(hash, c, flags, db, stamp, live[|live| - 1]);
    }
  }

  lemma {:induction false} NumbersAreTheSame(hash: string -> string, c: Content, flags: Flags, db: Db, stamp: int)
    requires Valid(c) && (LevelRow !in db.rows ==> flags.levelSwitch != Keep)
    ensures NumbersOf(c, flags, After(hash, c, flags, db, stamp).rows) == NumbersOf(c, flags, db.rows)
  {
    forall l | l in InOrder(c.lessons) ensures l in c.lessons {
      InOrderHas(c.lessons, l);
    }
    LivePointsAreTheSame(hash, c, flags, db, stamp, InOrder(c.lessons));
    LevelColumns(hash, c, flags, db, stamp);
    SiblingsAreTheSame(hash, c, flags, db, stamp);
  }

  // ---- accepted again -------------------------------------------------------------------------------------------

  lemma {:induction false} StoredChoicesSize(options: seq<Choice>)
    ensures |StoredChoices(options)| == |options|
  {
    if options != [] {
      StoredChoicesSize(options[..|options| - 1]);
    }
  }

  lemma {:induction false} WrittenKeepsMeaning(before: map<RowId, Row>, rows: map<RowId, Row>, flags: Flags,
                                               seeded: map<QuestionId, Seeded>, p: Placed)
    requires var (q, step) := (QuestionRow(p.id), QuestionStep(p, flags)); q in rows && rows[q] == PutRow(before, q, step.values, step.update)
    requires var (j, step) := (JoinRow(p.slot, p.kind, p.place), JoinStep(p)); j in rows && rows[j] == PutRow(before, j, step.values, step.update)
    ensures KeepsMeaning(rows, seeded, p)
  {
    var q, j := QuestionRow(p.id), JoinRow(p.slot, p.kind, p.place);
    StoredChoicesSize(p.question.options);
    assert rows[q][Options] == Choices(StoredChoices(p.question.options));
    assert IsJoinOf(j, p.kind) && IsActiveJoin(rows[j], p.id);
  }

  lemma {:induction false} MeaningIsKept(hash: string -> string, c: Content, flags: Flags, seeded: map<QuestionId, Seeded>,
                                         db: Db, stamp: int, k: nat)
    requires Valid(c) && k < |PlaceAll(InOrder(c.lessons))|
    ensures KeepsMeaning(After(hash, c, flags, db, stamp).rows, seeded, PlaceAll(InOrder(c.lessons))[k])
  {
    var p := PlaceAll(InOrder(c.lessons))[k];
    PlacedStepsInWrites(c, flags, NumbersOf(c, flags, db.rows), k);
    WrittenRow(hash, c, flags, db, stamp, QuestionStep(p, flags));
    WrittenRow(hash, c, flags, db, stamp, JoinStep(p));
    WrittenKeepsMeaning(db.rows, After(hash, c, flags, db, stamp).rows, flags, seeded, p);
  }

  lemma {:induction false} StaysCompletableBy(before: map<RowId, Row>, rows: map<RowId, Row>, l: Lesson)
    requires var id := SlotRow(LessonPart, l.SlotOf());
             && id in rows
             && (id in before ==> StoredPassMark(rows[id]) == StoredPassMark(before[id]) && ReachablePoints(rows[id], l) == ReachablePoints(before[id], l))
             && (id !in before ==> rows[id] == LessonStep(l).values)
    requires StaysCompletable(before, l)
    ensures StaysCompletable(rows, l)
    ensures var id := SlotRow(LessonPart, l.SlotOf());
            id !in before ==> StoredPassMark(rows[id]) == Some(LessonPassingPoints(l)) && 0 < LessonPassingPoints(l)
  {
  }

  lemma {:induction false} LessonStaysCompletable(hash: string -> string, c: Content, flags: Flags, db: Db, stamp: int,
                                                  l: Lesson)
    requires Valid(c) && l in c.lessons && StaysCompletable(db.rows, l)
    ensures StaysCompletable(After(hash, c, flags, db, stamp).rows, l)
  {
    LessonColumns(hash, c, flags, db, stamp, l);
    StaysCompletableBy(db.rows, After(hash, c, flags, db, stamp).rows, l);
  }

  /** A kept video's document is not written, and its slot is not hidden. */
  lemma {:induction false} KeptDocumentIsNoTarget(live: seq<Lesson>, flags: Flags, l: Lesson)
    requires DistinctLessons(live) && l in live && l.keep
    ensures !Targets(AllLessonSteps(live, flags), OfRow(SlotRow(DocumentPart, l.SlotOf())))
  {
    var t := OfRow(SlotRow(DocumentPart, l.SlotOf()));
    var before, last := live[..|live| - 1], live[|live| - 1];
    assert live == before + [last];
    TargetsConcat(AllLessonSteps(before, flags), LessonSteps(last, flags), t);
    if l in before {
      KeptDocumentIsNoTarget(before, flags, l);
      var i :| 0 <= i < |before| && before[i] == l;
      assert live[i].SlotOf() != last.SlotOf();
      LessonStepsTargets(last, flags, t);
    } else {
      AllLessonStepsTargets(before, flags, t);
      forall i | 0 <= i < |before| ensures before[i].SlotOf() != last.SlotOf() {
        assert live[i].SlotOf() != live[|before|].SlotOf();
      }
    }
  }

  lemma {:induction false} KeptDocument(hash: string -> string, c: Content, flags: Flags, db: Db, stamp: int, l: Lesson)
    requires Valid(c) && l in c.lessons && l.keep
    ensures var (rows, id) := (After(hash, c, flags, db, stamp).rows, SlotRow(DocumentPart, l.SlotOf()));
            (id in rows <==> id in db.rows) && (id in rows ==> rows[id] == db.rows[id])
  {
    var id, numbers := SlotRow(DocumentPart, l.SlotOf()), NumbersOf(c, flags, db.rows);
    KeptIsNotWritten(c, flags, numbers, l);
    var i :| 0 <= i < |c.lessons| && c.lessons[i] == l;
    assert Named(c.lessons, l.SlotOf());
    UntouchedRow(hash, c, flags, db, stamp, id);
  }

  lemma {:induction false} InNoneOfFour(a: seq<Step>, b: seq<Step>, d: seq<Step>, e: seq<Step>, t: Target)
    requires !Targets(a, t) && !Targets(b, t) && !Targets(d, t) && !Targets(e, t)
    ensures !Targets(a + b + d + e, t)
  {
    TargetsConcat(a, b, t);
    TargetsConcat(a + b, d, t);
    TargetsConcat(a + b + d, e, t);
  }

  lemma {:induction false} HeadWritesNoPart(c: Content, flags: Flags, numbers: Numbers, id: RowId)
    requires id.SlotRow?
    ensures !Targets(HeadSteps(c, flags, numbers), OfRow(id))
  {
  }

  lemma {:induction false} QuestionsWriteNoPart(placed: seq<Placed>, flags: Flags, id: RowId)
    requires id.SlotRow?
    ensures !Targets(QuestionSteps(placed, flags), OfRow(id)) && !Targets(JoinSteps(placed), OfRow(id))
  {
    QuestionStepsTargets(placed, flags, OfRow(id));
  }

  lemma {:induction false} KeptIsNotWritten(c: Content, flags: Flags, numbers: Numbers, l: Lesson)
    requires Valid(c) && l in c.lessons && l.keep
    ensures !Targets(Writes(c, flags, numbers), OfRow(SlotRow(DocumentPart, l.SlotOf())))
  {
    var id, live, placed := SlotRow(DocumentPart, l.SlotOf()), InOrder(c.lessons), PlaceAll(InOrder(c.lessons));
    InOrderHas(c.lessons, l);
    InOrderIsDistinct(c.lessons);
    KeptDocumentIsNoTarget(live, flags, l);
    HeadWritesNoPart(c, flags, numbers, id);
    QuestionsWriteNoPart(placed, flags, id);
    InNoneOfFour(HeadSteps(c, flags, numbers), AllLessonSteps(live, flags), QuestionSteps(placed, flags), JoinSteps(placed), OfRow(id));
  }

  lemma {:induction false} DocumentRow(hash: string -> string, c: Content, flags: Flags, db: Db, stamp: int, l: Lesson)
    requires Valid(c) && l in c.lessons
    ensures var (rows, id) := (After(hash, c, flags, db, stamp).rows, SlotRow(DocumentPart, l.SlotOf()));
            && (l.keep ==> (id in rows <==> id in db.rows) && (id in rows ==> rows[id] == db.rows[id]))
            && (!l.keep ==> id in rows && rows[id] == PutRow(db.rows, id, DocumentStep(l, flags).values, DocumentStep(l, flags).update))
  {
    if l.keep {
      KeptDocument(hash, c, flags, db, stamp, l);
    } else {
      LessonStepInWrites(c, flags, NumbersOf(c, flags, db.rows), l);
      WrittenRow(hash, c, flags, db, stamp, DocumentStep(l, flags));
    }
  }

  lemma {:induction false} RequiredAreThereAgain(hash: string -> string, c: Content, flags: Flags, db: Db, stamp: int)
    requires Valid(c) && RequiredAreThere(c, db.rows)
    ensures RequiredAreThere(c, After(hash, c, flags, db, stamp).rows)
  {
    var numbers := NumbersOf(c, flags, db.rows);
    HeadStepsAreIn(c, flags, numbers);
    WrittenRow(hash, c, flags, db, stamp, CurriculumStep(c, flags));
    WrittenRow(hash, c, flags, db, stamp, GradeStep(c, numbers));
    forall i | 0 <= i < |c.lessons| && c.lessons[i].keep
      ensures var (rows, id) := (After(hash, c, flags, db, stamp).rows, SlotRow(DocumentPart, c.lessons[i].SlotOf()));
              id in rows && Num(rows[id], IsDeleted) == 0
    {
      DocumentRow(hash, c, flags, db, stamp, c.lessons[i]);
    }
  }

  /** A write of a row's columns never changes an owner that is there, and a new row is the run's own. */
  lemma {:induction false} OwnerStays(before: map<RowId, Row>, rows: map<RowId, Row>, step: Step, owner: string)
    requires step.Put? && step.id in rows && rows[step.id] == PutRow(before, step.id, step.values, step.update)
    requires Owner !in step.update && Owner in step.values && step.values[Owner] == Words(owner)
    requires OwnedOrFree(before, step.id, owner)
    ensures OwnedOrFree(rows, step.id, owner)
  {
  }

  lemma {:induction false} DocumentOwnerStays(hash: string -> string, c: Content, flags: Flags, db: Db, stamp: int, l: Lesson)
    requires Valid(c) && l in c.lessons && OwnedOrFree(db.rows, SlotRow(DocumentPart, l.SlotOf()), flags.owner)
    ensures OwnedOrFree(After(hash, c, flags, db, stamp).rows, SlotRow(DocumentPart, l.SlotOf()), flags.owner)
  {
    DocumentRow(hash, c, flags, db, stamp, l);
    if !l.keep {
      OwnerStays(db.rows, After(hash, c, flags, db, stamp).rows, DocumentStep(l, flags), flags.owner);
    }
  }

  lemma {:induction false} QuestionOwnerStays(hash: string -> string, c: Content, flags: Flags, db: Db, stamp: int,
                                              placed: seq<Placed>, k: nat)
    requires Valid(c) && placed == PlaceAll(InOrder(c.lessons)) && k < |placed|
    requires OwnedOrFree(db.rows, QuestionRow(placed[k].id), flags.owner)
    ensures OwnedOrFree(After(hash, c, flags, db, stamp).rows, QuestionRow(placed[k].id), flags.owner)
  {
    var step := QuestionStep(placed[k], flags);
    PlacedStepsInWrites(c, flags, NumbersOf(c, flags, db.rows), k);
    WrittenRow(hash, c, flags, db, stamp, step);
    QuestionStepOwner(placed[k], flags);
    OwnerStays(db.rows, After(hash, c, flags, db, stamp).rows, step, flags.owner);
  }

  lemma {:induction false} QuestionStepOwner(p: Placed, flags: Flags)
    ensures var step := QuestionStep(p, flags);
            step.Put? && step.id == QuestionRow(p.id) && Owner !in step.update && Owner in step.values && step.values[Owner] == Words(flags.owner)
  {
  }

  lemma {:induction false} OwnedIsOwnAgain(hash: string -> string, c: Content, flags: Flags, db: Db, stamp: int)
    requires Valid(c) && OwnedIsOwn(c, db.rows, flags.owner)
    ensures OwnedIsOwn(c, After(hash, c, flags, db, stamp).rows, flags.owner)
  {
    var rows, placed := After(hash, c, flags, db, stamp).rows, PlaceAll(InOrder(c.lessons));
    HeadStepsAreIn(c, flags, NumbersOf(c, flags, db.rows));
    WrittenRow(hash, c, flags, db, stamp, CurriculumStep(c, flags));
    OwnerStays(db.rows, rows, CurriculumStep(c, flags), flags.owner);
    forall i | 0 <= i < |c.lessons| ensures OwnedOrFree(rows, SlotRow(DocumentPart, c.lessons[i].SlotOf()), flags.owner) {
      DocumentOwnerStays(hash, c, flags, db, stamp, c.lessons[i]);
    }
    forall k | 0 <= k < |placed| ensures OwnedOrFree(rows, QuestionRow(placed[k].id), flags.owner) {
      QuestionOwnerStays(hash, c, flags, db, stamp, placed, k);
    }
  }

  /** The same file and flags are accepted against the rows the run left. */
  lemma {:induction false} AcceptedAgain(hash: string -> string, c: Content, flags: Flags, seeded: map<QuestionId, Seeded>,
                                         db: Db, stamp: int)
    requires Accepts(c, flags, seeded, db.rows)
    ensures Accepts(c, flags, seeded, After(hash, c, flags, db, stamp).rows)
  {
    var rows := After(hash, c, flags, db, stamp).rows;
    LevelColumns(hash, c, flags, db, stamp);
    forall i | 0 <= i < |c.lessons| ensures KeepsName(rows, c.lessons[i]) && StaysCompletable(rows, c.lessons[i]) {
      LessonColumns(hash, c, flags, db, stamp, c.lessons[i]);
      LessonStaysCompletable(hash, c, flags, db, stamp, c.lessons[i]);
    }
    forall k | 0 <= k < |PlaceAll(InOrder(c.lessons))| ensures KeepsMeaning(rows, seeded, PlaceAll(InOrder(c.lessons))[k]) {
      MeaningIsKept(hash, c, flags, seeded, db, stamp, k);
    }
    RequiredAreThereAgain(hash, c, flags, db, stamp);
    OwnedIsOwnAgain(hash, c, flags, db, stamp);
  }

  // ---- and changes nothing ----------------------------------------------------------------------------------------

  lemma {:induction false} SameStampsConcat(a: seq<Step>, b: seq<Step>, a': seq<Step>, b': seq<Step>)
    requires SameButStamps(a, a') && SameButStamps(b, b')
    ensures SameButStamps(a + b, a' + b')
  {
    forall k | 0 <= k < |a + b| ensures SameButStamp((a + b)[k], (a' + b')[k]) {
      if k < |a| {
        assert SameButStamp(a[k], a'[k]);
      } else {
        assert SameButStamp(b[k - |a|], b'[k - |a|]);
      }
    }
  }

  lemma {:induction false} LessonTextsStamps(hash: string -> string, live: seq<Lesson>, owner: string, stamp: int,
                                             stamp': int)
    ensures SameButStamps(AllLessonTexts(hash, live, owner, stamp), AllLessonTexts(hash, live, owner, stamp'))
  {
    if live != [] {
      var before, last := live[..|live| - 1], live[|live| - 1];
      LessonTextsStamps(hash, before, owner, stamp, stamp');
      SameStampsConcat(AllLessonTexts(hash, before, owner, stamp), LessonTexts(hash, last, owner, stamp),
                       AllLessonTexts(hash, before, owner, stamp'), LessonTexts(hash, last, owner, stamp'));
    }
  }

  lemma {:induction false} OptionTextsStamps(hash: string -> string, q: QuestionId, options: seq<Choice>, owner: string,
                                             stamp: int, stamp': int)
    ensures SameButStamps(OptionTexts(hash, q, options, owner, stamp), OptionTexts(hash, q, options, owner, stamp'))
  {
    if options != [] {
      OptionTextsStamps(hash, q, options[..|options| - 1], owner, stamp, stamp');
    }
  }

  lemma {:induction false} QuestionTextsStamps(hash: string -> string, placed: seq<Placed>, owner: string, stamp: int,
                                               stamp': int)
    ensures SameButStamps(AllQuestionTexts(hash, placed, owner, stamp), AllQuestionTexts(hash, placed, owner, stamp'))
  {
    if placed != [] {
      var before, last := placed[..|placed| - 1], placed[|placed| - 1];
      QuestionTextsStamps(hash, before, owner, stamp, stamp');
      OptionTextsStamps(hash, last.id, last.question.options, owner, stamp, stamp');
      SameStampsConcat(AllQuestionTexts(hash, before, owner, stamp), QuestionTexts(hash, last, owner, stamp),
                       AllQuestionTexts(hash, before, owner, stamp'), QuestionTexts(hash, last, owner, stamp'));
    }
  }

  lemma {:induction false} TextStamps(hash: string -> string, c: Content, owner: string, stamp: int, stamp': int)
    ensures SameButStamps(TextSteps(hash, c, owner, stamp), TextSteps(hash, c, owner, stamp'))
  {
    var live := InOrder(c.lessons);
    LessonTextsStamps(hash, live, owner, stamp, stamp');
    QuestionTextsStamps(hash, PlaceAll(live), owner, stamp, stamp');
    SameStampsConcat(HeadTexts(hash, c, owner, stamp), AllLessonTexts(hash, live, owner, stamp),
                     HeadTexts(hash, c, owner, stamp'), AllLessonTexts(hash, live, owner, stamp'));
    SameStampsConcat(HeadTexts(hash, c, owner, stamp) + AllLessonTexts(hash, live, owner, stamp), AllQuestionTexts(hash, PlaceAll(live), owner, stamp),
                     HeadTexts(hash, c, owner, stamp') + AllLessonTexts(hash, live, owner, stamp'), AllQuestionTexts(hash, PlaceAll(live), owner, stamp'));
    TextStepsAre(hash, c, owner, stamp);
    TextStepsAre(hash, c, owner, stamp');
  }

  /**
   * Re-run stability: for every file, flags and database the run goes ahead on, running it again,
   * at any later moment, goes ahead and changes nothing, not even the moment of a translation, and
   * reports no statement that did.
   */
  lemma {:induction false} RerunChangesNothing(hash: string -> string, c: Content, flags: Flags,
                                               seeded: map<QuestionId, Seeded>, db: Db, stamp: int, later: int)
    requires Accepts(c, flags, seeded, db.rows)
    ensures var once := After(hash, c, flags, db, stamp);
            && Accepts(c, flags, seeded, once.rows) && After(hash, c, flags, once, later) == once
            && Changes(once, PlanOf(hash, c, flags, once.rows, later)) == 0
  {
    var once, numbers := After(hash, c, flags, db, stamp), NumbersOf(c, flags, db.rows);
    AcceptedAgain(hash, c, flags, seeded, db, stamp);
    NumbersAreTheSame(hash, c, flags, db, stamp);
    PlanIsDistinct(hash, c, flags, numbers, stamp);
    TextStamps(hash, c, flags.owner, stamp, later);
    SameStampsConcat(RowSteps(c, flags, numbers), TextSteps(hash, c, flags.owner, stamp),
                     RowSteps(c, flags, numbers), TextSteps(hash, c, flags.owner, later));
    ApplyTwice(db, PlanOf(hash, c, flags, db.rows, stamp), PlanOf(hash, c, flags, once.rows, later));
  }

  // ---- what the run leaves ---------------------------------------------------------------------------------------------

  /** A lesson of the file can be completed with the sets the file gives it, if it has a mark at all. */
  lemma {:induction false} EveryLessonCanBeCompleted(hash: string -> string, c: Content, flags: Flags,
                                                     seeded: map<QuestionId, Seeded>, db: Db, stamp: int, l: Lesson)
    requires Accepts(c, flags, seeded, db.rows) && l in c.lessons
    ensures var (rows, id) := (After(hash, c, flags, db, stamp).rows, SlotRow(LessonPart, l.SlotOf()));
            && id in rows && (StoredPassMark(rows[id]).Some? ==> StoredPassMark(rows[id]).value <= ReachablePoints(rows[id], l))
            && (id !in db.rows ==> StoredPassMark(rows[id]) == Some(LessonPassingPoints(l)) && 0 < LessonPassingPoints(l))
  {
    LessonColumns(hash, c, flags, db, stamp, l);
    var i :| 0 <= i < |c.lessons| && c.lessons[i] == l;
    StaysCompletableBy(db.rows, After(hash, c, flags, db, stamp).rows, c.lessons[i]);
  }

  /** The lessons of the module that are there and not hidden. */
  ghost function Visible(m: nat, rows: map<RowId, Row>): set<Slot> {
    set s | s in AllSlots(m) && SlotRow(LessonPart, s) in rows && Num(rows[SlotRow(LessonPart, s)], IsDeleted) == 0
  }

  function TotalsIn(rows: map<RowId, Row>): Slot -> int {
    (s: Slot) => LessonPoints(rows, s)
  }

  function SlotSet(live: seq<Lesson>): set<Slot> {
    set i | 0 <= i < |live| :: live[i].SlotOf()
  }

  lemma {:induction false} LivePointsAreASum(rows: map<RowId, Row>, live: seq<Lesson>)
    requires DistinctLessons(live)
    ensures LivePoints(rows, live) == Sum(TotalsIn(rows), SlotSet(live))
  {
    if live != [] {
      var before, last := live[..|live| - 1], live[|live| - 1];
      LivePointsAreASum(rows, before);
      assert SlotSet(live) == SlotSet(before) + {last.SlotOf()} by {
        assert forall i :: 0 <= i < |before| ==> before[i] == live[i];
        assert live[|before|] == last;
      }
      forall i | 0 <= i < |before| ensures before[i].SlotOf() != last.SlotOf() {
        assert live[i].SlotOf() != live[|before|].SlotOf();
      }
      SumGrow(TotalsIn(rows), SlotSet(before), last.SlotOf());
    }
  }

  lemma {:induction false} HiddenLesson(hash: string -> string, c: Content, flags: Flags, db: Db, stamp: int, s: Slot)
    requires Valid(c) && IsSlot(c.number, s) && !Named(c.lessons, s)
    ensures var (rows, id) := (After(hash, c, flags, db, stamp).rows, SlotRow(LessonPart, s));
            id in rows ==> Num(rows[id], IsDeleted) == 1
  {
    var id, numbers := SlotRow(LessonPart, s), NumbersOf(c, flags, db.rows);
    var steps := PlanOf(hash, c, flags, db.rows, stamp);
    HidesTargets(c, OfRow(id));
    RowStepsAre(c, flags, numbers);
    PlanIsDistinct(hash, c, flags, numbers, stamp);
    HideStepIsIn(c, s);
    StepInWhole(Writes(c, flags, numbers), Hides(c), Hide(id, IsDeleted, Number(1)));
    StepInWhole(RowSteps(c, flags, numbers), TextSteps(hash, c, flags.owner, stamp), Hide(id, IsDeleted, Number(1)));
    var k :| 0 <= k < |steps| && steps[k] == Hide(id, IsDeleted, Number(1));
    ApplyAt(db, steps, k);
  }

  lemma {:induction false} HideStepIsIn(c: Content, s: Slot)
    requires IsSlot(c.number, s) && !Named(c.lessons, s)
    ensures Hide(SlotRow(LessonPart, s), IsDeleted, Number(1)) in Hides(c)
  {
    var slots := Unnamed(AllSlots(c.number), c.lessons);
    UnnamedAre(AllSlots(c.number), c.lessons);
    SlotsAre(c.number, s);
    HidePartIs(slots, LessonPart);
    var k :| 0 <= k < |slots| && slots[k] == s;
    assert HidePart(slots, LessonPart)[k] == Hide(SlotRow(LessonPart, s), IsDeleted, Number(1));
    assert Hide(SlotRow(LessonPart, s), IsDeleted, Number(1)) in HideSlots(slots);
  }

  lemma {:induction false} VisibleAreNamed(hash: string -> string, c: Content, flags: Flags, db: Db, stamp: int)
    requires Valid(c)
    ensures Visible(c.number, After(hash, c, flags, db, stamp).rows) == SlotSet(InOrder(c.lessons))
  {
    var rows := After(hash, c, flags, db, stamp).rows;
    forall s
      ensures s in Visible(c.number, rows) <==> s in SlotSet(InOrder(c.lessons))
    {
      SlotsAre(c.number, s);
      NamedInOrder(c.lessons, s);
      assert s in SlotSet(InOrder(c.lessons)) <==> Named(InOrder(c.lessons), s);
      if Named(c.lessons, s) {
        var i :| 0 <= i < |c.lessons| && c.lessons[i].SlotOf() == s;
        assert ValidLesson(c.number, c.lessons[i]);
        LessonColumns(hash, c, flags, db, stamp, c.lessons[i]);
      } else if IsSlot(c.number, s) {
        HiddenLesson(hash, c, flags, db, stamp, s);
      }
    }
  }

  /** The grade's points, once its level is written. */
  lemma {:induction false} GradeIsItsLiveLevels(rows: map<RowId, Row>, numbers: Numbers)
    requires LevelRow in rows && numbers.levelstatus in {0, 1}
    requires Num(rows[LevelRow], Status) == numbers.levelstatus && Num(rows[LevelRow], IsDeleted) == 0 && Num(rows[LevelRow], Points) == numbers.levelpoints
    ensures Sum(PointsIn(rows), set id | id in rows && IsLiveLevel(rows, id))
      == Sum(PointsIn(rows), LiveSiblings(rows)) + if numbers.levelstatus == 0 then 0 else numbers.levelpoints
  {
    var live := set id | id in rows && IsLiveLevel(rows, id);
    if numbers.levelstatus == 1 {
      assert live == LiveSiblings(rows) + {LevelRow};
      SumGrow(PointsIn(rows), LiveSiblings(rows), LevelRow);
    } else {
      assert live == LiveSiblings(rows);
    }
  }

  lemma {:induction false} GradeStepPoints(c: Content, numbers: Numbers, before: map<RowId, Row>)
    ensures var step := GradeStep(c, numbers); Num(PutRow(before, GradeRow, step.values, step.update), Points) == numbers.gradepoints
  {
  }

  lemma {:induction false} GradeColumns(hash: string -> string, c: Content, flags: Flags, db: Db, stamp: int)
    requires Valid(c)
    ensures var rows := After(hash, c, flags, db, stamp).rows;
            GradeRow in rows && Num(rows[GradeRow], Points) == NumbersOf(c, flags, db.rows).gradepoints
  {
    var numbers := NumbersOf(c, flags, db.rows);
    HeadStepsAreIn(c, flags, numbers);
    WrittenRow(hash, c, flags, db, stamp, GradeStep(c, numbers));
    GradeStepPoints(c, numbers, db.rows);
  }

  /**
   * The points rule, read off the rows the run leaves: the level is worth the totals of its lessons
   * that are not hidden and its quiz when that can be taken; the grade is worth its live levels.
   */
  lemma {:induction false} PointsAreTheSums(hash: string -> string, c: Content, flags: Flags, seeded: map<QuestionId, Seeded>,
                                            db: Db, stamp: int)
    requires Accepts(c, flags, seeded, db.rows) && NumbersOf(c, flags, db.rows).levelstatus in {0, 1}
    ensures var rows := After(hash, c, flags, db, stamp).rows;
            && LevelRow in rows && GradeRow in rows
            && Num(rows[LevelRow], Points) == Sum(TotalsIn(rows), Visible(c.number, rows)) + CountedQuizPoints(rows)
            && Num(rows[GradeRow], Points) == Sum(PointsIn(rows), set id | id in rows && IsLiveLevel(rows, id))
  {
    var rows, numbers := After(hash, c, flags, db, stamp).rows, NumbersOf(c, flags, db.rows);
    LevelColumns(hash, c, flags, db, stamp);
    GradeColumns(hash, c, flags, db, stamp);
    NumbersAreTheSame(hash, c, flags, db, stamp);
    VisibleAreNamed(hash, c, flags, db, stamp);
    InOrderIsDistinct(c.lessons);
    LivePointsAreASum(rows, InOrder(c.lessons));
    SiblingsAreTheSame(hash, c, flags, db, stamp);
    GradeIsItsLiveLevels(rows, numbers);
  }
}
