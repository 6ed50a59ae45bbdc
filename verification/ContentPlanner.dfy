/** The planner's and the applier's loops, proved against ContentPlan and PlanSteps. */
module ContentPlanner {
  import opened Wrappers
  import opened Sums
  import opened PlanSteps
  import opened ContentPlan

  // ---- checking the file ------------------------------------------------------------------------------------

  lemma {:induction false} OneMoreLesson(lessons: seq<Lesson>, i: nat, orders: set<nat>, slots: set<Slot>)
    requires i < |lessons|
    requires orders == set k | 0 <= k < i :: lessons[k].order
    requires slots == set k | 0 <= k < i :: lessons[k].SlotOf()
    ensures DistinctLessons(lessons[..i + 1])
      <==> DistinctLessons(lessons[..i]) && lessons[i].order !in orders && lessons[i].SlotOf() !in slots
  {
    forall k | 0 <= k < i ensures lessons[..i + 1][k] == lessons[k] && lessons[..i][k] == lessons[k] {
    }
    assert lessons[..i + 1][i] == lessons[i];
  }

  /** Every lesson's slot, order and sets are checked, no slot or order is used twice, and the pool is not overrun. */
  method ValidateContent(c: Content) returns (ok: bool)
    ensures ok <==> Valid(c)
  {
    ok := c.number >= 1 && c.lessons != [];
    var orders: set<nat>, slots: set<Slot>, pooled := {}, {}, 0;
    for i := 0 to |c.lessons|
      invariant ok <==> c.number >= 1 && c.lessons != [] && AllValid(c.number, c.lessons[..i]) && DistinctLessons(c.lessons[..i])
      invariant orders == set k | 0 <= k < i :: c.lessons[k].order
      invariant slots == set k | 0 <= k < i :: c.lessons[k].SlotOf()
      invariant pooled == Pooled(c.lessons[..i])
    {
      var l := c.lessons[i];
      OneMoreLesson(c.lessons, i, orders, slots);
      assert c.lessons[..i + 1] == c.lessons[..i] + [l];
      if !ValidLesson(c.number, l) || l.order in orders || l.SlotOf() in slots {
        assert c.lessons[..i + 1][i] == l;
        ok := false;
      }
      orders, slots := orders + {l.order}, slots + {l.SlotOf()};
      pooled := pooled + PooledIn(l);
    }
    assert c.lessons[..|c.lessons|] == c.lessons;
    ok := ok && pooled <= POOL;
  }

  // ---- placing ------------------------------------------------------------------------------------------------

  /** `nextQuestion` is the next of the seven fixed ids. */
  method PlaceQuestions(live: seq<Lesson>) returns (placed: seq<Placed>)
    ensures placed == PlaceAll(live)
  {
    placed := [];
    var nextQuestion := 0;
    for i := 0 to |live|
      invariant placed == PlaceAll(live[..i]) && nextQuestion == Pooled(live[..i])
    {
      assert live[..i + 1][..i] == live[..i];
      placed := placed + PlaceLesson(live[i], nextQuestion);
      nextQuestion := nextQuestion + PooledIn(live[i]);
    }
    assert live[..|live|] == live;
  }

  // ---- the numbers ----------------------------------------------------------------------------------------------

  method LevelPoints(rows: map<RowId, Row>, live: seq<Lesson>) returns (points: int)
    ensures points == LivePoints(rows, live) + CountedQuizPoints(rows)
  {
    points := 0;
    for i := 0 to |live|
      invariant points == LivePoints(rows, live[..i])
    {
      assert live[..i + 1][..i] == live[..i];
      points := points + LessonPoints(rows, live[i].SlotOf());
    }
    assert live[..|live|] == live;
    points := points + CountedQuizPoints(rows);
  }

  method SiblingPoints(rows: map<RowId, Row>) returns (points: int)
    ensures points == Sum(PointsIn(rows), LiveSiblings(rows))
  {
    points := 0;
    var rest := LiveSiblings(rows);
    while rest != {}
      invariant rest <= LiveSiblings(rows)
      invariant points + Sum(PointsIn(rows), rest) == Sum(PointsIn(rows), LiveSiblings(rows))
      decreases rest
    {
      var id :| id in rest;
      SumPick(PointsIn(rows), rest, id);
      points := points + Num(rows[id], Points);
      rest := rest - {id};
    }
  }

  method ReadNumbers(c: Content, flags: Flags, rows: map<RowId, Row>) returns (numbers: Numbers)
    ensures numbers == NumbersOf(c, flags, rows)
  {
    var levelstatus := match flags.levelSwitch
      case Draft => 0
      case Live => 1
      case Keep => if LevelRow in rows then Num(rows[LevelRow], Status) else 1;
    var levelpoints := LevelPoints(rows, InOrder(c.lessons));
    var siblings := SiblingPoints(rows);
    numbers := Numbers(levelstatus, levelpoints, siblings + if levelstatus == 0 then 0 else levelpoints);
  }

  // ---- refusals -----------------------------------------------------------------------------------------------------

  /** What the flags and the lessons there refuse. */
  method CheckLessons(c: Content, flags: Flags, rows: map<RowId, Row>) returns (ok: bool)
    ensures ok <==>
      (flags.renameLessons || forall i :: 0 <= i < |c.lessons| ==> KeepsName(rows, c.lessons[i]))
      && forall i :: 0 <= i < |c.lessons| ==> StaysCompletable(rows, c.lessons[i])
  {
    ok := true;
    for i := 0 to |c.lessons|
      invariant ok <==>
        (flags.renameLessons || forall k :: 0 <= k < i ==> KeepsName(rows, c.lessons[k]))
        && forall k :: 0 <= k < i ==> StaysCompletable(rows, c.lessons[k])
    {
      if !flags.renameLessons && !KeepsName(rows, c.lessons[i]) {
        ok := false;
      }
      if !StaysCompletable(rows, c.lessons[i]) {
        ok := false;
      }
    }
  }

  method CheckQuestions(seeded: map<QuestionId, Seeded>, rows: map<RowId, Row>, placed: seq<Placed>) returns (ok: bool)
    ensures ok <==> forall k :: 0 <= k < |placed| ==> KeepsMeaning(rows, seeded, placed[k])
  {
    ok := true;
    for k := 0 to |placed|
      invariant ok <==> forall i :: 0 <= i < k ==> KeepsMeaning(rows, seeded, placed[i])
    {
      if !KeepsMeaning(rows, seeded, placed[k]) {
        ok := false;
      }
    }
  }

  // ---- the steps ------------------------------------------------------------------------------------------------------

  method PlanLessonRows(live: seq<Lesson>, flags: Flags) returns (steps: seq<Step>)
    ensures steps == AllLessonSteps(live, flags)
  {
    steps := [];
    for i := 0 to |live|
      invariant steps == AllLessonSteps(live[..i], flags)
    {
      assert live[..i + 1][..i] == live[..i];
      steps := steps + LessonSteps(live[i], flags);
    }
    assert live[..|live|] == live;
  }

  method PlanQuestionRows(placed: seq<Placed>, flags: Flags) returns (questions: seq<Step>, joins: seq<Step>)
    ensures questions == QuestionSteps(placed, flags) && joins == JoinSteps(placed)
  {
    questions, joins := [], [];
    for k := 0 to |placed|
      invariant questions == QuestionSteps(placed[..k], flags) && joins == JoinSteps(placed[..k])
    {
      assert placed[..k + 1][..k] == placed[..k];
      questions, joins := questions + [QuestionStep(placed[k], flags)], joins + [JoinStep(placed[k])];
    }
    assert placed[..|placed|] == placed;
  }

  method PlanRows(c: Content, flags: Flags, numbers: Numbers, placed: seq<Placed>) returns (steps: seq<Step>)
    requires placed == PlaceAll(InOrder(c.lessons))
    ensures steps == RowSteps(c, flags, numbers)
  {
    var lessons := PlanLessonRows(InOrder(c.lessons), flags);
    var questions, joins := PlanQuestionRows(placed, flags);
    var slots := AllSlots(c.number);
    steps := [CurriculumStep(c, flags), GradeStep(c, numbers), LevelStep(c, flags, numbers)]
      + lessons + questions + joins
      + HideSlots(Unnamed(slots, c.lessons))
      + HideJoins(JoinsOf(slots, PracticeKind), placed) + HideJoins(JoinsOf(slots, QuizKind), placed)
      + HideQuestions(QuestionIds(c.number), placed);
  }

  method PlanLessonTexts(hash: string -> string, live: seq<Lesson>, owner: string, stamp: int) returns (steps: seq<Step>)
    ensures steps == AllLessonTexts(hash, live, owner, stamp)
  {
    steps := [];
    for i := 0 to |live|
      invariant steps == AllLessonTexts(hash, live[..i], owner, stamp)
    {
      assert live[..i + 1][..i] == live[..i];
      steps := steps + LessonTexts(hash, live[i], owner, stamp);
    }
    assert live[..|live|] == live;
  }

  method PlanQuestionTexts(hash: string -> string, placed: seq<Placed>, owner: string, stamp: int) returns (steps: seq<Step>)
    ensures steps == AllQuestionTexts(hash, placed, owner, stamp)
  {
    steps := [];
    for k := 0 to |placed|
      invariant steps == AllQuestionTexts(hash, placed[..k], owner, stamp)
    {
      assert placed[..k + 1][..k] == placed[..k];
      steps := steps + QuestionTexts(hash, placed[k], owner, stamp);
    }
    assert placed[..|placed|] == placed;
  }

  method PlanTexts(hash: string -> string, c: Content, owner: string, stamp: int, placed: seq<Placed>) returns (steps: seq<Step>)
    requires placed == PlaceAll(InOrder(c.lessons))
    ensures steps == TextSteps(hash, c, owner, stamp)
  {
    var lessons := PlanLessonTexts(hash, InOrder(c.lessons), owner, stamp);
    var questions := PlanQuestionTexts(hash, placed, owner, stamp);
    steps := [TextStep(hash, CurriculumRow, NameField, c.programme, owner, stamp), TextStep(hash, GradeRow, NameField, c.programme, owner, stamp),
              TextStep(hash, LevelRow, NameField, c.name, owner, stamp)]
      + lessons + questions;
  }

  /** Whether anything of the file, the flags or the rows refuses the run. */
  method CheckRun(c: Content, flags: Flags, seeded: map<QuestionId, Seeded>, rows: map<RowId, Row>, placed: seq<Placed>) returns (ok: bool)
    requires placed == PlaceAll(InOrder(c.lessons))
    ensures ok <==> Accepts(c, flags, seeded, rows)
  {
    var valid := ValidateContent(c);
    var lessonsOk := CheckLessons(c, flags, rows);
    var questionsOk := CheckQuestions(seeded, rows, placed);
    ok := valid && !(flags.levelSwitch == Draft && c.number == 1) && (LevelRow !in rows ==> flags.levelSwitch != Keep)
      && lessonsOk && questionsOk && RequiredAreThere(c, rows) && OwnedIsOwn(c, rows, flags.owner);
  }

  /** The whole run up to its writes: the plan, exactly when nothing refuses it. */
  method PlanContent(hash: string -> string, c: Content, flags: Flags, seeded: map<QuestionId, Seeded>, rows: map<RowId, Row>, stamp: int)
    returns (plan: Option<seq<Step>>)
    ensures plan.Some? <==> Accepts(c, flags, seeded, rows)
    ensures plan.Some? ==> plan.value == PlanOf(hash, c, flags, rows, stamp)
  {
    var placed := PlaceQuestions(InOrder(c.lessons));
    var ok := CheckRun(c, flags, seeded, rows, placed);
    if !ok {
      return None;
    }
    var numbers := ReadNumbers(c, flags, rows);
    var steps := PlanRows(c, flags, numbers, placed);
    var texts := PlanTexts(hash, c, flags.owner, stamp, placed);
    return Some(steps + texts);
  }

  // ---- applying ---------------------------------------------------------------------------------------------------------

  class Applier {
    var db: Db
    var inserted: nat
    var updated: nat
    var same: nat
    var hidden: nat

    constructor (db: Db)
      ensures this.db == db && inserted == updated == same == hidden == 0
    {
      this.db, inserted, updated, same, hidden := db, 0, 0, 0, 0;
    }

    predicate IsThere(step: Step)
      reads `db
    {
      match step
      case Put(id, _, _) => id in db.rows
      case Hide(id, _, _) => id in db.rows
      case Translate(key, _, _, _, _) => key in db.texts
    }

    /** One statement, counted by the rows it affects. */
    method Execute(step: Step)
      modifies this
      ensures db == ApplyStep(old(db), step)
      ensures inserted + updated + hidden == old(inserted) + old(updated) + old(hidden) + if db == old(db) then 0 else 1
      ensures inserted + updated + same == old(inserted) + old(updated) + old(same) + if step.Hide? then 0 else 1
    {
      var there := IsThere(step);
      var next := ApplyStep(db, step);
      var changed := next != db;
      NewIsAChange(db, step);
      db := next;
      if step.Hide? {
        hidden := hidden + if changed then 1 else 0;
      } else if !there {
        inserted := inserted + 1;
      } else if changed {
        updated := updated + 1;
      } else {
        same := same + 1;
      }
    }

    /** The steps in order; what was changed is counted step by step. */
    method ApplyPlan(steps: seq<Step>)
      requires inserted == updated == same == hidden == 0
      modifies this
      ensures db == Apply(old(db), steps)
      ensures inserted + updated + hidden == Changes(old(db), steps)
    {
      for k := 0 to |steps|
        invariant db == Apply(old(db), steps[..k])
        invariant inserted + updated + hidden == Changes(old(db), steps[..k])
      {
        assert steps[..k + 1][..k] == steps[..k];
        Execute(steps[k]);
      }
      assert steps[..|steps|] == steps;
    }
  }

  lemma {:induction false} NewIsAChange(db: Db, step: Step)
    ensures step.Put? && step.id !in db.rows ==> ApplyStep(db, step) != db
    ensures step.Translate? && step.key !in db.texts ==> ApplyStep(db, step) != db
  {
    if step.Put? && step.id !in db.rows {
      assert step.id in ApplyStep(db, step).rows;
    }
    if step.Translate? && step.key !in db.texts {
      assert step.key in ApplyStep(db, step).texts;
    }
  }
}
