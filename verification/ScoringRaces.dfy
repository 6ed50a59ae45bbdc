/**
 * Two runs of two first attempts in which scorings overlap: one leaves a level a star short, the
 * other leaves it a star too many.
 */
module ScoringRaces {
  import opened Wrappers
  import opened Sums
  import opened LedgerSpec
  import opened LedgerTheorems
  import opened LedgerRuns
  import opened LedgerStars
  import opened ScoringSteps
  import opened ConcurrentDelivery

  const EMPTY := State(map[], map[], map[], map[], map[])

  /** Two activities of one level, each of a lesson of its own. */
  const TWO_LESSONS := Content(map["a" := "k", "b" := "l"], {}, map["k" := Lesson("v", 10), "l" := Lesson("v", 10)], map["v" := "g"])

  /** Two activities of one lesson, which are all its points. */
  const ONE_LESSON := Content(map["a" := "k", "b" := "k"], {}, map["k" := Lesson("v", 10)], map["v" := "g"])

  /** A passed first attempt of five points and one star. */
  function First(activity: Id): Submission {
    Submission(activity, 1, 5, false, true, true, 1)
  }

  function Racing(s: State, one: Phase, two: Phase): System {
    System(s, [Request(First("a"), one), Request(First("b"), two)])
  }

  ghost predicate Leads(c: Content, sys: System, schedule: seq<nat>, t: System) {
    Fine(c, sys) && Turns(schedule, |sys.requests|) && After(c, sys, schedule) == t
  }

  lemma {:induction false} OneMoreTurn(c: Content, sys: System, schedule: seq<nat>, t: System, i: nat, u: System)
    requires Leads(c, sys, schedule, t) && i < |t.requests| && u == StepOf(c, t, i)
    ensures Leads(c, sys, schedule + [i], u)
  {
    assert (schedule + [i])[..|schedule|] == schedule;
  }

  const NOTHING_SEEN := Reads(false, None, None)

  lemma {:induction false} NothingToSee(s: State, sub: Submission)
    requires !Tried(s.attempts, sub.activity)
    ensures Read(s, sub) == NOTHING_SEEN && !Passed(s.attempts, sub.activity)
  {
    TriedHasNewest(s.attempts, sub.activity);
  }

  /** A request that finds nothing reads it in four turns. */
  lemma {:induction false} ReadsNothing(c: Content, sys: System, schedule: seq<nat>, t: System, i: nat)
    returns (longer: seq<nat>)
    requires Leads(c, sys, schedule, t) && i < |t.requests| && t.requests[i].phase == Arrived
    requires !Tried(t.state.attempts, t.requests[i].sub.activity)
    ensures Leads(c, sys, longer, System(t.state, t.requests[i := t.requests[i].(phase := Reading(3, NOTHING_SEEN))]))
  {
    NothingToSee(t.state, t.requests[i].sub);
    var u := t;
    longer := schedule;
    for n := 0 to 4
      invariant Leads(c, sys, longer, u) && u.state == t.state
      invariant u.requests == if n == 0 then t.requests
                              else t.requests[i := t.requests[i].(phase := Reading(n - 1, NOTHING_SEEN))]
    {
      OneMoreTurn(c, sys, longer, u, i, StepOf(c, u, i));
      u := StepOf(c, u, i);
      longer := longer + [i];
    }
  }

  /** The phase after a row was read and saved. */
  function NextRow(c: Content, s: State, activity: Id, p: Progress): Phase
    requires c.Valid() && c.Knows(activity) && p.row < |Holders(c, activity)|
  {
    if p.row + 1 == |Holders(c, activity)| then Finished(true)
    else Scoring(Progress(p.row + 1, None, p.gives + Earns(c, s, activity, Holders(c, activity)[p.row])))
  }

  /** The read and the save of a row, with nobody in between. */
  lemma {:induction false} RowTurns(c: Content, s: State, r: Request, read: Request)
    requires c.Valid() && Fits(c, Submit(r.sub)) && r.phase.Scoring? && InRange(c, r)
    requires r.phase.progress.held.None? && IsThere(s, Holders(c, r.sub.activity)[r.phase.progress.row])
    requires read == r.(phase := NextPhase(c, s, r))
    ensures NextState(c, s, r) == s && InRange(c, read)
    ensures NextState(c, s, read) == RowScored(c, s, r.sub.activity, r.phase.progress.row, r.phase.progress.gives)
    ensures NextPhase(c, s, read) == NextRow(c, s, r.sub.activity, r.phase.progress)
  {
  }

  /** Two turns in which a request reads and saves a row. */
  lemma {:induction false} ScoresRow(c: Content, sys: System, schedule: seq<nat>, t: System, i: nat)
    returns (longer: seq<nat>)
    requires Leads(c, sys, schedule, t) && i < |t.requests| && Fine(c, t) && t.requests[i].phase.Scoring?
    requires var (r, p) := (t.requests[i], t.requests[i].phase.progress);
             p.held.None? && IsThere(t.state, Holders(c, r.sub.activity)[p.row])
    ensures var (r, p) := (t.requests[i], t.requests[i].phase.progress);
            Leads(c, sys, longer, System(RowScored(c, t.state, r.sub.activity, p.row, p.gives),
                                         t.requests[i := r.(phase := NextRow(c, t.state, r.sub.activity, p))]))
  {
    var r, read := t.requests[i], StepOf(c, t, i);
    OneMoreTurn(c, sys, schedule, t, i, read);
    RowTurns(c, t.state, r, read.requests[i]);
    var saved := StepOf(c, read, i);
    OneMoreTurn(c, sys, schedule + [i], read, i, saved);
    assert saved.requests == t.requests[i := saved.requests[i]];
    longer := schedule + [i] + [i];
  }

  function Start(scores: nat): Phase {
    Scoring(Progress(0, None, scores))
  }

  /** Both attempts as they are stored, before either is scored. */
  function BothCommitted(c: Content): State
    requires c.Valid() && c.Knows("a") && c.Knows("b")
  {
    Commit(c, Commit(c, EMPTY, First("a"), NOTHING_SEEN), First("b"), NOTHING_SEEN)
  }

  lemma {:induction false} BothRead(c: Content) returns (schedule: seq<nat>)
    requires Fine(c, Racing(EMPTY, Arrived, Arrived))
    ensures Leads(c, Racing(EMPTY, Arrived, Arrived), schedule, Racing(EMPTY, Reading(3, NOTHING_SEEN), Reading(3, NOTHING_SEEN)))
  {
    var sys := Racing(EMPTY, Arrived, Arrived);
    schedule := [];
    schedule := ReadsNothing(c, sys, schedule, sys, 0);
    schedule := ReadsNothing(c, sys, schedule, Racing(EMPTY, Reading(3, NOTHING_SEEN), Arrived), 1);
  }

  lemma {:induction false} BothStored(c: Content) returns (schedule: seq<nat>)
    requires Fine(c, Racing(EMPTY, Arrived, Arrived)) && c.Knows("a") && c.Knows("b")
    ensures Leads(c, Racing(EMPTY, Arrived, Arrived), schedule, Racing(BothCommitted(c), Start(1), Start(1)))
  {
    var sys := Racing(EMPTY, Arrived, Arrived);
    schedule := BothRead(c);
    var one := Commit(c, EMPTY, First("a"), NOTHING_SEEN);
    var t := Racing(one, Start(1), Reading(3, NOTHING_SEEN));
    RewardKeepsAttempts(c, Inserted(EMPTY, First("a")), "a", 5, 0);
    OneMoreTurn(c, sys, schedule, Racing(EMPTY, Reading(3, NOTHING_SEEN), Reading(3, NOTHING_SEEN)), 0, t);
    OneMoreTurn(c, sys, schedule + [0], t, 1, Racing(BothCommitted(c), Start(1), Start(1)));
    schedule := schedule + [0] + [1];
  }

  // ---- a lost star ---------------------------------------------------------------------------------------------------

  function Attempts(): map<Key, Attempt> {
    map[Key("a", 1) := Attempt(5, 1, true), Key("b", 1) := Attempt(5, 1, true)]
  }

  /** The rows of the two lessons, their level and its grade, by their stars. */
  function Lessons(k: nat, l: nat, v: nat, g: nat): State {
    State(Attempts(), map[], map["k" := LessonRow(5, k, false), "l" := LessonRow(5, l, false)],
          map["v" := LevelRow(10, v, false)], map["g" := GradeRow(10, g)])
  }

  lemma {:induction false} LessonsCommitted()
    ensures TWO_LESSONS.Valid() && Fine(TWO_LESSONS, Racing(EMPTY, Arrived, Arrived))
    ensures BothCommitted(TWO_LESSONS) == Lessons(0, 0, 0, 0)
  {
    var one := Commit(TWO_LESSONS, EMPTY, First("a"), NOTHING_SEEN);
    assert one == State(map[Key("a", 1) := Attempt(5, 1, true)], map[], map["k" := LessonRow(5, 0, false)],
                        map["v" := LevelRow(5, 0, false)], map["g" := GradeRow(5, 0)]);
  }

  function Row(row: nat): Phase {
    Scoring(Progress(row, None, 1))
  }

  function Held(row: nat, stars: nat): Phase {
    Scoring(Progress(row, Some(Seen(stars, false)), 1))
  }

  lemma {:induction false} NeitherIsFull(k: nat, l: nat, v: nat, g: nat)
    ensures !EarnsBonus(TWO_LESSONS, Lessons(k, l, v, g), "k") && !EarnsBonus(TWO_LESSONS, Lessons(k, l, v, g), "l")
  {
    assert !IsFull(5, 10);
  }

  lemma {:induction false} FirstLessonRow()
    requires TWO_LESSONS.Valid()
    ensures RowScored(TWO_LESSONS, Lessons(0, 0, 0, 0), "a", 0, 1) == Lessons(1, 0, 0, 0)
    ensures NextRow(TWO_LESSONS, Lessons(0, 0, 0, 0), "a", Progress(0, None, 1)) == Row(1)
  {
    NeitherIsFull(0, 0, 0, 0);
  }

  /** The lesson rows are scored one after the other. */
  lemma {:induction false} FirstLessonScored(sys: System, schedule: seq<nat>) returns (longer: seq<nat>)
    requires Leads(TWO_LESSONS, sys, schedule, Racing(Lessons(0, 0, 0, 0), Row(0), Row(0)))
    ensures Leads(TWO_LESSONS, sys, longer, Racing(Lessons(1, 0, 0, 0), Row(1), Row(0)))
  {
    longer := ScoresRow(TWO_LESSONS, sys, schedule, Racing(Lessons(0, 0, 0, 0), Row(0), Row(0)), 0);
    FirstLessonRow();
  }

  lemma {:induction false} SecondLessonScored(sys: System, schedule: seq<nat>) returns (longer: seq<nat>)
    requires Leads(TWO_LESSONS, sys, schedule, Racing(Lessons(1, 0, 0, 0), Row(1), Row(0)))
    ensures Leads(TWO_LESSONS, sys, longer, Racing(Lessons(1, 1, 0, 0), Row(1), Row(1)))
  {
    longer := ScoresRow(TWO_LESSONS, sys, schedule, Racing(Lessons(1, 0, 0, 0), Row(1), Row(0)), 1);
    NeitherIsFull(1, 0, 0, 0);
    assert RowScored(TWO_LESSONS, Lessons(1, 0, 0, 0), "b", 0, 1) == Lessons(1, 1, 0, 0);
  }

  /** Both read the level before either saves it. */
  lemma {:induction false} LevelRead(sys: System, schedule: seq<nat>) returns (longer: seq<nat>)
    requires Leads(TWO_LESSONS, sys, schedule, Racing(Lessons(1, 1, 0, 0), Row(1), Row(1)))
    ensures Leads(TWO_LESSONS, sys, longer, Racing(Lessons(1, 1, 0, 0), Held(1, 0), Held(1, 0)))
  {
    var c := TWO_LESSONS;
    OneMoreTurn(c, sys, schedule, Racing(Lessons(1, 1, 0, 0), Row(1), Row(1)), 0, Racing(Lessons(1, 1, 0, 0), Held(1, 0), Row(1)));
    var so := schedule + [0];
    OneMoreTurn(c, sys, so, Racing(Lessons(1, 1, 0, 0), Held(1, 0), Row(1)), 1, Racing(Lessons(1, 1, 0, 0), Held(1, 0), Held(1, 0)));
    longer := so + [1];
  }

  lemma {:induction false} LevelSaved(sys: System, schedule: seq<nat>) returns (longer: seq<nat>)
    requires Leads(TWO_LESSONS, sys, schedule, Racing(Lessons(1, 1, 0, 0), Held(1, 0), Held(1, 0)))
    ensures Leads(TWO_LESSONS, sys, longer, Racing(Lessons(1, 1, 1, 0), Row(2), Row(2)))
  {
    var c := TWO_LESSONS;
    OneMoreTurn(c, sys, schedule, Racing(Lessons(1, 1, 0, 0), Held(1, 0), Held(1, 0)), 0, Racing(Lessons(1, 1, 1, 0), Row(2), Held(1, 0)));
    var so := schedule + [0];
    OneMoreTurn(c, sys, so, Racing(Lessons(1, 1, 1, 0), Row(2), Held(1, 0)), 1, Racing(Lessons(1, 1, 1, 0), Row(2), Row(2)));
    longer := so + [1];
  }

  lemma {:induction false} FirstGradeScored(sys: System, schedule: seq<nat>) returns (longer: seq<nat>)
    requires Leads(TWO_LESSONS, sys, schedule, Racing(Lessons(1, 1, 1, 0), Row(2), Row(2)))
    ensures Leads(TWO_LESSONS, sys, longer, Racing(Lessons(1, 1, 1, 1), Finished(true), Row(2)))
  {
    longer := ScoresRow(TWO_LESSONS, sys, schedule, Racing(Lessons(1, 1, 1, 0), Row(2), Row(2)), 0);
    assert RowScored(TWO_LESSONS, Lessons(1, 1, 1, 0), "a", 2, 1) == Lessons(1, 1, 1, 1);
  }

  lemma {:induction false} SecondGradeScored(sys: System, schedule: seq<nat>) returns (longer: seq<nat>)
    requires Leads(TWO_LESSONS, sys, schedule, Racing(Lessons(1, 1, 1, 1), Finished(true), Row(2)))
    ensures Leads(TWO_LESSONS, sys, longer, Racing(Lessons(1, 1, 1, 2), Finished(true), Finished(true)))
  {
    longer := ScoresRow(TWO_LESSONS, sys, schedule, Racing(Lessons(1, 1, 1, 1), Finished(true), Row(2)), 1);
    assert RowScored(TWO_LESSONS, Lessons(1, 1, 1, 1), "b", 2, 1) == Lessons(1, 1, 1, 2);
  }

  lemma {:induction false} SumOfNone<T(!new)>(f: T -> int, s: set<T>)
    requires forall x :: x in s ==> f(x) == 0
    ensures Sum(f, s) == 0
  {
    SumIsZero(f, s);
  }

  lemma {:induction false} NothingIsExact(c: Content)
    requires c.Valid()
    ensures StarsExact(c, EMPTY)
  {
    forall l ensures LessonOwed(c, EMPTY, l) == Nothing()(l) {
      assert AttemptsIn(c, EMPTY.attempts, l) == {};
    }
    forall v | v in c.levels ensures LevelOwed(c, EMPTY, v) == Nothing()(v) {
      assert AttemptsAt(c, EMPTY.attempts, v) == {};
      SumOfNone(LessonStars(EMPTY), LessonsOf(c, v));
    }
    forall g ensures GradeStars(EMPTY)(g) == Sum(LevelStars(EMPTY), LevelsOf(c, g)) {
      SumOfNone(LevelStars(EMPTY), LevelsOf(c, g));
    }
  }

  /** Both lessons hold their star and the level one of the two. */
  lemma {:induction false} LevelIsShort()
    requires TWO_LESSONS.Valid()
    ensures LevelOwed(TWO_LESSONS, Lessons(1, 1, 1, 2), "v") == 1
  {
    var s := Lessons(1, 1, 1, 2);
    assert AttemptsAt(TWO_LESSONS, s.attempts, "v") == {};
    assert LessonsOf(TWO_LESSONS, "v") == {"k"} + {"l"} && {} + {"k"} == {"k"};
    SumGrow(LessonStars(s), {}, "k");
    SumGrow(LessonStars(s), {"k"}, "l");
  }

  lemma {:induction false} LosingRun() returns (schedule: seq<nat>)
    ensures Leads(TWO_LESSONS, Racing(EMPTY, Arrived, Arrived), schedule, Racing(Lessons(1, 1, 1, 2), Finished(true), Finished(true)))
  {
    var sys := Racing(EMPTY, Arrived, Arrived);
    LessonsCommitted();
    schedule := BothStored(TWO_LESSONS);
    schedule := FirstLessonScored(sys, schedule);
    schedule := SecondLessonScored(sys, schedule);
    schedule := LevelRead(sys, schedule);
    schedule := LevelSaved(sys, schedule);
    schedule := FirstGradeScored(sys, schedule);
    schedule := SecondGradeScored(sys, schedule);
  }

  lemma {:induction false} OwedIsNotExact(c: Content, s: State, v: Id)
    requires c.Valid() && v in c.levels && LevelOwed(c, s, v) != 0
    ensures !StarsExact(c, s)
  {
    assert LevelOwed(c, s, v) != Nothing()(v);
  }

  /**
   * A lost star: two first attempts at activities of two lessons of a level. Both scorings read the
   * level before either saves it, so the level ends with one star for the two its lessons hold.
   */
  lemma {:induction false} OverlapLosesAStar() returns (schedule: seq<nat>, end: State)
    ensures Leads(TWO_LESSONS, Racing(EMPTY, Arrived, Arrived), schedule, Racing(end, Finished(true), Finished(true)))
    ensures StarsExact(TWO_LESSONS, EMPTY) && !StarsExact(TWO_LESSONS, end)
    ensures LessonStars(end)("k") == LessonStars(end)("l") == LevelStars(end)("v") == 1
    ensures LevelOwed(TWO_LESSONS, end, "v") == 1
  {
    schedule := LosingRun();
    end := Lessons(1, 1, 1, 2);
    NothingIsExact(TWO_LESSONS);
    LevelIsShort();
    OwedIsNotExact(TWO_LESSONS, end, "v");
  }

  // ---- a bonus given twice -----------------------------------------------------------------------------------------------

  function Shared(k: nat, bonus: bool, v: nat, g: nat): State {
    State(Attempts(), map[], map["k" := LessonRow(10, k, bonus)], map["v" := LevelRow(10, v, false)], map["g" := GradeRow(10, g)])
  }

  lemma {:induction false} SharedCommitted()
    ensures ONE_LESSON.Valid() && Fine(ONE_LESSON, Racing(EMPTY, Arrived, Arrived))
    ensures BothCommitted(ONE_LESSON) == Shared(0, false, 0, 0)
  {
    var one := Commit(ONE_LESSON, EMPTY, First("a"), NOTHING_SEEN);
    assert one == State(map[Key("a", 1) := Attempt(5, 1, true)], map[], map["k" := LessonRow(5, 0, false)],
                        map["v" := LevelRow(5, 0, false)], map["g" := GradeRow(5, 0)]);
  }

  /** A scoring that has decided on the bonus. */
  function Paid(row: nat): Phase {
    Scoring(Progress(row, None, 2))
  }

  function PaidHeld(row: nat, stars: nat): Phase {
    Scoring(Progress(row, Some(Seen(stars, row == 0)), 2))
  }

  lemma {:induction false} BothReadFull(sys: System, schedule: seq<nat>) returns (longer: seq<nat>)
    requires Leads(ONE_LESSON, sys, schedule, Racing(Shared(0, false, 0, 0), Row(0), Row(0)))
    ensures Leads(ONE_LESSON, sys, longer, Racing(Shared(0, false, 0, 0), PaidHeld(0, 0), PaidHeld(0, 0)))
  {
    var c := ONE_LESSON;
    OneMoreTurn(c, sys, schedule, Racing(Shared(0, false, 0, 0), Row(0), Row(0)), 0, Racing(Shared(0, false, 0, 0), PaidHeld(0, 0), Row(0)));
    var so := schedule + [0];
    OneMoreTurn(c, sys, so, Racing(Shared(0, false, 0, 0), PaidHeld(0, 0), Row(0)), 1, Racing(Shared(0, false, 0, 0), PaidHeld(0, 0), PaidHeld(0, 0)));
    longer := so + [1];
  }

  lemma {:induction false} BothSaveFull(sys: System, schedule: seq<nat>) returns (longer: seq<nat>)
    requires Leads(ONE_LESSON, sys, schedule, Racing(Shared(0, false, 0, 0), PaidHeld(0, 0), PaidHeld(0, 0)))
    ensures Leads(ONE_LESSON, sys, longer, Racing(Shared(2, true, 0, 0), Paid(1), Paid(1)))
  {
    var c := ONE_LESSON;
    OneMoreTurn(c, sys, schedule, Racing(Shared(0, false, 0, 0), PaidHeld(0, 0), PaidHeld(0, 0)), 0, Racing(Shared(2, true, 0, 0), Paid(1), PaidHeld(0, 0)));
    var so := schedule + [0];
    OneMoreTurn(c, sys, so, Racing(Shared(2, true, 0, 0), Paid(1), PaidHeld(0, 0)), 1, Racing(Shared(2, true, 0, 0), Paid(1), Paid(1)));
    longer := so + [1];
  }

  /** One request scores the level and then the other. */
  lemma {:induction false} FirstLevelPaid(sys: System, schedule: seq<nat>) returns (longer: seq<nat>)
    requires Leads(ONE_LESSON, sys, schedule, Racing(Shared(2, true, 0, 0), Paid(1), Paid(1)))
    ensures Leads(ONE_LESSON, sys, longer, Racing(Shared(2, true, 2, 0), Paid(2), Paid(1)))
  {
    longer := ScoresRow(ONE_LESSON, sys, schedule, Racing(Shared(2, true, 0, 0), Paid(1), Paid(1)), 0);
    assert RowScored(ONE_LESSON, Shared(2, true, 0, 0), "a", 1, 2) == Shared(2, true, 2, 0);
  }

  lemma {:induction false} SecondLevelPaid(sys: System, schedule: seq<nat>) returns (longer: seq<nat>)
    requires Leads(ONE_LESSON, sys, schedule, Racing(Shared(2, true, 2, 0), Paid(2), Paid(1)))
    ensures Leads(ONE_LESSON, sys, longer, Racing(Shared(2, true, 4, 0), Paid(2), Paid(2)))
  {
    longer := ScoresRow(ONE_LESSON, sys, schedule, Racing(Shared(2, true, 2, 0), Paid(2), Paid(1)), 1);
    assert RowScored(ONE_LESSON, Shared(2, true, 2, 0), "b", 1, 2) == Shared(2, true, 4, 0);
  }

  lemma {:induction false} FirstGradePaid(sys: System, schedule: seq<nat>) returns (longer: seq<nat>)
    requires Leads(ONE_LESSON, sys, schedule, Racing(Shared(2, true, 4, 0), Paid(2), Paid(2)))
    ensures Leads(ONE_LESSON, sys, longer, Racing(Shared(2, true, 4, 2), Finished(true), Paid(2)))
  {
    longer := ScoresRow(ONE_LESSON, sys, schedule, Racing(Shared(2, true, 4, 0), Paid(2), Paid(2)), 0);
    assert RowScored(ONE_LESSON, Shared(2, true, 4, 0), "a", 2, 2) == Shared(2, true, 4, 2);
  }

  lemma {:induction false} SecondGradePaid(sys: System, schedule: seq<nat>) returns (longer: seq<nat>)
    requires Leads(ONE_LESSON, sys, schedule, Racing(Shared(2, true, 4, 2), Finished(true), Paid(2)))
    ensures Leads(ONE_LESSON, sys, longer, Racing(Shared(2, true, 4, 4), Finished(true), Finished(true)))
  {
    longer := ScoresRow(ONE_LESSON, sys, schedule, Racing(Shared(2, true, 4, 2), Finished(true), Paid(2)), 1);
    assert RowScored(ONE_LESSON, Shared(2, true, 4, 2), "b", 2, 2) == Shared(2, true, 4, 4);
  }

  /** The level holds two stars more than its lesson does. */
  lemma {:induction false} LevelHasTooMany()
    requires ONE_LESSON.Valid()
    ensures LevelOwed(ONE_LESSON, Shared(2, true, 4, 4), "v") == -2
  {
    var s := Shared(2, true, 4, 4);
    assert AttemptsAt(ONE_LESSON, s.attempts, "v") == {};
    assert LessonsOf(ONE_LESSON, "v") == {"k"} && {} + {"k"} == {"k"};
    SumGrow(LessonStars(s), {}, "k");
  }

  lemma {:induction false} DoublingRun() returns (schedule: seq<nat>)
    ensures Leads(ONE_LESSON, Racing(EMPTY, Arrived, Arrived), schedule, Racing(Shared(2, true, 4, 4), Finished(true), Finished(true)))
  {
    var sys := Racing(EMPTY, Arrived, Arrived);
    SharedCommitted();
    schedule := BothStored(ONE_LESSON);
    schedule := BothReadFull(sys, schedule);
    schedule := BothSaveFull(sys, schedule);
    schedule := FirstLevelPaid(sys, schedule);
    schedule := SecondLevelPaid(sys, schedule);
    schedule := FirstGradePaid(sys, schedule);
    schedule := SecondGradePaid(sys, schedule);
  }

  /**
   * A bonus given twice: two first attempts fill their lesson, and both scorings read it full before
   * either saves it. Both take the bonus up: the level and the grade end with four stars, where the
   * two attempts and the lesson's one bonus are three.
   */
  lemma {:induction false} OverlapGivesABonusTwice() returns (schedule: seq<nat>, end: State)
    ensures Leads(ONE_LESSON, Racing(EMPTY, Arrived, Arrived), schedule, Racing(end, Finished(true), Finished(true)))
    ensures StarsExact(ONE_LESSON, EMPTY) && !StarsExact(ONE_LESSON, end)
    ensures LevelStars(end)("v") == GradeStars(end)("g") == 4
    ensures LessonBonus(end, "k") == 1 && First("a").scores == First("b").scores == 1 && LevelOwed(ONE_LESSON, end, "v") == -2
  {
    schedule := DoublingRun();
    end := Shared(2, true, 4, 4);
    NothingIsExact(ONE_LESSON);
    LevelHasTooMany();
    OwedIsNotExact(ONE_LESSON, end, "v");
  }
}
