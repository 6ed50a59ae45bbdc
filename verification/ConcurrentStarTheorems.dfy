/**
 * When are the stars exact after requests that interleave? Exactly when no two scorings overlapped
 * on a row; what goes wrong when they do.
 */
module ConcurrentStarTheorems {
  import opened Sums
  import opened LedgerSpec
  import opened LedgerTheorems
  import opened LedgerStars
  import opened ScoringSteps
  import opened ConcurrentDelivery
  import opened ConcurrentStars

  // ---- bonuses -----------------------------------------------------------------------------------------------------

  /** The bonus of a scoring that marks this row for it. */
  function Mark(c: Content, subs: seq<Submission>, log: Log, h: Holder, i: nat): nat {
    if i < |subs| && MarksBonus(c, subs[i].activity, h) then BonusIn(log, i) else 0
  }

  function Marks(c: Content, subs: seq<Submission>, log: Log, h: Holder): nat -> int {
    (i: nat) => Mark(c, subs, log, h, i)
  }

  /** What a row's bonus column would be after the scorings in `s`. */
  ghost function Marked(c: Content, start: State, subs: seq<Submission>, log: Log, h: Holder, s: set<nat>): int {
    Bit(BonusAt(start, h)) + Sum(Marks(c, subs, log, h), s)
  }

  /** A lesson's bonus column tells of the scorings it kept. */
  ghost predicate LessonFlag(c: Content, start: State, subs: seq<Submission>, t: Traced, h: Holder) {
    h.OfLesson? ==> Bit(BonusAt(t.sys.state, h)) == Marked(c, start, subs, t.log, h, At(t.log.kept, h))
  }

  /** A level's is saved by its quiz only, and never taken back: it tells of no fewer. */
  ghost predicate LevelFlag(c: Content, start: State, subs: seq<Submission>, t: Traced, h: Holder) {
    h.OfLevel? ==>
      && Bit(BonusAt(t.sys.state, h)) >= Marked(c, start, subs, t.log, h, At(t.log.kept, h))
      && (At(t.log.kept, h) == At(t.log.saved, h) ==>
            Bit(BonusAt(t.sys.state, h)) == Marked(c, start, subs, t.log, h, At(t.log.kept, h)))
  }

  ghost predicate LessonHeld(c: Content, start: State, subs: seq<Submission>, t: Traced, i: nat)
    requires Fine(c, t.sys) && i < |t.sys.requests| && Holding(t.sys.requests[i])
  {
    var (h, seen) := (RowOf(c, t.sys.requests[i]), GlanceOf(t.log, i));
    h.OfLesson? ==>
      Bit(t.sys.requests[i].phase.progress.held.value.bonus) == Marked(c, start, subs, t.log, h, seen.kept) + BonusIn(t.log, i)
  }

  ghost predicate QuizHeld(c: Content, start: State, subs: seq<Submission>, t: Traced, i: nat)
    requires Fine(c, t.sys) && i < |t.sys.requests| && Holding(t.sys.requests[i])
  {
    var (h, seen) := (RowOf(c, t.sys.requests[i]), GlanceOf(t.log, i));
    h.OfLevel? && t.sys.requests[i].sub.activity !in c.activities ==>
      && t.sys.requests[i].phase.progress.held.value.bonus
      && 1 >= Marked(c, start, subs, t.log, h, seen.kept) + BonusIn(t.log, i)
      && (seen.kept == seen.saved ==> 1 == Marked(c, start, subs, t.log, h, seen.kept) + BonusIn(t.log, i))
  }

  ghost predicate LevelHeld(c: Content, start: State, subs: seq<Submission>, t: Traced, i: nat)
    requires Fine(c, t.sys) && i < |t.sys.requests| && Holding(t.sys.requests[i])
  {
    var (h, seen) := (RowOf(c, t.sys.requests[i]), GlanceOf(t.log, i));
    h.OfLevel? && t.sys.requests[i].sub.activity in c.activities ==>
      && Bit(BonusAt(t.sys.state, h)) >= Marked(c, start, subs, t.log, h, seen.kept)
      && (seen.kept == seen.saved == At(t.log.saved, h) ==>
            Bit(BonusAt(t.sys.state, h)) == Marked(c, start, subs, t.log, h, seen.kept))
  }

  ghost predicate FlagsHeld(c: Content, start: State, subs: seq<Submission>, t: Traced, i: nat)
    requires Fine(c, t.sys) && i < |t.sys.requests| && Holding(t.sys.requests[i])
  {
    LessonHeld(c, start, subs, t, i) && QuizHeld(c, start, subs, t, i) && LevelHeld(c, start, subs, t, i)
  }

  ghost predicate Flags(c: Content, start: State, subs: seq<Submission>, t: Traced)
    requires Fine(c, t.sys)
  {
    && (forall h :: LessonFlag(c, start, subs, t, h) && LevelFlag(c, start, subs, t, h))
    && (forall i: nat :: i < |t.sys.requests| && Holding(t.sys.requests[i]) ==> FlagsHeld(c, start, subs, t, i))
  }

  lemma {:induction false} MarkedSame(c: Content, start: State, subs: seq<Submission>, log: Log, log': Log, h: Holder,
                                      s: set<nat>)
    requires forall j :: j in s ==> BonusIn(log', j) == BonusIn(log, j)
    ensures Marked(c, start, subs, log', h, s) == Marked(c, start, subs, log, h, s)
  {
    SumSame(Marks(c, subs, log', h), Marks(c, subs, log, h), s);
  }

  lemma {:induction false} MarkedMore(c: Content, start: State, subs: seq<Submission>, log: Log, h: Holder, s: set<nat>,
                                      i: nat)
    requires i !in s
    ensures Marked(c, start, subs, log, h, s + {i}) == Marked(c, start, subs, log, h, s) + Mark(c, subs, log, h, i)
  {
    SumGrow(Marks(c, subs, log, h), s, i);
  }

  lemma {:induction false} QuietFlags(c: Content, start: State, subs: seq<Submission>, t: Traced, u: Traced, i: nat)
    requires Fine(c, t.sys) && Fine(c, u.sys) && i < |t.sys.requests| == |u.sys.requests| && IsQuiet(c, t, u, i)
    requires Flags(c, start, subs, t)
    ensures Flags(c, start, subs, u)
  {
    forall h ensures LessonFlag(c, start, subs, u, h) && LevelFlag(c, start, subs, u, h) {
      assert LessonFlag(c, start, subs, t, h) && LevelFlag(c, start, subs, t, h);
    }
    forall j: nat | j < |u.sys.requests| && Holding(u.sys.requests[j]) ensures FlagsHeld(c, start, subs, u, j) {
      assert FlagsHeld(c, start, subs, t, j);
    }
  }

  /** The reader has saved nothing when it decides on a bonus, so no column is told otherwise. */
  lemma {:induction false} ReadMarksNothing(c: Content, start: State, subs: seq<Submission>, t: Traced, u: Traced, i: nat,
                                            bonus: nat, h: Holder, x: Holder, s: set<nat>)
    requires Fine(c, t.sys) && Fine(c, u.sys) && i < |t.sys.requests| == |u.sys.requests| && IsRead(c, t, u, i, bonus)
    requires SavedAre(c, t, h) && s <= At(t.log.saved, h)
    ensures Marked(c, start, subs, u.log, x, s) == Marked(c, start, subs, t.log, x, s)
  {
    forall j | j in s ensures BonusIn(u.log, j) == BonusIn(t.log, j) {
      if j == i {
        assert HasSaved(c, t.sys.requests[i], h);
      }
    }
    MarkedSame(c, start, subs, t.log, u.log, x, s);
  }

  lemma {:induction false} ReadRowFlags(c: Content, start: State, subs: seq<Submission>, t: Traced, u: Traced, i: nat,
                                        bonus: nat, h: Holder)
    requires Fine(c, t.sys) && Fine(c, u.sys) && i < |t.sys.requests| == |u.sys.requests| && IsRead(c, t, u, i, bonus)
    requires SavedAre(c, t, h) && RowKeeps(start, subs, t, h) && LessonFlag(c, start, subs, t, h) && LevelFlag(c, start, subs, t, h)
    ensures LessonFlag(c, start, subs, u, h) && LevelFlag(c, start, subs, u, h)
  {
    ReadMarksNothing(c, start, subs, t, u, i, bonus, h, h, At(t.log.kept, h));
  }

  lemma {:induction false} OtherHeldFlags(c: Content, start: State, subs: seq<Submission>, t: Traced, u: Traced, i: nat,
                                          bonus: nat, j: nat)
    requires Fine(c, t.sys) && Fine(c, u.sys) && i < |t.sys.requests| == |u.sys.requests| && IsRead(c, t, u, i, bonus)
    requires j < |t.sys.requests| && j != i && Holding(t.sys.requests[j])
    requires SavedAre(c, t, RowOf(c, t.sys.requests[j])) && HoldsRow(c, start, subs, t, j) && FlagsHeld(c, start, subs, t, j)
    ensures FlagsHeld(c, start, subs, u, j)
  {
    var h := RowOf(c, t.sys.requests[j]);
    ReadMarksNothing(c, start, subs, t, u, i, bonus, h, h, GlanceOf(t.log, j).kept);
  }

  /** What the reader now holds of the bonus column. */
  lemma {:induction false} ReaderFlags(c: Content, start: State, subs: seq<Submission>, t: Traced, u: Traced, i: nat,
                                       bonus: nat, h: Holder)
    requires Fine(c, t.sys) && Fine(c, u.sys) && i < |t.sys.requests| == |u.sys.requests| && IsRead(c, t, u, i, bonus)
    requires h == RowOf(c, t.sys.requests[i]) && GivesAre(subs, t, i)
    requires SavedAre(c, t, h) && RowKeeps(start, subs, t, h) && LessonFlag(c, start, subs, t, h) && LevelFlag(c, start, subs, t, h)
    ensures FlagsHeld(c, start, subs, u, i)
  {
    var r := t.sys.requests[i];
    ReadMarksNothing(c, start, subs, t, u, i, bonus, h, h, At(t.log.kept, h));
    MarkingIsFirst(c, r.sub.activity, r.phase.progress.row);
    assert GlanceOf(u.log, i) == Glance(At(t.log.kept, h), At(t.log.saved, h));
    if MarksBonus(c, r.sub.activity, h) {
      assert i !in t.log.bonus && BonusIn(u.log, i) == bonus;
    }
  }

  lemma {:induction false} MarkingIsFirst(c: Content, activity: Id, row: nat)
    requires c.Valid() && c.Knows(activity) && row < |Holders(c, activity)|
    ensures MarksBonus(c, activity, Holders(c, activity)[row]) <==> row == 0
  {
  }

  lemma {:induction false} ReadFlags(c: Content, start: State, subs: seq<Submission>, t: Traced, u: Traced, i: nat,
                                     bonus: nat)
    requires Fine(c, t.sys) && Fine(c, u.sys) && i < |t.sys.requests| == |u.sys.requests| && IsRead(c, t, u, i, bonus)
    requires Requests(c, start, subs, t) && Rows(c, start, subs, t) && Flags(c, start, subs, t)
    ensures Flags(c, start, subs, u)
  {
    forall h ensures LessonFlag(c, start, subs, u, h) && LevelFlag(c, start, subs, u, h) {
      assert SavedAre(c, t, h) && RowKeeps(start, subs, t, h) && LessonFlag(c, start, subs, t, h) && LevelFlag(c, start, subs, t, h);
      ReadRowFlags(c, start, subs, t, u, i, bonus, h);
    }
    forall j: nat | j < |u.sys.requests| && Holding(u.sys.requests[j]) ensures FlagsHeld(c, start, subs, u, j) {
      assert GivesAre(subs, t, j);
      if j == i {
        var h := RowOf(c, t.sys.requests[i]);
        assert SavedAre(c, t, h) && RowKeeps(start, subs, t, h) && LessonFlag(c, start, subs, t, h) && LevelFlag(c, start, subs, t, h);
        ReaderFlags(c, start, subs, t, u, i, bonus, h);
      } else {
        var h := RowOf(c, t.sys.requests[j]);
        assert SavedAre(c, t, h) && HoldsRow(c, start, subs, t, j) && FlagsHeld(c, start, subs, t, j);
        OtherHeldFlags(c, start, subs, t, u, i, bonus, j);
      }
    }
  }

  /** The row that is saved. */
  lemma {:induction false} SaverFlags(c: Content, start: State, subs: seq<Submission>, t: Traced, u: Traced, i: nat,
                                      h: Holder)
    requires Fine(c, t.sys) && Fine(c, u.sys) && i < |t.sys.requests| == |u.sys.requests| && IsSave(c, t, u, i)
    requires Are(subs, t.sys.requests) && h == RowOf(c, t.sys.requests[i]) && SavedAre(c, t, h)
    requires HoldsRow(c, start, subs, t, i) && FlagsHeld(c, start, subs, t, i) && LevelFlag(c, start, subs, t, h)
    ensures LessonFlag(c, start, subs, u, h) && LevelFlag(c, start, subs, u, h)
  {
    var r, seen, saved := t.sys.requests[i], GlanceOf(t.log, i), At(t.log.saved, h);
    assert i !in saved;
    MarkedMore(c, start, subs, t.log, h, seen.kept, i);
    MarkedSame(c, start, subs, t.log, u.log, h, seen.kept + {i});
    assert At(u.log.kept, h) == seen.kept + {i} && At(u.log.saved, h) == saved + {i};
    if seen.kept + {i} == saved + {i} {
      assert seen.kept == seen.kept + {i} - {i} && saved == saved + {i} - {i};
    }
  }

  lemma {:induction false} SaveKeepsHeld(c: Content, start: State, subs: seq<Submission>, t: Traced, u: Traced, i: nat,
                                         j: nat)
    requires Fine(c, t.sys) && Fine(c, u.sys) && i < |t.sys.requests| == |u.sys.requests| && IsSave(c, t, u, i)
    requires j < |t.sys.requests| && j != i && Holding(t.sys.requests[j]) && Are(subs, t.sys.requests)
    requires SavedAre(c, t, RowOf(c, t.sys.requests[i])) && HoldsRow(c, start, subs, t, j)
    requires FlagsHeld(c, start, subs, t, j) && FlagsHeld(c, start, subs, t, i)
    ensures FlagsHeld(c, start, subs, u, j)
  {
    var h := RowOf(c, t.sys.requests[j]);
    MarkedSame(c, start, subs, t.log, u.log, h, GlanceOf(t.log, j).kept);
    assert GlanceOf(u.log, j) == GlanceOf(t.log, j);
    if h == RowOf(c, t.sys.requests[i]) {
      assert i in At(u.log.saved, h) && i !in At(t.log.saved, h);
    }
  }

  lemma {:induction false} SaveFlags(c: Content, start: State, subs: seq<Submission>, t: Traced, u: Traced, i: nat)
    requires Fine(c, t.sys) && Fine(c, u.sys) && i < |t.sys.requests| == |u.sys.requests| && IsSave(c, t, u, i)
    requires Are(subs, t.sys.requests) && Requests(c, start, subs, t) && Rows(c, start, subs, t) && Flags(c, start, subs, t)
    ensures Flags(c, start, subs, u)
  {
    assert GivesAre(subs, t, i) && HoldsRow(c, start, subs, t, i) && FlagsHeld(c, start, subs, t, i);
    var saved := RowOf(c, t.sys.requests[i]);
    assert SavedAre(c, t, saved);
    forall h ensures LessonFlag(c, start, subs, u, h) && LevelFlag(c, start, subs, u, h) {
      assert LessonFlag(c, start, subs, t, h) && LevelFlag(c, start, subs, t, h);
      if h == saved {
        SaverFlags(c, start, subs, t, u, i, h);
      } else {
        MarkedSame(c, start, subs, t.log, u.log, h, At(t.log.kept, h));
      }
    }
    forall j: nat | j < |u.sys.requests| && Holding(u.sys.requests[j]) ensures FlagsHeld(c, start, subs, u, j) {
      assert GivesAre(subs, t, j) && HoldsRow(c, start, subs, t, j) && FlagsHeld(c, start, subs, t, j);
      SaveKeepsHeld(c, start, subs, t, u, i, j);
    }
  }

  // ---- attempts -----------------------------------------------------------------------------------------------------

  /** The row whose own attempts an activity's are. */
  function Home(c: Content, activity: Id): Holder
    requires c.Valid() && c.Knows(activity)
  {
    Holders(c, activity)[0]
  }

  /** The scores of the attempts stored at a lesson's activities, or at a level's quiz. */
  ghost function AttemptScores(c: Content, s: State, h: Holder): int {
    match h
    case OfLesson(l) => Sum(Scores(s.attempts), AttemptsIn(c, s.attempts, l))
    case OfLevel(v) => Sum(Scores(s.attempts), AttemptsAt(c, s.attempts, v))
    case OfGrade(_) => 0
  }

  /** The requests that created an attempt there. */
  function CreatedAt(c: Content, requests: seq<Request>, h: Holder): set<nat>
    requires c.Valid() && forall i :: 0 <= i < |requests| ==> c.Knows(requests[i].sub.activity)
  {
    set i: nat | i < |requests| && Created(requests[i]) && Home(c, requests[i].sub.activity) == h
  }

  ghost predicate AttemptsAre(c: Content, start: State, subs: seq<Submission>, t: Traced, h: Holder)
    requires Fine(c, t.sys)
  {
    AttemptScores(c, t.sys.state, h) == AttemptScores(c, start, h) + Sum(ScoresOf(subs), CreatedAt(c, t.sys.requests, h))
  }

  lemma {:induction false} SameScoresAt(c: Content, s: State, t: State, h: Holder)
    requires SameScores(s.attempts, t.attempts)
    ensures AttemptScores(c, t, h) == AttemptScores(c, s, h)
  {
    match h
    case OfLesson(l) =>
      assert AttemptsIn(c, t.attempts, l) == AttemptsIn(c, s.attempts, l);
      SumSame(Scores(s.attempts), Scores(t.attempts), AttemptsIn(c, s.attempts, l));
    case OfLevel(v) =>
      assert AttemptsAt(c, t.attempts, v) == AttemptsAt(c, s.attempts, v);
      SumSame(Scores(s.attempts), Scores(t.attempts), AttemptsAt(c, s.attempts, v));
    case OfGrade(_) =>
  }

  lemma {:induction false} InsertedScoresAt(c: Content, s: State, sub: Submission, h: Holder)
    requires c.Valid() && c.Knows(sub.activity) && sub.NaturalKey() !in s.attempts
    ensures AttemptScores(c, Inserted(s, sub), h) == AttemptScores(c, s, h) + if h == Home(c, sub.activity) then sub.scores else 0
  {
    var t := Inserted(s, sub);
    match h
    case OfLesson(l) => InsertedOwesLesson(c, s, sub, l);
    case OfLevel(v) =>
      InsertedOwesLevel(c, s, sub, v);
      SumSame(LessonStars(s), LessonStars(t), LessonsOf(c, v));
    case OfGrade(_) =>
  }

  /** A step's effect on the attempts' scores: a creating commit adds the new row's. */
  lemma {:induction false} StepScoresAt(c: Content, sys: System, i: nat, h: Holder)
    requires Fine(c, sys) && i < |sys.requests| && RowsAreThere(c, sys.state)
    requires sys.requests[i].phase.Scoring? ==> IsThere(sys.state, RowOf(c, sys.requests[i]))
    ensures var (r, t) := (sys.requests[i], StepOf(c, sys, i));
            AttemptScores(c, t.state, h) == AttemptScores(c, sys.state, h)
              + if Created(t.requests[i]) && !Created(r) && h == Home(c, r.sub.activity) then r.sub.scores else 0
  {
    var r, t := sys.requests[i], StepOf(c, sys, i);
    match r.phase
    case Reading(done, seen) =>
      if done >= 3 && r.sub.NaturalKey() !in sys.state.attempts {
        CommitKeepsStars(c, sys.state, r.sub, seen);
        InsertedScoresAt(c, sys.state, r.sub, h);
        SameScoresAt(c, Inserted(sys.state, r.sub), t.state, h);
      }
    case Scoring(p) =>
      if p.held.Some? {
        SaveSets(c, sys.state, r, t.state, RowOf(c, r));
      }
      SameScoresAt(c, sys.state, t.state, h);
    case HasHeld(held) =>
      var paid := PassPaid(sys.state, r.sub.activity, r.sub.points);
      PassPaidScores(sys.state, r.sub.activity, r.sub.points);
      RewardStoresRows(c, paid, r.sub.activity, r.sub.points - held);
      SameScoresAt(c, sys.state, t.state, h);
    case _ =>
  }

  lemma {:induction false} StepCreatedAt(c: Content, sys: System, i: nat, h: Holder)
    requires Fine(c, sys) && i < |sys.requests|
    ensures var (r, t) := (sys.requests[i], StepOf(c, sys, i));
            CreatedAt(c, t.requests, h) == CreatedAt(c, sys.requests, h)
              + if Created(t.requests[i]) && !Created(r) && h == Home(c, r.sub.activity) then {i} else {}
  {
    var r, t := sys.requests[i], StepOf(c, sys, i);
    assert Created(r) ==> Created(t.requests[i]);
    assert forall j :: 0 <= j < |sys.requests| && j != i ==> t.requests[j] == sys.requests[j];
  }

  /** A request that newly created an attempt at `h` adds its scores on both sides. */
  lemma {:induction false} CreatedAdds(subs: seq<Submission>, created: set<nat>, i: nat, adds: bool)
    requires i < |subs| && (adds ==> i !in created)
    ensures Sum(ScoresOf(subs), created + if adds then {i} else {}) == Sum(ScoresOf(subs), created) + if adds then subs[i].scores else 0
  {
    if adds {
      SumGrow(ScoresOf(subs), created, i);
    } else {
      assert created + {} == created;
    }
  }

  lemma {:induction false} StepAttemptsAre(c: Content, start: State, subs: seq<Submission>, t: Traced, u: Traced, i: nat,
                                           h: Holder)
    requires Fine(c, t.sys) && i < |t.sys.requests| && RowsAreThere(c, t.sys.state) && Fine(c, u.sys) && u.sys == StepOf(c, t.sys, i)
    requires t.sys.requests[i].phase.Scoring? ==> IsThere(t.sys.state, RowOf(c, t.sys.requests[i]))
    requires Are(subs, t.sys.requests) && AttemptsAre(c, start, subs, t, h)
    ensures AttemptsAre(c, start, subs, u, h)
  {
    var r, now := t.sys.requests[i], u.sys.requests[i];
    StepScoresAt(c, t.sys, i, h);
    StepCreatedAt(c, t.sys, i, h);
    CreatedAdds(subs, CreatedAt(c, t.sys.requests, h), i, Created(now) && !Created(r) && h == Home(c, r.sub.activity));
  }

  lemma {:induction false} StepAllAttemptsAre(c: Content, start: State, subs: seq<Submission>, t: Traced, u: Traced, i: nat)
    requires Fine(c, t.sys) && i < |t.sys.requests| && Are(subs, t.sys.requests) && AllGrounded(c, t.sys)
    requires AllAttemptsAre(c, start, subs, t) && Fine(c, u.sys) && u.sys == StepOf(c, t.sys, i)
    ensures AllAttemptsAre(c, start, subs, u)
  {
    if t.sys.requests[i].phase.Scoring? {
      RowIsThere(c, t.sys, i);
    }
    forall h ensures AttemptsAre(c, start, subs, u, h) {
      assert AttemptsAre(c, start, subs, t, h);
      StepAttemptsAre(c, start, subs, t, u, i, h);
    }
  }

  // ---- whole runs ----------------------------------------------------------------------------------------------------

  ghost predicate AllAttemptsAre(c: Content, start: State, subs: seq<Submission>, t: Traced)
    requires Fine(c, t.sys)
  {
    forall h :: AttemptsAre(c, start, subs, t, h)
  }

  lemma {:induction false} StepFlags(c: Content, start: State, subs: seq<Submission>, t: Traced, i: nat)
    requires Fine(c, t.sys) && i < |t.sys.requests| && Keeps(c, start, subs, t) && Flags(c, start, subs, t)
    ensures Flags(c, start, subs, TraceStep(c, t, i))
  {
    var r, u := t.sys.requests[i], TraceStep(c, t, i);
    if !r.phase.Scoring? {
      QuietStep(c, t, i);
      QuietFlags(c, start, subs, t, u, i);
    } else {
      RowIsThere(c, t.sys, i);
      if Holding(r) {
        SaveStep(c, t, i);
        SaveFlags(c, start, subs, t, u, i);
      } else {
        var bonus := ReadStep(c, t, i);
        ReadFlags(c, start, subs, t, u, i, bonus);
      }
    }
  }

  lemma {:induction false} RunFlags(c: Content, sys: System, schedule: seq<nat>)
    requires Fine(c, sys) && AllArrived(sys) && Turns(schedule, |sys.requests|) && RowsAreThere(c, sys.state)
    ensures Flags(c, sys.state, SubsOf(sys.requests), Trace(c, sys, schedule))
    ensures AllAttemptsAre(c, sys.state, SubsOf(sys.requests), Trace(c, sys, schedule))
  {
    var subs := SubsOf(sys.requests);
    if schedule == [] {
      forall h ensures AttemptsAre(c, sys.state, subs, Trace(c, sys, schedule), h) {
        assert CreatedAt(c, sys.requests, h) == {};
      }
    } else {
      var before, i := schedule[..|schedule| - 1], schedule[|schedule| - 1];
      RunFlags(c, sys, before);
      RunKeeps(c, sys, before);
      StepFlags(c, sys.state, subs, Trace(c, sys, before), i);
      StepAllAttemptsAre(c, sys.state, subs, Trace(c, sys, before), Trace(c, sys, schedule), i);
    }
  }

  // ---- what each row is short of --------------------------------------------------------------------------------

  lemma {:induction false} HomeHolds(c: Content, activity: Id, h: Holder)
    requires c.Valid() && c.Knows(activity) && h in Holders(c, activity)
    ensures h.OfLesson? ==> Home(c, activity) == h
    ensures h.OfLevel? ==> h.id == c.LevelOf(activity) && (activity !in c.activities <==> Home(c, activity) == h)
    ensures h.OfGrade? ==> h.id == c.GradeOf(activity)
  {
  }

  lemma {:induction false} AboveHolds(c: Content, activity: Id)
    requires c.Valid() && c.Knows(activity)
    ensures Home(c, activity) in Holders(c, activity)
    ensures OfLevel(c.LevelOf(activity)) in Holders(c, activity) && OfGrade(c.GradeOf(activity)) in Holders(c, activity)
  {
    var hs, n := Holders(c, activity), |Holders(c, activity)|;
    assert hs[n - 2] == OfLevel(c.LevelOf(activity)) && hs[n - 1] == OfGrade(c.GradeOf(activity));
  }

  lemma {:induction false} SaversCreated(c: Content, t: Traced, h: Holder, i: nat)
    requires Fine(c, t.sys) && SavedAre(c, t, h) && i in At(t.log.saved, h)
    ensures i < |t.sys.requests| && Created(t.sys.requests[i]) && h in Holders(c, t.sys.requests[i].sub.activity)
  {
    assert HasSaved(c, t.sys.requests[i], h);
  }

  lemma {:induction false} LessonIsShortBy(c: Content, start: State, subs: seq<Submission>, t: Traced, l: Id)
    requires Fine(c, t.sys) && Are(subs, t.sys.requests)
    requires SavedAre(c, t, OfLesson(l)) && RowKeeps(start, subs, t, OfLesson(l)) && LessonFlag(c, start, subs, t, OfLesson(l))
    requires AttemptsAre(c, start, subs, t, OfLesson(l))
    ensures At(t.log.kept, OfLesson(l)) <= CreatedAt(c, t.sys.requests, OfLesson(l))
    ensures LessonOwed(c, t.sys.state, l)
      == LessonOwed(c, start, l) + Sum(ScoresOf(subs), CreatedAt(c, t.sys.requests, OfLesson(l)) - At(t.log.kept, OfLesson(l)))
  {
    var h := OfLesson(l);
    var kept, created := At(t.log.kept, h), CreatedAt(c, t.sys.requests, h);
    forall i | i in kept ensures i in created && Given(subs, t.log)(i) == ScoresOf(subs)(i) + Marks(c, subs, t.log, h)(i) {
      SaversCreated(c, t, h, i);
      HomeHolds(c, t.sys.requests[i].sub.activity, h);
    }
    SumPlus(ScoresOf(subs), Marks(c, subs, t.log, h), Given(subs, t.log), kept);
    SumSplits(ScoresOf(subs), created, kept);
  }

  /**
   * At every moment of every interleaving a lesson's stars are at most the scores stored at its
   * activities and its bonus, and short of them by the scores of those that it does not hold.
   */
  lemma {:induction false} LessonNeverExceeds(c: Content, sys: System, schedule: seq<nat>, l: Id)
    requires Fine(c, sys) && AllArrived(sys) && Turns(schedule, |sys.requests|) && RowsAreThere(c, sys.state)
    ensures var (subs, t) := (SubsOf(sys.requests), Trace(c, sys, schedule));
            var missing := CreatedAt(c, t.sys.requests, OfLesson(l)) - At(t.log.kept, OfLesson(l));
            && LessonOwed(c, t.sys.state, l) == LessonOwed(c, sys.state, l) + Sum(ScoresOf(subs), missing)
            && Sum(ScoresOf(subs), missing) >= 0
  {
    var subs, t := SubsOf(sys.requests), Trace(c, sys, schedule);
    RunKeeps(c, sys, schedule);
    RunFlags(c, sys, schedule);
    assert SavedAre(c, t, OfLesson(l)) && RowKeeps(sys.state, subs, t, OfLesson(l)) && LessonFlag(c, sys.state, subs, t, OfLesson(l));
    assert AttemptsAre(c, sys.state, subs, t, OfLesson(l));
    LessonIsShortBy(c, sys.state, subs, t, l);
    SumNotNegative(ScoresOf(subs), CreatedAt(c, t.sys.requests, OfLesson(l)) - At(t.log.kept, OfLesson(l)));
  }

  // ---- when all requests are through ---------------------------------------------------------------------------------

  /** The requests that score a row. */
  function Scorers(c: Content, requests: seq<Request>, h: Holder): set<nat>
    requires c.Valid() && forall i :: 0 <= i < |requests| ==> c.Knows(requests[i].sub.activity)
  {
    set i: nat | i < |requests| && Created(requests[i]) && h in Holders(c, requests[i].sub.activity)
  }

  lemma {:induction false} AllHaveSaved(c: Content, t: Traced, h: Holder)
    requires Fine(c, t.sys) && AllFinished(t.sys) && SavedAre(c, t, h)
    ensures At(t.log.saved, h) == Scorers(c, t.sys.requests, h)
  {
    forall i: nat ensures i in At(t.log.saved, h) <==> i in Scorers(c, t.sys.requests, h) {
    }
  }

  lemma {:induction false} LessonScorers(c: Content, requests: seq<Request>, l: Id)
    requires c.Valid() && forall i :: 0 <= i < |requests| ==> c.Knows(requests[i].sub.activity)
    ensures Scorers(c, requests, OfLesson(l)) == CreatedAt(c, requests, OfLesson(l))
  {
    forall i: nat | i < |requests| ensures OfLesson(l) in Holders(c, requests[i].sub.activity) <==> Home(c, requests[i].sub.activity) == OfLesson(l) {
      if OfLesson(l) in Holders(c, requests[i].sub.activity) {
        HomeHolds(c, requests[i].sub.activity, OfLesson(l));
      }
    }
  }

  /** The rows as they are known at the end. */
  ghost predicate Ended(c: Content, start: State, subs: seq<Submission>, t: Traced)
    requires Fine(c, t.sys)
  {
    && AllFinished(t.sys) && Are(subs, t.sys.requests) && Rows(c, start, subs, t)
    && Flags(c, start, subs, t) && AllAttemptsAre(c, start, subs, t)
  }

  ghost predicate KeptAll(t: Traced, h: Holder) {
    At(t.log.kept, h) == At(t.log.saved, h)
  }

  function LevelKey(c: Content, subs: seq<Submission>): nat -> Id
    requires c.Valid()
  {
    (i: nat) => if i < |subs| && c.Knows(subs[i].activity) then c.LevelOf(subs[i].activity) else ""
  }

  function LessonKey(c: Content, subs: seq<Submission>): nat -> Id {
    (i: nat) => if i < |subs| && subs[i].activity in c.activities then c.activities[subs[i].activity] else ""
  }

  /** What the kept scorings gave to a lesson, and to a level. */
  ghost function LessonGain(subs: seq<Submission>, t: Traced): Id -> int {
    (l: Id) => Sum(Given(subs, t.log), At(t.log.kept, OfLesson(l)))
  }

  ghost function LevelGain(subs: seq<Submission>, t: Traced): Id -> int {
    (v: Id) => Sum(Given(subs, t.log), At(t.log.kept, OfLevel(v)))
  }

  lemma {:induction false} LessonStarsGained(c: Content, start: State, subs: seq<Submission>, t: Traced, ids: set<Id>)
    requires Fine(c, t.sys) && Rows(c, start, subs, t)
    ensures Sum(LessonStars(t.sys.state), ids) == Sum(LessonStars(start), ids) + Sum(LessonGain(subs, t), ids)
  {
    forall l | l in ids ensures LessonStars(t.sys.state)(l) == LessonStars(start)(l) + LessonGain(subs, t)(l) {
      assert RowKeeps(start, subs, t, OfLesson(l));
    }
    SumPlus(LessonStars(start), LessonGain(subs, t), LessonStars(t.sys.state), ids);
  }

  lemma {:induction false} LevelStarsGained(c: Content, start: State, subs: seq<Submission>, t: Traced, ids: set<Id>)
    requires Fine(c, t.sys) && Rows(c, start, subs, t)
    ensures Sum(LevelStars(t.sys.state), ids) == Sum(LevelStars(start), ids) + Sum(LevelGain(subs, t), ids)
  {
    forall v | v in ids ensures LevelStars(t.sys.state)(v) == LevelStars(start)(v) + LevelGain(subs, t)(v) {
      assert RowKeeps(start, subs, t, OfLevel(v));
    }
    SumPlus(LevelStars(start), LevelGain(subs, t), LevelStars(t.sys.state), ids);
  }

  /** The scorers of a level that are of its lessons. */
  function FromLessons(c: Content, requests: seq<Request>, v: Id): set<nat>
    requires c.Valid() && forall i :: 0 <= i < |requests| ==> c.Knows(requests[i].sub.activity)
  {
    Scorers(c, requests, OfLevel(v)) - CreatedAt(c, requests, OfLevel(v))
  }

  lemma {:induction false} ScorersOfLevel(c: Content, requests: seq<Request>, v: Id, i: nat)
    requires c.Valid() && forall i :: 0 <= i < |requests| ==> c.Knows(requests[i].sub.activity)
    ensures i in Scorers(c, requests, OfLevel(v)) <==>
      i < |requests| && Created(requests[i]) && c.LevelOf(requests[i].sub.activity) == v
    ensures i in CreatedAt(c, requests, OfLevel(v)) <==> i in Scorers(c, requests, OfLevel(v)) && requests[i].sub.activity !in c.activities
  {
    if i < |requests| {
      AboveHolds(c, requests[i].sub.activity);
      if OfLevel(v) in Holders(c, requests[i].sub.activity) {
        HomeHolds(c, requests[i].sub.activity, OfLevel(v));
      }
    }
  }

  lemma {:induction false} CreatorsOfLesson(c: Content, requests: seq<Request>, l: Id, i: nat)
    requires c.Valid() && forall i :: 0 <= i < |requests| ==> c.Knows(requests[i].sub.activity)
    ensures i in CreatedAt(c, requests, OfLesson(l)) <==>
      (i < |requests| && Created(requests[i]) && requests[i].sub.activity in c.activities
       && c.activities[requests[i].sub.activity] == l)
  {
  }

  lemma {:induction false} LessonPart(c: Content, requests: seq<Request>, subs: seq<Submission>, v: Id, l: Id, all: set<nat>)
    requires c.Valid() && forall i :: 0 <= i < |requests| ==> c.Knows(requests[i].sub.activity)
    requires Are(subs, requests) && l in LessonsOf(c, v) && all == FromLessons(c, requests, v)
    ensures CreatedAt(c, requests, OfLesson(l)) == Keyed(all, LessonKey(c, subs), l)
  {
    forall i: nat ensures i in CreatedAt(c, requests, OfLesson(l)) <==> i in all && LessonKey(c, subs)(i) == l {
      CreatorsOfLesson(c, requests, l, i);
      ScorersOfLevel(c, requests, v, i);
    }
  }

  lemma {:induction false} LessonGainIs(c: Content, subs: seq<Submission>, t: Traced, l: Id)
    requires Fine(c, t.sys) && AllFinished(t.sys) && SavedAre(c, t, OfLesson(l)) && KeptAll(t, OfLesson(l))
    ensures LessonGain(subs, t)(l) == Sum(Given(subs, t.log), CreatedAt(c, t.sys.requests, OfLesson(l)))
  {
    AllHaveSaved(c, t, OfLesson(l));
    LessonScorers(c, t.sys.requests, l);
  }

  /** The level's lessons gained what the scorings of their activities gave, when none of these was undone. */
  lemma {:induction false} LessonsGainedAll(c: Content, start: State, subs: seq<Submission>, t: Traced, v: Id)
    requires Fine(c, t.sys) && Ended(c, start, subs, t) && forall l :: KeptAll(t, OfLesson(l))
    ensures Sum(LessonGain(subs, t), LessonsOf(c, v)) == Sum(Given(subs, t.log), FromLessons(c, t.sys.requests, v))
  {
    var all, given := FromLessons(c, t.sys.requests, v), Given(subs, t.log);
    forall i | i in all ensures LessonKey(c, subs)(i) in LessonsOf(c, v) {
      ScorersOfLevel(c, t.sys.requests, v, i);
    }
    forall l | l in LessonsOf(c, v) ensures LessonGain(subs, t)(l) == Sum(given, Keyed(all, LessonKey(c, subs), l)) {
      assert SavedAre(c, t, OfLesson(l)) && KeptAll(t, OfLesson(l));
      LessonGainIs(c, subs, t, l);
      LessonPart(c, t.sys.requests, subs, v, l, all);
    }
    SumByKey(given, all, LessonKey(c, subs), LessonGain(subs, t), LessonsOf(c, v));
  }

  lemma {:induction false} LevelPart(c: Content, requests: seq<Request>, subs: seq<Submission>, g: Id, v: Id, all: set<nat>)
    requires c.Valid() && forall i :: 0 <= i < |requests| ==> c.Knows(requests[i].sub.activity)
    requires Are(subs, requests) && v in LevelsOf(c, g) && all == Scorers(c, requests, OfGrade(g))
    ensures Scorers(c, requests, OfLevel(v)) == Keyed(all, LevelKey(c, subs), v)
  {
    forall i: nat ensures i in Scorers(c, requests, OfLevel(v)) <==> i in all && LevelKey(c, subs)(i) == v {
      ScorersOfLevel(c, requests, v, i);
      ScorersOfGrade(c, requests, g, i);
    }
  }

  lemma {:induction false} ScorersOfGrade(c: Content, requests: seq<Request>, g: Id, i: nat)
    requires c.Valid() && forall i :: 0 <= i < |requests| ==> c.Knows(requests[i].sub.activity)
    ensures i in Scorers(c, requests, OfGrade(g)) <==>
      i < |requests| && Created(requests[i]) && c.GradeOf(requests[i].sub.activity) == g
  {
    if i < |requests| {
      AboveHolds(c, requests[i].sub.activity);
      if OfGrade(g) in Holders(c, requests[i].sub.activity) {
        HomeHolds(c, requests[i].sub.activity, OfGrade(g));
      }
    }
  }

  lemma {:induction false} LevelsGainedAll(c: Content, start: State, subs: seq<Submission>, t: Traced, g: Id)
    requires Fine(c, t.sys) && Ended(c, start, subs, t) && forall v :: KeptAll(t, OfLevel(v))
    ensures Sum(LevelGain(subs, t), LevelsOf(c, g)) == Sum(Given(subs, t.log), Scorers(c, t.sys.requests, OfGrade(g)))
  {
    var all, given := Scorers(c, t.sys.requests, OfGrade(g)), Given(subs, t.log);
    forall i | i in all ensures LevelKey(c, subs)(i) in LevelsOf(c, g) {
      ScorersOfGrade(c, t.sys.requests, g, i);
    }
    forall v | v in LevelsOf(c, g) ensures LevelGain(subs, t)(v) == Sum(given, Keyed(all, LevelKey(c, subs), v)) {
      assert SavedAre(c, t, OfLevel(v)) && KeptAll(t, OfLevel(v));
      AllHaveSaved(c, t, OfLevel(v));
      LevelPart(c, t.sys.requests, subs, g, v, all);
    }
    SumByKey(given, all, LevelKey(c, subs), LevelGain(subs, t), LevelsOf(c, g));
  }

  // ---- exact or short ---------------------------------------------------------------------------------------------------

  /** What a scoring gives a level without the quiz's bonus. */
  function LevelShare(c: Content, subs: seq<Submission>, log: Log, v: Id): nat -> int {
    (i: nat) => Gift(subs, log, i) - Mark(c, subs, log, OfLevel(v), i)
  }

  /** What is owed to a level moves by what its parts moved by. */
  lemma {:induction false} OwedMoves(c: Content, start: State, s: State, v: Id, scores: int, lessons: int, gained: int)
    requires AttemptScores(c, s, OfLevel(v)) == AttemptScores(c, start, OfLevel(v)) + scores
    requires Sum(LessonStars(s), LessonsOf(c, v)) == Sum(LessonStars(start), LessonsOf(c, v)) + lessons
    requires StarsAt(s, OfLevel(v)) == StarsAt(start, OfLevel(v)) + gained
    ensures LevelOwed(c, s, v) == LevelOwed(c, start, v) + scores + lessons - gained
                                  + Bit(BonusAt(s, OfLevel(v))) - Bit(BonusAt(start, OfLevel(v)))
  {
  }

  /** With every lesson exact, a level is owed what its kept scorings lack, and no less. */
  lemma {:induction false} LevelIsShortBy(c: Content, start: State, subs: seq<Submission>, t: Traced, v: Id)
    requires Fine(c, t.sys) && Ended(c, start, subs, t) && forall l :: KeptAll(t, OfLesson(l))
    ensures var lost := Sum(LevelShare(c, subs, t.log, v), At(t.log.saved, OfLevel(v)) - At(t.log.kept, OfLevel(v)));
            && LevelOwed(c, t.sys.state, v) >= LevelOwed(c, start, v) + lost
            && (KeptAll(t, OfLevel(v)) ==> LevelOwed(c, t.sys.state, v) == LevelOwed(c, start, v))
  {
    var h := OfLevel(v);
    assert SavedAre(c, t, h) && RowKeeps(start, subs, t, h) && LevelFlag(c, start, subs, t, h) && AttemptsAre(c, start, subs, t, h);
    AllHaveSaved(c, t, h);
    LessonsOwedAll(c, start, subs, t, v);
    SharesOfSaved(c, subs, t, v, At(t.log.kept, h), At(t.log.saved, h));
    OwedMoves(c, start, t.sys.state, v, Sum(ScoresOf(subs), CreatedAt(c, t.sys.requests, h)),
              Sum(Given(subs, t.log), FromLessons(c, t.sys.requests, v)), Sum(Given(subs, t.log), At(t.log.kept, h)));
  }

  lemma {:induction false} LessonsOwedAll(c: Content, start: State, subs: seq<Submission>, t: Traced, v: Id)
    requires Fine(c, t.sys) && Ended(c, start, subs, t) && forall l :: KeptAll(t, OfLesson(l))
    ensures Sum(LessonStars(t.sys.state), LessonsOf(c, v))
      == Sum(LessonStars(start), LessonsOf(c, v)) + Sum(Given(subs, t.log), FromLessons(c, t.sys.requests, v))
  {
    LessonStarsGained(c, start, subs, t, LessonsOf(c, v));
    LessonsGainedAll(c, start, subs, t, v);
  }

  /** What the kept scorings gave and marked, and what the others would have, are all the shares. */
  lemma {:induction false} SharesOfSaved(c: Content, subs: seq<Submission>, t: Traced, v: Id, kept: set<nat>,
                                         saved: set<nat>)
    requires Fine(c, t.sys) && Are(subs, t.sys.requests) && kept <= saved && saved == Scorers(c, t.sys.requests, OfLevel(v))
    ensures Sum(LevelShare(c, subs, t.log, v), saved - kept) + Sum(Given(subs, t.log), kept) - Sum(Marks(c, subs, t.log, OfLevel(v)), kept)
      == Sum(Given(subs, t.log), FromLessons(c, t.sys.requests, v)) + Sum(ScoresOf(subs), CreatedAt(c, t.sys.requests, OfLevel(v)))
  {
    var given, share := Given(subs, t.log), LevelShare(c, subs, t.log, v);
    SumPlus(share, Marks(c, subs, t.log, OfLevel(v)), given, kept);
    SumSplits(share, saved, kept);
    SharesAddUp(c, subs, t, v, saved);
  }

  lemma {:induction false} SharesAddUp(c: Content, subs: seq<Submission>, t: Traced, v: Id, saved: set<nat>)
    requires Fine(c, t.sys) && Are(subs, t.sys.requests) && saved == Scorers(c, t.sys.requests, OfLevel(v))
    ensures Sum(LevelShare(c, subs, t.log, v), saved)
      == Sum(Given(subs, t.log), FromLessons(c, t.sys.requests, v)) + Sum(ScoresOf(subs), CreatedAt(c, t.sys.requests, OfLevel(v)))
  {
    var share, quiz, lessons := LevelShare(c, subs, t.log, v), CreatedAt(c, t.sys.requests, OfLevel(v)), FromLessons(c, t.sys.requests, v);
    forall i: nat ensures i in quiz ==> i in saved && share(i) == ScoresOf(subs)(i) {
      ScorersOfLevel(c, t.sys.requests, v, i);
    }
    forall i: nat ensures i in lessons ==> share(i) == Given(subs, t.log)(i) {
      ScorersOfLevel(c, t.sys.requests, v, i);
    }
    SumSplits(share, saved, quiz);
    SumSame(share, ScoresOf(subs), quiz);
    SumSame(share, Given(subs, t.log), lessons);
  }

  /** With every level exact, a grade is short of its levels by what its kept scorings lack. */
  lemma {:induction false} GradeIsShortBy(c: Content, start: State, subs: seq<Submission>, t: Traced, g: Id)
    requires Fine(c, t.sys) && Ended(c, start, subs, t) && GradesHoldLevels(c, start) && forall v :: KeptAll(t, OfLevel(v))
    ensures GradeStars(t.sys.state)(g) == Sum(LevelStars(t.sys.state), LevelsOf(c, g))
      - Sum(Given(subs, t.log), At(t.log.saved, OfGrade(g)) - At(t.log.kept, OfGrade(g)))
  {
    assert SavedAre(c, t, OfGrade(g)) && RowKeeps(start, subs, t, OfGrade(g));
    assert GradeStars(start)(g) == Sum(LevelStars(start), LevelsOf(c, g));
    AllHaveSaved(c, t, OfGrade(g));
    LevelStarsGained(c, start, subs, t, LevelsOf(c, g));
    LevelsGainedAll(c, start, subs, t, g);
    SumSplits(Given(subs, t.log), At(t.log.saved, OfGrade(g)), At(t.log.kept, OfGrade(g)));
  }

  lemma {:induction false} SumPositive(f: nat -> int, s: set<nat>)
    requires s != {} && forall i :: i in s ==> f(i) > 0
    ensures Sum(f, s) > 0
  {
    var i :| i in s;
    SumAtLeast(f, s, i);
  }

  /** Every attempt the run stored is worth a star: none of them failed. */
  predicate AllScore(requests: seq<Request>) {
    forall i :: 0 <= i < |requests| && Created(requests[i]) ==> requests[i].sub.scores > 0
  }

  lemma {:induction false} NothingUndone(kept: set<nat>, saved: set<nat>)
    requires kept <= saved
    ensures kept == saved <==> saved - kept == {}
  {
    assert saved == kept + (saved - kept);
  }

  lemma {:induction false} LessonCreatorsSaved(c: Content, t: Traced, l: Id)
    requires Fine(c, t.sys) && AllFinished(t.sys) && SavedAre(c, t, OfLesson(l))
    ensures At(t.log.saved, OfLesson(l)) == CreatedAt(c, t.sys.requests, OfLesson(l))
  {
    AllHaveSaved(c, t, OfLesson(l));
    LessonScorers(c, t.sys.requests, l);
  }

  lemma {:induction false} LostScores(c: Content, subs: seq<Submission>, t: Traced, h: Holder)
    requires Fine(c, t.sys) && Are(subs, t.sys.requests) && SavedAre(c, t, h) && At(t.log.kept, h) <= At(t.log.saved, h)
    requires !KeptAll(t, h) && AllScore(t.sys.requests)
    ensures Sum(ScoresOf(subs), At(t.log.saved, h) - At(t.log.kept, h)) > 0
  {
    var lost := At(t.log.saved, h) - At(t.log.kept, h);
    NothingUndone(At(t.log.kept, h), At(t.log.saved, h));
    forall i | i in lost ensures ScoresOf(subs)(i) > 0 {
      SaversCreated(c, t, h, i);
    }
    SumPositive(ScoresOf(subs), lost);
  }

  lemma {:induction false} UndoneLesson(c: Content, start: State, subs: seq<Submission>, t: Traced, l: Id)
    requires Fine(c, t.sys) && Ended(c, start, subs, t) && LessonOwed(c, start, l) == 0
    requires KeptAll(t, OfLesson(l)) || AllScore(t.sys.requests)
    ensures LessonOwed(c, t.sys.state, l) == 0 <==> KeptAll(t, OfLesson(l))
  {
    var h := OfLesson(l);
    assert SavedAre(c, t, h) && RowKeeps(start, subs, t, h) && LessonFlag(c, start, subs, t, h) && AttemptsAre(c, start, subs, t, h);
    LessonIsShortBy(c, start, subs, t, l);
    LessonCreatorsSaved(c, t, l);
    NothingUndone(At(t.log.kept, h), At(t.log.saved, h));
    if !KeptAll(t, h) {
      LostScores(c, subs, t, h);
    }
  }

  lemma {:induction false} UndoneLevel(c: Content, start: State, subs: seq<Submission>, t: Traced, v: Id)
    requires Fine(c, t.sys) && Ended(c, start, subs, t) && LevelOwed(c, start, v) == 0 && forall l :: KeptAll(t, OfLesson(l))
    requires KeptAll(t, OfLevel(v)) || AllScore(t.sys.requests)
    ensures LevelOwed(c, t.sys.state, v) == 0 <==> KeptAll(t, OfLevel(v))
  {
    var h := OfLevel(v);
    LevelIsShortBy(c, start, subs, t, v);
    assert SavedAre(c, t, h) && RowKeeps(start, subs, t, h);
    var lost := At(t.log.saved, h) - At(t.log.kept, h);
    NothingUndone(At(t.log.kept, h), At(t.log.saved, h));
    if !KeptAll(t, h) {
      forall i | i in lost ensures LevelShare(c, subs, t.log, v)(i) > 0 {
        SaversCreated(c, t, h, i);
      }
      SumPositive(LevelShare(c, subs, t.log, v), lost);
    }
  }

  lemma {:induction false} UndoneGrade(c: Content, start: State, subs: seq<Submission>, t: Traced, g: Id)
    requires Fine(c, t.sys) && Ended(c, start, subs, t) && GradesHoldLevels(c, start) && forall v :: KeptAll(t, OfLevel(v))
    requires KeptAll(t, OfGrade(g)) || AllScore(t.sys.requests)
    ensures GradeStars(t.sys.state)(g) == Sum(LevelStars(t.sys.state), LevelsOf(c, g)) <==> KeptAll(t, OfGrade(g))
  {
    var h := OfGrade(g);
    GradeIsShortBy(c, start, subs, t, g);
    assert SavedAre(c, t, h) && RowKeeps(start, subs, t, h);
    var lost := At(t.log.saved, h) - At(t.log.kept, h);
    NothingUndone(At(t.log.kept, h), At(t.log.saved, h));
    if !KeptAll(t, h) {
      forall i | i in lost ensures Given(subs, t.log)(i) > 0 {
        SaversCreated(c, t, h, i);
      }
      SumPositive(Given(subs, t.log), lost);
    }
  }

  lemma {:induction false} LevelIsKnown(c: Content, t: Traced, v: Id)
    requires Fine(c, t.sys) && SavedAre(c, t, OfLevel(v)) && At(t.log.saved, OfLevel(v)) != {}
    ensures v in c.levels
  {
    var i :| i in At(t.log.saved, OfLevel(v));
    SaversCreated(c, t, OfLevel(v), i);
    HomeHolds(c, t.sys.requests[i].sub.activity, OfLevel(v));
  }

  lemma {:induction false} ExactMeansKept(c: Content, start: State, subs: seq<Submission>, t: Traced)
    requires Fine(c, t.sys) && Ended(c, start, subs, t) && StarsExact(c, start) && StarsExact(c, t.sys.state) && AllScore(t.sys.requests)
    ensures forall h :: KeptAll(t, h)
  {
    forall l ensures KeptAll(t, OfLesson(l)) {
      assert LessonOwed(c, start, l) == Nothing()(l) && LessonOwed(c, t.sys.state, l) == Nothing()(l);
      UndoneLesson(c, start, subs, t, l);
    }
    forall v ensures KeptAll(t, OfLevel(v)) {
      assert SavedAre(c, t, OfLevel(v)) && RowKeeps(start, subs, t, OfLevel(v));
      if At(t.log.saved, OfLevel(v)) != {} {
        LevelIsKnown(c, t, v);
        assert LevelOwed(c, start, v) == Nothing()(v) && LevelOwed(c, t.sys.state, v) == Nothing()(v);
        UndoneLevel(c, start, subs, t, v);
      }
    }
    forall g ensures KeptAll(t, OfGrade(g)) {
      UndoneGrade(c, start, subs, t, g);
    }
    forall h ensures KeptAll(t, h) {
      match h
      case OfLesson(_) =>
      case OfLevel(_) =>
      case OfGrade(_) =>
    }
  }

  lemma {:induction false} KeptMeansExact(c: Content, start: State, subs: seq<Submission>, t: Traced)
    requires Fine(c, t.sys) && Ended(c, start, subs, t) && StarsExact(c, start) && RowsAreThere(c, t.sys.state)
    requires forall h :: KeptAll(t, h)
    ensures StarsExact(c, t.sys.state)
  {
    forall l ensures LessonOwed(c, t.sys.state, l) == Nothing()(l) {
      assert LessonOwed(c, start, l) == Nothing()(l);
      UndoneLesson(c, start, subs, t, l);
    }
    forall v | v in c.levels ensures LevelOwed(c, t.sys.state, v) == Nothing()(v) {
      assert LevelOwed(c, start, v) == Nothing()(v);
      UndoneLevel(c, start, subs, t, v);
    }
    forall g ensures GradeStars(t.sys.state)(g) == Sum(LevelStars(t.sys.state), LevelsOf(c, g)) {
      UndoneGrade(c, start, subs, t, g);
    }
  }

  /**
   * When all requests are through, the stars are exact if no two scorings overlapped on a row; and,
   * when each stored attempt is worth a star, only then.
   */
  lemma {:induction false} StarsAreExactExactlyWhen(c: Content, sys: System, schedule: seq<nat>)
    requires Fine(c, sys) && AllArrived(sys) && Turns(schedule, |sys.requests|) && StarsExact(c, sys.state)
    requires AllFinished(After(c, sys, schedule))
    ensures Trace(c, sys, schedule).log.overlapped == {} ==> StarsExact(c, After(c, sys, schedule).state)
    ensures AllScore(After(c, sys, schedule).requests) ==>
      (StarsExact(c, After(c, sys, schedule).state) <==> Trace(c, sys, schedule).log.overlapped == {})
  {
    var subs, t := SubsOf(sys.requests), Trace(c, sys, schedule);
    RunKeeps(c, sys, schedule);
    RunFlags(c, sys, schedule);
    forall h ensures KeptAll(t, h) <==> h !in t.log.overlapped {
      assert RowKeeps(sys.state, subs, t, h);
    }
    if t.log.overlapped == {} {
      KeptMeansExact(c, sys.state, subs, t);
    } else if AllScore(t.sys.requests) && StarsExact(c, t.sys.state) {
      ExactMeansKept(c, sys.state, subs, t);
    }
  }
}
