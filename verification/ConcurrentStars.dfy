/**
 * Stars under every interleaving of requests. A scoring reads a row and saves it later, so a save
 * may undo the saves made in between: the stars a row holds are those of the scorings it kept.
 */
module ConcurrentStars {
  import opened Wrappers
  import opened Sums
  import opened LedgerSpec
  import opened LedgerStars
  import opened ScoringSteps
  import opened ConcurrentDelivery

  // ---- what happened to each row ---------------------------------------------------------------------------------

  /** The scorings a row kept and those that had saved it, when a request read it. */
  datatype Glance = Glance(kept: set<nat>, saved: set<nat>)

  /**
   * What a run did: the bonus each scoring decided on, the scorings that saved each row, those whose
   * stars it still holds, what the rows had been through when last read, and the rows on which
   * scorings overlapped: one saved while another had read and not saved yet.
   */
  datatype Log = Log(bonus: map<nat, nat>, saved: map<Holder, set<nat>>, kept: map<Holder, set<nat>>,
                     seen: map<nat, Glance>, overlapped: set<Holder>)

  datatype Traced = Traced(sys: System, log: Log)

  function At(sets: map<Holder, set<nat>>, h: Holder): set<nat> {
    if h in sets then sets[h] else {}
  }

  function GlanceOf(log: Log, i: nat): Glance {
    if i in log.seen then log.seen[i] else Glance({}, {})
  }

  function LogRead(log: Log, i: nat, h: Holder, bonus: nat): Log {
    log.(bonus := log.bonus[i := bonus + BonusIn(log, i)],
         seen := log.seen[i := Glance(At(log.kept, h), At(log.saved, h))])
  }

  /** A save keeps what its reader saw, and itself. */
  function LogSaved(log: Log, i: nat, h: Holder): Log {
    var seen := GlanceOf(log, i);
    log.(kept := log.kept[h := seen.kept + {i}],
         saved := log.saved[h := At(log.saved, h) + {i}],
         overlapped := if At(log.saved, h) == seen.saved then log.overlapped else log.overlapped + {h})
  }

  function RowOf(c: Content, r: Request): Holder
    requires c.Valid() && Fits(c, Submit(r.sub)) && InRange(c, r) && r.phase.Scoring?
  {
    Holders(c, r.sub.activity)[r.phase.progress.row]
  }

  ghost function LogAfter(c: Content, t: Traced, i: nat): Log
    requires Fine(c, t.sys) && i < |t.sys.requests|
  {
    var r := t.sys.requests[i];
    if !r.phase.Scoring? then t.log
    else if r.phase.progress.held.Some? then LogSaved(t.log, i, RowOf(c, r))
    else if IsThere(t.sys.state, RowOf(c, r)) then LogRead(t.log, i, RowOf(c, r), Earns(c, t.sys.state, r.sub.activity, RowOf(c, r)))
    else t.log
  }

  ghost function TraceStep(c: Content, t: Traced, i: nat): Traced
    requires Fine(c, t.sys) && i < |t.sys.requests|
  {
    Traced(StepOf(c, t.sys, i), LogAfter(c, t, i))
  }

  /** The system after a schedule, with what happened on the way. */
  ghost function Trace(c: Content, sys: System, schedule: seq<nat>): (t: Traced)
    requires Fine(c, sys) && Turns(schedule, |sys.requests|)
    ensures t.sys == After(c, sys, schedule)
  {
    if schedule == [] then Traced(sys, Log(map[], map[], map[], map[], {}))
    else TraceStep(c, Trace(c, sys, schedule[..|schedule| - 1]), schedule[|schedule| - 1])
  }

  // ---- amounts ----------------------------------------------------------------------------------------------------

  predicate Are(subs: seq<Submission>, requests: seq<Request>) {
    |subs| == |requests| && forall i :: 0 <= i < |subs| ==> requests[i].sub == subs[i]
  }

  function ScoresOf(subs: seq<Submission>): nat -> int {
    (i: nat) => if i < |subs| then subs[i].scores else 0
  }

  function BonusIn(log: Log, i: nat): nat {
    if i in log.bonus then log.bonus[i] else 0
  }

  function Extra(log: Log): nat -> int {
    (i: nat) => BonusIn(log, i)
  }

  /** What a scoring gives to each of its rows: its scores, and the bonus it decided on. */
  function Gift(subs: seq<Submission>, log: Log, i: nat): nat {
    (if i < |subs| then subs[i].scores else 0) + BonusIn(log, i)
  }

  function Given(subs: seq<Submission>, log: Log): nat -> int {
    (i: nat) => Gift(subs, log, i)
  }

  /** The bonus of a level's own quiz. */
  function QuizExtra(c: Content, subs: seq<Submission>, log: Log): nat -> int {
    (i: nat) => if i < |subs| && subs[i].activity !in c.activities then BonusIn(log, i) else 0
  }

  function Bit(b: bool): nat {
    if b then 1 else 0
  }

  // ---- the state of a run -------------------------------------------------------------------------------------------

  /** The request has saved this row. */
  predicate HasSaved(c: Content, r: Request, h: Holder)
    requires c.Valid() && Fits(c, Submit(r.sub)) && InRange(c, r)
  {
    match r.phase
    case Scoring(p) => h in Holders(c, r.sub.activity)[..p.row]
    case Finished(created) => created && h in Holders(c, r.sub.activity)
    case _ => false
  }

  ghost predicate SavedAre(c: Content, t: Traced, h: Holder)
    requires Fine(c, t.sys)
  {
    forall i: nat :: i in At(t.log.saved, h) <==> i < |t.sys.requests| && HasSaved(c, t.sys.requests[i], h)
  }

  /** A row holds what it started with and what the scorings it kept gave; it kept all exactly when none overlapped on it. */
  ghost predicate RowKeeps(start: State, subs: seq<Submission>, t: Traced, h: Holder) {
    && StarsAt(t.sys.state, h) == StarsAt(start, h) + Sum(Given(subs, t.log), At(t.log.kept, h))
    && At(t.log.kept, h) <= At(t.log.saved, h)
    && (At(t.log.kept, h) == At(t.log.saved, h) <==> h !in t.log.overlapped)
  }

  predicate Holding(r: Request) {
    r.phase.Scoring? && r.phase.progress.held.Some?
  }

  /** What a request holds of a row is what the row held when it was read. */
  ghost predicate HoldsRow(c: Content, start: State, subs: seq<Submission>, t: Traced, i: nat)
    requires Fine(c, t.sys) && i < |t.sys.requests| && Holding(t.sys.requests[i])
  {
    var (h, seen) := (RowOf(c, t.sys.requests[i]), GlanceOf(t.log, i));
    && seen.kept <= seen.saved <= At(t.log.saved, h)
    && t.sys.requests[i].phase.progress.held.value.stars == StarsAt(start, h) + Sum(Given(subs, t.log), seen.kept)
    && (seen.saved == At(t.log.saved, h) ==> (seen.kept == seen.saved <==> h !in t.log.overlapped))
  }

  ghost predicate GivesAre(subs: seq<Submission>, t: Traced, i: nat)
    requires i < |t.sys.requests|
  {
    && (t.sys.requests[i].phase.Scoring? ==> t.sys.requests[i].phase.progress.gives == Gift(subs, t.log, i))
    && (i in t.log.bonus ==> Created(t.sys.requests[i]))
    && (i in t.log.bonus && t.sys.requests[i].phase.Scoring? ==> t.sys.requests[i].phase.progress.row > 0 || Holding(t.sys.requests[i]))
  }

  ghost predicate Requests(c: Content, start: State, subs: seq<Submission>, t: Traced)
    requires Fine(c, t.sys)
  {
    forall i: nat :: i < |t.sys.requests| ==> GivesAre(subs, t, i) && (Holding(t.sys.requests[i]) ==> HoldsRow(c, start, subs, t, i))
  }

  ghost predicate Rows(c: Content, start: State, subs: seq<Submission>, t: Traced)
    requires Fine(c, t.sys)
  {
    forall h :: SavedAre(c, t, h) && RowKeeps(start, subs, t, h)
  }

  /** The rows a request is to score are there. */
  ghost predicate Grounded(c: Content, s: State, r: Request)
    requires c.Valid() && c.Knows(r.sub.activity)
  {
    match r.phase
    case Reading(done, seen) => Plausible(s, r.sub, seen)
    case Scoring(_) => HasRows(c, s, r.sub.activity)
    case _ => true
  }

  ghost predicate AllGrounded(c: Content, sys: System)
    requires Fine(c, sys)
  {
    RowsAreThere(c, sys.state) && forall i :: 0 <= i < |sys.requests| ==> Grounded(c, sys.state, sys.requests[i])
  }

  lemma {:induction false} RowIsThere(c: Content, sys: System, i: nat)
    requires Fine(c, sys) && AllGrounded(c, sys) && i < |sys.requests| && sys.requests[i].phase.Scoring?
    ensures IsThere(sys.state, RowOf(c, sys.requests[i]))
  {
    assert Grounded(c, sys.state, sys.requests[i]);
  }

  // ---- rows stay --------------------------------------------------------------------------------------------------

  ghost predicate Grows(s: State, t: State) {
    s.attempts.Keys <= t.attempts.Keys && s.lessons.Keys <= t.lessons.Keys && s.levels.Keys <= t.levels.Keys
  }

  lemma {:induction false} GroundedStays(c: Content, s: State, t: State, r: Request)
    requires c.Valid() && c.Knows(r.sub.activity) && Grows(s, t) && Grounded(c, s, r)
    ensures Grounded(c, t, r)
  {
    if Tried(s.attempts, r.sub.activity) {
      var k :| k in s.attempts && k.activity == r.sub.activity;
      assert k in t.attempts;
    }
  }

  /** A save changes the stars, and the bonus where it is saved, of one row. */
  ghost predicate SetsOnly(s: State, t: State, h: Holder, stars: nat, marks: bool, bonus: bool) {
    && t.attempts == s.attempts
    && t.lessons.Keys == s.lessons.Keys && t.levels.Keys == s.levels.Keys && t.grades.Keys == s.grades.Keys
    && (forall x :: StarsAt(t, x) == if x == h then stars else StarsAt(s, x))
    && (forall x :: BonusAt(t, x) == if x == h && marks then bonus else BonusAt(s, x))
  }

  lemma {:induction false} SavedSets(s: State, h: Holder, stars: nat, marks: bool, bonus: bool)
    requires IsThere(s, h) && !(marks && h.OfGrade?)
    ensures SetsOnly(s, Saved(s, h, stars, marks, bonus), h, stars, marks, bonus)
  {
    var t := Saved(s, h, stars, marks, bonus);
    match h
    case OfLesson(l) => assert t.lessons.Keys == s.lessons.Keys;
    case OfLevel(v) => assert t.levels.Keys == s.levels.Keys;
    case OfGrade(g) => assert t.grades.Keys == s.grades.Keys;
  }

  lemma {:induction false} NextIsSaved(c: Content, s: State, r: Request)
    requires c.Valid() && Fits(c, Submit(r.sub)) && InRange(c, r) && Holding(r)
    ensures var (p, h) := (r.phase.progress, RowOf(c, r));
            NextState(c, s, r) == Saved(s, h, p.held.value.stars + p.gives, MarksBonus(c, r.sub.activity, h), p.held.value.bonus)
  {
  }

  lemma {:induction false} SaveSets(c: Content, s: State, r: Request, t: State, h: Holder)
    requires c.Valid() && Fits(c, Submit(r.sub)) && InRange(c, r) && Holding(r)
    requires h == RowOf(c, r) && IsThere(s, h) && t == NextState(c, s, r)
    ensures SetsOnly(s, t, h, r.phase.progress.held.value.stars + r.phase.progress.gives,
                     MarksBonus(c, r.sub.activity, h), r.phase.progress.held.value.bonus)
  {
    var p := r.phase.progress;
    NextIsSaved(c, s, r);
    SavedSets(s, h, p.held.value.stars + p.gives, MarksBonus(c, r.sub.activity, h), p.held.value.bonus);
  }

  lemma {:induction false} CommitIsGrounded(c: Content, s: State, sub: Submission, seen: Reads)
    requires c.Valid() && c.Knows(sub.activity) && RowsAreThere(c, s) && Plausible(s, sub, seen)
    ensures var t := Commit(c, s, sub, seen);
            Grows(s, t) && RowsAreThere(c, t) && (sub.NaturalKey() !in s.attempts ==> HasRows(c, t, sub.activity))
  {
    if sub.NaturalKey() !in s.attempts {
      CommitStoresRows(c, s, sub, seen);
      RewardStoresRows(c, Inserted(s, sub), sub.activity, sub.Earned() - Num(seen.held));
    }
  }

  lemma {:induction false} StoredIsGrounded(c: Content, s: State, stored: State, activity: Id, delta: int, t: State)
    requires c.Valid() && c.Knows(activity) && RowsAreThere(c, s) && SameScores(s.attempts, stored.attempts)
    requires stored.lessons == s.lessons && stored.levels == s.levels && stored.grades == s.grades
    requires t == stored || t == Reward(c, stored, activity, delta)
    ensures Grows(s, t) && RowsAreThere(c, t)
  {
    forall k | k in stored.attempts ensures c.Knows(k.activity) && HasRows(c, stored, k.activity) {
      assert k in s.attempts && HasRows(c, s, k.activity);
    }
    RewardStoresRows(c, stored, activity, delta);
    RewardKeepsRows(c, stored, activity, delta);
  }

  lemma {:induction false} ScoringIsGrounded(c: Content, s: State, r: Request)
    requires c.Valid() && Fits(c, Submit(r.sub)) && InRange(c, r) && r.phase.Scoring?
    requires RowsAreThere(c, s) && Grounded(c, s, r)
    ensures var t := NextState(c, s, r); Grows(s, t) && RowsAreThere(c, t) && HasRows(c, t, r.sub.activity)
  {
    var t := NextState(c, s, r);
    if Holding(r) {
      SaveSets(c, s, r, t, RowOf(c, r));
      forall k | k in t.attempts ensures c.Knows(k.activity) && HasRows(c, t, k.activity) {
        assert HasRows(c, s, k.activity);
      }
    }
  }

  lemma {:induction false} ReadingIsGrounded(c: Content, s: State, r: Request)
    requires c.Valid() && Fits(c, Submit(r.sub)) && RowsAreThere(c, s) && r.phase.Reading? && Grounded(c, s, r)
    ensures var t := NextState(c, s, r);
            Grows(s, t) && RowsAreThere(c, t) && Grounded(c, t, r.(phase := NextPhase(c, s, r)))
  {
    CommitIsGrounded(c, s, r.sub, r.phase.seen);
    ReadIsPlausible(s, r.sub);
  }

  lemma {:induction false} NextIsGrounded(c: Content, s: State, r: Request)
    requires c.Valid() && Fits(c, Submit(r.sub)) && InRange(c, r) && RowsAreThere(c, s) && Grounded(c, s, r)
    ensures var t := NextState(c, s, r);
            Grows(s, t) && RowsAreThere(c, t) && Grounded(c, t, r.(phase := NextPhase(c, s, r)))
  {
    match r.phase
    case Reading(_, _) => ReadingIsGrounded(c, s, r);
    case Scoring(_) => ScoringIsGrounded(c, s, r);
    case HasHeld(held) =>
      PassPaidScores(s, r.sub.activity, r.sub.points);
      StoredIsGrounded(c, s, PassPaid(s, r.sub.activity, r.sub.points), r.sub.activity, r.sub.points - held, NextState(c, s, r));
    case _ =>
  }

  lemma {:induction false} StepIsGrounded(c: Content, sys: System, i: nat)
    requires Fine(c, sys) && i < |sys.requests| && AllGrounded(c, sys)
    ensures AllGrounded(c, StepOf(c, sys, i))
  {
    var t := StepOf(c, sys, i);
    NextIsGrounded(c, sys.state, sys.requests[i]);
    forall j | 0 <= j < |t.requests| ensures Grounded(c, t.state, t.requests[j]) {
      if j != i {
        GroundedStays(c, sys.state, t.state, sys.requests[j]);
      }
    }
  }

  // ---- one step ------------------------------------------------------------------------------------------------------

  lemma {:induction false} HoldersDiffer(c: Content, activity: Id, j: nat, k: nat)
    requires c.Valid() && c.Knows(activity) && j < k < |Holders(c, activity)|
    ensures Holders(c, activity)[j] != Holders(c, activity)[k]
  {
  }

  lemma {:induction false} SavedBefore(c: Content, activity: Id, row: nat)
    requires c.Valid() && c.Knows(activity) && row < |Holders(c, activity)|
    ensures Holders(c, activity)[row] !in Holders(c, activity)[..row]
    ensures forall h :: h in Holders(c, activity)[..row + 1] <==> h in Holders(c, activity)[..row] || h == Holders(c, activity)[row]
  {
    var hs := Holders(c, activity);
    forall j | 0 <= j < row ensures hs[..row][j] != hs[row] {
      HoldersDiffer(c, activity, j, row);
    }
    assert hs[..row + 1] == hs[..row] + [hs[row]];
  }

  /** Only a scoring's first row decides on a bonus. */
  lemma {:induction false} BonusIsFirst(c: Content, s: State, activity: Id, row: nat)
    requires c.Valid() && c.Knows(activity) && row < |Holders(c, activity)| && Earns(c, s, activity, Holders(c, activity)[row]) > 0
    ensures row == 0
  {
  }

  /** One request goes on, and nothing else about the requests changes. */
  ghost predicate OneMoves(t: Traced, u: Traced, i: nat)
    requires i < |t.sys.requests| == |u.sys.requests|
  {
    && (forall j :: 0 <= j < |t.sys.requests| && j != i ==> u.sys.requests[j] == t.sys.requests[j])
    && u.sys.requests[i].sub == t.sys.requests[i].sub
  }

  ghost predicate SameRows(s: State, t: State) {
    forall h :: StarsAt(t, h) == StarsAt(s, h) && BonusAt(t, h) == BonusAt(s, h)
  }

  /** A step of a request that is not scoring: no row's stars change; it may now have all its rows to score. */
  ghost predicate IsQuiet(c: Content, t: Traced, u: Traced, i: nat)
    requires Fine(c, t.sys) && Fine(c, u.sys) && i < |t.sys.requests| == |u.sys.requests|
  {
    var (r, now) := (t.sys.requests[i], u.sys.requests[i]);
    && OneMoves(t, u, i) && u.log == t.log && SameRows(t.sys.state, u.sys.state)
    && !r.phase.Scoring? && (Created(r) ==> now == r)
    && (Created(now) && !Created(r) ==> now.phase == Scoring(Progress(0, None, r.sub.scores)))
  }

  lemma {:induction false} SameStarsSameRows(s: State, t: State)
    requires SameStars(s, t)
    ensures SameRows(s, t)
  {
    forall h ensures StarsAt(t, h) == StarsAt(s, h) && BonusAt(t, h) == BonusAt(s, h) {
      match h
      case OfLesson(l) => assert LessonStars(t)(l) == LessonStars(s)(l) && LessonBonus(t, l) == LessonBonus(s, l);
      case OfLevel(v) => assert LevelStars(t)(v) == LevelStars(s)(v) && QuizBonus(t, v) == QuizBonus(s, v);
      case OfGrade(g) => assert GradeStars(t)(g) == GradeStars(s)(g);
    }
  }

  lemma {:induction false} SameRowsThen(s: State, t: State, u: State)
    requires SameRows(s, t) && SameRows(t, u)
    ensures SameRows(s, u)
  {
  }

  lemma {:induction false} CommitState(c: Content, s: State, sub: Submission, seen: Reads)
    requires c.Valid() && c.Knows(sub.activity)
    ensures SameRows(s, Commit(c, s, sub, seen))
  {
    if sub.NaturalKey() !in s.attempts {
      CommitKeepsStars(c, s, sub, seen);
      SameStarsSameRows(Inserted(s, sub), Commit(c, s, sub, seen));
      SameRowsThen(s, Inserted(s, sub), Commit(c, s, sub, seen));
    }
  }

  lemma {:induction false} PaidState(c: Content, s: State, stored: State, activity: Id, delta: int, t: State)
    requires c.Valid() && c.Knows(activity) && (t == stored || t == Reward(c, stored, activity, delta))
    requires stored.lessons == s.lessons && stored.levels == s.levels && stored.grades == s.grades
    ensures SameRows(s, t)
  {
    RewardKeepsStars(c, stored, activity, delta);
    SameStarsSameRows(stored, Reward(c, stored, activity, delta));
    SameRowsThen(s, stored, Reward(c, stored, activity, delta));
  }

  lemma {:induction false} QuietState(c: Content, s: State, r: Request)
    requires c.Valid() && Fits(c, Submit(r.sub)) && InRange(c, r) && !r.phase.Scoring?
    ensures SameRows(s, NextState(c, s, r))
  {
    match r.phase
    case Reading(done, seen) => CommitState(c, s, r.sub, seen);
    case HasHeld(held) =>
      PaidState(c, s, PassPaid(s, r.sub.activity, r.sub.points), r.sub.activity, r.sub.points - held, NextState(c, s, r));
    case _ =>
  }

  lemma {:induction false} QuietStep(c: Content, t: Traced, i: nat)
    requires Fine(c, t.sys) && i < |t.sys.requests| && !t.sys.requests[i].phase.Scoring?
    ensures IsQuiet(c, t, TraceStep(c, t, i), i)
  {
    QuietState(c, t.sys.state, t.sys.requests[i]);
  }

  lemma {:induction false} QuietKeeps(c: Content, start: State, subs: seq<Submission>, t: Traced, u: Traced, i: nat)
    requires Fine(c, t.sys) && Fine(c, u.sys) && i < |t.sys.requests| == |u.sys.requests| && IsQuiet(c, t, u, i)
    requires Are(subs, t.sys.requests) && Requests(c, start, subs, t) && Rows(c, start, subs, t)
    ensures Requests(c, start, subs, u) && Rows(c, start, subs, u)
  {
    var r, now := t.sys.requests[i], u.sys.requests[i];
    forall h ensures SavedAre(c, u, h) && RowKeeps(start, subs, u, h) {
      assert SavedAre(c, t, h) && RowKeeps(start, subs, t, h);
      assert HasSaved(c, now, h) == HasSaved(c, r, h);
      forall j: nat ensures j in At(u.log.saved, h) <==> j < |u.sys.requests| && HasSaved(c, u.sys.requests[j], h) {
      }
    }
    forall j: nat | j < |u.sys.requests|
      ensures GivesAre(subs, u, j) && (Holding(u.sys.requests[j]) ==> HoldsRow(c, start, subs, u, j))
    {
      assert GivesAre(subs, t, j);
    }
  }

  // ---- a read --------------------------------------------------------------------------------------------------------

  lemma {:induction false} SumsSame(subs: seq<Submission>, log: Log, log': Log, s: set<nat>)
    requires forall j :: j in s ==> BonusIn(log', j) == BonusIn(log, j)
    ensures Sum(Given(subs, log'), s) == Sum(Given(subs, log), s)
  {
    SumSame(Given(subs, log'), Given(subs, log), s);
  }

  /** A step that reads a row. */
  ghost predicate IsRead(c: Content, t: Traced, u: Traced, i: nat, bonus: nat)
    requires Fine(c, t.sys) && Fine(c, u.sys) && i < |t.sys.requests| == |u.sys.requests|
  {
    var (r, now) := (t.sys.requests[i], u.sys.requests[i]);
    && OneMoves(t, u, i) && u.sys.state == t.sys.state
    && r.phase.Scoring? && !Holding(r) && Holding(now)
    && now.phase.progress.row == r.phase.progress.row && now.phase.progress.gives == r.phase.progress.gives + bonus
    && (bonus > 0 ==> r.phase.progress.row == 0)
    && var h := RowOf(c, r);
    && now.phase.progress.held.value == Seen(StarsAt(t.sys.state, h), BonusAt(t.sys.state, h) || bonus == 1)
    && bonus == Earns(c, t.sys.state, r.sub.activity, h)
    && u.log == LogRead(t.log, i, h, bonus)
  }

  lemma {:induction false} ReadStep(c: Content, t: Traced, i: nat) returns (bonus: nat)
    requires Fine(c, t.sys) && i < |t.sys.requests| && t.sys.requests[i].phase.Scoring? && !Holding(t.sys.requests[i])
    requires IsThere(t.sys.state, RowOf(c, t.sys.requests[i]))
    ensures IsRead(c, t, TraceStep(c, t, i), i, bonus)
  {
    var r := t.sys.requests[i];
    bonus := Earns(c, t.sys.state, r.sub.activity, RowOf(c, r));
    if bonus > 0 {
      BonusIsFirst(c, t.sys.state, r.sub.activity, r.phase.progress.row);
    }
  }

  /** The reader has saved nothing when it decides on a bonus, so no sum changes. */
  lemma {:induction false} ReadChangesNoSum(c: Content, start: State, subs: seq<Submission>, t: Traced, u: Traced, i: nat,
                                            bonus: nat, h: Holder, s: set<nat>)
    requires Fine(c, t.sys) && Fine(c, u.sys) && i < |t.sys.requests| == |u.sys.requests| && IsRead(c, t, u, i, bonus)
    requires SavedAre(c, t, h) && s <= At(t.log.saved, h)
    ensures Sum(Given(subs, u.log), s) == Sum(Given(subs, t.log), s)
  {
    forall j | j in s ensures BonusIn(u.log, j) == BonusIn(t.log, j) {
      if j == i {
        assert HasSaved(c, t.sys.requests[i], h);
      }
    }
    SumsSame(subs, t.log, u.log, s);
  }

  lemma {:induction false} ReadKeeps(c: Content, start: State, subs: seq<Submission>, t: Traced, u: Traced, i: nat,
                                     bonus: nat)
    requires Fine(c, t.sys) && Fine(c, u.sys) && i < |t.sys.requests| == |u.sys.requests| && IsRead(c, t, u, i, bonus)
    requires Are(subs, t.sys.requests) && Requests(c, start, subs, t) && Rows(c, start, subs, t)
    ensures Requests(c, start, subs, u) && Rows(c, start, subs, u)
  {
    ReadKeepsRows(c, start, subs, t, u, i, bonus);
    forall j: nat | j < |u.sys.requests|
      ensures GivesAre(subs, u, j) && (Holding(u.sys.requests[j]) ==> HoldsRow(c, start, subs, u, j))
    {
      assert GivesAre(subs, t, j);
      if j == i {
        var h := RowOf(c, u.sys.requests[i]);
        assert SavedAre(c, t, h) && RowKeeps(start, subs, t, h);
        ReadChangesNoSum(c, start, subs, t, u, i, bonus, h, At(t.log.kept, h));
      } else if Holding(u.sys.requests[j]) {
        var h := RowOf(c, u.sys.requests[j]);
        assert SavedAre(c, t, h) && HoldsRow(c, start, subs, t, j);
        ReadChangesNoSum(c, start, subs, t, u, i, bonus, h, GlanceOf(t.log, j).kept);
      }
    }
  }

  lemma {:induction false} ReadKeepsRows(c: Content, start: State, subs: seq<Submission>, t: Traced, u: Traced, i: nat,
                                         bonus: nat)
    requires Fine(c, t.sys) && Fine(c, u.sys) && i < |t.sys.requests| == |u.sys.requests| && IsRead(c, t, u, i, bonus)
    requires Rows(c, start, subs, t)
    ensures Rows(c, start, subs, u)
  {
    forall h ensures SavedAre(c, u, h) && RowKeeps(start, subs, u, h) {
      assert SavedAre(c, t, h) && RowKeeps(start, subs, t, h);
      ReadChangesNoSum(c, start, subs, t, u, i, bonus, h, At(t.log.kept, h));
    }
  }

  // ---- a save --------------------------------------------------------------------------------------------------------

  /** A step that saves a row. */
  ghost predicate IsSave(c: Content, t: Traced, u: Traced, i: nat)
    requires Fine(c, t.sys) && Fine(c, u.sys) && i < |t.sys.requests| == |u.sys.requests|
  {
    var (r, now) := (t.sys.requests[i], u.sys.requests[i]);
    && OneMoves(t, u, i) && Holding(r) && !Holding(now) && Created(now)
    && (forall h :: HasSaved(c, now, h) <==> HasSaved(c, r, h) || h == RowOf(c, r))
    && !HasSaved(c, r, RowOf(c, r))
    && (now.phase.Scoring? ==> now.phase.progress.gives == r.phase.progress.gives)
    && var (p, h) := (r.phase.progress, RowOf(c, r));
    && SetsOnly(t.sys.state, u.sys.state, h, p.held.value.stars + p.gives, MarksBonus(c, r.sub.activity, h), p.held.value.bonus)
    && u.log == LogSaved(t.log, i, h)
  }

  lemma {:induction false} SaveStep(c: Content, t: Traced, i: nat)
    requires Fine(c, t.sys) && i < |t.sys.requests| && Holding(t.sys.requests[i])
    requires IsThere(t.sys.state, RowOf(c, t.sys.requests[i]))
    ensures IsSave(c, t, TraceStep(c, t, i), i)
  {
    var r, u := t.sys.requests[i], TraceStep(c, t, i);
    SavedBefore(c, r.sub.activity, r.phase.progress.row);
    SaveSets(c, t.sys.state, r, u.sys.state, RowOf(c, r));
    var hs := Holders(c, r.sub.activity);
    assert hs[..|hs|] == hs;
  }

  /** Kept and saved agree after a save exactly when they did at the read and nobody saved since. */
  lemma {:induction false} SaveOverlaps(kept: set<nat>, seen: set<nat>, saved: set<nat>, i: nat)
    requires kept <= seen <= saved && i !in saved
    ensures kept + {i} <= saved + {i}
    ensures kept + {i} == saved + {i} <==> kept == seen == saved
  {
    assert kept == kept + {i} - {i} && saved == saved + {i} - {i};
  }

  lemma {:induction false} SaverIsNew(c: Content, t: Traced, u: Traced, i: nat)
    requires Fine(c, t.sys) && Fine(c, u.sys) && i < |t.sys.requests| == |u.sys.requests| && IsSave(c, t, u, i)
    requires SavedAre(c, t, RowOf(c, t.sys.requests[i]))
    ensures i !in At(t.log.saved, RowOf(c, t.sys.requests[i])) && SavedAre(c, u, RowOf(c, t.sys.requests[i]))
  {
  }

  lemma {:induction false} SaveKeepsRow(c: Content, start: State, subs: seq<Submission>, t: Traced, u: Traced, i: nat)
    requires Fine(c, t.sys) && Fine(c, u.sys) && i < |t.sys.requests| == |u.sys.requests| && IsSave(c, t, u, i)
    requires GivesAre(subs, t, i) && HoldsRow(c, start, subs, t, i)
    requires SavedAre(c, t, RowOf(c, t.sys.requests[i]))
    ensures RowKeeps(start, subs, u, RowOf(c, t.sys.requests[i])) && SavedAre(c, u, RowOf(c, t.sys.requests[i]))
  {
    var h, seen, saved := RowOf(c, t.sys.requests[i]), GlanceOf(t.log, i), At(t.log.saved, RowOf(c, t.sys.requests[i]));
    SaverIsNew(c, t, u, i);
    SumGrow(Given(subs, t.log), seen.kept, i);
    SumsSame(subs, t.log, u.log, seen.kept + {i});
    assert At(u.log.kept, h) == seen.kept + {i} && At(u.log.saved, h) == saved + {i};
    SaveOverlaps(seen.kept, seen.saved, saved, i);
  }

  lemma {:induction false} SaveKeepsOther(c: Content, start: State, subs: seq<Submission>, t: Traced, u: Traced, i: nat,
                                          h: Holder)
    requires Fine(c, t.sys) && Fine(c, u.sys) && i < |t.sys.requests| == |u.sys.requests| && IsSave(c, t, u, i)
    requires h != RowOf(c, t.sys.requests[i]) && SavedAre(c, t, h) && RowKeeps(start, subs, t, h)
    ensures SavedAre(c, u, h) && RowKeeps(start, subs, u, h)
  {
    SumsSame(subs, t.log, u.log, At(t.log.kept, h));
  }

  lemma {:induction false} SaveKeepsRows(c: Content, start: State, subs: seq<Submission>, t: Traced, u: Traced, i: nat)
    requires Fine(c, t.sys) && Fine(c, u.sys) && i < |t.sys.requests| == |u.sys.requests| && IsSave(c, t, u, i)
    requires GivesAre(subs, t, i) && HoldsRow(c, start, subs, t, i) && Rows(c, start, subs, t)
    ensures Rows(c, start, subs, u)
  {
    forall h ensures SavedAre(c, u, h) && RowKeeps(start, subs, u, h) {
      assert SavedAre(c, t, h) && RowKeeps(start, subs, t, h);
      if h == RowOf(c, t.sys.requests[i]) {
        SaveKeepsRow(c, start, subs, t, u, i);
      } else {
        SaveKeepsOther(c, start, subs, t, u, i, h);
      }
    }
  }

  lemma {:induction false} SaveKeepsHolder(c: Content, start: State, subs: seq<Submission>, t: Traced, u: Traced, i: nat,
                                           j: nat)
    requires Fine(c, t.sys) && Fine(c, u.sys) && i < |t.sys.requests| == |u.sys.requests| && IsSave(c, t, u, i)
    requires j < |t.sys.requests| && j != i && Holding(t.sys.requests[j]) && HoldsRow(c, start, subs, t, j)
    requires SavedAre(c, t, RowOf(c, t.sys.requests[i]))
    ensures HoldsRow(c, start, subs, u, j)
  {
    SumsSame(subs, t.log, u.log, GlanceOf(t.log, j).kept);
  }

  lemma {:induction false} SaveKeeps(c: Content, start: State, subs: seq<Submission>, t: Traced, u: Traced, i: nat)
    requires Fine(c, t.sys) && Fine(c, u.sys) && i < |t.sys.requests| == |u.sys.requests| && IsSave(c, t, u, i)
    requires Are(subs, t.sys.requests) && Requests(c, start, subs, t) && Rows(c, start, subs, t)
    ensures Requests(c, start, subs, u) && Rows(c, start, subs, u)
  {
    assert GivesAre(subs, t, i) && HoldsRow(c, start, subs, t, i);
    SaveKeepsRows(c, start, subs, t, u, i);
    assert SavedAre(c, t, RowOf(c, t.sys.requests[i]));
    forall j: nat | j < |u.sys.requests|
      ensures GivesAre(subs, u, j) && (Holding(u.sys.requests[j]) ==> HoldsRow(c, start, subs, u, j))
    {
      assert GivesAre(subs, t, j);
      if j != i && Holding(u.sys.requests[j]) {
        assert HoldsRow(c, start, subs, t, j);
        SaveKeepsHolder(c, start, subs, t, u, i, j);
      }
    }
  }

  // ---- whole runs ----------------------------------------------------------------------------------------------------

  ghost predicate Keeps(c: Content, start: State, subs: seq<Submission>, t: Traced)
    requires Fine(c, t.sys)
  {
    Are(subs, t.sys.requests) && AllGrounded(c, t.sys) && Requests(c, start, subs, t) && Rows(c, start, subs, t)
  }

  lemma {:induction false} StepKeeps(c: Content, start: State, subs: seq<Submission>, t: Traced, i: nat)
    requires Fine(c, t.sys) && i < |t.sys.requests| && Keeps(c, start, subs, t)
    ensures Keeps(c, start, subs, TraceStep(c, t, i))
  {
    var r, u := t.sys.requests[i], TraceStep(c, t, i);
    StepIsGrounded(c, t.sys, i);
    if !r.phase.Scoring? {
      QuietStep(c, t, i);
      QuietKeeps(c, start, subs, t, u, i);
    } else {
      RowIsThere(c, t.sys, i);
      if Holding(r) {
        SaveStep(c, t, i);
        SaveKeeps(c, start, subs, t, u, i);
      } else {
        var bonus := ReadStep(c, t, i);
        ReadKeeps(c, start, subs, t, u, i, bonus);
      }
    }
  }

  function SubsOf(requests: seq<Request>): (subs: seq<Submission>)
    ensures Are(subs, requests)
  {
    seq(|requests|, i requires 0 <= i < |requests| => requests[i].sub)
  }

  lemma {:induction false} RunKeeps(c: Content, sys: System, schedule: seq<nat>)
    requires Fine(c, sys) && AllArrived(sys) && Turns(schedule, |sys.requests|) && RowsAreThere(c, sys.state)
    ensures Keeps(c, sys.state, SubsOf(sys.requests), Trace(c, sys, schedule))
  {
    if schedule != [] {
      RunKeeps(c, sys, schedule[..|schedule| - 1]);
      StepKeeps(c, sys.state, SubsOf(sys.requests), Trace(c, sys, schedule[..|schedule| - 1]), schedule[|schedule| - 1]);
    }
  }

  /** What the scorings whose saves were undone gave: short by as much is the row. */
  ghost function Undone(subs: seq<Submission>, t: Traced, h: Holder): int {
    Sum(Given(subs, t.log), At(t.log.saved, h) - At(t.log.kept, h))
  }

  /**
   * At every moment of every interleaving a row holds what it held and what the scorings that saved
   * it gave, less what overlapping saves undid: never more, and all of it exactly when whatever was
   * undone was worth nothing. Nothing was undone exactly when no two scorings overlapped on the row.
   */
  lemma {:induction false} StarsFollowScorings(c: Content, sys: System, schedule: seq<nat>, h: Holder)
    requires Fine(c, sys) && AllArrived(sys) && Turns(schedule, |sys.requests|) && RowsAreThere(c, sys.state)
    ensures var (subs, t) := (SubsOf(sys.requests), Trace(c, sys, schedule));
            && (forall i: nat :: i in At(t.log.saved, h) <==> i < |t.sys.requests| && HasSaved(c, t.sys.requests[i], h))
            && StarsAt(t.sys.state, h) == StarsAt(sys.state, h) + Sum(Given(subs, t.log), At(t.log.saved, h)) - Undone(subs, t, h)
            && Undone(subs, t, h) >= 0
            && (Undone(subs, t, h) == 0 <==> forall i: nat :: i in At(t.log.saved, h) - At(t.log.kept, h) ==> Gift(subs, t.log, i) == 0)
            && (At(t.log.kept, h) == At(t.log.saved, h) <==> h !in t.log.overlapped)
  {
    var subs, t := SubsOf(sys.requests), Trace(c, sys, schedule);
    RunKeeps(c, sys, schedule);
    assert SavedAre(c, t, h) && RowKeeps(sys.state, subs, t, h);
    SumSplits(Given(subs, t.log), At(t.log.saved, h), At(t.log.kept, h));
    SumIsZero(Given(subs, t.log), At(t.log.saved, h) - At(t.log.kept, h));
    SumNotNegative(Given(subs, t.log), At(t.log.saved, h) - At(t.log.kept, h));
    forall i: nat | i in At(t.log.saved, h) - At(t.log.kept, h) ensures Given(subs, t.log)(i) == Gift(subs, t.log, i) {
    }
  }
}
