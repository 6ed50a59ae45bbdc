/**
 * Requests in flight at once. Each reads before its transaction, so what it read may be out of
 * date when it commits; a transaction is a single step, and so is every call outside one.
 */
module ConcurrentDelivery {
  import opened Wrappers
  import opened Sums
  import opened LedgerSpec
  import opened LedgerTheorems
  import opened LedgerRuns
  import opened RepeatedDelivery
  import opened ScoringSteps

  /**
   * Where a request is: it asked whether the activity is passed; then, one read at a time, whether
   * it was tried, what it holds and how new the newest attempt is; then its transaction; then, if
   * that created the row, its stars, row by row. After a pass it reads what is held and repays.
   */
  datatype Phase =
    | Arrived
    | Reading(done: nat, seen: Reads)
    | Scoring(progress: Progress)
    | Paying
    | HasHeld(held: nat)
    | Finished(created: bool)

  datatype Request = Request(sub: Submission, phase: Phase)

  datatype System = System(state: State, requests: seq<Request>)

  /** A scoring has a row to go on with. */
  predicate InRange(c: Content, r: Request)
    requires c.Valid() && Fits(c, Submit(r.sub))
  {
    r.phase.Scoring? ==> r.phase.progress.row < |Holders(c, r.sub.activity)|
  }

  ghost predicate Fine(c: Content, sys: System) {
    c.Valid() && forall i :: 0 <= i < |sys.requests| ==> Fits(c, Submit(sys.requests[i].sub)) && InRange(c, sys.requests[i])
  }

  ghost function HeldOf(s: State, sub: Submission): nat {
    PointsAt(s.attempts, if sub.rule then FirstPass(s.attempts, sub.activity) else Newest(s.attempts, sub.activity))
  }

  /** The next read of a request. */
  ghost function OneMoreRead(s: State, sub: Submission, done: nat, seen: Reads): Reads {
    var now := Read(s, sub);
    if done == 0 then seen.(tried := now.tried) else if done == 1 then seen.(held := now.held) else seen.(newest := now.newest)
  }

  ghost function NextPhase(c: Content, s: State, r: Request): Phase
    requires c.Valid() && Fits(c, Submit(r.sub)) && InRange(c, r)
  {
    match r.phase
    case Arrived => if Passed(s.attempts, r.sub.activity) then Paying else Reading(0, Reads(false, None, None))
    case Reading(done, seen) =>
      if done < 3 then Reading(done + 1, OneMoreRead(s, r.sub, done, seen))
      else if r.sub.NaturalKey() in s.attempts then Finished(false)
      else Scoring(Progress(0, None, r.sub.scores))
    case Scoring(p) =>
      var next := ProgressAfter(c, s, r.sub.activity, p);
      if next.row == |Holders(c, r.sub.activity)| then Finished(true) else Scoring(next)
    case Paying => HasHeld(HeldOf(s, r.sub))
    case HasHeld(_) => Finished(false)
    case Finished(created) => Finished(created)
  }

  ghost function NextState(c: Content, s: State, r: Request): State
    requires c.Valid() && Fits(c, Submit(r.sub)) && InRange(c, r)
  {
    match r.phase
    case Reading(done, seen) => if done < 3 then s else Commit(c, s, r.sub, seen)
    case Scoring(p) => StateAfter(c, s, r.sub.activity, p)
    case HasHeld(held) =>
      var paid := PassPaid(s, r.sub.activity, r.sub.points);
      if held == r.sub.points then paid else Reward(c, paid, r.sub.activity, r.sub.points - held)
    case _ => s
  }

  ghost function StepOf(c: Content, sys: System, i: nat): System
    requires Fine(c, sys) && i < |sys.requests|
  {
    var r := sys.requests[i];
    System(NextState(c, sys.state, r), sys.requests[i := r.(phase := NextPhase(c, sys.state, r))])
  }

  predicate Turns(schedule: seq<nat>, n: nat) {
    forall k :: 0 <= k < |schedule| ==> schedule[k] < n
  }

  /** The system after a schedule: whose turn it is, one step at a time. */
  ghost function After(c: Content, sys: System, schedule: seq<nat>): (t: System)
    requires Fine(c, sys) && Turns(schedule, |sys.requests|)
    ensures Fine(c, t) && |t.requests| == |sys.requests|
    ensures forall i :: 0 <= i < |t.requests| ==> t.requests[i].sub == sys.requests[i].sub
  {
    if schedule == [] then sys else StepOf(c, After(c, sys, schedule[..|schedule| - 1]), schedule[|schedule| - 1])
  }

  ghost predicate AllArrived(sys: System) {
    forall i :: 0 <= i < |sys.requests| ==> sys.requests[i].phase == Arrived
  }

  ghost predicate AllFinished(sys: System) {
    forall i :: 0 <= i < |sys.requests| ==> sys.requests[i].phase.Finished?
  }

  // ---- one row a key, created by one request ------------------------------------------------------------------

  predicate Created(r: Request) {
    r.phase.Scoring? || r.phase == Finished(true)
  }

  /** Rows that a request created are there, and were not there at first. */
  ghost predicate CreatedAreNew(start: State, sys: System) {
    forall i :: 0 <= i < |sys.requests| && Created(sys.requests[i]) ==>
      sys.requests[i].sub.NaturalKey() in sys.state.attempts && sys.requests[i].sub.NaturalKey() !in start.attempts
  }

  /** No two requests created the same row. */
  ghost predicate CreatorsDiffer(sys: System) {
    forall i, j :: 0 <= i < j < |sys.requests| && Created(sys.requests[i]) && Created(sys.requests[j]) ==>
      sys.requests[i].sub.NaturalKey() != sys.requests[j].sub.NaturalKey()
  }

  ghost predicate HasCreator(sys: System, k: Key) {
    exists i :: 0 <= i < |sys.requests| && Created(sys.requests[i]) && sys.requests[i].sub.NaturalKey() == k
  }

  /** No row goes, and each new row has exactly one creator. */
  ghost predicate OneCreator(start: State, sys: System) {
    && start.attempts.Keys <= sys.state.attempts.Keys
    && CreatedAreNew(start, sys) && CreatorsDiffer(sys)
    && forall k :: k in sys.state.attempts && k !in start.attempts ==> HasCreator(sys, k)
  }

  /** A step's effect on the attempts: only a creating commit adds one, and its request becomes the creator. */
  lemma {:induction false} StepAttempts(c: Content, sys: System, i: nat)
    requires Fine(c, sys) && i < |sys.requests|
    ensures var (r, t) := (sys.requests[i], StepOf(c, sys, i));
            && (Created(t.requests[i]) && !Created(r) ==> r.sub.NaturalKey() !in sys.state.attempts)
            && t.state.attempts.Keys
              == sys.state.attempts.Keys + (if Created(t.requests[i]) && !Created(r) then {r.sub.NaturalKey()} else {})
            && (Created(r) ==> Created(t.requests[i]))
  {
    var r := sys.requests[i];
    match r.phase
    case Reading(done, seen) =>
      if done >= 3 {
        RewardKeepsAttempts(c, Inserted(sys.state, r.sub), r.sub.activity, r.sub.Earned() - Num(seen.held), 0);
      }
    case HasHeld(held) =>
      RewardKeepsAttempts(c, PassPaid(sys.state, r.sub.activity, r.sub.points), r.sub.activity, r.sub.points - held, 0);
    case _ =>
  }

  /** A step that touches one request, and adds a row when it makes that request a creator. */
  ghost predicate CreatesAtMost(sys: System, t: System, i: nat)
    requires i < |sys.requests| == |t.requests|
  {
    var (r, now) := (sys.requests[i], t.requests[i]);
    && (forall j :: 0 <= j < |sys.requests| && j != i ==> t.requests[j] == sys.requests[j])
    && now.sub == r.sub && (Created(r) ==> Created(now))
    && (Created(now) && !Created(r) ==> r.sub.NaturalKey() !in sys.state.attempts)
    && t.state.attempts.Keys == sys.state.attempts.Keys + (if Created(now) && !Created(r) then {r.sub.NaturalKey()} else {})
  }

  lemma {:induction false} CreatorsStayNew(start: State, sys: System, t: System, i: nat)
    requires i < |sys.requests| == |t.requests| && start.attempts.Keys <= sys.state.attempts.Keys
    requires CreatedAreNew(start, sys) && CreatorsDiffer(sys) && CreatesAtMost(sys, t, i)
    ensures CreatedAreNew(start, t) && CreatorsDiffer(t)
  {
    forall j | 0 <= j < |t.requests| && Created(t.requests[j])
      ensures t.requests[j].sub.NaturalKey() in t.state.attempts && t.requests[j].sub.NaturalKey() !in start.attempts
      ensures j != i ==> Created(sys.requests[j]) && t.requests[j] == sys.requests[j]
    {
      if j == i && !Created(sys.requests[i]) {
        assert t.requests[i].sub.NaturalKey() !in sys.state.attempts;
      }
    }
  }

  lemma {:induction false} CreatorsStay(start: State, sys: System, t: System, i: nat)
    requires i < |sys.requests| == |t.requests| && OneCreator(start, sys) && CreatesAtMost(sys, t, i)
    ensures OneCreator(start, t)
  {
    CreatorsStayNew(start, sys, t, i);
    forall k | k in t.state.attempts && k !in start.attempts ensures HasCreator(t, k) {
      if k in sys.state.attempts {
        var j :| 0 <= j < |sys.requests| && Created(sys.requests[j]) && sys.requests[j].sub.NaturalKey() == k;
        assert Created(t.requests[j]) && t.requests[j].sub.NaturalKey() == k;
      } else {
        assert Created(t.requests[i]) && t.requests[i].sub.NaturalKey() == k;
      }
    }
  }

  lemma {:induction false} StepHasOneCreator(c: Content, start: State, sys: System, i: nat)
    requires Fine(c, sys) && i < |sys.requests| && OneCreator(start, sys)
    ensures OneCreator(start, StepOf(c, sys, i))
  {
    StepAttempts(c, sys, i);
    CreatorsStay(start, sys, StepOf(c, sys, i), i);
  }

  /** Under every interleaving each new attempt row has exactly one creator, and only creators score. */
  lemma {:induction false} EveryRowHasOneCreator(c: Content, sys: System, schedule: seq<nat>)
    requires Fine(c, sys) && AllArrived(sys) && Turns(schedule, |sys.requests|)
    ensures OneCreator(sys.state, After(c, sys, schedule))
  {
    if schedule != [] {
      EveryRowHasOneCreator(c, sys, schedule[..|schedule| - 1]);
      StepHasOneCreator(c, sys.state, After(c, sys, schedule[..|schedule| - 1]), schedule[|schedule| - 1]);
    }
  }

  // ---- copies of one submission racing -----------------------------------------------------------------------------

  /** A request that has read `done` values has read them as they were at first. */
  predicate ReadSoFar(done: nat, seen: Reads, first: Reads) {
    && (done >= 1 ==> seen.tried == first.tried)
    && (done >= 2 ==> seen.held == first.held)
    && (done >= 3 ==> seen.newest == first.newest)
  }

  /** A copy that still reads, or waits, while nothing was stored. */
  ghost predicate Waiting(s: State, sub: Submission, r: Request) {
    r == Request(sub, Arrived) || (r.sub == sub && r.phase.Reading? && ReadSoFar(r.phase.done, r.phase.seen, Read(s, sub)))
  }

  /** A copy that came second: whatever it does now changes nothing. */
  ghost predicate Idle(s: State, r: Request) {
    match r.phase
    case Arrived => true
    case Reading(_, _) => r.sub.NaturalKey() in s.attempts
    case Scoring(_) => false
    case Paying => Passed(s.attempts, r.sub.activity)
    case HasHeld(held) => Passed(s.attempts, r.sub.activity) && held == r.sub.points
    case Finished(_) => true
  }

  lemma {:induction false} HeldIsPrice(s: State, sub: Submission, terms: Terms)
    requires OnTerms(sub, terms) && Priced(s.attempts, terms) && Passed(s.attempts, sub.activity)
    ensures HeldOf(s, sub) == sub.points && PassPaid(s, sub.activity, sub.points) == s
  {
    PassedHasFirst(s.attempts, sub.activity);
    PassedIsTried(s.attempts, sub.activity);
    var k, newest := FirstPass(s.attempts, sub.activity).value, Newest(s.attempts, sub.activity).value;
    assert RowOnTerms(k, s.attempts[k], terms) && RowOnTerms(newest, s.attempts[newest], terms);
    assert s.attempts[k := s.attempts[k].(points := sub.points)] == s.attempts;
  }

  lemma {:induction false} IdleStays(c: Content, s: State, r: Request, terms: Terms)
    requires c.Valid() && Fits(c, Submit(r.sub)) && OnTerms(r.sub, terms) && Priced(s.attempts, terms)
    requires IsRecorded(s.attempts, r.sub.NaturalKey()) && Idle(s, r)
    ensures NextState(c, s, r) == s && Idle(s, r.(phase := NextPhase(c, s, r)))
  {
    if Passed(s.attempts, r.sub.activity) {
      HeldIsPrice(s, r.sub, terms);
    }
  }

  /** What the creator's transaction, and then its scoring, leave. */
  ghost function Stored(c: Content, s: State, sub: Submission): State
    requires c.Valid() && c.Knows(sub.activity)
  {
    Commit(c, s, sub, Read(s, sub))
  }

  ghost function Scored(c: Content, s: State, sub: Submission): State
    requires c.Valid() && c.Knows(sub.activity)
  {
    AddStars(c, Stored(c, s, sub), sub.activity, sub.scores)
  }

  /** Nothing is stored yet; or the copy `winner` stored it and is adding its stars; or it added them. */
  datatype Stage = Before | Between(winner: nat) | Behind

  ghost predicate AllWaiting(s: State, sub: Submission, requests: seq<Request>) {
    forall i :: 0 <= i < |requests| ==> Waiting(s, sub, requests[i])
  }

  ghost predicate OthersIdle(s: State, sub: Submission, requests: seq<Request>, winner: nat) {
    forall i :: 0 <= i < |requests| && i != winner ==> requests[i].sub == sub && Idle(s, requests[i])
  }

  ghost predicate Race(c: Content, start: State, sub: Submission, sys: System, stage: Stage)
    requires c.Valid() && c.Knows(sub.activity)
  {
    match stage
    case Before => sys.state == start && AllWaiting(start, sub, sys.requests)
    case Between(w) =>
      && w < |sys.requests| && sys.requests[w].sub == sub && sys.requests[w].phase.Scoring?
      && sys.state.attempts == Stored(c, start, sub).attempts && OthersIdle(sys.state, sub, sys.requests, w)
      && sys.requests[w].phase.progress.row < |Holders(c, sub.activity)|
      && Alone(c, sys.state, sub.activity, sys.requests[w].phase.progress) == Scored(c, start, sub)
    case Behind => sys.state == Scored(c, start, sub) && OthersIdle(sys.state, sub, sys.requests, |sys.requests|)
  }

  /** A first attempt's start: neither stored nor passed. */
  ghost predicate IsNew(s: State, sub: Submission, terms: Terms) {
    OnTerms(sub, terms) && Priced(s.attempts, terms) && !IsRecorded(s.attempts, sub.NaturalKey())
  }

  lemma {:induction false} StoredIsRecorded(c: Content, s: State, sub: Submission, terms: Terms)
    requires c.Valid() && Fits(c, Submit(sub)) && IsNew(s, sub, terms)
    ensures var t := Stored(c, s, sub);
            && t.attempts == s.attempts[sub.NaturalKey() := sub.Row()] && Scored(c, s, sub).attempts == t.attempts
            && sub.NaturalKey() in t.attempts && Priced(t.attempts, terms)
  {
    RewardKeepsAttempts(c, Inserted(s, sub), sub.activity, sub.Earned() - Num(Read(s, sub).held), 0);
    RewardKeepsAttempts(c, Stored(c, s, sub), sub.activity, 0, sub.scores);
    assert RowOnTerms(sub.NaturalKey(), sub.Row(), terms);
  }

  lemma {:induction false} WaitingIsIdle(s: State, t: State, sub: Submission, r: Request)
    requires Waiting(s, sub, r) && sub.NaturalKey() in t.attempts
    ensures r.sub == sub && Idle(t, r)
  {
  }

  /** The commit of a copy that read everything while nothing was stored. */
  lemma {:induction false} WinnerStores(c: Content, s: State, sub: Submission, r: Request)
    requires c.Valid() && c.Knows(sub.activity) && Waiting(s, sub, r) && Fits(c, Submit(sub)) && sub.NaturalKey() !in s.attempts
    requires r.phase.Reading? && r.phase.done >= 3
    ensures NextState(c, s, r) == Stored(c, s, sub) && NextPhase(c, s, r) == Scoring(Progress(0, None, sub.scores))
  {
  }

  lemma {:induction false} WaitingGoesOn(c: Content, s: State, sub: Submission, r: Request)
    requires c.Valid() && Fits(c, Submit(sub)) && Waiting(s, sub, r) && !Passed(s.attempts, sub.activity)
    requires r.phase.Reading? ==> r.phase.done < 3
    ensures NextState(c, s, r) == s && Waiting(s, sub, r.(phase := NextPhase(c, s, r)))
  {
  }

  /** One call of the winner's scoring: what is left of it still ends where it would. */
  lemma {:induction false} WinnerScores(c: Content, s: State, r: Request)
    requires c.Valid() && Fits(c, Submit(r.sub)) && InRange(c, r) && r.phase.Scoring?
    ensures var (t, next) := (NextState(c, s, r), NextPhase(c, s, r));
            && t.attempts == s.attempts
            && (next == Finished(true) || (next.Scoring? && next.progress.row < |Holders(c, r.sub.activity)|))
            && Alone(c, s, r.sub.activity, r.phase.progress)
              == if next.Scoring? then Alone(c, t, r.sub.activity, next.progress) else t
  {
  }

  lemma {:induction false} BeforeStep(c: Content, start: State, sub: Submission, sys: System, i: nat, terms: Terms)
    returns (next: Stage)
    requires Fine(c, sys) && Fits(c, Submit(sub)) && i < |sys.requests|
    requires IsNew(start, sub, terms) && Race(c, start, sub, sys, Before)
    ensures Race(c, start, sub, StepOf(c, sys, i), next)
  {
    var r, t := sys.requests[i], StepOf(c, sys, i);
    if r.phase.Reading? && r.phase.done >= 3 {
      StoredIsRecorded(c, start, sub, terms);
      WinnerStores(c, start, sub, r);
      AloneIsAddStars(c, t.state, sub.activity, sub.scores);
      forall j | 0 <= j < |t.requests| && j != i ensures t.requests[j].sub == sub && Idle(t.state, t.requests[j]) {
        WaitingIsIdle(start, t.state, sub, sys.requests[j]);
      }
      next := Between(i);
    } else {
      WaitingGoesOn(c, start, sub, r);
      next := Before;
    }
  }

  /** Idle requests look at the attempts only. */
  lemma {:induction false} IdleSame(s: State, t: State, r: Request)
    requires Idle(s, r) && t.attempts == s.attempts
    ensures Idle(t, r)
  {
  }

  lemma {:induction false} WinnerStep(c: Content, start: State, sub: Submission, sys: System, i: nat) returns (next: Stage)
    requires Fine(c, sys) && Fits(c, Submit(sub)) && i < |sys.requests|
    requires Race(c, start, sub, sys, Between(i))
    ensures Race(c, start, sub, StepOf(c, sys, i), next)
  {
    var r, t := sys.requests[i], StepOf(c, sys, i);
    WinnerScores(c, sys.state, r);
    forall j | 0 <= j < |t.requests| && j != i ensures t.requests[j].sub == sub && Idle(t.state, t.requests[j]) {
      IdleSame(sys.state, t.state, sys.requests[j]);
    }
    next := if t.requests[i].phase.Scoring? then Between(i) else Behind;
  }

  lemma {:induction false} RaceStep(c: Content, start: State, sub: Submission, sys: System, stage: Stage, i: nat,
                                    terms: Terms) returns (next: Stage)
    requires Fine(c, sys) && Fits(c, Submit(sub)) && i < |sys.requests|
    requires IsNew(start, sub, terms) && Race(c, start, sub, sys, stage)
    ensures Race(c, start, sub, StepOf(c, sys, i), next)
  {
    next := stage;
    if stage.Before? {
      next := BeforeStep(c, start, sub, sys, i, terms);
    } else if stage == Between(i) {
      next := WinnerStep(c, start, sub, sys, i);
    } else {
      StoredIsRecorded(c, start, sub, terms);
      IdleStays(c, sys.state, sys.requests[i], terms);
    }
  }

  lemma {:induction false} RaceRuns(c: Content, sys: System, sub: Submission, schedule: seq<nat>, terms: Terms)
    returns (stage: Stage)
    requires Fine(c, sys) && Fits(c, Submit(sub)) && Turns(schedule, |sys.requests|)
    requires IsNew(sys.state, sub, terms) && AllWaiting(sys.state, sub, sys.requests)
    ensures Race(c, sys.state, sub, After(c, sys, schedule), stage)
  {
    if schedule == [] {
      stage := Before;
    } else {
      var before := RaceRuns(c, sys, sub, schedule[..|schedule| - 1], terms);
      stage := RaceStep(c, sys.state, sub, After(c, sys, schedule[..|schedule| - 1]), before, schedule[|schedule| - 1], terms);
    }
  }

  lemma {:induction false} RecordedRuns(c: Content, sys: System, sub: Submission, schedule: seq<nat>, terms: Terms)
    requires Fine(c, sys) && Fits(c, Submit(sub)) && Turns(schedule, |sys.requests|)
    requires OnTerms(sub, terms) && Priced(sys.state.attempts, terms) && IsRecorded(sys.state.attempts, sub.NaturalKey())
    requires OthersIdle(sys.state, sub, sys.requests, |sys.requests|)
    ensures var t := After(c, sys, schedule); t.state == sys.state && OthersIdle(t.state, sub, t.requests, |t.requests|)
  {
    if schedule != [] {
      RecordedRuns(c, sys, sub, schedule[..|schedule| - 1], terms);
      var t := After(c, sys, schedule[..|schedule| - 1]);
      IdleStays(c, t.state, t.requests[schedule[|schedule| - 1]], terms);
    }
  }

  /** Copies of one submission, delivered at once. */
  datatype Batch = Batch(sub: Submission, copies: nat, schedule: seq<nat>) {
    function Start(s: State): System {
      System(s, seq(copies, i => Request(sub, Arrived)))
    }

    /** At least one copy, all of them through when the schedule ends. */
    ghost predicate Completes(c: Content, s: State) {
      && Fine(c, Start(s)) && Turns(schedule, copies) && copies > 0
      && AllFinished(After(c, Start(s), schedule))
    }
  }

  /** However the copies of a submission interleave, they leave what one of them alone would. */
  lemma {:induction false} CopiesAreOneSubmission(c: Content, s: State, b: Batch, terms: Terms)
    requires b.Completes(c, s) && OnTerms(b.sub, terms) && Priced(s.attempts, terms)
    ensures Fits(c, Submit(b.sub)) && After(c, b.Start(s), b.schedule).state == Submitted(c, s, b.sub)
  {
    assert b.Start(s).requests[0].sub == b.sub;
    if IsRecorded(s.attempts, b.sub.NaturalKey()) {
      RecordedRuns(c, b.Start(s), b.sub, b.schedule, terms);
      RepeatChangesNothing(c, s, b.sub, terms);
    } else {
      var stage := RaceRuns(c, b.Start(s), b.sub, b.schedule, terms);
      var t := After(c, b.Start(s), b.schedule);
      assert t.requests[0].phase.Finished?;
      assert stage.Behind?;
    }
  }

  ghost predicate AllComplete(c: Content, s: State, batches: seq<Batch>)
    decreases |batches|, 0
  {
    c.Valid() && (batches == [] || (
      AllComplete(c, s, batches[..|batches| - 1])
      && batches[|batches| - 1].Completes(c, AfterBatches(c, s, batches[..|batches| - 1]))))
  }

  /** One batch after the other. */
  ghost function AfterBatches(c: Content, s: State, batches: seq<Batch>): State
    requires AllComplete(c, s, batches)
    decreases |batches|, 1
  {
    if batches == [] then s
    else
      var (before, last) := (AfterBatches(c, s, batches[..|batches| - 1]), batches[|batches| - 1]);
      After(c, last.Start(before), last.schedule).state
  }

  function OpsOf(batches: seq<Batch>): (ops: seq<Op>)
    ensures |ops| == |batches|
  {
    if batches == [] then [] else OpsOf(batches[..|batches| - 1]) + [Submit(batches[|batches| - 1].sub)]
  }

  /**
   * At-least-once delivery with racing copies: when only copies of one submission overlap, the
   * result is that of the sequential run that delivers each submission once.
   */
  lemma {:induction false} BatchesAreOneRun(c: Content, s: State, batches: seq<Batch>, terms: Terms)
    requires AllComplete(c, s, batches) && AllOnTerms(OpsOf(batches), terms) && Priced(s.attempts, terms)
    ensures AllFit(c, OpsOf(batches)) && AfterBatches(c, s, batches) == Run(c, s, OpsOf(batches))
    ensures Priced(AfterBatches(c, s, batches).attempts, terms)
  {
    if batches != [] {
      var before, last := batches[..|batches| - 1], batches[|batches| - 1];
      BatchesAreOneRun(c, s, before, terms);
      var t := AfterBatches(c, s, before);
      assert Submit(last.sub) in OpsOf(batches);
      CopiesAreOneSubmission(c, t, last, terms);
      OneMoreOp(c, s, OpsOf(before), Submit(last.sub));
      StepOnTerms(c, t, Submit(last.sub), terms);
    }
  }

  // ---- different submissions racing ---------------------------------------------------------------------------------

  /** What a commit moves on the rows, by what the request read. */
  function SeenDelta(sub: Submission, seen: Reads): int {
    if Moves(sub, seen) then sub.Earned() - Num(seen.held) else 0
  }

  /** The rows have room for a movement: nothing is clamped. */
  ghost predicate HasRoom(c: Content, s: State, activity: Id, delta: int)
    requires c.Valid() && c.Knows(activity)
  {
    && (activity in c.activities ==>
          var (points, total) := (LessonPoints(s)(c.activities[activity]), c.lessons[c.activities[activity]].total);
          points <= total && 0 <= points + delta <= total)
    && 0 <= LevelPoints(s)(c.LevelOf(activity)) + delta && 0 <= GradePoints(s)(c.GradeOf(activity)) + delta
  }

  lemma {:induction false} CommitMovesRows(c: Content, s: State, sub: Submission, seen: Reads)
    requires c.Valid() && Fits(c, Submit(sub)) && sub.NaturalKey() !in s.attempts
    requires HasRoom(c, s, sub.activity, SeenDelta(sub, seen))
    ensures RowsMoved(c, s, Commit(c, s, sub, seen), sub.activity, SeenDelta(sub, seen))
    ensures var t := Commit(c, s, sub, seen); t.attempts == Inserted(s, sub).attempts && t.viewings == s.viewings
  {
    RewardMovesRows(c, Inserted(s, sub), sub.activity, SeenDelta(sub, seen));
    RewardKeepsAttempts(c, Inserted(s, sub), sub.activity, SeenDelta(sub, seen), 0);
  }

  /** A stored new newest attempt moves its credit, whatever the rows do. */
  lemma {:induction false} StoredMovesCredit(s: State, t: State, sub: Submission)
    requires StartsLast(s, sub) && t.attempts == Inserted(s, sub).attempts && t.viewings == s.viewings
    ensures CreditMoved(s, t, sub.activity, AttemptDelta(s, sub, sub.Earned()))
  {
    InsertedCreditMoved(s, sub);
    forall x ensures Credit(t, x) == Credit(Inserted(s, sub), x) {
      SameCredit(Inserted(s, sub), t, x);
    }
  }

  lemma {:induction false} EvenMoveBalances(c: Content, s: State, t: State, activity: Id, delta: int, moved: int)
    requires c.Valid() && c.Knows(activity) && Balanced(c, s)
    requires RowsMoved(c, s, t, activity, delta) && CreditMoved(s, t, activity, moved)
    ensures Balanced(c, t) <==> delta == moved
  {
    if delta == moved {
      MovedBalances(c, s, t, activity, delta);
    } else {
      UnevenMoveUnbalances(c, s, t, activity, delta, moved);
    }
  }

  /**
   * A commit that stores a new newest attempt keeps the ledger in balance exactly when what it
   * read before moves as much as what is stored now would.
   */
  lemma {:induction false} BalanceNeedsAFreshRead(c: Content, s: State, sub: Submission, seen: Reads)
    requires c.Valid() && Fits(c, Submit(sub)) && Balanced(c, s) && StartsLast(s, sub)
    requires HasRoom(c, s, sub.activity, SeenDelta(sub, seen))
    ensures Balanced(c, Commit(c, s, sub, seen)) <==> SeenDelta(sub, seen) == AttemptDelta(s, sub, sub.Earned())
  {
    assert sub.NaturalKey() !in s.attempts;
    CommitMovesRows(c, s, sub, seen);
    StoredMovesCredit(s, Commit(c, s, sub, seen), sub);
    EvenMoveBalances(c, s, Commit(c, s, sub, seen), sub.activity, SeenDelta(sub, seen), AttemptDelta(s, sub, sub.Earned()));
  }

  lemma {:induction false} UnevenMoveUnbalances(c: Content, s: State, t: State, activity: Id, delta: int, moved: int)
    requires c.Valid() && c.Knows(activity) && Balanced(c, s) && delta != moved
    requires RowsMoved(c, s, t, activity, delta) && CreditMoved(s, t, activity, moved)
    ensures !Balanced(c, t)
  {
    if activity in c.activities {
      var lesson := c.activities[activity];
      assert LessonBalances(c, s, lesson);
      forall a ensures Credits(t)(a) == Credits(s)(a) + if a == activity then moved else 0 {
        assert Credit(t, a) == Credit(s, a) + if a == activity then moved else 0;
      }
      SumChange(Credits(s), Credits(t), ActivitiesOf(c, lesson), activity);
      assert !LessonBalances(c, t, lesson);
    } else {
      assert LevelBalances(c, s, activity);
      SumSame(LessonPoints(s), LessonPoints(t), LessonsOf(c, activity));
      assert !LevelBalances(c, t, activity);
    }
  }

  /**
   * So two first attempts that both read before either committed are both credited: the lesson
   * ends with the points of both, its activity with those of the newer one only.
   */
  lemma {:induction false} TwoFirstAttemptsAreBothCredited(c: Content, s: State, one: Submission, two: Submission)
    requires c.Valid() && Fits(c, Submit(one)) && Fits(c, Submit(two)) && Balanced(c, s)
    requires one.activity == two.activity && one.activity in c.activities && one.start < two.start && !one.rule && !two.rule
    requires one.points == two.points > 0 && !Tried(s.attempts, one.activity)
    requires HasRoom(c, s, one.activity, one.points) && HasRoom(c, Commit(c, s, one, Read(s, one)), one.activity, two.points)
    ensures var (first, lesson) := (Commit(c, s, one, Read(s, one)), c.activities[one.activity]);
            var both := Commit(c, first, two, Read(s, two));
            && Balanced(c, first) && !Balanced(c, both)
            && LessonPoints(both)(lesson) == LessonPoints(s)(lesson) + one.points + two.points
  {
    var first := Commit(c, s, one, Read(s, one));
    FirstReadsAreEmpty(s, one);
    FirstReadsAreEmpty(s, two);
    assert one.NaturalKey() !in s.attempts;
    CommitMovesRows(c, s, one, Read(s, one));
    BalanceNeedsAFreshRead(c, s, one, Read(s, one));
    FirstIsNewest(first, s, one, two);
    CommitMovesRows(c, first, two, Read(s, two));
    BalanceNeedsAFreshRead(c, first, two, Read(s, two));
  }

  lemma {:induction false} FirstReadsAreEmpty(s: State, sub: Submission)
    requires !Tried(s.attempts, sub.activity)
    ensures SeenDelta(sub, Read(s, sub)) == sub.Earned() == AttemptDelta(s, sub, sub.Earned()) && StartsLast(s, sub)
  {
    TriedHasNewest(s.attempts, sub.activity);
  }

  lemma {:induction false} FirstIsNewest(first: State, s: State, one: Submission, two: Submission)
    requires first.attempts == Inserted(s, one).attempts && !Tried(s.attempts, one.activity)
    requires one.activity == two.activity && one.start < two.start
    ensures StartsLast(first, two) && two.NaturalKey() !in first.attempts
    ensures AttemptDelta(first, two, two.Earned()) == two.Earned() - one.Earned()
  {
    assert IsNewest(first.attempts, one.NaturalKey());
    NewestIs(first.attempts, one.NaturalKey());
  }
}
