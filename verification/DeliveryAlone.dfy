/**
 * The link between the steps of a request in flight and the request as a whole: with nobody in
 * between, its reads, its transaction and its scoring together are one submission.
 */
module DeliveryAlone {
  import opened Wrappers
  import opened LedgerSpec
  import opened ScoringSteps
  import opened ConcurrentDelivery

  /** The request of turn `i` alone takes the system from `sys` to `t`. */
  ghost predicate Leads(c: Content, sys: System, schedule: seq<nat>, i: nat, t: System) {
    && Fine(c, sys) && Turns(schedule, |sys.requests|) && (forall k :: 0 <= k < |schedule| ==> schedule[k] == i)
    && After(c, sys, schedule) == t
  }

  lemma {:induction false} OneMoreTurn(c: Content, sys: System, schedule: seq<nat>, i: nat, t: System)
    requires Leads(c, sys, schedule, i, t) && i < |sys.requests|
    ensures Fine(c, t) && |t.requests| == |sys.requests| && Leads(c, sys, schedule + [i], i, StepOf(c, t, i))
  {
    assert (schedule + [i])[..|schedule|] == schedule;
  }

  /** Where the request stands: the state and its own phase; the others have not moved. */
  ghost predicate StandsAt(c: Content, sys: System, schedule: seq<nat>, i: nat, s: State, phase: Phase) {
    i < |sys.requests| && Leads(c, sys, schedule, i, System(s, sys.requests[i := sys.requests[i].(phase := phase)]))
  }

  /** One turn of it. */
  lemma {:induction false} Turn(c: Content, sys: System, schedule: seq<nat>, i: nat, s: State, phase: Phase)
    returns (longer: seq<nat>)
    requires StandsAt(c, sys, schedule, i, s, phase)
    ensures var r := sys.requests[i].(phase := phase);
            c.Valid() && Fits(c, Submit(r.sub)) && InRange(c, r) && StandsAt(c, sys, longer, i, NextState(c, s, r), NextPhase(c, s, r))
  {
    var t := System(s, sys.requests[i := sys.requests[i].(phase := phase)]);
    OneMoreTurn(c, sys, schedule, i, t);
    longer := schedule + [i];
    assert StepOf(c, t, i).requests == sys.requests[i := sys.requests[i].(phase := NextPhase(c, s, t.requests[i]))];
  }

  /** The reads, one after the other, are one read of the state. */
  lemma {:induction false} ReadsAlone(c: Content, sys: System, schedule: seq<nat>, i: nat, s: State)
    returns (longer: seq<nat>)
    requires StandsAt(c, sys, schedule, i, s, Reading(0, Reads(false, None, None)))
    ensures StandsAt(c, sys, longer, i, s, Reading(3, Read(s, sys.requests[i].sub)))
  {
    var now := Read(s, sys.requests[i].sub);
    longer := Turn(c, sys, schedule, i, s, Reading(0, Reads(false, None, None)));
    longer := Turn(c, sys, longer, i, s, Reading(1, Reads(now.tried, None, None)));
    longer := Turn(c, sys, longer, i, s, Reading(2, Reads(now.tried, now.held, None)));
  }

  /** The rest of a scoring. */
  lemma {:induction false} ScoresAlone(c: Content, sys: System, schedule: seq<nat>, i: nat, s: State, p: Progress)
    returns (longer: seq<nat>)
    requires StandsAt(c, sys, schedule, i, s, Scoring(p)) && c.Valid() && Fits(c, Submit(sys.requests[i].sub))
    requires p.row < |Holders(c, sys.requests[i].sub.activity)|
    ensures StandsAt(c, sys, longer, i, Alone(c, s, sys.requests[i].sub.activity, p), Finished(true))
    decreases |Holders(c, sys.requests[i].sub.activity)| - p.row, if p.held.None? then 1 else 0
  {
    var activity := sys.requests[i].sub.activity;
    var next, after := ProgressAfter(c, s, activity, p), StateAfter(c, s, activity, p);
    longer := Turn(c, sys, schedule, i, s, Scoring(p));
    if next.row < |Holders(c, activity)| {
      longer := ScoresAlone(c, sys, longer, i, after, next);
    }
  }

  lemma {:induction false} PassedAlone(c: Content, sys: System, schedule: seq<nat>, i: nat, s: State)
    returns (longer: seq<nat>)
    requires StandsAt(c, sys, schedule, i, s, Paying) && c.Valid() && Fits(c, Submit(sys.requests[i].sub))
    ensures StandsAt(c, sys, longer, i, Repay(c, s, sys.requests[i].sub), Finished(false))
  {
    var held := HeldOf(s, sys.requests[i].sub);
    HeldRepays(c, s, sys.requests[i].(phase := HasHeld(held)));
    longer := Turn(c, sys, schedule, i, s, Paying);
    longer := Turn(c, sys, longer, i, s, HasHeld(held));
  }

  lemma {:induction false} HeldRepays(c: Content, s: State, r: Request)
    requires c.Valid() && Fits(c, Submit(r.sub)) && r.phase == HasHeld(HeldOf(s, r.sub))
    ensures NextState(c, s, r) == Repay(c, s, r.sub)
  {
  }

  lemma {:induction false} StoresAlone(c: Content, sys: System, schedule: seq<nat>, i: nat, s: State)
    returns (longer: seq<nat>, created: bool)
    requires i < |sys.requests| && StandsAt(c, sys, schedule, i, s, Reading(3, Read(s, sys.requests[i].sub)))
    requires c.Valid() && Fits(c, Submit(sys.requests[i].sub)) && !Passed(s.attempts, sys.requests[i].sub.activity)
    ensures StandsAt(c, sys, longer, i, Submitted(c, s, sys.requests[i].sub), Finished(created))
    ensures created <==> sys.requests[i].sub.NaturalKey() !in s.attempts
  {
    var sub := sys.requests[i].sub;
    var stored := Commit(c, s, sub, Read(s, sub));
    created := sub.NaturalKey() !in s.attempts;
    longer := Turn(c, sys, schedule, i, s, Reading(3, Read(s, sub)));
    if created {
      longer := ScoresAlone(c, sys, longer, i, stored, Progress(0, None, sub.scores));
      AloneIsAddStars(c, stored, sub.activity, sub.scores);
    }
  }

  /**
   * A request that arrives and takes its turns with nobody in between leaves exactly what the
   * submission does as one step, whatever the rows hold, and creates a row exactly when it was to.
   */
  lemma {:induction false} AloneIsSubmitted(c: Content, sys: System, i: nat) returns (schedule: seq<nat>, created: bool)
    requires Fine(c, sys) && i < |sys.requests| && sys.requests[i].phase == Arrived
    ensures StandsAt(c, sys, schedule, i, Submitted(c, sys.state, sys.requests[i].sub), Finished(created))
    ensures var (s, sub) := (sys.state, sys.requests[i].sub);
            created <==> !Passed(s.attempts, sub.activity) && sub.NaturalKey() !in s.attempts
  {
    var s, sub := sys.state, sys.requests[i].sub;
    assert sys.requests[i := sys.requests[i].(phase := Arrived)] == sys.requests;
    assert StandsAt(c, sys, [], i, s, Arrived);
    schedule := Turn(c, sys, [], i, s, Arrived);
    if Passed(s.attempts, sub.activity) {
      schedule := PassedAlone(c, sys, schedule, i, s);
      created := false;
    } else {
      schedule := ReadsAlone(c, sys, schedule, i, s);
      schedule, created := StoresAlone(c, sys, schedule, i, s);
    }
  }
}
