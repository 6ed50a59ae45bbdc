/** At-least-once delivery: a run leaves what the run with the repeated deliveries erased leaves. */
module RepeatedDelivery {
  import opened LedgerSpec
  import opened LedgerTheorems
  import opened LedgerRuns

  /** The points of an activity, and whether the pass rule is on for it, do not change over the run. */
  datatype Terms = Terms(price: Id -> nat, ruled: Id -> bool)

  predicate OnTerms(sub: Submission, terms: Terms) {
    sub.points == terms.price(sub.activity) && sub.rule == terms.ruled(sub.activity)
  }

  ghost predicate AllOnTerms(ops: seq<Op>, terms: Terms) {
    forall op :: op in ops && op.Submit? ==> OnTerms(op.sub, terms)
  }

  predicate RowOnTerms(k: Key, row: Attempt, terms: Terms) {
    row.counted || !terms.ruled(k.activity) ==> row.points == terms.price(k.activity)
  }

  /** A counted pass holds the activity's points, and without the rule every attempt does. */
  ghost predicate Priced(attempts: map<Key, Attempt>, terms: Terms) {
    forall k :: k in attempts ==> RowOnTerms(k, attempts[k], terms)
  }

  // ---- passes ------------------------------------------------------------------------------------------------

  predicate IsEarliest(keys: set<Key>, k: Key) {
    k in keys && forall j :: j in keys ==> k.start <= j.start
  }

  lemma {:induction false} SomeIsEarliest(keys: set<Key>) returns (k: Key)
    requires keys != {}
    ensures IsEarliest(keys, k)
    decreases |keys|
  {
    var x :| x in keys;
    var rest := keys - {x};
    assert forall j :: j in keys ==> j in rest || j == x;
    k := x;
    if rest != {} {
      var m := SomeIsEarliest(rest);
      if m.start < x.start {
        k := m;
      }
    }
  }

  lemma {:induction false} PassedHasFirst(attempts: map<Key, Attempt>, activity: Id)
    requires Passed(attempts, activity)
    ensures var k := FirstPass(attempts, activity); k.Some? && IsFirstPass(attempts, k.value) && k.value.activity == activity
  {
    var x :| x in attempts && x.activity == activity && attempts[x].counted;
    var passes := set k | k in attempts && k.activity == activity && attempts[k].counted;
    assert x in passes;
    var k := SomeIsEarliest(passes);
    assert IsFirstPass(attempts, k) && k.activity == activity;
  }

  lemma {:induction false} PassedIsTried(attempts: map<Key, Attempt>, activity: Id)
    requires Passed(attempts, activity)
    ensures Newest(attempts, activity).Some? && Newest(attempts, activity).value in attempts
    ensures Newest(attempts, activity).value.activity == activity
  {
    var k :| k in attempts && k.activity == activity && attempts[k].counted;
    assert Tried(attempts, activity);
    TriedHasNewest(attempts, activity);
  }

  /** A delivery after a pass moves nothing: the pass already holds the activity's points. */
  lemma {:induction false} RepayIsIdentity(c: Content, s: State, sub: Submission, terms: Terms)
    requires c.Valid() && c.Knows(sub.activity) && OnTerms(sub, terms) && Priced(s.attempts, terms)
    requires Passed(s.attempts, sub.activity)
    ensures Repay(c, s, sub) == s
  {
    PassedHasFirst(s.attempts, sub.activity);
    PassedIsTried(s.attempts, sub.activity);
    var k, newest := FirstPass(s.attempts, sub.activity).value, Newest(s.attempts, sub.activity).value;
    assert RowOnTerms(k, s.attempts[k], terms) && RowOnTerms(newest, s.attempts[newest], terms);
    assert s.attempts[k := s.attempts[k].(points := sub.points)] == s.attempts;
  }

  // ---- one operation --------------------------------------------------------------------------------------------

  /** What a submission does to the attempts when the prices are steady. */
  lemma {:induction false} SteadyAttempts(c: Content, s: State, sub: Submission, terms: Terms)
    requires c.Valid() && c.Knows(sub.activity) && OnTerms(sub, terms) && Priced(s.attempts, terms)
    ensures Submitted(c, s, sub).attempts
      == if Passed(s.attempts, sub.activity) || sub.NaturalKey() in s.attempts then s.attempts
         else s.attempts[sub.NaturalKey() := sub.Row()]
  {
    if Passed(s.attempts, sub.activity) {
      RepayIsIdentity(c, s, sub, terms);
    } else {
      RewardKeepsAttempts(c, Inserted(s, sub), sub.activity, sub.Earned() - Num(Read(s, sub).held), 0);
      RewardKeepsAttempts(c, Commit(c, s, sub, Read(s, sub)), sub.activity, 0, sub.scores);
    }
  }

  lemma {:induction false} ViewedAttempts(c: Content, s: State, item: Id, points: nat, ended: bool)
    requires c.Valid() && item in c.activities
    ensures Viewed(c, s, item, points, ended).attempts == s.attempts
  {
    RewardKeepsAttempts(c, ViewMoved(c, s, item, points, ended), item, 0, 0);
  }

  /** A delivery that is recorded, as a row or by a pass, is. */
  ghost predicate IsRecorded(attempts: map<Key, Attempt>, k: Key) {
    k in attempts || Passed(attempts, k.activity)
  }

  lemma {:induction false} GrowthKeepsRecords(before: map<Key, Attempt>, after: map<Key, Attempt>, k: Key)
    requires forall j :: j in before ==> j in after && after[j] == before[j]
    requires IsRecorded(before, k)
    ensures IsRecorded(after, k)
  {
    if k !in before {
      var j :| j in before && j.activity == k.activity && before[j].counted;
      assert j in after && after[j].counted;
    }
  }

  lemma {:induction false} StepOnTerms(c: Content, s: State, op: Op, terms: Terms)
    requires c.Valid() && Fits(c, op) && (op.Submit? ==> OnTerms(op.sub, terms)) && Priced(s.attempts, terms)
    ensures var t := Step(c, s, op);
            && Priced(t.attempts, terms)
            && (forall j :: j in s.attempts ==> j in t.attempts && t.attempts[j] == s.attempts[j])
            && (op.Submit? ==> IsRecorded(t.attempts, op.sub.NaturalKey()))
  {
    match op
    case Submit(sub) =>
      SteadyAttempts(c, s, sub, terms);
      assert RowOnTerms(sub.NaturalKey(), sub.Row(), terms);
    case View(item, points, ended) =>
      ViewedAttempts(c, s, item, points, ended);
  }

  // ---- whole runs ------------------------------------------------------------------------------------------------

  ghost function Erased(ops: seq<Op>): seq<Op> {
    if ops == [] then []
    else
      var (before, last) := (ops[..|ops| - 1], ops[|ops| - 1]);
      Erased(before) + if last.Submit? && Repeats(before, last.sub) then [] else [last]
  }

  lemma {:induction false} ErasedOneMore(ops: seq<Op>, op: Op)
    ensures Erased(ops + [op]) == if op.Submit? && Repeats(ops, op.sub) then Erased(ops) else Erased(ops) + [op]
  {
    assert (ops + [op])[..|ops|] == ops;
  }

  lemma {:induction false} ErasedFit(c: Content, ops: seq<Op>)
    requires AllFit(c, ops)
    ensures AllFit(c, Erased(ops))
  {
    if ops != [] {
      ErasedFit(c, ops[..|ops| - 1]);
    }
  }

  ghost predicate AllRecorded(attempts: map<Key, Attempt>, ops: seq<Op>) {
    forall op :: op in ops && op.Submit? ==> IsRecorded(attempts, op.sub.NaturalKey())
  }

  lemma {:induction false} RunOnTerms(c: Content, s: State, ops: seq<Op>, terms: Terms)
    requires c.Valid() && AllFit(c, ops) && AllOnTerms(ops, terms) && Priced(s.attempts, terms)
    ensures var t := Run(c, s, ops); Priced(t.attempts, terms) && AllRecorded(t.attempts, ops)
  {
    if ops != [] {
      var before, last := ops[..|ops| - 1], ops[|ops| - 1];
      assert ops == before + [last];
      RunOnTerms(c, s, before, terms);
      var t := Run(c, s, before);
      StepOnTerms(c, t, last, terms);
      forall op | op in before && op.Submit? ensures IsRecorded(Step(c, t, last).attempts, op.sub.NaturalKey()) {
        GrowthKeepsRecords(t.attempts, Step(c, t, last).attempts, op.sub.NaturalKey());
      }
    }
  }

  lemma {:induction false} RepeatChangesNothing(c: Content, s: State, sub: Submission, terms: Terms)
    requires c.Valid() && c.Knows(sub.activity) && OnTerms(sub, terms) && Priced(s.attempts, terms)
    requires IsRecorded(s.attempts, sub.NaturalKey())
    ensures Submitted(c, s, sub) == s
  {
    if Passed(s.attempts, sub.activity) {
      RepayIsIdentity(c, s, sub, terms);
    }
  }

  lemma {:induction false} OneMoreOp(c: Content, s: State, ops: seq<Op>, op: Op)
    requires c.Valid() && AllFit(c, ops) && Fits(c, op)
    ensures AllFit(c, ops + [op]) && Run(c, s, ops + [op]) == Step(c, Run(c, s, ops), op)
  {
    assert (ops + [op])[..|ops|] == ops;
  }

  /**
   * Replay: over every run, in any order, attempts, points and stars are those of the run with
   * repeated deliveries erased, when no activity changes its points on the way.
   */
  lemma {:induction false} RepeatsAreErased(c: Content, s: State, ops: seq<Op>, terms: Terms)
    requires c.Valid() && AllFit(c, ops) && AllOnTerms(ops, terms) && Priced(s.attempts, terms)
    ensures AllFit(c, Erased(ops)) && Run(c, s, ops) == Run(c, s, Erased(ops))
  {
    ErasedFit(c, ops);
    if ops != [] {
      var before, last := ops[..|ops| - 1], ops[|ops| - 1];
      assert ops == before + [last];
      RepeatsAreErased(c, s, before, terms);
      OneMoreOp(c, s, before, last);
      ErasedOneMore(before, last);
      if last.Submit? && Repeats(before, last.sub) {
        RunOnTerms(c, s, before, terms);
        RepeatChangesNothing(c, Run(c, s, before), last.sub, terms);
        assert Run(c, s, ops) == Run(c, s, before);
      } else {
        OneMoreOp(c, s, Erased(before), last);
        assert Run(c, s, ops) == Step(c, Run(c, s, Erased(before)), last);
      }
    }
  }
}
