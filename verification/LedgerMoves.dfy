/**
 * The points each request moves, read from the stored rows: a first attempt, a later one, a request
 * after a pass, and a report on a learning item.
 */
module LedgerMoves {
  import opened Wrappers
  import opened LedgerSpec
  import opened LedgerTheorems
  import opened LedgerRuns
  import opened LedgerStars
  import opened RepeatedDelivery
  import opened LedgerRewards

  /** The latest attempt of the activity. */
  ghost predicate IsLatest(s: State, activity: Id, k: Key) {
    k in s.attempts && k.activity == activity && forall j :: j in s.attempts && j.activity == activity ==> j.start <= k.start
  }

  /** The earliest of its counted passes. */
  ghost predicate IsEarliestPass(s: State, activity: Id, k: Key) {
    && k in s.attempts && k.activity == activity && s.attempts[k].counted
    && forall j :: j in s.attempts && j.activity == activity && s.attempts[j].counted ==> k.start <= j.start
  }

  lemma {:induction false} LatestIsNewest(s: State, activity: Id, k: Key)
    requires IsLatest(s, activity, k)
    ensures Newest(s.attempts, activity) == Some(k) && Tried(s.attempts, activity)
  {
    TriedHasNewest(s.attempts, activity);
    var newest := Newest(s.attempts, activity).value;
    assert newest.start == k.start;
  }

  lemma {:induction false} EarliestIsFirst(s: State, activity: Id, k: Key)
    requires IsEarliestPass(s, activity, k)
    ensures FirstPass(s.attempts, activity) == Some(k) && Passed(s.attempts, activity)
  {
    PassedHasFirst(s.attempts, activity);
    var first := FirstPass(s.attempts, activity).value;
    assert first.start == k.start;
  }

  // ---- points at any lesson, level and grade -----------------------------------------------------------------------

  /** A lesson, a level and a grade to look at: any, not only the activity's own. */
  datatype Place = Place(lesson: Id, level: Id, grade: Id)

  datatype Points = Points(lesson: int, level: int, grade: int)

  /** What their rows hold, 0 where there is none. */
  function PointsIn(s: State, x: Place): Points {
    Points(if x.lesson in s.lessons then s.lessons[x.lesson].points else 0,
           if x.level in s.levels then s.levels[x.level].points else 0,
           if x.grade in s.grades then s.grades[x.grade].points else 0)
  }

  /** What they hold once the activity's lesson, level and grade are rewarded by `delta`. */
  function Rewarded(c: Content, s: State, activity: Id, delta: int, x: Place): Points
    requires c.Valid() && c.Knows(activity)
  {
    PointsIn(Reward(c, s, activity, delta), x)
  }

  lemma {:induction false} StarsKeepPoints(c: Content, s: State, activity: Id, scores: nat, x: Place)
    requires c.Valid() && c.Knows(activity)
    ensures PointsIn(AddStars(c, s, activity, scores), x) == PointsIn(s, x)
  {
    StarsKeepAttempts(c, s, Submission(activity, 0, 0, false, false, false, scores));
    var t := AddStars(c, s, activity, scores);
    assert LessonPoints(t)(x.lesson) == LessonPoints(s)(x.lesson) && LevelPoints(t)(x.level) == LevelPoints(s)(x.level);
    assert GradePoints(t)(x.grade) == GradePoints(s)(x.grade);
  }

  /** A reward reads no attempt and no viewing. */
  lemma {:induction false} RewardReadsRows(c: Content, s: State, other: State, activity: Id, delta: int, x: Place)
    requires c.Valid() && c.Knows(activity)
    requires other.lessons == s.lessons && other.levels == s.levels && other.grades == s.grades
    ensures PointsIn(Reward(c, other, activity, delta), x) == Rewarded(c, s, activity, delta, x)
  {
  }

  // ---- attempts ------------------------------------------------------------------------------------------------------

  lemma {:induction false} NewAttemptStores(c: Content, s: State, sub: Submission, x: Place)
    requires c.Valid() && c.Knows(sub.activity) && IsNewAttempt(s, sub)
    ensures PointsIn(Submitted(c, s, sub), x) == PointsIn(Commit(c, s, sub, Read(s, sub)), x)
  {
    NewIsNotPassed(s, sub);
    StarsKeepPoints(c, Commit(c, s, sub, Read(s, sub)), sub.activity, sub.scores, x);
  }

  lemma {:induction false} CommitMoves(c: Content, s: State, sub: Submission, seen: Reads, x: Place)
    requires c.Valid() && c.Knows(sub.activity) && sub.NaturalKey() !in s.attempts
    ensures PointsIn(Commit(c, s, sub, seen), x)
      == if Moves(sub, seen) then Rewarded(c, s, sub.activity, sub.Earned() - Num(seen.held), x) else PointsIn(s, x)
  {
    RewardReadsRows(c, s, Inserted(s, sub), sub.activity, sub.Earned() - Num(seen.held), x);
  }

  /** A first attempt earns the activity's points, and under the pass rule only if it passed. */
  lemma {:induction false} FirstAttemptMoves(c: Content, s: State, sub: Submission, x: Place)
    requires c.Valid() && c.Knows(sub.activity) && forall k :: k in s.attempts ==> k.activity != sub.activity
    ensures PointsIn(Submitted(c, s, sub), x)
      == Rewarded(c, s, sub.activity, if sub.rule && !sub.ispass then 0 else sub.points, x)
  {
    TriedHasNewest(s.attempts, sub.activity);
    assert sub.NaturalKey().activity == sub.activity;
    NewAttemptStores(c, s, sub, x);
    CommitMoves(c, s, sub, Read(s, sub), x);
  }

  lemma {:induction false} LatestIsRead(s: State, sub: Submission, k: Key)
    requires IsLatest(s, sub.activity, k)
    ensures Read(s, sub) == Reads(true, OldPoints(s.attempts[k].points, sub.Earned()), Some(k.start))
  {
    LatestIsNewest(s, sub.activity, k);
  }

  /**
   * A later attempt moves the difference between what it earns and what the latest stored one holds;
   * a failed one under the pass rule that started before that one moves nothing.
   */
  lemma {:induction false} LaterAttemptMoves(c: Content, s: State, sub: Submission, k: Key, x: Place)
    requires c.Valid() && c.Knows(sub.activity) && IsNewAttempt(s, sub) && IsLatest(s, sub.activity, k)
    ensures var failed := sub.rule && !sub.ispass;
            var delta := (if failed then 0 else sub.points) - s.attempts[k].points;
            PointsIn(Submitted(c, s, sub), x)
              == if delta == 0 || (failed && k.start > sub.start) then PointsIn(s, x) else Rewarded(c, s, sub.activity, delta, x)
  {
    var seen, delta := Read(s, sub), (if sub.rule && !sub.ispass then 0 else sub.points) - s.attempts[k].points;
    LatestIsRead(s, sub, k);
    LaterMovesWhen(sub, seen, s.attempts[k].points, k.start);
    NewAttemptStores(c, s, sub, x);
    LaterCommitMoves(c, s, sub, seen, delta, x);
  }

  /** When a later attempt moves points, and how many. */
  lemma {:induction false} LaterMovesWhen(sub: Submission, seen: Reads, held: nat, latest: int)
    requires seen == Reads(true, OldPoints(held, sub.Earned()), Some(latest))
    ensures var (failed, delta) := (sub.rule && !sub.ispass, sub.Earned() - held);
            && (Moves(sub, seen) <==> delta != 0 && !(failed && latest > sub.start))
            && (Moves(sub, seen) ==> sub.Earned() - Num(seen.held) == delta)
  {
  }

  lemma {:induction false} LaterCommitMoves(c: Content, s: State, sub: Submission, seen: Reads, delta: int, x: Place)
    requires c.Valid() && c.Knows(sub.activity) && sub.NaturalKey() !in s.attempts
    requires Moves(sub, seen) ==> sub.Earned() - Num(seen.held) == delta
    ensures PointsIn(Commit(c, s, sub, seen), x) == if Moves(sub, seen) then Rewarded(c, s, sub.activity, delta, x) else PointsIn(s, x)
  {
    CommitMoves(c, s, sub, seen, x);
  }

  lemma {:induction false} PaidMoves(c: Content, s: State, paid: State, activity: Id, delta: int, after: State, x: Place)
    requires c.Valid() && c.Knows(activity)
    requires paid.lessons == s.lessons && paid.levels == s.levels && paid.grades == s.grades
    requires after == if delta == 0 then paid else Reward(c, paid, activity, delta)
    ensures PointsIn(after, x) == if delta == 0 then PointsIn(s, x) else Rewarded(c, s, activity, delta, x)
  {
    RewardReadsRows(c, s, paid, activity, delta, x);
  }

  lemma {:induction false} RepaidIs(c: Content, s: State, sub: Submission, held: nat)
    requires c.Valid() && c.Knows(sub.activity)
    requires held == PointsAt(s.attempts, if sub.rule then FirstPass(s.attempts, sub.activity) else Newest(s.attempts, sub.activity))
    ensures var (delta, paid) := (sub.points - held, PassPaid(s, sub.activity, sub.points));
            Repay(c, s, sub) == if delta == 0 then paid else Reward(c, paid, sub.activity, delta)
  {
  }

  lemma {:induction false} RepayMoves(c: Content, s: State, sub: Submission, held: nat, x: Place)
    requires c.Valid() && c.Knows(sub.activity)
    requires held == PointsAt(s.attempts, if sub.rule then FirstPass(s.attempts, sub.activity) else Newest(s.attempts, sub.activity))
    ensures var delta := sub.points - held;
            PointsIn(Repay(c, s, sub), x) == if delta == 0 then PointsIn(s, x) else Rewarded(c, s, sub.activity, delta, x)
  {
    RepaidIs(c, s, sub, held);
    PaidMoves(c, s, PassPaid(s, sub.activity, sub.points), sub.activity, sub.points - held, Repay(c, s, sub), x);
  }

  lemma {:induction false} AfterPassIsRepay(c: Content, s: State, sub: Submission, pass: Key)
    requires c.Valid() && c.Knows(sub.activity) && pass in s.attempts && pass.activity == sub.activity && s.attempts[pass].counted
    ensures Submitted(c, s, sub) == Repay(c, s, sub)
  {
    assert Passed(s.attempts, sub.activity);
  }

  /** A request after a counted pass, for what is held. */
  lemma {:induction false} PassedRequestMoves(c: Content, s: State, sub: Submission, pass: Key, held: nat, t: State,
                                              x: Place)
    requires c.Valid() && c.Knows(sub.activity) && t == Submitted(c, s, sub)
    requires pass in s.attempts && pass.activity == sub.activity && s.attempts[pass].counted
    requires held == PointsAt(s.attempts, if sub.rule then FirstPass(s.attempts, sub.activity) else Newest(s.attempts, sub.activity))
    ensures PointsIn(t, x) == if sub.points == held then PointsIn(s, x) else Rewarded(c, s, sub.activity, sub.points - held, x)
  {
    AfterPassIsRepay(c, s, sub, pass);
    RepayMoves(c, s, sub, held, x);
  }

  lemma {:induction false} HeldUnderRule(s: State, sub: Submission, k: Key)
    requires sub.rule && IsEarliestPass(s, sub.activity, k)
    ensures s.attempts[k].points
      == PointsAt(s.attempts, if sub.rule then FirstPass(s.attempts, sub.activity) else Newest(s.attempts, sub.activity))
  {
    EarliestIsFirst(s, sub.activity, k);
  }

  lemma {:induction false} HeldWithoutRule(s: State, sub: Submission, k: Key)
    requires !sub.rule && IsLatest(s, sub.activity, k)
    ensures s.attempts[k].points
      == PointsAt(s.attempts, if sub.rule then FirstPass(s.attempts, sub.activity) else Newest(s.attempts, sub.activity))
  {
    LatestIsNewest(s, sub.activity, k);
  }

  /**
   * After a counted pass a request moves the difference between the activity's current points and
   * what the earliest counted pass holds, where the pass rule is on.
   */
  lemma {:induction false} RequestAfterPassMoves(c: Content, s: State, sub: Submission, k: Key, t: State, x: Place)
    requires c.Valid() && c.Knows(sub.activity) && t == Submitted(c, s, sub)
    requires sub.rule && IsEarliestPass(s, sub.activity, k)
    ensures var held := s.attempts[k].points;
            PointsIn(t, x) == if sub.points == held then PointsIn(s, x) else Rewarded(c, s, sub.activity, sub.points - held, x)
  {
    HeldUnderRule(s, sub, k);
    PassedRequestMoves(c, s, sub, k, s.attempts[k].points, t, x);
  }

  /** Where it is off, the difference to what the latest attempt holds, passed or not. */
  lemma {:induction false} UnruledRequestAfterPassMoves(c: Content, s: State, sub: Submission, pass: Key, k: Key, t: State,
                                                        x: Place)
    requires c.Valid() && c.Knows(sub.activity) && t == Submitted(c, s, sub)
    requires !sub.rule && IsLatest(s, sub.activity, k)
    requires pass in s.attempts && pass.activity == sub.activity && s.attempts[pass].counted
    ensures var held := s.attempts[k].points;
            PointsIn(t, x) == if sub.points == held then PointsIn(s, x) else Rewarded(c, s, sub.activity, sub.points - held, x)
  {
    HeldWithoutRule(s, sub, k);
    PassedRequestMoves(c, s, sub, pass, s.attempts[k].points, t, x);
  }

  // ---- learning items ----------------------------------------------------------------------------------------------

  function ViewedBefore(s: State, item: Id): nat {
    if item in s.viewings then s.viewings[item].viewed else 0
  }

  function HeldBefore(s: State, item: Id): nat {
    if item in s.viewings then s.viewings[item].points else 0
  }

  /** A report counts a viewing when it reached the end, and the item holds its points from the first one on. */
  lemma {:induction false} ReportStores(c: Content, s: State, item: Id, points: nat, ended: bool)
    requires c.Valid() && item in c.activities
    ensures var views := ViewedBefore(s, item) + if ended then 1 else 0;
            Viewed(c, s, item, points, ended).viewings == s.viewings[item := Viewing(views, if views > 0 then points else 0)]
  {
    var stored, moved := ViewStored(s, item, points, ended), ViewMoved(c, s, item, points, ended);
    var delta := ViewIsStoredOrMoved(c, s, item, points, ended);
    RewardKeepsAttempts(c, stored, item, delta, 0);
    RewardKeepsAttempts(c, moved, item, 0, 0);
  }

  lemma {:induction false} ViewMovesBy(c: Content, s: State, item: Id, points: nat, ended: bool, stored: State, delta: int)
    requires c.Valid() && item in c.activities && (ViewedBefore(s, item) == 0 ==> HeldBefore(s, item) == 0)
    requires stored == ViewStored(s, item, points, ended)
    requires delta == (if ViewedBefore(s, item) > 0 || ended then points else 0) - HeldBefore(s, item)
    ensures var moved := ViewMoved(c, s, item, points, ended);
            moved == Reward(c, stored, item, delta) || (moved == stored && delta == 0)
  {
  }

  lemma {:induction false} ViewMoves(c: Content, s: State, item: Id, stored: State, moved: State, delta: int, x: Place)
    requires c.Valid() && item in c.activities && (moved == Reward(c, stored, item, delta) || (moved == stored && delta == 0))
    requires stored.lessons == s.lessons && stored.levels == s.levels && stored.grades == s.grades
    ensures PointsIn(moved, x) == Rewarded(c, s, item, delta, x) || (delta == 0 && PointsIn(moved, x) == PointsIn(s, x))
  {
    RewardReadsRows(c, s, stored, item, delta, x);
  }

  lemma {:induction false} ReportKeepsPoints(c: Content, s: State, item: Id, points: nat, ended: bool, x: Place)
    requires c.Valid() && item in c.activities
    ensures PointsIn(Viewed(c, s, item, points, ended), x) == PointsIn(ViewMoved(c, s, item, points, ended), x)
  {
    if ended {
      StarsKeepPoints(c, ViewMoved(c, s, item, points, ended), item, 0, x);
    }
  }

  /**
   * And it moves the difference between what the item holds now and what it held; where there is none
   * nothing moves, but that a lesson above its total may come down to it.
   */
  lemma {:induction false} ReportMoves(c: Content, s: State, item: Id, points: nat, ended: bool, x: Place)
    requires c.Valid() && item in c.activities && (ViewedBefore(s, item) == 0 ==> HeldBefore(s, item) == 0)
    ensures var delta := (if ViewedBefore(s, item) > 0 || ended then points else 0) - HeldBefore(s, item);
            var after := PointsIn(Viewed(c, s, item, points, ended), x);
            after == Rewarded(c, s, item, delta, x) || (delta == 0 && after == PointsIn(s, x))
  {
    var delta := (if ViewedBefore(s, item) > 0 || ended then points else 0) - HeldBefore(s, item);
    var stored := ViewStored(s, item, points, ended);
    ViewMovesBy(c, s, item, points, ended, stored, delta);
    ViewMoves(c, s, item, stored, ViewMoved(c, s, item, points, ended), delta, x);
    ReportKeepsPoints(c, s, item, points, ended, x);
  }
}
