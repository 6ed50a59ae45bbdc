/** The ledger's methods, each proved to do what LedgerSpec says of the stored rows. */
module Ledger {
  import opened Wrappers
  import opened LedgerSpec
  import opened LedgerTheorems

  class StudentLedger {
    const content: Content
    var attempts: map<Key, Attempt>
    var viewings: map<Id, Viewing>
    var lessons: map<Id, LessonRow>
    var levels: map<Id, LevelRow>
    var grades: map<Id, GradeRow>

    ghost function Rows(): State
      reads this
    {
      State(attempts, viewings, lessons, levels, grades)
    }

    constructor (content: Content)
      ensures this.content == content && Rows() == State(map[], map[], map[], map[], map[])
    {
      this.content := content;
      attempts, viewings, lessons, levels, grades := map[], map[], map[], map[], map[];
    }

    // ---- points ---------------------------------------------------------------------------------------------

    method AddToLevel(level: Id, points: int)
      modifies `levels
      ensures levels == old(levels)[level := LevelAfter(old(levels), level, points)]
    {
      if level !in levels {
        levels := levels[level := LevelRow(if points >= 0 then points else 0, 0, false)];
      } else {
        var row := levels[level];
        var sum := row.points + if points < 0 && row.points + points < 0 then 0 else points;
        levels := levels[level := row.(points := sum)];
      }
    }

    method AddToGrade(grade: Id, points: int)
      modifies `grades
      ensures grades == old(grades)[grade := GradeAfter(old(grades), grade, points)]
    {
      if grade !in grades {
        grades := grades[grade := GradeRow(if points >= 0 then points else 0, 0)];
      } else {
        var row := grades[grade];
        var sum := row.points + if points < 0 && row.points + points < 0 then 0 else points;
        grades := grades[grade := row.(points := sum)];
      }
    }

    method UpdateUserReward(lesson: Id, earned: nat, held: Option<nat>)
      requires content.Valid() && lesson in content.lessons
      modifies `lessons, `levels, `grades
      ensures Rows() == LessonReward(content, old(Rows()), lesson, earned - Num(held))
    {
      var points: int := earned;
      if held.Some? && held.value != 0 {
        points := points - held.value;
      }
      var total := content.lessons[lesson].total;
      if lesson !in lessons {
        lessons := lessons[lesson := LessonRow(if points >= 0 then points else 0, 0, false)];
      } else {
        var row := lessons[lesson];
        var sum := row.points + if points < 0 && row.points + points < 0 then 0 else points;
        if sum > total {
          var overflow := sum - total;
          sum := total;
          points := Max(0, points - overflow);
        }
        lessons := lessons[lesson := row.(points := sum)];
      }
      var level := content.lessons[lesson].level;
      AddToLevel(level, points);
      AddToGrade(content.levels[level], points);
    }

    method UpdateLevelQuizReward(level: Id, earned: nat, held: Option<nat>)
      requires level in content.levels
      modifies `levels, `grades
      ensures Rows() == LevelReward(content, old(Rows()), level, earned - Num(held))
    {
      var points: int := earned;
      if held.Some? && held.value != 0 {
        points := points - held.value;
      }
      AddToLevel(level, points);
      AddToGrade(content.levels[level], points);
    }

    method RewardFor(activity: Id, earned: nat, held: Option<nat>)
      requires content.Valid() && content.Knows(activity)
      modifies `lessons, `levels, `grades
      ensures Rows() == Reward(content, old(Rows()), activity, earned - Num(held))
    {
      if activity in content.activities {
        UpdateUserReward(content.activities[activity], earned, held);
      } else {
        UpdateLevelQuizReward(activity, earned, held);
      }
    }

    // ---- stars ------------------------------------------------------------------------------------------------

    method AddGradeStars(grade: Id, stars: nat)
      modifies `grades
      ensures grades == AddedToGrade(old(grades), grade, stars)
    {
      if grade in grades {
        grades := grades[grade := grades[grade].(stars := grades[grade].stars + stars)];
      }
    }

    method AddStudentScores(lesson: Id, added: nat)
      requires content.Valid() && lesson in content.lessons
      modifies `lessons, `levels, `grades
      ensures Rows() == AddLessonStars(content, old(Rows()), lesson, added)
    {
      var scores := added;
      if lesson in lessons {
        var row := lessons[lesson];
        if IsFull(row.points, content.lessons[lesson].total) && !row.bonus {
          scores := scores + 1;
          row := row.(bonus := true);
        }
        lessons := lessons[lesson := row.(stars := row.stars + scores)];
      }
      var level := content.lessons[lesson].level;
      if level in levels {
        levels := levels[level := levels[level].(stars := levels[level].stars + scores)];
      }
      AddGradeStars(content.levels[level], scores);
    }

    method AddStudentLevelQuizScores(level: Id, added: nat)
      requires level in content.levels
      modifies `levels, `grades
      ensures Rows() == AddLevelStars(content, old(Rows()), level, added)
    {
      var scores := added;
      if level in levels {
        var row := levels[level];
        if !row.quizBonus {
          scores := scores + 1;
          row := row.(quizBonus := true);
        }
        levels := levels[level := row.(stars := row.stars + scores)];
      }
      AddGradeStars(content.levels[level], scores);
    }

    method ScoresFor(activity: Id, scores: nat)
      requires content.Valid() && content.Knows(activity)
      modifies `lessons, `levels, `grades
      ensures Rows() == AddStars(content, old(Rows()), activity, scores)
    {
      if activity in content.activities {
        AddStudentScores(content.activities[activity], scores);
      } else {
        AddStudentLevelQuizScores(activity, scores);
      }
    }

    // ---- reads --------------------------------------------------------------------------------------------------

    /** The attempts at an activity. */
    method AttemptsOf(activity: Id) returns (keys: set<Key>)
      ensures keys == set k | k in attempts && k.activity == activity
    {
      keys := set k | k in attempts && k.activity == activity;
    }

    /** ORDER BY starttime DESC LIMIT 1. */
    method GetNewestAttempt(activity: Id) returns (newest: Option<Key>)
      ensures newest == Newest(attempts, activity)
    {
      var rest := AttemptsOf(activity);
      newest := None;
      while rest != {}
        invariant forall k :: k in rest ==> k in attempts && k.activity == activity
        invariant newest.None? ==> forall k :: k in attempts && k.activity == activity ==> k in rest
        invariant newest.Some? ==> newest.value in attempts && newest.value.activity == activity
        invariant newest.Some? ==> forall k :: k in attempts && k.activity == activity && k !in rest ==> k.start <= newest.value.start
        decreases rest
      {
        var k :| k in rest;
        rest := rest - {k};
        if newest.None? || k.start > newest.value.start {
          newest := Some(k);
        }
      }
      if newest.Some? {
        NewestIs(attempts, newest.value);
      }
      TriedHasNewest(attempts, activity);
    }

    /** The counted pass of the earliest start. */
    method GetFirstPass(activity: Id) returns (pass: Option<Key>)
      ensures pass == FirstPass(attempts, activity)
    {
      var rest := AttemptsOf(activity);
      pass := None;
      while rest != {}
        invariant forall k :: k in rest ==> k in attempts && k.activity == activity
        invariant pass.None? ==> forall k :: k in attempts && k.activity == activity && attempts[k].counted ==> k in rest
        invariant pass.Some? ==> pass.value in attempts && pass.value.activity == activity && attempts[pass.value].counted
        invariant pass.Some? ==>
          forall k :: k in attempts && k.activity == activity && attempts[k].counted && k !in rest ==> pass.value.start <= k.start
        decreases rest
      {
        var k :| k in rest;
        rest := rest - {k};
        if attempts[k].counted && (pass.None? || k.start < pass.value.start) {
          pass := Some(k);
        }
      }
      if pass.Some? {
        FirstPassIsOne(attempts, pass.value);
      }
    }

    method IsPass(activity: Id) returns (passed: bool)
      ensures passed == Passed(attempts, activity)
    {
      var keys := AttemptsOf(activity);
      passed := exists k :: k in keys && attempts[k].counted;
    }

    // ---- requests --------------------------------------------------------------------------------------------------

    /** What a request reads before its transaction. */
    method ReadBefore(sub: Submission) returns (seen: Reads)
      ensures seen == Read(Rows(), sub)
    {
      var newest := GetNewestAttempt(sub.activity);
      ReadIs(Rows(), sub, newest);
      if newest.None? {
        return Reads(false, None, None);
      }
      var points := attempts[newest.value].points;
      return Reads(true, if points != sub.Earned() then Some(points) else None, Some(newest.value.start));
    }

    /** The transaction of an attempt: the row is created when its key is new, and only then do points move. */
    method StoreAttempt(sub: Submission, seen: Reads) returns (created: bool)
      requires content.Valid() && content.Knows(sub.activity)
      modifies this
      ensures created == (sub.NaturalKey() !in old(attempts))
      ensures Rows() == Commit(content, old(Rows()), sub, seen)
    {
      if sub.NaturalKey() in attempts {
        return false;
      }
      attempts := attempts[sub.NaturalKey() := sub.Row()];
      var stale := sub.rule && !sub.ispass && seen.newest.Some? && seen.newest.value > sub.start;
      if !stale && (!seen.tried || seen.held.Some?) {
        RewardFor(sub.activity, sub.Earned(), seen.held);
      }
      return true;
    }

    /**
     * The create path of a quiz, a practice or a level's quiz. For a key that is stored already the
     * first two answer with the stored row and a level's quiz with an error: no row changes in either.
     */
    method CreateProgress(sub: Submission)
      requires content.Valid() && content.Knows(sub.activity)
      modifies this
      ensures Rows() == if sub.NaturalKey() in old(attempts) then old(Rows())
                        else AddStars(content, Commit(content, old(Rows()), sub, Read(old(Rows()), sub)), sub.activity, sub.scores)
    {
      var seen := ReadBefore(sub);
      var created := StoreAttempt(sub, seen);
      if created {
        ScoresFor(sub.activity, sub.scores);
      }
    }

    /** The path of an activity that is passed: the pass row takes the current points. */
    method RepayPass(sub: Submission)
      requires content.Valid() && content.Knows(sub.activity)
      modifies `attempts, `lessons, `levels, `grades
      ensures Rows() == Repay(content, old(Rows()), sub)
    {
      var pass := GetFirstPass(sub.activity);
      var newest := GetNewestAttempt(sub.activity);
      var from := if sub.rule then pass else newest;
      var held := if from.Some? && from.value in attempts then attempts[from.value].points else 0;
      if pass.Some? && pass.value in attempts {
        attempts := attempts[pass.value := attempts[pass.value].(points := sub.points)];
      }
      if held != sub.points {
        RewardFor(sub.activity, sub.points, Some(held));
      }
    }

    method Submit(sub: Submission)
      requires content.Valid() && content.Knows(sub.activity)
      modifies this
      ensures Rows() == Submitted(content, old(Rows()), sub)
    {
      var passed := IsPass(sub.activity);
      if passed {
        RepayPass(sub);
      } else {
        CreateProgress(sub);
      }
    }

    method UpdateLearningProgress(item: Id, points: nat, ended: bool)
      requires content.Valid() && item in content.activities
      modifies this
      ensures Rows() == Viewed(content, old(Rows()), item, points, ended)
    {
      StoreViewing(item, points, ended);
      if ended {
        ScoresFor(item, 0);
      }
    }

    /** The transaction of a report: the item's row, and the points it moves. */
    method StoreViewing(item: Id, points: nat, ended: bool)
      requires content.Valid() && item in content.activities
      modifies this
      ensures Rows() == ViewMoved(content, old(Rows()), item, points, ended)
    {
      var held := None;
      if item !in viewings {
        viewings := viewings[item := Viewing(if ended then 1 else 0, if ended then points else 0)];
      } else {
        var row := viewings[item];
        held := if (row.viewed > 0 || ended) && row.points != points then Some(row.points) else None;
        viewings := viewings[item := Viewing(row.viewed + if ended then 1 else 0, if row.viewed > 0 || ended then points else 0)];
      }
      if held.Some? || (viewings[item].viewed == 1 && ended) {
        RewardFor(item, points, held);
      }
    }
  }

  /** The reads of a request, by the newest attempt. */
  lemma {:induction false} ReadIs(s: State, sub: Submission, newest: Option<Key>)
    requires newest == Newest(s.attempts, sub.activity)
    ensures newest.Some? ==> newest.value in s.attempts
    ensures Read(s, sub)
      == if newest.None? then Reads(false, None, None)
         else Reads(true, OldPoints(s.attempts[newest.value].points, sub.Earned()), Some(newest.value.start))
  {
    TriedHasNewest(s.attempts, sub.activity);
  }

  lemma {:induction false} FirstPassIsOne(attempts: map<Key, Attempt>, k: Key)
    requires IsFirstPass(attempts, k)
    ensures FirstPass(attempts, k.activity) == Some(k)
  {
  }
}
