/**
 * Percentages with two decimals, and the pass, completion and star rules built on them.
 * A percentage is kept in hundredths (80.00 is 8000); rounding is to the nearest hundredth,
 * a half upwards, of the exact quotient.
 */
module ProgressRules {
  import opened Wrappers

  /** COMPLETED_PERCENTAGE, in hundredths. */
  const COMPLETED: nat := 8000

  function RoundedPercent(points: nat, total: nat): nat
    requires total > 0
  {
    (20000 * points + total) / (2 * total)
  }

  /** The stored progress of a row; none when the total gives no finite percentage. */
  function ProgressPercent(points: nat, total: Option<nat>): Option<nat> {
    if total == None || total.value == 0 then None else Some(RoundedPercent(points, total.value))
  }

  predicate PercentCompleted(progress: nat) {
    progress >= COMPLETED
  }

  /** The points that complete a lesson; none when nothing can (an infinite mark). */
  function LessonPassMark(passing: Option<nat>, total: Option<nat>): Option<nat> {
    if passing.Some? && passing.value > 0 then passing
    else if total.Some? && total.value > 0 then Some((total.value * 80 + 99) / 100)
    else None
  }

  datatype PassResult = PassResult(marks: nat, percentage: nat, ispass: bool)

  function Min(a: nat, b: nat): nat {
    if a < b then a else b
  }

  /** A quiz with no active question is not passed. */
  function QuizPassResult(marks: nat, active: nat): PassResult {
    if active == 0 then PassResult(0, 0, false)
    else
      var percentage := Min(10000, RoundedPercent(marks, active));
      PassResult(marks, percentage, percentage >= COMPLETED)
  }

  /** A practice with no active question cannot be failed. */
  function PracticePassResult(marks: nat, active: nat): PassResult {
    if active == 0 then PassResult(marks, 10000, true)
    else
      var percentage := Min(10000, RoundedPercent(marks, active));
      PassResult(marks, percentage, percentage >= COMPLETED)
  }

  /** The stars of a quiz attempt. */
  function CalculateScore(percentage: nat): nat {
    if 8000 <= percentage < 9100 then 1
    else if 9100 <= percentage < 9600 then 2
    else if percentage >= 9600 then 3
    else 0
  }

  lemma {:induction false} DivAtLeast(a: nat, b: nat, c: nat)
    requires b > 0
    ensures a / b >= c <==> a >= b * c
  {
    assert a == b * (a / b) + a % b;
    if a / b >= c {
      assert b * (a / b) >= b * c;
    } else {
      assert b * (a / b + 1) <= b * c;
    }
  }

  /** The rounded percentage is the nearest hundredth, and the upper one of two. */
  lemma {:induction false} RoundedIsNearest(points: nat, total: nat)
    requires total > 0
    ensures var h := RoundedPercent(points, total);
            2 * total * h <= 20000 * points + total < 2 * total * (h + 1)
  {
    var h := RoundedPercent(points, total);
    DivAtLeast(20000 * points + total, 2 * total, h);
    DivAtLeast(20000 * points + total, 2 * total, h + 1);
  }

  /** More points never give a lower percentage. */
  lemma {:induction false} RoundedIsMonotone(fewer: nat, more: nat, total: nat)
    requires total > 0 && fewer <= more
    ensures RoundedPercent(fewer, total) <= RoundedPercent(more, total)
  {
    RoundedIsNearest(fewer, total);
    DivAtLeast(20000 * more + total, 2 * total, RoundedPercent(fewer, total));
  }

  /**
   * The exact meaning of "the rounded percentage reaches 80": at least 79.995 percent. So
   * rounding decides differently from the exact quotient precisely in the last 0.005 below 80.
   */
  lemma {:induction false} RoundedReaches80(points: nat, total: nat)
    requires total > 0
    ensures RoundedPercent(points, total) >= COMPLETED <==> 20000 * points >= 15999 * total
    ensures (RoundedPercent(points, total) >= COMPLETED) != (100 * points >= 80 * total)
      <==> 15999 * total <= 20000 * points < 16000 * total
  {
    DivAtLeast(20000 * points + total, 2 * total, COMPLETED);
  }

  /** Below 4000 that never happens: rounding changes no pass or completion decision. */
  lemma {:induction false} RoundingNeverDecidesBelow4000(points: nat, total: nat)
    requires 0 < total < 4000
    ensures RoundedPercent(points, total) >= COMPLETED <==> 100 * points >= 80 * total
  {
    RoundedReaches80(points, total);
  }

  /** The bound is real: 3203 of 4004 is below 80 percent and rounds to 80.00. */
  lemma {:induction false} RoundingDecidesAt4004()
    ensures RoundedPercent(3203, 4004) >= COMPLETED && 100 * 3203 < 80 * 4004
  {
  }

  /** A quiz passes exactly when it earns a star, with any number of questions. */
  lemma {:induction false} PassIsAStar(marks: nat, active: nat)
    ensures QuizPassResult(marks, active).ispass <==> CalculateScore(QuizPassResult(marks, active).percentage) >= 1
  {
  }

  /**
   * What a quiz's stars say of its marks: one from 79.995 percent of the active questions, two from
   * 90.995 and three, the most, from 95.995.
   */
  lemma {:induction false} StarsAreByMarks(marks: nat, active: nat)
    ensures var stars := CalculateScore(QuizPassResult(marks, active).percentage);
            && (stars >= 1 <==> active > 0 && 20000 * marks >= 15999 * active)
            && (stars >= 2 <==> active > 0 && 20000 * marks >= 18199 * active)
            && (stars >= 3 <==> active > 0 && 20000 * marks >= 19199 * active)
            && stars <= 3
  {
    if active > 0 {
      DivAtLeast(20000 * marks + active, 2 * active, 8000);
      DivAtLeast(20000 * marks + active, 2 * active, 9100);
      DivAtLeast(20000 * marks + active, 2 * active, 9600);
    }
  }

  /**
   * With fewer than 4000 active questions a quiz passes exactly when there are some and at
   * least four in five are right, a practice exactly when that many are or there are none.
   */
  lemma {:induction false} PassMeansFourInFive(marks: nat, active: nat)
    requires marks <= active < 4000
    ensures QuizPassResult(marks, active).ispass <==> active > 0 && 5 * marks >= 4 * active
    ensures PracticePassResult(marks, active).ispass <==> 5 * marks >= 4 * active
    ensures QuizPassResult(marks, active).percentage <= 10000
  {
    if active > 0 {
      RoundingNeverDecidesBelow4000(marks, active);
    }
  }

  /** A lesson with a usable total and no pass mark of its own is complete from 80 percent of the total. */
  lemma {:induction false} FallbackPassMark(points: nat, total: nat)
    requires total > 0
    ensures points >= LessonPassMark(None, Some(total)).value <==> 100 * points >= 80 * total
  {
  }
}
