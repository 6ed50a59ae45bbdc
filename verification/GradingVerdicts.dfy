/** What a score owes to the grading library's own verdicts, question by question. */
module GradingVerdicts {
  import opened Wrappers
  import opened ProgressRules
  import opened Grading
  import opened GradingTheorems

  /** Item `i` is the first submitted for this question. */
  predicate IsFirstFor<A>(items: seq<Item<A>>, id: Id, i: int) {
    0 <= i < |items| && items[i].id == Some(id) && forall j :: 0 <= j < i ==> items[j].id != Some(id)
  }

  /** The answer has the shape of one, and the library grades it. */
  predicate IsGraded<Q, A>(g: Grader<Q, A>, question: Q, answer: Option<A>, correct: bool) {
    answer.Some? && g.isAnswer(answer.value) && g.grade(question, answer.value) == Graded(correct)
  }

  /** There is an answer, and it is not one: of no shape, malformed or of another type. */
  predicate IsBad<Q, A>(g: Grader<Q, A>, question: Q, answer: Option<A>) {
    answer.Some? && (!g.isAnswer(answer.value) || g.grade(question, answer.value) == Malformed || g.grade(question, answer.value) == TypeMismatch)
  }

  /** The library has nothing to say: no answer at all, or a verdict that is none. */
  predicate IsUnknown<Q, A>(g: Grader<Q, A>, question: Q, answer: Option<A>) {
    answer.None? || (g.isAnswer(answer.value) && g.grade(question, answer.value) in {NoAnswer, UnsupportedTemplate, PrototypeNotGraded})
  }

  /** Every answer is one of the three. */
  lemma {:induction false} GradedBadOrUnknown<Q, A>(g: Grader<Q, A>, question: Q, answer: Option<A>)
    ensures IsGraded(g, question, answer, true) || IsGraded(g, question, answer, false)
            || IsBad(g, question, answer) || IsUnknown(g, question, answer)
    ensures IsBad(g, question, answer) ==> !IsUnknown(g, question, answer)
    ensures IsGraded(g, question, answer, true) ==> !IsGraded(g, question, answer, false)
    ensures IsGraded(g, question, answer, true) || IsGraded(g, question, answer, false) ==>
      !IsBad(g, question, answer) && !IsUnknown(g, question, answer)
  {
  }

  predicate IsActiveItem<Q, A>(active: map<Id, Q>, item: Item<A>) {
    item.id.Some? && item.id.value in active
  }

  lemma {:induction false} GradedAt<Q, A>(g: Grader<Q, A>, active: map<Id, Q>, mode: Mode, items: seq<Item<A>>, k: nat)
    requires k < |items|
    ensures |GradeAll(g, active, mode, items)| == |items|
    ensures GradeAll(g, active, mode, items)[k] == GradeItem(g, active, mode, items[k])
  {
    GradeAllLength(g, active, mode, items[..|items| - 1]);
    if k < |items| - 1 {
      GradedAt(g, active, mode, items[..|items| - 1], k);
    }
  }

  lemma {:induction false} GradeAllLength<Q, A>(g: Grader<Q, A>, active: map<Id, Q>, mode: Mode, items: seq<Item<A>>)
    ensures |GradeAll(g, active, mode, items)| == |items|
  {
    if items != [] {
      GradeAllLength(g, active, mode, items[..|items| - 1]);
    }
  }

  /**
   * What is stored of each item: itself, the library's verdict on it if its question is active, and
   * whether it counts as correct, by the claim in shadow mode and by the verdict, where there is one,
   * in enforce mode.
   */
  lemma {:induction false} StoredItemIs<Q, A>(g: Grader<Q, A>, active: map<Id, Q>, mode: Mode, items: seq<Item<A>>, k: nat)
    requires k < |items|
    ensures |GradeAll(g, active, mode, items)| == |items|
    ensures var (item, stored) := (items[k], GradeAll(g, active, mode, items)[k]);
            && stored.item == item
            && (stored.servergrade == NoGrade <==> !IsActiveItem(active, item))
            && (mode == Shadow || !IsActiveItem(active, item) ==> stored.iscorrect == item.claims)
    ensures var (item, stored) := (items[k], GradeAll(g, active, mode, items)[k]);
            IsActiveItem(active, item) ==>
              var question := active[item.id.value];
              && (stored.servergrade == Correct <==> IsGraded(g, question, item.answer, true))
              && (stored.servergrade == Incorrect <==> IsGraded(g, question, item.answer, false))
              && (mode == Enforce ==> (stored.iscorrect <==>
                    IsGraded(g, question, item.answer, true) || (IsUnknown(g, question, item.answer) && item.claims)))
  {
    GradedAt(g, active, mode, items, k);
  }

  lemma {:induction false} FirstIsAnswered<A>(items: seq<Item<A>>, id: Id, i: int)
    requires IsFirstFor(items, id, i)
    ensures FirstFor(items, id) == Some(items[i])
  {
    FirstIsSeen(items, id, i);
  }

  /** A question is correct in enforce mode exactly when its first item is graded correct, or says so itself and nothing can be said of it. */
  lemma {:induction false} MarkOf<Q, A>(g: Grader<Q, A>, active: map<Id, Q>, items: seq<Item<A>>, id: Id, i: int)
    requires id in active && IsFirstFor(items, id, i)
    ensures id in CorrectIds(g, active, Enforce, items)
      <==> IsGraded(g, active[id], items[i].answer, true) || (IsUnknown(g, active[id], items[i].answer) && items[i].claims)
  {
    FirstIsAnswered(items, id, i);
    CorrectByFirst(g, active, items, id);
  }

  /** A question nobody submitted an item for is not correct. */
  lemma {:induction false} NoMarkWithoutItem<Q, A>(g: Grader<Q, A>, active: map<Id, Q>, items: seq<Item<A>>, id: Id)
    requires forall i :: 0 <= i < |items| ==> items[i].id != Some(id)
    ensures id !in CorrectIds(g, active, Enforce, items)
  {
    FirstForAnswers(items, id);
    CorrectByFirst(g, active, items, id);
  }

  /** An answer that is not one earns no mark, whatever was claimed of it. */
  lemma {:induction false} BadAnswerEarnsNothing<Q, A>(g: Grader<Q, A>, active: map<Id, Q>, items: seq<Item<A>>, id: Id,
                                                       i: int)
    requires id in active && IsFirstFor(items, id, i) && IsBad(g, active[id], items[i].answer)
    ensures id !in CorrectIds(g, active, Enforce, items)
  {
    MarkOf(g, active, items, id, i);
  }

  /** Where the library has nothing to say, the mark is the claim's. */
  lemma {:induction false} UnknownAnswerIsTheClaims<Q, A>(g: Grader<Q, A>, active: map<Id, Q>, items: seq<Item<A>>, id: Id,
                                                          i: int)
    requires id in active && IsFirstFor(items, id, i) && IsUnknown(g, active[id], items[i].answer)
    ensures id in CorrectIds(g, active, Enforce, items) <==> items[i].claims
  {
    MarkOf(g, active, items, id, i);
  }

  ghost predicate HasFirst<A>(items: seq<Item<A>>, id: Id) {
    exists i :: IsFirstFor(items, id, i)
  }

  lemma {:induction false} FirstExists<A>(items: seq<Item<A>>, id: Id)
    ensures FirstFor(items, id).Some? ==> HasFirst(items, id)
  {
    if items != [] && FirstFor(items, id).Some? {
      var before := items[..|items| - 1];
      FirstExists(before, id);
      FirstForAnswers(before, id);
      if FirstFor(before, id).Some? {
        var i :| IsFirstFor(before, id, i);
        assert IsFirstFor(items, id, i);
      } else {
        forall j | 0 <= j < |before| ensures items[j].id != Some(id) {
          assert before[j] == items[j];
          assert before[j].id == Some(id) ==> Answers(before, id);
        }
        assert IsFirstFor(items, id, |before|);
      }
    }
  }

  /** A submission is verified exactly when, in enforce mode, the library graded the first item of every active question. */
  lemma {:induction false} VerifiedMeansGraded<Q, A>(g: Grader<Q, A>, active: map<Id, Q>, mode: Mode, items: seq<Item<A>>)
    ensures IsVerified(g, active, mode, items) <==> mode == Enforce && forall id :: id in active ==> FirstIsGraded(g, active, items, id)
  {
    forall id | id in active
      ensures mode == Enforce ==>
        (FirstIsGraded(g, active, items, id)
         <==> FirstFor(items, id).Some? && GradeItem(g, active, mode, FirstFor(items, id).value).category == Gradable)
    {
      FirstExists(items, id);
      FirstForAnswers(items, id);
      forall i | IsFirstFor(items, id, i) ensures FirstFor(items, id) == Some(items[i]) {
        FirstIsAnswered(items, id, i);
      }
    }
  }

  ghost predicate FirstIsGraded<Q, A>(g: Grader<Q, A>, active: map<Id, Q>, items: seq<Item<A>>, id: Id)
    requires id in active
  {
    exists i :: IsFirstFor(items, id, i) && (IsGraded(g, active[id], items[i].answer, true) || IsGraded(g, active[id], items[i].answer, false))
  }

  /** The active questions whose first answer the library graded correct. */
  ghost function RightIds<Q, A>(g: Grader<Q, A>, active: map<Id, Q>, items: seq<Item<A>>): set<Id> {
    set id | id in active && exists i :: IsFirstFor(items, id, i) && IsGraded(g, active[id], items[i].answer, true)
  }

  /** A verified score is one mark for each of them, out of all active questions. */
  lemma {:induction false} VerifiedScoreIsTheLibrarys<Q, A>(g: Grader<Q, A>, active: map<Id, Q>, items: seq<Item<A>>)
    requires IsVerified(g, active, Enforce, items)
    ensures QuizScore(g, active, Enforce, items) == QuizPassResult(|RightIds(g, active, items)|, |active|)
    ensures PracticeScore(g, active, Enforce, items) == PracticePassResult(|RightIds(g, active, items)|, |active|)
  {
    VerifiedMeansGraded(g, active, Enforce, items);
    forall id ensures id in CorrectIds(g, active, Enforce, items) <==> id in RightIds(g, active, items) {
      if id in active {
        RightOnlyWhenGraded(g, active, items, id);
      } else {
        CorrectByFirst(g, active, items, id);
      }
    }
    assert CorrectIds(g, active, Enforce, items) == RightIds(g, active, items);
  }

  lemma {:induction false} OneFirst<A>(items: seq<Item<A>>, id: Id, i: int, j: int)
    requires IsFirstFor(items, id, i) && IsFirstFor(items, id, j)
    ensures i == j
  {
  }

  lemma {:induction false} RightOnlyWhenGraded<Q, A>(g: Grader<Q, A>, active: map<Id, Q>, items: seq<Item<A>>, id: Id)
    requires id in active && FirstIsGraded(g, active, items, id)
    ensures id in CorrectIds(g, active, Enforce, items) <==> id in RightIds(g, active, items)
  {
    var i :| IsFirstFor(items, id, i) && (IsGraded(g, active[id], items[i].answer, true) || IsGraded(g, active[id], items[i].answer, false));
    MarkOf(g, active, items, id, i);
    GradedBadOrUnknown(g, active[id], items[i].answer);
    if j :| IsFirstFor(items, id, j) && IsGraded(g, active[id], items[j].answer, true) {
      OneFirst(items, id, i, j);
    }
  }

  /** The rules a score is made by: a mark for a right one, capped at 100 percent, passed from 80. */
  lemma {:induction false} ScoreOf(marks: nat, active: nat)
    requires active > 0 && marks <= active
    ensures var quiz := QuizPassResult(marks, active);
            quiz.marks == marks && PracticePassResult(marks, active) == quiz
            && 2 * active * quiz.percentage <= 20000 * marks + active < 2 * active * (quiz.percentage + 1)
            && (quiz.ispass <==> 20000 * marks >= 15999 * active)
    ensures QuizPassResult(0, 0) == PassResult(0, 0, false) && PracticePassResult(0, 0) == PassResult(0, 10000, true)
  {
    RoundedIsNearest(marks, active);
    RoundedReaches80(marks, active);
    RoundedIsMonotone(marks, active, active);
    RoundedOfAll(active);
  }

  lemma {:induction false} RoundedOfAll(active: nat)
    requires active > 0
    ensures RoundedPercent(active, active) == 10000
  {
    DivAtLeast(20000 * active + active, 2 * active, 10000);
    DivAtLeast(20000 * active + active, 2 * active, 10001);
  }
}
