/**
 * Server grading of a submission: each item is graded, the first item for a question is the one
 * that counts, and a verified score owes nothing to what the client claimed.
 */
module Grading {
  import opened Wrappers

  type Id = string

  datatype Mode = Shadow | Enforce

  /** What the grading library says of a well-formed answer. */
  datatype Verdict = Graded(correct: bool) | Malformed | TypeMismatch | NoAnswer | UnsupportedTemplate | PrototypeNotGraded

  datatype ServerGrade = Correct | Incorrect | Ungradable | NoGrade

  datatype Category = Gradable | BadAnswer | NoInfo

  /** The grading library, as it is called: a shape test and a verdict. */
  datatype Grader<!Q, !A> = Grader(isAnswer: A -> bool, grade: (Q, A) -> Verdict)

  /** One submitted item: the question it answers, its answer, and the client's claim. */
  datatype Item<A> = Item(id: Option<Id>, answer: Option<A>, claims: bool)

  datatype Graded<A> = GradedItem(item: Item<A>, iscorrect: bool, servergrade: ServerGrade, category: Category)

  datatype Result<A> = Result(items: seq<Graded<A>>, scoringItems: seq<Graded<A>>, verified: bool)

  // ---- one item ---------------------------------------------------------------------------------------------

  function Classify<Q, A>(g: Grader<Q, A>, question: Option<Q>, answer: Option<A>): (Category, ServerGrade) {
    if question.None? then (NoInfo, NoGrade)
    else if answer.None? then (NoInfo, Ungradable)
    else if !g.isAnswer(answer.value) then (BadAnswer, Ungradable)
    else
      match g.grade(question.value, answer.value)
      case Graded(correct) => (Gradable, if correct then Correct else Incorrect)
      case Malformed => (BadAnswer, Ungradable)
      case TypeMismatch => (BadAnswer, Ungradable)
      case _ => (NoInfo, Ungradable)
  }

  function EffectiveIsCorrect(mode: Mode, claims: bool, category: Category, grade: ServerGrade): bool {
    if mode == Shadow then claims
    else
      match category
      case Gradable => grade == Correct
      case BadAnswer => false
      case NoInfo => claims
  }

  function QuestionOf<Q, A>(active: map<Id, Q>, item: Item<A>): Option<Q> {
    if item.id.Some? && item.id.value in active then Some(active[item.id.value]) else None
  }

  function GradeItem<Q, A>(g: Grader<Q, A>, active: map<Id, Q>, mode: Mode, item: Item<A>): Graded<A> {
    var (category, grade) := Classify(g, QuestionOf(active, item), item.answer);
    GradedItem(item, EffectiveIsCorrect(mode, item.claims, category, grade), grade, category)
  }

  function GradeAll<Q, A>(g: Grader<Q, A>, active: map<Id, Q>, mode: Mode, items: seq<Item<A>>): seq<Graded<A>> {
    if items == [] then []
    else GradeAll(g, active, mode, items[..|items| - 1]) + [GradeItem(g, active, mode, items[|items| - 1])]
  }

  // ---- the items that count -----------------------------------------------------------------------------------

  predicate Answers<A>(items: seq<Item<A>>, id: Id) {
    exists i :: 0 <= i < |items| && items[i].id == Some(id)
  }

  /** The first item for each question, in the order submitted. */
  function Firsts<A>(items: seq<Item<A>>): seq<Item<A>> {
    if items == [] then []
    else
      var (before, last) := (items[..|items| - 1], items[|items| - 1]);
      Firsts(before) + if last.id.Some? && !Answers(before, last.id.value) then [last] else []
  }

  /** The item that counts for a question. */
  function FirstFor<A>(items: seq<Item<A>>, id: Id): Option<Item<A>> {
    if items == [] then None
    else
      var before := FirstFor(items[..|items| - 1], id);
      if before.Some? then before
      else if items[|items| - 1].id == Some(id) then Some(items[|items| - 1])
      else None
  }

  predicate IsVerified<Q, A>(g: Grader<Q, A>, active: map<Id, Q>, mode: Mode, items: seq<Item<A>>) {
    mode == Enforce && forall id :: id in active ==>
      FirstFor(items, id).Some? && GradeItem(g, active, mode, FirstFor(items, id).value).category == Gradable
  }

  lemma {:induction false} FirstForAnswers<A>(items: seq<Item<A>>, id: Id)
    ensures FirstFor(items, id).Some? <==> Answers(items, id)
    ensures FirstFor(items, id).Some? ==> FirstFor(items, id).value.id == Some(id) && FirstFor(items, id).value in items
  {
    if items != [] {
      var before, last := items[..|items| - 1], items[|items| - 1];
      assert items == before + [last];
      FirstForAnswers(before, id);
      if Answers(before, id) {
        var i :| 0 <= i < |before| && before[i].id == Some(id);
        assert items[i].id == Some(id);
      }
      if last.id == Some(id) {
        assert items[|items| - 1].id == Some(id);
      }
    }
  }

  // ---- the loop ---------------------------------------------------------------------------------------------------

  /** `seen` maps each question answered among the first `n` items to the index of its first item. */
  ghost predicate SeenFirst<A>(items: seq<Item<A>>, n: nat, seen: map<Id, nat>)
    requires n <= |items|
  {
    && (forall id :: id in seen ==> seen[id] < n && items[seen[id]].id == Some(id) && !Answers(items[..seen[id]], id))
    && (forall i :: 0 <= i < n && items[i].id.Some? ==> items[i].id.value in seen)
  }

  method GradeSubmissionItems<Q, A(==)>(g: Grader<Q, A>, items: seq<Item<A>>, active: map<Id, Q>, mode: Mode) returns (r: Result<A>)
    ensures r.items == GradeAll(g, active, mode, items)
    ensures r.scoringItems == GradeAll(g, active, mode, Firsts(items))
    ensures r.verified <==> IsVerified(g, active, mode, items)
  {
    var seen: map<Id, nat> := map[];
    var graded: seq<Graded<A>> := [];
    for index := 0 to |items|
      invariant graded == GradeAll(g, active, mode, items[..index])
      invariant SeenFirst(items, index, seen)
    {
      var raw := items[index];
      assert items[..index + 1][..index] == items[..index];
      graded := graded + [GradeItem(g, active, mode, raw)];
      SeenOneMore(items, index, seen);
      if raw.id.Some? && raw.id.value !in seen {
        seen := seen[raw.id.value := index];
      }
    }
    assert items[..|items|] == items;
    var scoring: seq<Graded<A>> := [];
    for index := 0 to |items|
      invariant scoring == GradeAll(g, active, mode, Firsts(items[..index]))
    {
      ScoringStep(g, active, mode, items, seen, index);
      if items[index].id.Some? && seen[items[index].id.value] == index {
        scoring := scoring + [graded[index]];
      }
    }
    VerifiedBySeen(g, active, mode, items, seen);
    var verified := mode == Enforce && forall id :: id in active.Keys ==> id in seen && graded[seen[id]].category == Gradable;
    r := Result(graded, scoring, verified);
  }

  lemma {:induction false} SeenOneMore<A>(items: seq<Item<A>>, n: nat, seen: map<Id, nat>)
    requires n < |items| && SeenFirst(items, n, seen)
    ensures var next := if items[n].id.Some? && items[n].id.value !in seen then seen[items[n].id.value := n] else seen;
            SeenFirst(items, n + 1, next)
  {
    if items[n].id.Some? && items[n].id.value !in seen {
      assert !Answers(items[..n], items[n].id.value);
    }
  }

  lemma {:induction false} FirstsOneMore<A>(items: seq<Item<A>>, n: nat)
    requires n < |items|
    ensures Firsts(items[..n + 1]) == Firsts(items[..n]) + if items[n].id.Some? && !Answers(items[..n], items[n].id.value) then [items[n]] else []
  {
    assert items[..n + 1][..n] == items[..n];
  }

  lemma {:induction false} SeenAt<A>(items: seq<Item<A>>, seen: map<Id, nat>, index: nat)
    requires index < |items| && SeenFirst(items, |items|, seen)
    ensures items[index].id.Some? ==>
      var id := items[index].id.value;
      id in seen && (seen[id] == index <==> !Answers(items[..index], id))
  {
    forall i, n | 0 <= i < n <= |items| && items[i].id.Some?
      ensures Answers(items[..n], items[i].id.value)
    {
      assert items[..n][i] == items[i];
    }
  }

  lemma {:induction false} GradedAt<Q, A>(g: Grader<Q, A>, active: map<Id, Q>, mode: Mode, items: seq<Item<A>>, i: nat)
    requires i < |items|
    ensures |GradeAll(g, active, mode, items)| == |items|
    ensures GradeAll(g, active, mode, items)[i] == GradeItem(g, active, mode, items[i])
  {
    if |items| > 1 {
      GradedAt(g, active, mode, items[..|items| - 1], if i < |items| - 1 then i else 0);
    }
  }

  lemma {:induction false} GradeOneMore<Q, A>(g: Grader<Q, A>, active: map<Id, Q>, mode: Mode, items: seq<Item<A>>,
                                              item: Item<A>)
    ensures GradeAll(g, active, mode, items + [item]) == GradeAll(g, active, mode, items) + [GradeItem(g, active, mode, item)]
  {
    assert (items + [item])[..|items|] == items;
  }

  lemma {:induction false} ScoringStep<Q, A>(g: Grader<Q, A>, active: map<Id, Q>, mode: Mode, items: seq<Item<A>>,
                                             seen: map<Id, nat>, n: nat)
    requires n < |items| && SeenFirst(items, |items|, seen)
    ensures items[n].id.Some? ==> items[n].id.value in seen
    ensures |GradeAll(g, active, mode, items)| == |items|
    ensures var scoring := GradeAll(g, active, mode, Firsts(items[..n]));
            GradeAll(g, active, mode, Firsts(items[..n + 1]))
              == if items[n].id.Some? && seen[items[n].id.value] == n then scoring + [GradeAll(g, active, mode, items)[n]] else scoring
  {
    GradedAt(g, active, mode, items, n);
    FirstsOneMore(items, n);
    SeenAt(items, seen, n);
    GradeOneMore(g, active, mode, Firsts(items[..n]), items[n]);
    assert Firsts(items[..n]) + [] == Firsts(items[..n]);
  }

  lemma {:induction false} FirstIsSeen<A>(items: seq<Item<A>>, id: Id, i: nat)
    requires i < |items| && items[i].id == Some(id) && !Answers(items[..i], id)
    ensures FirstFor(items, id) == Some(items[i])
  {
    var before := items[..|items| - 1];
    if i < |before| {
      assert before[..i] == items[..i];
      FirstIsSeen(before, id, i);
    } else {
      assert before == items[..i];
      FirstForAnswers(before, id);
    }
  }

  lemma {:induction false} VerifiedBySeen<Q, A>(g: Grader<Q, A>, active: map<Id, Q>, mode: Mode, items: seq<Item<A>>,
                                                seen: map<Id, nat>)
    requires SeenFirst(items, |items|, seen)
    ensures forall id :: id in seen ==> seen[id] < |GradeAll(g, active, mode, items)|
    ensures (mode == Enforce && forall id :: id in active ==> id in seen && GradeAll(g, active, mode, items)[seen[id]].category == Gradable)
      <==> IsVerified(g, active, mode, items)
  {
    forall id | id in seen
      ensures seen[id] < |GradeAll(g, active, mode, items)| && FirstFor(items, id).Some?
      ensures GradeAll(g, active, mode, items)[seen[id]] == GradeItem(g, active, mode, FirstFor(items, id).value)
    {
      GradedAt(g, active, mode, items, seen[id]);
      FirstIsSeen(items, id, seen[id]);
    }
    forall id | id !in seen
      ensures FirstFor(items, id).None?
    {
      FirstForAnswers(items, id);
    }
  }
}
