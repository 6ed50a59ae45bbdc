/** Every question gets an id of its own in the module's range, and no row is written twice. */
module ContentPlacing {
  import opened PlanSteps
  import opened ContentPlan

  // ---- the lessons in order ---------------------------------------------------------------------------------

  predicate Ascending(lessons: seq<Lesson>) {
    forall i, j :: 0 <= i < j < |lessons| ==> lessons[i].order <= lessons[j].order
  }

  lemma {:induction false} InsertKeeps(sorted: seq<Lesson>, l: Lesson)
    ensures multiset(InsertByOrder(sorted, l)) == multiset(sorted) + multiset{l}
    ensures Pooled(InsertByOrder(sorted, l)) == Pooled(sorted) + PooledIn(l)
  {
    if sorted != [] && l.order < sorted[|sorted| - 1].order {
      var before, last := sorted[..|sorted| - 1], sorted[|sorted| - 1];
      InsertKeeps(before, l);
      assert sorted == before + [last];
      var more := InsertByOrder(before, l);
      assert (more + [last])[..|more|] == more;
    } else {
      assert (sorted + [l])[..|sorted|] == sorted;
    }
  }

  lemma {:induction false} AppendAscends(sorted: seq<Lesson>, l: Lesson)
    requires Ascending(sorted) && forall i :: 0 <= i < |sorted| ==> sorted[i].order <= l.order
    ensures Ascending(sorted + [l])
  {
  }

  lemma {:induction false} InsertAscends(sorted: seq<Lesson>, l: Lesson)
    requires Ascending(sorted)
    ensures Ascending(InsertByOrder(sorted, l))
  {
    if sorted == [] || l.order >= sorted[|sorted| - 1].order {
      AppendAscends(sorted, l);
    } else {
      var before, last := sorted[..|sorted| - 1], sorted[|sorted| - 1];
      InsertAscends(before, l);
      InsertKeeps(before, l);
      NoneAfter(before, l, InsertByOrder(before, l), last.order);
      AppendAscends(InsertByOrder(before, l), last);
    }
  }

  lemma {:induction false} NoneAfter(before: seq<Lesson>, l: Lesson, more: seq<Lesson>, bound: nat)
    requires multiset(more) == multiset(before) + multiset{l} && l.order <= bound
    requires forall i :: 0 <= i < |before| ==> before[i].order <= bound
    ensures forall i :: 0 <= i < |more| ==> more[i].order <= bound
  {
    forall i | 0 <= i < |more| ensures more[i].order <= bound {
      assert more[i] in multiset(more);
      assert more[i] in before || more[i] == l;
    }
  }

  /** The live lessons are the file's, in order, and draw as much from the pool. */
  lemma {:induction false} InOrderKeeps(lessons: seq<Lesson>)
    ensures multiset(InOrder(lessons)) == multiset(lessons) && Pooled(InOrder(lessons)) == Pooled(lessons)
    ensures Ascending(InOrder(lessons))
  {
    if lessons != [] {
      var before, last := lessons[..|lessons| - 1], lessons[|lessons| - 1];
      assert lessons == before + [last];
      InOrderKeeps(before);
      InsertKeeps(InOrder(before), last);
      InsertAscends(InOrder(before), last);
    }
  }

  lemma {:induction false} InOrderHas(lessons: seq<Lesson>, l: Lesson)
    ensures l in InOrder(lessons) <==> l in lessons
  {
    InOrderKeeps(lessons);
    assert l in InOrder(lessons) <==> l in multiset(InOrder(lessons));
  }

  /** Distinctness read off the multiset: no two lessons share an order or a slot, and none is there twice. */
  lemma {:induction false} DistinctByCount(lessons: seq<Lesson>)
    requires DistinctLessons(lessons)
    ensures forall l :: multiset(lessons)[l] <= 1
    ensures forall a, b :: a in lessons && b in lessons && (a.order == b.order || a.SlotOf() == b.SlotOf()) ==> a == b
  {
    forall l ensures multiset(lessons)[l] <= 1 {
      CountOfDistinct(lessons, l);
    }
  }

  lemma {:induction false} CountOfDistinct(lessons: seq<Lesson>, l: Lesson)
    requires DistinctLessons(lessons)
    ensures multiset(lessons)[l] == if l in lessons then 1 else 0
  {
    if lessons != [] {
      var before, last := lessons[..|lessons| - 1], lessons[|lessons| - 1];
      assert lessons == before + [last];
      CountOfDistinct(before, l);
    }
  }

  lemma {:induction false} InOrderIsDistinct(lessons: seq<Lesson>)
    requires DistinctLessons(lessons)
    ensures DistinctLessons(InOrder(lessons))
  {
    var live := InOrder(lessons);
    InOrderKeeps(lessons);
    DistinctByCount(lessons);
    forall i, j | 0 <= i < j < |live| ensures live[i].order != live[j].order && live[i].SlotOf() != live[j].SlotOf() {
      InOrderHas(lessons, live[i]);
      InOrderHas(lessons, live[j]);
      TwiceCounts(live, i, j);
      assert live[i] != live[j];
    }
  }

  lemma {:induction false} TwiceCounts(lessons: seq<Lesson>, i: nat, j: nat)
    requires i < j < |lessons|
    ensures lessons[i] == lessons[j] ==> multiset(lessons)[lessons[i]] >= 2
  {
    assert lessons == lessons[..i] + [lessons[i]] + lessons[i + 1..j] + [lessons[j]] + lessons[j + 1..];
  }

  lemma {:induction false} InOrderIsValid(c: Content)
    requires Valid(c)
    ensures AllValid(c.number, InOrder(c.lessons)) && DistinctLessons(InOrder(c.lessons)) && Pooled(InOrder(c.lessons)) <= POOL
  {
    InOrderKeeps(c.lessons);
    InOrderIsDistinct(c.lessons);
    forall i | 0 <= i < |InOrder(c.lessons)| ensures ValidLesson(c.number, InOrder(c.lessons)[i]) {
      InOrderHas(c.lessons, InOrder(c.lessons)[i]);
    }
  }

  // ---- ids and places --------------------------------------------------------------------------------------------

  /** The ids of module `m`: seven in the pool, and eight for each derived slot. */
  predicate IsQuestionOf(m: nat, q: QuestionId) {
    match q
    case PoolQuestion(k) => m == 1 && k < POOL
    case OwnQuestion(slot, _, place) => slot.DerivedSlot? && IsSlot(m, slot) && place < MAX_QUESTIONS_PER_SET
  }

  /** What a placed question of lessons that draw `from <= k < to` from the pool looks like. */
  predicate IsPlaced(m: nat, p: Placed, lessons: seq<Lesson>, from: nat, to: nat) {
    && p.place < MAX_QUESTIONS_PER_SET && Named(lessons, p.slot) && IsSlot(m, p.slot) && ValidQuestion(p.question)
    && (match p.id
        case PoolQuestion(k) => p.slot.FixedSlot? && from <= k < to
        case OwnQuestion(slot, kind, place) => slot == p.slot && kind == p.kind && place == p.place && slot.DerivedSlot?)
  }

  lemma {:induction false} PlaceSetFacts(l: Lesson, kind: Kind, next: nat, n: nat)
    requires n <= |l.Set(kind)|
    ensures |PlaceSet(l, kind, next, n)| == n
    ensures forall k :: 0 <= k < n ==>
      PlaceSet(l, kind, next, n)[k] == Placed(l.SlotOf(), kind, k, l.Set(kind)[k], IdOf(l, kind, k, next))
  {
    if n > 0 {
      PlaceSetFacts(l, kind, next, n - 1);
    }
  }

  /** No two placed questions share an id or a place. */
  predicate DistinctPlaced(placed: seq<Placed>) {
    forall i, j :: 0 <= i < j < |placed| ==>
      placed[i].id != placed[j].id && Join(placed[i].slot, placed[i].kind, placed[i].place) != Join(placed[j].slot, placed[j].kind, placed[j].place)
  }

  lemma {:induction false} PlaceLessonFacts(m: nat, l: Lesson, next: nat)
    requires ValidLesson(m, l)
    ensures DistinctPlaced(PlaceLesson(l, next))
    ensures AllPlaced(m, PlaceLesson(l, next), [l], next, next + PooledIn(l))
    ensures forall k :: 0 <= k < |PlaceLesson(l, next)| ==> PlaceLesson(l, next)[k].slot == l.SlotOf()
  {
    PlaceSetFacts(l, PracticeKind, next, |l.practice|);
    PlaceSetFacts(l, QuizKind, next, |l.quiz|);
    assert [l][0].SlotOf() == l.SlotOf();
  }

  lemma {:induction false} NamedInMore(lessons: seq<Lesson>, l: Lesson, s: Slot)
    ensures Named(lessons + [l], s) <==> Named(lessons, s) || l.SlotOf() == s
  {
    if i :| 0 <= i < |lessons| && lessons[i].SlotOf() == s {
      assert (lessons + [l])[i].SlotOf() == s;
    }
    if l.SlotOf() == s {
      assert (lessons + [l])[|lessons|].SlotOf() == s;
    }
  }

  predicate AllPlaced(m: nat, placed: seq<Placed>, lessons: seq<Lesson>, from: nat, to: nat) {
    forall k :: 0 <= k < |placed| ==> IsPlaced(m, placed[k], lessons, from, to)
  }

  lemma {:induction false} PlacedTogether(m: nat, a: seq<Placed>, b: seq<Placed>, before: seq<Lesson>, last: Lesson,
                                          from: nat, to: nat)
    requires from <= to && AllPlaced(m, a, before, 0, from) && AllPlaced(m, b, [last], from, to)
    ensures AllPlaced(m, a + b, before + [last], 0, to)
  {
    forall k | 0 <= k < |a + b| ensures IsPlaced(m, (a + b)[k], before + [last], 0, to) {
      if k < |a| {
        assert IsPlaced(m, a[k], before, 0, from);
      } else {
        assert IsPlaced(m, b[k - |a|], [last], from, to);
      }
      NamedInMore(before, last, (a + b)[k].slot);
    }
  }

  lemma {:induction false} PlaceAllFacts(m: nat, live: seq<Lesson>)
    requires AllValid(m, live) && DistinctLessons(live)
    ensures DistinctPlaced(PlaceAll(live)) && AllPlaced(m, PlaceAll(live), live, 0, Pooled(live))
  {
    if live != [] {
      var before, last := live[..|live| - 1], live[|live| - 1];
      assert live == before + [last];
      PlaceAllFacts(m, before);
      PlaceLessonFacts(m, last, Pooled(before));
      PlacedTogether(m, PlaceAll(before), PlaceLesson(last, Pooled(before)), before, last, Pooled(before), Pooled(live));
      PlacedApart(m, before, last);
    }
  }

  /** The questions of a further lesson share no id and no place with those before: the pool goes on, the slots differ. */
  lemma {:induction false} PlacedApart(m: nat, before: seq<Lesson>, last: Lesson)
    requires AllValid(m, before + [last]) && DistinctLessons(before + [last])
    requires DistinctPlaced(PlaceAll(before)) && DistinctPlaced(PlaceLesson(last, Pooled(before)))
    requires AllPlaced(m, PlaceAll(before), before, 0, Pooled(before))
    requires AllPlaced(m, PlaceLesson(last, Pooled(before)), [last], Pooled(before), Pooled(before) + PooledIn(last))
    requires forall k :: 0 <= k < |PlaceLesson(last, Pooled(before))| ==> PlaceLesson(last, Pooled(before))[k].slot == last.SlotOf()
    ensures DistinctPlaced(PlaceAll(before) + PlaceLesson(last, Pooled(before)))
  {
    var a, b := PlaceAll(before), PlaceLesson(last, Pooled(before));
    forall i, j | 0 <= i < |a| && 0 <= j < |b|
      ensures a[i].slot != b[j].slot && a[i].id != b[j].id
    {
      assert IsPlaced(m, a[i], before, 0, Pooled(before)) && IsPlaced(m, b[j], [last], Pooled(before), Pooled(before) + PooledIn(last));
      var n :| 0 <= n < |before| && before[n].SlotOf() == a[i].slot;
      assert (before + [last])[n] == before[n] && (before + [last])[|before|] == last;
    }
  }

  /** The pool never runs out, and every question id is one of the module's and used once. */
  lemma {:induction false} QuestionsFit(c: Content)
    requires Valid(c)
    ensures var placed := PlaceAll(InOrder(c.lessons));
            && DistinctPlaced(placed)
            && forall k :: 0 <= k < |placed| ==>
                 IsQuestionOf(c.number, placed[k].id) && IsSlot(c.number, placed[k].slot) && placed[k].place < MAX_QUESTIONS_PER_SET
  {
    InOrderIsValid(c);
    PlaceAllFacts(c.number, InOrder(c.lessons));
    var placed := PlaceAll(InOrder(c.lessons));
    forall k | 0 <= k < |placed|
      ensures IsQuestionOf(c.number, placed[k].id) && IsSlot(c.number, placed[k].slot) && placed[k].place < MAX_QUESTIONS_PER_SET
    {
      assert IsPlaced(c.number, placed[k], InOrder(c.lessons), 0, Pooled(InOrder(c.lessons)));
    }
  }
}
