/** What a graded score depends on: in enforce mode not on claims once verified, and never on repeated items. */
module GradingTheorems {
  import opened Wrappers
  import opened ProgressRules
  import opened Grading

  /** The items that are scored: in enforce mode the first for each question, in shadow mode all. */
  function Counted<A>(mode: Mode, items: seq<Item<A>>): seq<Item<A>> {
    if mode == Enforce then Firsts(items) else items
  }

  /** The active questions with a correct item among those that count. */
  function CorrectIds<Q, A>(g: Grader<Q, A>, active: map<Id, Q>, mode: Mode, items: seq<Item<A>>): set<Id> {
    set i | 0 <= i < |Counted(mode, items)| && CountsAsCorrect(g, active, mode, Counted(mode, items)[i])
      :: Counted(mode, items)[i].id.value
  }

  predicate CountsAsCorrect<Q, A>(g: Grader<Q, A>, active: map<Id, Q>, mode: Mode, item: Item<A>) {
    item.id.Some? && item.id.value in active && GradeItem(g, active, mode, item).iscorrect
  }

  function QuizScore<Q, A>(g: Grader<Q, A>, active: map<Id, Q>, mode: Mode, items: seq<Item<A>>): PassResult {
    QuizPassResult(|CorrectIds(g, active, mode, items)|, |active|)
  }

  function PracticeScore<Q, A>(g: Grader<Q, A>, active: map<Id, Q>, mode: Mode, items: seq<Item<A>>): PassResult {
    PracticePassResult(|CorrectIds(g, active, mode, items)|, |active|)
  }

  // ---- the first item decides -----------------------------------------------------------------------------

  lemma {:induction false} FirstsAreFirst<A>(items: seq<Item<A>>, x: Item<A>)
    ensures x in Firsts(items) <==> x.id.Some? && FirstFor(items, x.id.value) == Some(x)
  {
    if items != [] {
      var before, last := items[..|items| - 1], items[|items| - 1];
      FirstsAreFirst(before, x);
      if x.id.Some? {
        FirstForAnswers(before, x.id.value);
      }
    }
  }

  /** In enforce mode a question is correct exactly when its first item is. */
  lemma {:induction false} CorrectByFirst<Q, A>(g: Grader<Q, A>, active: map<Id, Q>, items: seq<Item<A>>, id: Id)
    ensures id in CorrectIds(g, active, Enforce, items)
      <==> id in active && FirstFor(items, id).Some? && GradeItem(g, active, Enforce, FirstFor(items, id).value).iscorrect
  {
    FirstForAnswers(items, id);
    if id in active && FirstFor(items, id).Some? {
      var x := FirstFor(items, id).value;
      FirstsAreFirst(items, x);
      var i :| 0 <= i < |Firsts(items)| && Firsts(items)[i] == x;
      assert Counted(Enforce, items)[i] == x;
    }
    forall i | 0 <= i < |Firsts(items)| && Firsts(items)[i].id == Some(id)
      ensures FirstFor(items, id) == Some(Firsts(items)[i])
    {
      FirstsAreFirst(items, Firsts(items)[i]);
    }
  }

  // ---- claims ------------------------------------------------------------------------------------------------

  /** Two submissions that differ in nothing but what the client claims. */
  predicate SameButClaims<A(==)>(a: seq<Item<A>>, b: seq<Item<A>>) {
    |a| == |b| && forall i :: 0 <= i < |a| ==> a[i].id == b[i].id && a[i].answer == b[i].answer
  }

  lemma {:induction false} FirstForSameButClaims<A>(a: seq<Item<A>>, b: seq<Item<A>>, id: Id)
    requires SameButClaims(a, b)
    ensures FirstFor(a, id).Some? <==> FirstFor(b, id).Some?
    ensures FirstFor(a, id).Some? ==> FirstFor(a, id).value.id == FirstFor(b, id).value.id && FirstFor(a, id).value.answer == FirstFor(b, id).value.answer
  {
    if a != [] {
      FirstForSameButClaims(a[..|a| - 1], b[..|b| - 1], id);
    }
  }

  /** Whether a submission is verified does not depend on the claims in it. */
  lemma {:induction false} VerifiedIgnoresClaims<Q, A>(g: Grader<Q, A>, active: map<Id, Q>, a: seq<Item<A>>, b: seq<Item<A>>)
    requires SameButClaims(a, b)
    ensures IsVerified(g, active, Enforce, a) <==> IsVerified(g, active, Enforce, b)
  {
    forall id | id in active
      ensures FirstFor(a, id).Some? <==> FirstFor(b, id).Some?
      ensures FirstFor(a, id).Some? ==>
        GradeItem(g, active, Enforce, FirstFor(a, id).value).category == GradeItem(g, active, Enforce, FirstFor(b, id).value).category
    {
      FirstForSameButClaims(a, b, id);
    }
  }

  /** The active questions whose first item the server graded correct. */
  function ServerCorrect<Q, A>(g: Grader<Q, A>, active: map<Id, Q>, items: seq<Item<A>>): set<Id> {
    set id | id in active && FirstFor(items, id).Some? && GradeItem(g, active, Enforce, FirstFor(items, id).value).servergrade == Correct
  }

  /** A verified score is the server's: one mark for each question whose first item it graded correct. */
  lemma {:induction false} VerifiedScoreIsTheServers<Q, A>(g: Grader<Q, A>, active: map<Id, Q>, items: seq<Item<A>>)
    requires IsVerified(g, active, Enforce, items)
    ensures CorrectIds(g, active, Enforce, items) == ServerCorrect(g, active, items)
    ensures QuizScore(g, active, Enforce, items) == QuizPassResult(|ServerCorrect(g, active, items)|, |active|)
    ensures PracticeScore(g, active, Enforce, items) == PracticePassResult(|ServerCorrect(g, active, items)|, |active|)
  {
    forall id
      ensures id in CorrectIds(g, active, Enforce, items) <==> id in ServerCorrect(g, active, items)
    {
      CorrectByFirst(g, active, items, id);
    }
  }

  /** Non-interference: a verified score, its percentage and its pass are the same whatever was claimed. */
  lemma {:induction false} VerifiedScoreIgnoresClaims<Q, A>(g: Grader<Q, A>, active: map<Id, Q>, a: seq<Item<A>>,
                                                            b: seq<Item<A>>)
    requires SameButClaims(a, b) && IsVerified(g, active, Enforce, a)
    ensures QuizScore(g, active, Enforce, a) == QuizScore(g, active, Enforce, b)
    ensures PracticeScore(g, active, Enforce, a) == PracticeScore(g, active, Enforce, b)
  {
    VerifiedIgnoresClaims(g, active, a, b);
    VerifiedScoreIsTheServers(g, active, a);
    VerifiedScoreIsTheServers(g, active, b);
    forall id
      ensures id in ServerCorrect(g, active, a) <==> id in ServerCorrect(g, active, b)
    {
      FirstForSameButClaims(a, b, id);
    }
    assert ServerCorrect(g, active, a) == ServerCorrect(g, active, b);
  }

  function Flip<A>(item: Item<A>): Item<A> {
    item.(claims := !item.claims)
  }

  function Flipped<A>(items: seq<Item<A>>): seq<Item<A>> {
    seq(|items|, i requires 0 <= i < |items| => Flip(items[i]))
  }

  lemma {:induction false} FlippedPrefix<A>(items: seq<Item<A>>)
    requires items != []
    ensures Flipped(items)[..|items| - 1] == Flipped(items[..|items| - 1])
    ensures |Flipped(items)| == |items| && Flipped(items)[|items| - 1] == Flip(items[|items| - 1])
  {
  }

  /** With every claim turned round, the first item for a question is the same item, claimed the other way. */
  lemma {:induction false} FlippedFirst<A>(items: seq<Item<A>>, id: Id)
    ensures FirstFor(Flipped(items), id) == if FirstFor(items, id).Some? then Some(Flip(FirstFor(items, id).value)) else None
  {
    if items != [] {
      FlippedPrefix(items);
      FlippedFirst(items[..|items| - 1], id);
    }
  }

  ghost predicate ClaimsDoNotMatter<Q, A(!new)>(g: Grader<Q, A>, active: map<Id, Q>, items: seq<Item<A>>) {
    forall other :: SameButClaims(items, other) ==> CorrectIds(g, active, Enforce, other) == CorrectIds(g, active, Enforce, items)
  }

  /** A question whose counted item leaves the server nothing to go by. */
  predicate RestsOnClaim<Q, A>(g: Grader<Q, A>, active: map<Id, Q>, items: seq<Item<A>>, id: Id) {
    id in active && FirstFor(items, id).Some? && GradeItem(g, active, Enforce, FirstFor(items, id).value).category == NoInfo
  }

  lemma {:induction false} SameClaimsOrGraded<Q, A>(g: Grader<Q, A>, active: map<Id, Q>, items: seq<Item<A>>,
                                                    other: seq<Item<A>>, id: Id)
    requires SameButClaims(items, other) && !RestsOnClaim(g, active, items, id)
    ensures id in CorrectIds(g, active, Enforce, other) <==> id in CorrectIds(g, active, Enforce, items)
  {
    CorrectByFirst(g, active, items, id);
    CorrectByFirst(g, active, other, id);
    FirstForSameButClaims(items, other, id);
  }

  /**
   * The exact condition, verified or not: in enforce mode claims are without effect exactly when
   * no active question's first item is one the server has nothing to go by.
   */
  lemma {:induction false} ClaimsMatterExactlyWhen<Q, A(!new)>(g: Grader<Q, A>, active: map<Id, Q>, items: seq<Item<A>>)
    ensures ClaimsDoNotMatter(g, active, items) <==> !exists id :: RestsOnClaim(g, active, items, id)
  {
    if id :| RestsOnClaim(g, active, items, id) {
      var other := Flipped(items);
      FlippedFirst(items, id);
      CorrectByFirst(g, active, items, id);
      CorrectByFirst(g, active, other, id);
      assert SameButClaims(items, other);
      assert CorrectIds(g, active, Enforce, other) != CorrectIds(g, active, Enforce, items);
    } else {
      forall other | SameButClaims(items, other)
        ensures CorrectIds(g, active, Enforce, other) == CorrectIds(g, active, Enforce, items)
      {
        forall id
          ensures id in CorrectIds(g, active, Enforce, other) <==> id in CorrectIds(g, active, Enforce, items)
        {
          SameClaimsOrGraded(g, active, items, other, id);
        }
      }
    }
  }

  // ---- repeated items ------------------------------------------------------------------------------------------

  function Inserted<A>(items: seq<Item<A>>, at: nat, extra: Item<A>): seq<Item<A>>
    requires at <= |items|
  {
    items[..at] + [extra] + items[at..]
  }

  /** An item for a question that was answered before it, or for none. */
  predicate IsRepeat<A>(items: seq<Item<A>>, at: nat, extra: Item<A>)
    requires at <= |items|
  {
    extra.id.None? || Answers(items[..at], extra.id.value)
  }

  lemma {:induction false} InsertedAnswers<A>(items: seq<Item<A>>, at: nat, extra: Item<A>, id: Id)
    requires at <= |items| && IsRepeat(items, at, extra)
    ensures Answers(Inserted(items, at, extra), id) <==> Answers(items, id)
  {
    var more := Inserted(items, at, extra);
    if i :| 0 <= i < |items| && items[i].id == Some(id) {
      assert more[if i < at then i else i + 1] == items[i];
    }
    if i :| 0 <= i < |more| && more[i].id == Some(id) {
      if i == at {
        var j :| 0 <= j < at && items[..at][j].id == Some(id);
        assert items[j].id == Some(id);
      } else {
        assert items[if i < at then i else i - 1] == more[i];
      }
    }
  }

  /** A repeated item, wherever it comes, changes neither the items that count nor the first for any question. */
  lemma {:induction false} RepeatIsIgnored<A>(items: seq<Item<A>>, at: nat, extra: Item<A>, id: Id)
    requires at <= |items| && IsRepeat(items, at, extra)
    ensures Firsts(Inserted(items, at, extra)) == Firsts(items)
    ensures FirstFor(Inserted(items, at, extra), id) == FirstFor(items, id)
    decreases |items|
  {
    var more := Inserted(items, at, extra);
    if at == |items| {
      assert more == items + [extra] && items[..at] == items;
      assert more[..|more| - 1] == items;
      FirstForAnswers(items, id);
    } else {
      var before, last := items[..|items| - 1], items[|items| - 1];
      assert before[..at] == items[..at];
      assert more[..|more| - 1] == Inserted(before, at, extra) && more[|more| - 1] == last;
      RepeatIsIgnored(before, at, extra, id);
      if last.id.Some? {
        InsertedAnswers(before, at, extra, last.id.value);
      }
    }
  }

  /** Any number of repeats, each inserted anywhere after the first item for its question. */
  predicate WithRepeats<A(==)>(items: seq<Item<A>>, chain: seq<seq<Item<A>>>, spots: seq<nat>) {
    && |chain| == |spots| + 1 && chain[0] == items
    && forall n :: 0 <= n < |spots| ==> AddsRepeat(chain[n], chain[n + 1], spots[n])
  }

  predicate AddsRepeat<A(==)>(items: seq<Item<A>>, more: seq<Item<A>>, at: nat) {
    at <= |items| && |more| == |items| + 1 && more == Inserted(items, at, more[at]) && IsRepeat(items, at, more[at])
  }

  /**
   * Repeats, however many: in either mode the scoring items and the verified flag are the same and
   * each repeat is kept among the stored items; in enforce mode, where only scoring items count, so
   * are the score of a quiz and of a practice.
   */
  lemma {:induction false} RepeatsChangeNoScore<Q, A>(g: Grader<Q, A>, active: map<Id, Q>, mode: Mode, items: seq<Item<A>>,
                                                      chain: seq<seq<Item<A>>>, spots: seq<nat>)
    requires WithRepeats(items, chain, spots)
    ensures var more := chain[|spots|];
            && GradeAll(g, active, mode, Firsts(more)) == GradeAll(g, active, mode, Firsts(items))
            && (IsVerified(g, active, mode, more) <==> IsVerified(g, active, mode, items))
            && |GradeAll(g, active, mode, more)| == |items| + |spots|
            && (mode == Enforce ==> QuizScore(g, active, mode, more) == QuizScore(g, active, mode, items)
                                    && PracticeScore(g, active, mode, more) == PracticeScore(g, active, mode, items))
  {
    var n := |spots|;
    if n == 0 {
      GradeAllSize(g, active, mode, items);
    } else {
      RepeatsChangeNoScore(g, active, mode, items, chain[..n], spots[..n - 1]);
      var before, more, at := chain[n - 1], chain[n], spots[n - 1];
      assert AddsRepeat(before, more, at);
      RepeatIsIgnored(before, at, more[at], "");
      forall id
        ensures FirstFor(more, id) == FirstFor(before, id)
      {
        RepeatIsIgnored(before, at, more[at], id);
      }
      SameCountedSameScore(g, active, before, more);
      GradeAllSize(g, active, mode, before);
      GradeAllSize(g, active, mode, more);
    }
  }

  lemma {:induction false} SameCountedSameScore<Q, A>(g: Grader<Q, A>, active: map<Id, Q>, a: seq<Item<A>>, b: seq<Item<A>>)
    requires forall id :: FirstFor(a, id) == FirstFor(b, id)
    ensures CorrectIds(g, active, Enforce, a) == CorrectIds(g, active, Enforce, b)
  {
    forall id ensures id in CorrectIds(g, active, Enforce, a) <==> id in CorrectIds(g, active, Enforce, b) {
      CorrectByFirst(g, active, a, id);
      CorrectByFirst(g, active, b, id);
    }
  }

  // ---- repeated items in shadow mode ------------------------------------------------------------------------------

  /** Some item claims the question correct. */
  predicate Claims<A>(items: seq<Item<A>>, id: Id) {
    exists i :: 0 <= i < |items| && items[i].id == Some(id) && items[i].claims
  }

  /** In shadow mode every item counts, by what it claims. */
  lemma {:induction false} CorrectByClaims<Q, A>(g: Grader<Q, A>, active: map<Id, Q>, items: seq<Item<A>>, id: Id)
    ensures id in CorrectIds(g, active, Shadow, items) <==> id in active && Claims(items, id)
  {
    var correct := CorrectIds(g, active, Shadow, items);
    assert Counted(Shadow, items) == items;
    forall i | 0 <= i < |items| && items[i].id == Some(id) && items[i].claims && id in active ensures id in correct {
      assert CountsAsCorrect(g, active, Shadow, items[i]);
      assert Counted(Shadow, items)[i].id.value == id;
    }
    if id in correct {
      var i :| 0 <= i < |Counted(Shadow, items)| && CountsAsCorrect(g, active, Shadow, Counted(Shadow, items)[i])
               && Counted(Shadow, items)[i].id.value == id;
      assert items[i].id == Some(id) && items[i].claims;
    }
  }

  lemma {:induction false} InsertedClaims<A>(items: seq<Item<A>>, at: nat, extra: Item<A>, id: Id)
    requires at <= |items|
    ensures Claims(Inserted(items, at, extra), id) <==> Claims(items, id) || (extra.id == Some(id) && extra.claims)
  {
    var more := Inserted(items, at, extra);
    assert more[at] == extra;
    if i :| 0 <= i < |items| && items[i].id == Some(id) && items[i].claims {
      assert more[if i < at then i else i + 1] == items[i];
    }
    if i :| 0 <= i < |more| && more[i].id == Some(id) && more[i].claims && i != at {
      assert items[if i < at then i else i - 1] == more[i];
    }
  }

  /** One of the first `n` items added claims the question correct. */
  predicate AddedClaims<A>(chain: seq<seq<Item<A>>>, spots: seq<nat>, n: nat, id: Id)
    requires n <= |spots| < |chain|
  {
    exists k :: 0 <= k < n && spots[k] < |chain[k + 1]| && chain[k + 1][spots[k]].id == Some(id) && chain[k + 1][spots[k]].claims
  }

  lemma {:induction false} ChainClaims<A>(items: seq<Item<A>>, chain: seq<seq<Item<A>>>, spots: seq<nat>, n: nat, id: Id)
    requires WithRepeats(items, chain, spots) && n <= |spots|
    ensures Claims(chain[n], id) <==> Claims(items, id) || AddedClaims(chain, spots, n, id)
  {
    if n > 0 {
      ChainClaims(items, chain, spots, n - 1, id);
      assert AddsRepeat(chain[n - 1], chain[n], spots[n - 1]);
      InsertedClaims(chain[n - 1], spots[n - 1], chain[n][spots[n - 1]], id);
      var last := chain[n][spots[n - 1]];
      assert AddedClaims(chain, spots, n, id) <==> AddedClaims(chain, spots, n - 1, id) || (last.id == Some(id) && last.claims) by {
        if last.id == Some(id) && last.claims {
          assert chain[n - 1 + 1][spots[n - 1]] == last;
        }
      }
    }
  }

  /** An added item claims a question that is active and that no submitted item claims. */
  predicate AddsClaim<Q, A>(active: map<Id, Q>, items: seq<Item<A>>, chain: seq<seq<Item<A>>>, spots: seq<nat>, id: Id)
    requires |spots| < |chain|
  {
    id in active && !Claims(items, id) && AddedClaims(chain, spots, |spots|, id)
  }

  /**
   * In shadow mode the whole submission is scored by its claims: repeats never take a mark away, and
   * they change the marks exactly when one of them claims an active question that no item claimed.
   */
  lemma {:induction false} RepeatsChangeShadowMarksWhen<Q, A>(g: Grader<Q, A>, active: map<Id, Q>, items: seq<Item<A>>,
                                                              chain: seq<seq<Item<A>>>, spots: seq<nat>)
    requires WithRepeats(items, chain, spots)
    ensures var more := chain[|spots|];
            && CorrectIds(g, active, Shadow, items) <= CorrectIds(g, active, Shadow, more)
            && (PracticeScore(g, active, Shadow, more).marks != PracticeScore(g, active, Shadow, items).marks
                <==> exists id :: AddsClaim(active, items, chain, spots, id))
            && (QuizScore(g, active, Shadow, more).marks != QuizScore(g, active, Shadow, items).marks
                <==> exists id :: AddsClaim(active, items, chain, spots, id))
  {
    var more := chain[|spots|];
    var before, after := CorrectIds(g, active, Shadow, items), CorrectIds(g, active, Shadow, more);
    forall id
      ensures id in before ==> id in after
      ensures AddsClaim(active, items, chain, spots, id) <==> id in after && id !in before
    {
      CorrectByClaims(g, active, items, id);
      CorrectByClaims(g, active, more, id);
      ChainClaims(items, chain, spots, |spots|, id);
    }
    assert after == before + (after - before);
    assert |after| == |before| + |after - before|;
    if id :| AddsClaim(active, items, chain, spots, id) {
      assert id in after - before && id in active.Keys;
    } else {
      assert after - before == {};
    }
  }

  /** One active question, answered wrongly and then claimed correct: in shadow mode the marks go from 0 to 1. */
  lemma {:induction false} RepeatRaisesShadowMarks<Q, A>(g: Grader<Q, A>, question: Q)
    ensures var (active, wrong, right) := (map["q" := question], Item(Some("q"), None, false), Item(Some("q"), None, true));
            && IsRepeat([wrong], 1, right)
            && QuizScore<Q, A>(g, active, Shadow, [wrong]).marks == 0
            && QuizScore<Q, A>(g, active, Shadow, [wrong, right]).marks == 1
  {
    var active: map<Id, Q> := map["q" := question];
    var wrong, right: Item<A> := Item(Some("q"), None, false), Item(Some("q"), None, true);
    assert [wrong][..1][0] == wrong && [wrong, right][1] == right;
    assert CorrectIds(g, active, Shadow, [wrong]) == {};
    CorrectByClaims(g, active, [wrong, right], "q");
    assert CorrectIds(g, active, Shadow, [wrong, right]) <= active.Keys && active.Keys == {"q"};
    assert CorrectIds(g, active, Shadow, [wrong, right]) == {"q"};
    assert |active| == 1;
  }

  lemma {:induction false} GradeAllSize<Q, A>(g: Grader<Q, A>, active: map<Id, Q>, mode: Mode, items: seq<Item<A>>)
    ensures |GradeAll(g, active, mode, items)| == |items|
  {
    if items != [] {
      GradedAt(g, active, mode, items, 0);
    }
  }

  // ---- bounds -----------------------------------------------------------------------------------------------------

  lemma {:induction false} SubsetIsSmaller(a: set<Id>, b: set<Id>)
    requires a <= b
    ensures |a| <= |b|
  {
    if a != {} {
      var x :| x in a;
      SubsetIsSmaller(a - {x}, b - {x});
    }
  }

  /** Whatever is submitted, in either mode, there are no more marks than active questions. */
  lemma {:induction false} MarksAtMostActive<Q, A>(g: Grader<Q, A>, active: map<Id, Q>, mode: Mode, items: seq<Item<A>>)
    ensures CorrectIds(g, active, mode, items) <= active.Keys
    ensures QuizScore(g, active, mode, items).marks <= |active| && PracticeScore(g, active, mode, items).marks <= |active|
  {
    SubsetIsSmaller(CorrectIds(g, active, mode, items), active.Keys);
    assert |active.Keys| == |active|;
  }
}
