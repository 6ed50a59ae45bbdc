/** The planner's loops, proved against RecalcPlan. */
module RecalcPlanner {
  import opened Wrappers
  import opened SortedIds
  import opened ProgressRules
  import opened RecalcPlan

  ghost predicate Distinct(rows: seq<Attempt>) {
    forall i, j :: 0 <= i < j < |rows| ==> rows[i].id != rows[j].id
  }

  function Filter(rows: seq<Attempt>, keep: Attempt -> bool): seq<Attempt> {
    if rows == [] then []
    else Filter(rows[..|rows| - 1], keep) + if keep(rows[|rows| - 1]) then [rows[|rows| - 1]] else []
  }

  function OfQuiz(quiz: Id): Attempt -> bool {
    (a: Attempt) => a.quiz == quiz
  }

  function Counting(needsVerified: bool): Attempt -> bool {
    (a: Attempt) => IsCounted(a, needsVerified)
  }

  function Passing(): Attempt -> bool {
    (a: Attempt) => a.ispass
  }

  function FailedWithPoints(): Attempt -> bool {
    (a: Attempt) => !a.ispass && Num(a.points) != 0
  }

  lemma {:induction false} FilterKeeps(rows: seq<Attempt>, keep: Attempt -> bool)
    ensures forall a :: a in Filter(rows, keep) <==> a in rows && keep(a)
  {
    if rows != [] {
      var before, last := rows[..|rows| - 1], rows[|rows| - 1];
      assert rows == before + [last];
      FilterKeeps(before, keep);
    }
  }

  lemma {:induction false} FilterIsDistinct(rows: seq<Attempt>, keep: Attempt -> bool)
    requires Distinct(rows)
    ensures Distinct(Filter(rows, keep))
  {
    if rows != [] {
      var before, last := rows[..|rows| - 1], rows[|rows| - 1];
      assert rows == before + [last];
      FilterIsDistinct(before, keep);
      FilterKeeps(before, keep);
      assert forall a :: a in before ==> a.id != last.id;
      assert forall a :: a in Filter(before, keep) ==> a.id != last.id;
    }
  }

  function IdsOf(rows: seq<Attempt>): (ids: seq<Id>)
    ensures |ids| == |rows| && forall i :: 0 <= i < |rows| ==> ids[i] == rows[i].id
  {
    seq(|rows|, i requires 0 <= i < |rows| => rows[i].id)
  }

  lemma {:induction false} IdsAsSet(rows: seq<Attempt>)
    ensures ToSet(IdsOf(rows)) == IdSet(ToSet(rows))
  {
    forall id | id in IdsOf(rows)
      ensures exists a :: a in ToSet(rows) && a.id == id
    {
      var i :| 0 <= i < |rows| && IdsOf(rows)[i] == id;
      assert rows[i] in ToSet(rows);
    }
    forall a | a in rows
      ensures a.id in IdsOf(rows)
    {
      var i :| 0 <= i < |rows| && rows[i] == a;
      assert IdsOf(rows)[i] == a.id;
    }
  }

  lemma {:induction false} DistinctSize(rows: seq<Attempt>)
    requires Distinct(rows)
    ensures |ToSet(rows)| == |rows|
  {
    if rows != [] {
      var before, last := rows[..|rows| - 1], rows[|rows| - 1];
      assert rows == before + [last];
      DistinctSize(before);
      assert ToSet(rows) == ToSet(before) + {last};
      assert last !in before;
    }
  }

  /** The newest of some attempts: the first in newest-first order. */
  method NewestOf(rows: seq<Attempt>) returns (a: Attempt)
    requires rows != [] && Distinct(rows)
    ensures a in rows && IsNewest(ToSet(rows), a)
  {
    a := rows[0];
    for i := 1 to |rows|
      invariant a in rows[..i]
      invariant forall j :: 0 <= j < i && rows[j] != a ==> Newer(a, rows[j])
    {
      if rows[i] != a {
        NewerIsTotal(rows[i], a);
      }
      if Newer(rows[i], a) {
        a := rows[i];
      }
    }
  }

  method OldestOf(rows: seq<Attempt>) returns (a: Attempt)
    requires rows != [] && Distinct(rows)
    ensures a in rows && IsOldest(ToSet(rows), a)
  {
    a := rows[0];
    for i := 1 to |rows|
      invariant a in rows[..i]
      invariant forall j :: 0 <= j < i && rows[j] != a ==> Newer(rows[j], a)
    {
      if rows[i] != a {
        NewerIsTotal(rows[i], a);
      }
      if Newer(a, rows[i]) {
        a := rows[i];
      }
    }
  }

  lemma {:induction false} NewestIsOne(rows: set<Attempt>, a: Attempt)
    requires IsNewest(rows, a)
    ensures NewestPoints(rows) == Num(a.points)
  {
    forall b | IsNewest(rows, b)
      ensures b == a
    {
    }
  }

  lemma {:induction false} OldestIsOne(rows: set<Attempt>, a: Attempt)
    requires IsOldest(rows, a)
    ensures OldestPoints(rows) == Num(a.points)
  {
    forall b | IsOldest(rows, b)
      ensures b == a
    {
    }
  }

  ghost function QuizzesOf(rows: seq<Attempt>): set<Id> {
    set a | a in rows :: a.quiz
  }

  /** The attempts of each quiz, in the order they come. */
  ghost function Grouped(rows: seq<Attempt>): map<Id, seq<Attempt>> {
    map q | q in QuizzesOf(rows) :: Filter(rows, OfQuiz(q))
  }

  lemma {:induction false} NoGroupYet(rows: seq<Attempt>, q: Id)
    ensures Filter(rows, OfQuiz(q)) != [] ==> q in QuizzesOf(rows)
  {
    FilterKeeps(rows, OfQuiz(q));
    if Filter(rows, OfQuiz(q)) != [] {
      assert Filter(rows, OfQuiz(q))[0] in rows;
    }
  }

  lemma {:induction false} GroupedOneMore(rows: seq<Attempt>, a: Attempt)
    ensures var group := if a.quiz in Grouped(rows) then Grouped(rows)[a.quiz] else [];
            Grouped(rows + [a]) == Grouped(rows)[a.quiz := group + [a]]
  {
    assert (rows + [a])[..|rows|] == rows;
    assert forall x :: x in rows + [a] <==> x in rows || x == a;
    assert QuizzesOf(rows + [a]) == QuizzesOf(rows) + {a.quiz};
    NoGroupYet(rows, a.quiz);
    var group := if a.quiz in Grouped(rows) then Grouped(rows)[a.quiz] else [];
    var wanted := Grouped(rows)[a.quiz := group + [a]];
    forall q | q in Grouped(rows + [a])
      ensures Grouped(rows + [a])[q] == wanted[q]
    {
      assert Filter(rows + [a], OfQuiz(q)) == Filter(rows, OfQuiz(q)) + if q == a.quiz then [a] else [];
    }
    assert Grouped(rows + [a]).Keys == wanted.Keys;
  }

  lemma {:induction false} GroupAt(rows: seq<Attempt>, q: Id)
    requires Distinct(rows) && q in QuizzesOf(rows)
    ensures var group := Filter(rows, OfQuiz(q)); group != [] && Distinct(group) && ToSet(group) == AttemptsAt(ToSet(rows), q)
  {
    FilterKeeps(rows, OfQuiz(q));
    FilterIsDistinct(rows, OfQuiz(q));
    var a :| a in rows && a.quiz == q;
    assert a in Filter(rows, OfQuiz(q));
  }

  method GroupByQuiz(rows: seq<Attempt>) returns (byQuiz: map<Id, seq<Attempt>>)
    ensures byQuiz == Grouped(rows)
  {
    byQuiz := map[];
    for i := 0 to |rows|
      invariant byQuiz == Grouped(rows[..i])
    {
      var q := rows[i].quiz;
      assert rows[..i + 1] == rows[..i] + [rows[i]];
      GroupedOneMore(rows[..i], rows[i]);
      byQuiz := byQuiz[q := (if q in byQuiz then byQuiz[q] else []) + [rows[i]]];
    }
    assert rows[..|rows|] == rows;
  }

  /** The ids of the failed attempts that hold points. */
  method RowsToZero(rows: seq<Attempt>) returns (zero: seq<Id>)
    requires Distinct(rows)
    ensures ToSet(zero) == IdSet(Holding(ToSet(rows))) && |zero| == |Holding(ToSet(rows))|
  {
    var toZero := Filter(rows, FailedWithPoints());
    FilterKeeps(rows, FailedWithPoints());
    FilterIsDistinct(rows, FailedWithPoints());
    assert ToSet(toZero) == Holding(ToSet(rows));
    IdsAsSet(toZero);
    DistinctSize(toZero);
    zero := IdsOf(toZero);
  }

  /** The points of the first counted pass, if there is one. */
  method CountedPoints(rows: seq<Attempt>, needsVerified: bool) returns (points: Option<nat>)
    requires Distinct(rows)
    ensures points.Some? <==> exists a :: a in ToSet(rows) && IsCounted(a, needsVerified)
    ensures points.Some? ==> points.value == OldestPoints(CountedOf(ToSet(rows), needsVerified))
  {
    var counted := Filter(rows, Counting(needsVerified));
    FilterKeeps(rows, Counting(needsVerified));
    FilterIsDistinct(rows, Counting(needsVerified));
    if counted == [] {
      assert forall a :: a in rows && Counting(needsVerified)(a) ==> a in counted;
      return None;
    }
    assert counted[0] in ToSet(rows) && IsCounted(counted[0], needsVerified);
    var oldest := OldestOf(counted);
    assert ToSet(counted) == CountedOf(ToSet(rows), needsVerified);
    OldestIsOne(ToSet(counted), oldest);
    return Some(Num(oldest.points));
  }

  method AnyPass(rows: seq<Attempt>) returns (any: bool)
    ensures any <==> exists a :: a in ToSet(rows) && a.ispass
  {
    any := false;
    for i := 0 to |rows|
      invariant any <==> exists j :: 0 <= j < i && rows[j].ispass
    {
      any := any || rows[i].ispass;
    }
    if any {
      var j :| 0 <= j < |rows| && rows[j].ispass;
      assert rows[j] in ToSet(rows);
    }
  }

  /** What becomes of one quiz: its outcome, the rows to zero, and the points that count for it. */
  method PlanQuiz(input: Input, quiz: Id, rows: seq<Attempt>) returns (outcome: Outcome, zero: seq<Id>, points: nat)
    requires rows != [] && Distinct(rows) && ToSet(rows) == AttemptsAt(input.attempts, quiz)
    ensures outcome == OutcomeOf(input, quiz)
    ensures ToSet(zero) == IdSet(ZeroedFor(input, quiz)) && |zero| == |ZeroedFor(input, quiz)|
    ensures PointsOf(input, quiz, outcome, points)
  {
    var counted := CountedPoints(rows, input.needsVerified);
    var anyPass := AnyPass(rows);
    var toZero := RowsToZero(rows);
    var newest := NewestOf(rows);
    NewestIsOne(ToSet(rows), newest);
    zero, points := [], Num(newest.points);
    if counted.Some? {
      outcome, zero, points := CountedPass, toZero, counted.value;
    } else if anyPass {
      outcome := OnlyUncountedPass;
    } else if !HasContent(input, quiz) {
      outcome := ContentMissing;
    } else if !TotalsUsable(input, input.quizzes[quiz].lesson) {
      outcome := UnusableTotal;
    } else {
      outcome, zero := NoPass, toZero;
    }
  }

  /** The points that count for a quiz: the first counted pass's, or else the newest attempt's. */
  ghost predicate PointsOf(input: Input, quiz: Id, outcome: Outcome, points: nat) {
    var rows := AttemptsAt(input.attempts, quiz);
    && (outcome == CountedPass ==> points == OldestPoints(CountedOf(rows, input.needsVerified)))
    && (outcome in {OnlyUncountedPass, NoPass} ==> points == NewestPoints(rows))
  }

  /** Adds to one entry of a map of sums. */
  function Plus(m: map<Id, nat>, k: Id, n: nat): map<Id, nat> {
    m[k := NumAt(m, k) + n]
  }

  function Counted(counts: Counts, outcome: Outcome, zeroed: nat): Counts {
    var c := counts.(quizzes := counts.quizzes + 1, attemptRowsToZero := counts.attemptRowsToZero + zeroed);
    match outcome
    case CountedPass => c.(withCountedPass := c.withCountedPass + 1)
    case OnlyUncountedPass => c.(leftOnlyUncountedPass := c.leftOnlyUncountedPass + 1)
    case ContentMissing => c.(leftContentMissing := c.leftContentMissing + 1)
    case UnusableTotal => c.(leftUnusableTotal := c.leftUnusableTotal + 1)
    case NoPass => c.(withoutPass := c.withoutPass + 1)
  }

  /** What the quizzes seen so far take off and leave. */
  ghost predicate Sums(input: Input, quizzes: seq<Id>, subtract: map<Id, nat>, credit: map<Id, nat>) {
    && (forall l :: NumAt(subtract, l) == HeldIn(input, quizzes, l))
    && (forall l :: l in subtract ==> subtract[l] > 0)
    && (forall l :: NumAt(credit, l) == CreditIn(input, quizzes, l))
  }

  lemma {:induction false} OneMoreQuiz(input: Input, quizzes: seq<Id>, quiz: Id, outcome: Outcome, points: nat,
                                       subtract: map<Id, nat>, credit: map<Id, nat>, subtract': map<Id, nat>,
                                       credit': map<Id, nat>)
    requires Sums(input, quizzes, subtract, credit) && outcome == OutcomeOf(input, quiz)
    requires PointsOf(input, quiz, outcome, points)
    requires subtract' == if outcome == NoPass && points > 0 then Plus(subtract, input.quizzes[quiz].lesson, points) else subtract
    requires credit' == if outcome in {CountedPass, OnlyUncountedPass} && quiz in input.quizzes
                        then Plus(credit, input.quizzes[quiz].lesson, points) else credit
    ensures Sums(input, quizzes + [quiz], subtract', credit')
  {
    assert (quizzes + [quiz])[..|quizzes|] == quizzes;
    forall l
      ensures NumAt(subtract', l) == HeldIn(input, quizzes + [quiz], l)
      ensures NumAt(credit', l) == CreditIn(input, quizzes + [quiz], l)
    {
    }
  }

  lemma {:induction false} OneMoreZeroed(input: Input, quizzes: seq<Id>, quiz: Id)
    requires quiz !in quizzes
    ensures ZeroedIn(input, quizzes + [quiz]) == ZeroedIn(input, quizzes) + ZeroedFor(input, quiz)
    ensures |ZeroedIn(input, quizzes + [quiz])| == |ZeroedIn(input, quizzes)| + |ZeroedFor(input, quiz)|
  {
    forall a | a in ZeroedIn(input, quizzes)
      ensures a.quiz in quizzes
    {
      var q :| q in quizzes && a in ZeroedFor(input, q);
    }
    assert ZeroedIn(input, quizzes) !! ZeroedFor(input, quiz);
  }

  lemma {:induction false} OneMoreOutcome(input: Input, quizzes: seq<Id>, quiz: Id, counts: Counts, zeroed: nat)
    requires CountsOf(input, quizzes, counts)
    ensures CountsOf(input, quizzes + [quiz], Counted(counts, OutcomeOf(input, quiz), zeroed))
  {
    assert (quizzes + [quiz])[..|quizzes|] == quizzes;
  }

  /** The rows to zero of the quizzes seen so far, each once. */
  ghost predicate Zeroes(input: Input, quizzes: seq<Id>, zeroRows: seq<Id>, counts: Counts) {
    && ToSet(zeroRows) == IdSet(ZeroedIn(input, quizzes))
    && |zeroRows| == |ZeroedIn(input, quizzes)| == counts.attemptRowsToZero
  }

  lemma {:induction false} OneMoreOfZeroes(input: Input, quizzes: seq<Id>, quiz: Id, zeroRows: seq<Id>, zero: seq<Id>,
                                           counts: Counts, outcome: Outcome)
    requires quiz !in quizzes && Zeroes(input, quizzes, zeroRows, counts)
    requires ToSet(zero) == IdSet(ZeroedFor(input, quiz)) && |zero| == |ZeroedFor(input, quiz)|
    ensures Zeroes(input, quizzes + [quiz], zeroRows + zero, Counted(counts, outcome, |zero|))
  {
    OneMoreZeroed(input, quizzes, quiz);
    SetOfBoth(zeroRows, zero);
    IdsOfBoth(ZeroedIn(input, quizzes), ZeroedFor(input, quiz));
  }

  lemma {:induction false} IdsOfBoth(a: set<Attempt>, b: set<Attempt>)
    ensures IdSet(a + b) == IdSet(a) + IdSet(b)
  {
  }

  datatype Tally = Tally(zeroRows: seq<Id>, subtract: map<Id, nat>, credit: map<Id, nat>, counts: Counts)

  /** What the planner has gathered after some quizzes. */
  ghost predicate Gathered(input: Input, quizzes: seq<Id>, t: Tally) {
    && Zeroes(input, quizzes, t.zeroRows, t.counts)
    && Sums(input, quizzes, t.subtract, t.credit)
    && CountsOf(input, quizzes, t.counts)
  }

  method GatherQuiz(input: Input, ghost rows: seq<Attempt>, ghost quizzes: seq<Id>, quiz: Id, group: seq<Attempt>, t: Tally)
    returns (t': Tally)
    requires Distinct(rows) && ToSet(rows) == input.attempts
    requires quiz in Grouped(rows) && group == Grouped(rows)[quiz]
    requires Gathered(input, quizzes, t) && quiz !in quizzes
    ensures Gathered(input, quizzes + [quiz], t')
  {
    GroupAt(rows, quiz);
    var outcome, zero, points := PlanQuiz(input, quiz, group);
    OneMoreOutcome(input, quizzes, quiz, t.counts, |zero|);
    OneMoreOfZeroes(input, quizzes, quiz, t.zeroRows, zero, t.counts, outcome);
    var subtract, credit := AddPoints(input, quizzes, quiz, outcome, points, t.subtract, t.credit);
    t' := Tally(t.zeroRows + zero, subtract, credit, Counted(t.counts, outcome, |zero|));
  }

  lemma {:induction false} NothingGathered(input: Input)
    ensures Gathered(input, [], Tally([], map[], map[], Counts(0, 0, 0, 0, 0, 0, 0)))
  {
    assert ZeroedIn(input, []) == {};
  }

  lemma {:induction false} QuizzesAre(rows: seq<Attempt>, input: Input)
    requires ToSet(rows) == input.attempts
    ensures Grouped(rows).Keys == QuizIds(input)
  {
  }

  method PlanQuizzes(rows: seq<Attempt>, input: Input) returns (t: Tally)
    requires Distinct(rows) && ToSet(rows) == input.attempts
    ensures Gathered(input, Sorted(QuizIds(input)), t)
  {
    var byQuiz := GroupByQuiz(rows);
    var keys := Sorted(byQuiz.Keys);
    QuizzesAre(rows, input);
    SortedHasEach(byQuiz.Keys);
    t := Tally([], map[], map[], Counts(0, 0, 0, 0, 0, 0, 0));
    NothingGathered(input);
    assert keys[..0] == [];
    for i := 0 to |keys|
      invariant Gathered(input, keys[..i], t)
    {
      var quiz := keys[i];
      assert keys[..i + 1] == keys[..i] + [quiz];
      SortedPrefix(byQuiz.Keys, i);
      t := GatherQuiz(input, rows, keys[..i], quiz, byQuiz[quiz], t);
    }
    assert keys[..|keys|] == keys;
  }

  /** A quiz without a pass takes its newest points off its lesson; a passed one leaves its credit there. */
  method AddPoints(input: Input, ghost quizzes: seq<Id>, quiz: Id, outcome: Outcome, points: nat,
                   subtractBefore: map<Id, nat>, creditBefore: map<Id, nat>)
    returns (subtract: map<Id, nat>, credit: map<Id, nat>)
    requires Sums(input, quizzes, subtractBefore, creditBefore) && outcome == OutcomeOf(input, quiz)
    requires PointsOf(input, quiz, outcome, points)
    ensures Sums(input, quizzes + [quiz], subtract, credit)
  {
    subtract, credit := subtractBefore, creditBefore;
    if outcome == NoPass && points > 0 {
      subtract := Plus(subtract, input.quizzes[quiz].lesson, points);
    }
    if outcome in {CountedPass, OnlyUncountedPass} && quiz in input.quizzes {
      credit := Plus(credit, input.quizzes[quiz].lesson, points);
    }
    OneMoreQuiz(input, quizzes, quiz, outcome, points, subtractBefore, creditBefore, subtract, credit);
  }

  lemma {:induction false} SetOfBoth(a: seq<Id>, b: seq<Id>)
    ensures ToSet(a + b) == ToSet(a) + ToSet(b)
  {
  }

  // ---- the lessons ------------------------------------------------------------------------------------------

  /** The losses of the levels and grades, summed over the lessons seen so far. */
  ghost predicate LevelSums(input: Input, lessons: seq<Id>, levels: map<Id, nat>) {
    && (forall v :: NumAt(levels, v) == LevelLoss(input, lessons, v))
    && levels.Keys == (set l | l in lessons && l in input.lessons :: input.lessons[l].level)
  }

  ghost predicate GradeSums(input: Input, lessons: seq<Id>, grades: map<Id, nat>) {
    && (forall g :: NumAt(grades, g) == GradeLoss(input, lessons, g))
    && grades.Keys == (set l | l in lessons && GradeOf(input, l).Some? :: GradeOf(input, l).value)
  }

  lemma {:induction false} OneMoreLesson(input: Input, lessons: seq<Id>, lesson: Id, levels: map<Id, nat>)
    requires LevelSums(input, lessons, levels) && lesson in input.lessons
    ensures LevelSums(input, lessons + [lesson], Plus(levels, input.lessons[lesson].level, Reduction(input, lesson)))
  {
    assert (lessons + [lesson])[..|lessons|] == lessons;
    assert forall l :: l in lessons + [lesson] <==> l in lessons || l == lesson;
  }

  lemma {:induction false} OneMoreGraded(input: Input, lessons: seq<Id>, lesson: Id, grades: map<Id, nat>)
    requires GradeSums(input, lessons, grades) && GradeOf(input, lesson).Some?
    ensures GradeSums(input, lessons + [lesson], Plus(grades, GradeOf(input, lesson).value, Reduction(input, lesson)))
  {
    assert (lessons + [lesson])[..|lessons|] == lessons;
    assert forall l :: l in lessons + [lesson] <==> l in lessons || l == lesson;
  }

  method PlanLessons(input: Input, subtract: map<Id, nat>, credit: map<Id, nat>)
    returns (updates: seq<Update>, levels: map<Id, nat>, grades: map<Id, nat>)
    requires Sums(input, Sorted(QuizIds(input)), subtract, credit)
    ensures updates == LessonChanges(input, Sorted(Lessons(input)))
    ensures LevelSums(input, Sorted(Lessons(input)), levels) && GradeSums(input, Sorted(Lessons(input)), grades)
  {
    SubtractedLessons(input, subtract, credit);
    var keys := Sorted(subtract.Keys);
    SortedHasEach(subtract.Keys);
    updates, levels, grades := [], map[], map[];
    for i := 0 to |keys|
      invariant updates == LessonChanges(input, keys[..i])
      invariant LevelSums(input, keys[..i], levels) && GradeSums(input, keys[..i], grades)
    {
      var lesson := keys[i];
      assert keys[..i + 1] == keys[..i] + [lesson];
      HeldLessonIsUsable(input, Sorted(QuizIds(input)), lesson);
      var change, reduction := PlanLesson(input, lesson, subtract[lesson], NumAt(credit, lesson));
      OneMoreLesson(input, keys[..i], lesson, levels);
      OneMoreGraded(input, keys[..i], lesson, grades);
      updates := updates + change;
      var level := input.lessons[lesson].level;
      levels, grades := Plus(levels, level, reduction), Plus(grades, input.levels[level].grade, reduction);
    }
    assert keys[..|keys|] == keys;
  }

  lemma {:induction false} SubtractedLessons(input: Input, subtract: map<Id, nat>, credit: map<Id, nat>)
    requires Sums(input, Sorted(QuizIds(input)), subtract, credit)
    ensures subtract.Keys == Lessons(input)
  {
    forall l
      ensures l in subtract <==> l in Lessons(input)
    {
      assert NumAt(subtract, l) == Held(input, l);
      if Held(input, l) > 0 {
        HeldLessonIsUsable(input, Sorted(QuizIds(input)), l);
      }
    }
  }

  /** One lesson: it goes down to what its other parts add up to, never by more than the credit. */
  method PlanLesson(input: Input, lesson: Id, amount: nat, credit: nat) returns (change: seq<Update>, reduction: nat)
    requires LessonHasContent(input, lesson) && TotalsUsable(input, lesson)
    requires amount == Held(input, lesson) && credit == Credit(input, lesson)
    ensures change == LessonChange(input, lesson) && reduction == Reduction(input, lesson)
  {
    change, reduction := [], amount;
    if lesson in input.lessonRows {
      var row := input.lessonRows[lesson];
      var stored := Num(row.points);
      var rest := NumAt(input.practice, lesson) + NumAt(input.learning, lesson) + credit;
      reduction := Least2(amount, stored - Least2(stored, rest));
      var next := stored - reduction;
      var percent := ProgressPercent(next, input.lessons[lesson].total).value;
      var completed := PassMarkReached(next, input.lessons[lesson]);
      if !(next == stored && percent == Num(row.progress) && completed == row.completed) {
        change := [Update(row.id, next, percent, completed)];
      }
    }
  }

  // ---- the levels and grades --------------------------------------------------------------------------------

  method Reduce(rows: map<Id, Progress>, key: Id, amount: nat, total: Option<nat>) returns (change: seq<Update>)
    requires Usable(total)
    ensures change == Reduced(rows, key, amount, total)
  {
    if amount == 0 || key !in rows {
      return [];
    }
    var row := rows[key];
    var wanted := Num(row.points) - amount;
    var next := if wanted < 0 then 0 else wanted;
    var percent := ProgressPercent(next, total).value;
    var completed := PercentCompleted(percent);
    if next == Num(row.points) && percent == Num(row.progress) && completed == row.completed {
      return [];
    }
    return [Update(row.id, next, percent, completed)];
  }

  lemma {:induction false} LevelToReduce(input: Input, levels: map<Id, nat>, v: Id)
    requires LevelSums(input, Sorted(Lessons(input)), levels)
    ensures levels.Keys == Levels(input)
    ensures v in levels ==> v in input.levels && Usable(input.levels[v].points) && levels[v] == LevelLoss(input, Sorted(Lessons(input)), v)
  {
    SortedHasEach(Lessons(input));
    if v in levels {
      assert NumAt(levels, v) == LevelLoss(input, Sorted(Lessons(input)), v);
      var l :| l in Lessons(input) && input.lessons[l].level == v;
      HeldLessonIsUsable(input, Sorted(QuizIds(input)), l);
    }
  }

  lemma {:induction false} GradeKeys(input: Input, lessons: seq<Id>)
    requires forall l :: l in lessons <==> l in Lessons(input)
    ensures (set l | l in lessons && GradeOf(input, l).Some? :: GradeOf(input, l).value) == Grades(input)
  {
    forall l | l in Lessons(input) && input.lessons[l].level in input.levels
      ensures GradeOf(input, l) == Some(input.levels[input.lessons[l].level].grade)
    {
    }
  }

  lemma {:induction false} GradeToReduce(input: Input, grades: map<Id, nat>, g: Id)
    requires GradeSums(input, Sorted(Lessons(input)), grades)
    ensures grades.Keys == Grades(input)
    ensures g in grades ==> g in input.grades && Usable(input.grades[g].points) && grades[g] == GradeLoss(input, Sorted(Lessons(input)), g)
  {
    SortedHasEach(Lessons(input));
    GradeKeys(input, Sorted(Lessons(input)));
    if g in grades {
      assert NumAt(grades, g) == GradeLoss(input, Sorted(Lessons(input)), g);
      var l :| l in Lessons(input) && GradeOf(input, l) == Some(g);
      HeldLessonIsUsable(input, Sorted(QuizIds(input)), l);
    }
  }

  lemma {:induction false} OneMoreLevel(input: Input, levels: seq<Id>, v: Id)
    ensures LevelChanges(input, levels + [v])
      == LevelChanges(input, levels) + Reduced(input.levelRows, v, LevelLoss(input, Sorted(Lessons(input)), v), LevelTotal(input, v))
  {
    assert (levels + [v])[..|levels|] == levels;
  }

  lemma {:induction false} OneMoreGrade(input: Input, grades: seq<Id>, g: Id)
    ensures GradeChanges(input, grades + [g])
      == GradeChanges(input, grades) + Reduced(input.gradeRows, g, GradeLoss(input, Sorted(Lessons(input)), g), GradeTotal(input, g))
  {
    assert (grades + [g])[..|grades|] == grades;
  }

  method PlanLevel(input: Input, levels: map<Id, nat>, v: Id) returns (change: seq<Update>)
    requires LevelSums(input, Sorted(Lessons(input)), levels) && v in levels
    ensures change == Reduced(input.levelRows, v, LevelLoss(input, Sorted(Lessons(input)), v), LevelTotal(input, v))
  {
    LevelToReduce(input, levels, v);
    change := Reduce(input.levelRows, v, levels[v], input.levels[v].points);
  }

  method PlanLevels(input: Input, levels: map<Id, nat>) returns (updates: seq<Update>)
    requires LevelSums(input, Sorted(Lessons(input)), levels)
    ensures updates == LevelChanges(input, Sorted(Levels(input)))
  {
    var keys := Sorted(levels.Keys);
    SortedHasEach(levels.Keys);
    updates := [];
    for i := 0 to |keys|
      invariant updates == LevelChanges(input, keys[..i])
    {
      assert keys[..i + 1] == keys[..i] + [keys[i]];
      OneMoreLevel(input, keys[..i], keys[i]);
      var change := PlanLevel(input, levels, keys[i]);
      updates := updates + change;
    }
    assert keys[..|keys|] == keys;
    LevelToReduce(input, levels, Id(0));
  }

  method PlanGrade(input: Input, grades: map<Id, nat>, g: Id) returns (change: seq<Update>)
    requires GradeSums(input, Sorted(Lessons(input)), grades) && g in grades
    ensures change == Reduced(input.gradeRows, g, GradeLoss(input, Sorted(Lessons(input)), g), GradeTotal(input, g))
  {
    GradeToReduce(input, grades, g);
    change := Reduce(input.gradeRows, g, grades[g], input.grades[g].points);
  }

  method PlanGrades(input: Input, grades: map<Id, nat>) returns (updates: seq<Update>)
    requires GradeSums(input, Sorted(Lessons(input)), grades)
    ensures updates == GradeChanges(input, Sorted(Grades(input)))
  {
    var keys := Sorted(grades.Keys);
    SortedHasEach(grades.Keys);
    updates := [];
    for i := 0 to |keys|
      invariant updates == GradeChanges(input, keys[..i])
    {
      assert keys[..i + 1] == keys[..i] + [keys[i]];
      OneMoreGrade(input, keys[..i], keys[i]);
      var change := PlanGrade(input, grades, keys[i]);
      updates := updates + change;
    }
    assert keys[..|keys|] == keys;
    GradeToReduce(input, grades, Id(0));
  }

  /**
   * The plan for one learner. The rows may come in any order: the plan is a function of the
   * set of them. Every quiz is in one outcome counter, and the rows to zero are counted.
   */
  method PlanLearner(rows: seq<Attempt>, input: Input) returns (plan: Plan)
    requires Distinct(rows) && ToSet(rows) == input.attempts
    ensures IsPlanOf(input, plan)
    ensures CountsOf(input, Sorted(QuizIds(input)), plan.counts)
    ensures plan.counts.attemptRowsToZero == |plan.zeroRows| == |Zeroed(input)|
  {
    var t := PlanQuizzes(rows, input);
    var lessonUpdates, levels, grades := PlanLessons(input, t.subtract, t.credit);
    var levelUpdates := PlanLevels(input, levels);
    var gradeUpdates := PlanGrades(input, grades);
    plan := Plan(t.zeroRows, lessonUpdates, levelUpdates, gradeUpdates, t.counts);
  }
}
