/**
 * The status of every activity of many lessons read in one batch: one query per table, grouped back
 * by lesson. Each lesson gets what it would have been given alone.
 */
module ActivityProgress {
  import opened Wrappers
  import opened ProgressRules

  type Id = string

  /** A learning item, practice or quiz of a lesson, and whether it is switched on. */
  datatype Item = Item(id: Id, lesson: Id, active: bool)

  datatype Viewing = Viewing(student: Id, item: Id, viewed: nat, percentage: int)

  datatype Kind = Practice | Quiz

  /** An attempt: its percentage in hundredths and its marks. */
  datatype Attempt = Attempt(student: Id, kind: Kind, activity: Id, percentage: nat, marks: nat)

  /** A question of a practice or quiz: switched on, and of a template the tablet can show. */
  datatype Question = Question(activity: Id, active: bool, rendered: bool)

  /** The tables, activities in the order of their order column. */
  datatype Stored = Stored(learnings: seq<Item>, practices: seq<Item>, quizzes: seq<Item>, viewings: seq<Viewing>,
                           attempts: seq<Attempt>, practiceQuestions: seq<Question>, quizQuestions: seq<Question>)

  datatype Status = Done | InProgress | Todo

  datatype LearningProgress = LearningProgress(id: Id, status: Status, percentage: int)

  datatype AttemptProgress = AttemptProgress(id: Id, status: Status, attempts: nat, best: Option<nat>, questions: nat)

  datatype Activities = Activities(learnings: seq<LearningProgress>, practices: seq<AttemptProgress>, quizzes: seq<AttemptProgress>)

  // ---- one activity, one lesson -----------------------------------------------------------------------------------

  function Where<T>(s: seq<T>, p: T -> bool): seq<T> {
    if s == [] then [] else Where(s[..|s| - 1], p) + if p(s[|s| - 1]) then [s[|s| - 1]] else []
  }

  function LearningFrom(id: Id, own: seq<Viewing>): LearningProgress {
    if own == [] then LearningProgress(id, Todo, 0)
    else
      var row := own[|own| - 1];
      if row.viewed > 0 then LearningProgress(id, Done, 100)
      else
        var shown := if row.percentage < 0 then 0 else if row.percentage > 100 then 100 else row.percentage;
        LearningProgress(id, if row.percentage > 0 then InProgress else Todo, shown)
  }

  function LearningOf(db: Stored, student: Id, id: Id): LearningProgress {
    LearningFrom(id, Where(db.viewings, (v: Viewing) => v.student == student && v.item == id))
  }

  function BestPercentage(own: seq<Attempt>): nat {
    if own == [] then 0 else
      var (before, last) := (BestPercentage(own[..|own| - 1]), own[|own| - 1].percentage);
      if last > before then last else before
  }

  function BestMarks(own: seq<Attempt>): nat {
    if own == [] then 0 else
      var (before, last) := (BestMarks(own[..|own| - 1]), own[|own| - 1].marks);
      if last > before then last else before
  }

  function QuizFrom(id: Id, own: seq<Attempt>, questions: nat): AttemptProgress {
    var best := if own == [] then None else Some(BestPercentage(own));
    var status := if best.Some? && best.value >= COMPLETED then Done else if own != [] then InProgress else Todo;
    AttemptProgress(id, status, |own|, best, questions)
  }

  /** A practice is scored against the questions it has now; with none left there is nothing to fail. */
  function PracticeFrom(id: Id, own: seq<Attempt>, questions: nat): AttemptProgress {
    if own == [] then AttemptProgress(id, Todo, 0, None, questions)
    else if questions == 0 then AttemptProgress(id, Done, |own|, None, 0)
    else
      var best := Min(10000, RoundedPercent(BestMarks(own), questions));
      AttemptProgress(id, if best >= COMPLETED then Done else InProgress, |own|, Some(best), questions)
  }

  function AttemptsOf(db: Stored, student: Id, kind: Kind, id: Id): seq<Attempt> {
    Where(db.attempts, (a: Attempt) => a.student == student && a.kind == kind && a.activity == id)
  }

  function QuestionsOf(questions: seq<Question>, id: Id): seq<Question> {
    Where(questions, (q: Question) => q.active && q.activity == id)
  }

  /** The questions an attempt is scored against: the active ones that can be shown. */
  function ShownOf(questions: seq<Question>, id: Id): seq<Question> {
    Where(questions, (q: Question) => q.active && q.rendered && q.activity == id)
  }

  function QuizOf(db: Stored, student: Id, id: Id): AttemptProgress {
    QuizFrom(id, AttemptsOf(db, student, Quiz, id), |QuestionsOf(db.quizQuestions, id)|)
  }

  function PracticeOf(db: Stored, student: Id, id: Id): AttemptProgress {
    PracticeFrom(id, AttemptsOf(db, student, Practice, id), |QuestionsOf(db.practiceQuestions, id)|)
  }

  function ActiveIn(items: seq<Item>, lesson: Id): seq<Item> {
    Where(items, (x: Item) => x.active && x.lesson == lesson)
  }

  function Each<T>(items: seq<Item>, f: Id -> T): seq<T> {
    seq(|items|, i requires 0 <= i < |items| => f(items[i].id))
  }

  /** What one lesson shows: the status of each of its active activities, in their order. */
  function ActivitiesOf(db: Stored, student: Id, lesson: Id): Activities {
    Activities(Each(ActiveIn(db.learnings, lesson), id => LearningOf(db, student, id)),
               Each(ActiveIn(db.practices, lesson), id => PracticeOf(db, student, id)),
               Each(ActiveIn(db.quizzes, lesson), id => QuizOf(db, student, id)))
  }

  // ---- what a status means ------------------------------------------------------------------------------------------

  lemma {:induction false} BestReaches(own: seq<Attempt>, least: nat)
    requires least > 0
    ensures BestPercentage(own) >= least <==> exists a :: a in own && a.percentage >= least
    ensures BestMarks(own) >= least <==> exists a :: a in own && a.marks >= least
  {
    if own != [] {
      BestReaches(own[..|own| - 1], least);
      assert own == own[..|own| - 1] + [own[|own| - 1]];
    }
  }

  /** A quiz is done exactly when some attempt reached 80 percent. */
  lemma {:induction false} QuizIsDone(db: Stored, student: Id, id: Id)
    ensures QuizOf(db, student, id).status == Done
      <==> exists a :: a in AttemptsOf(db, student, Quiz, id) && a.percentage >= COMPLETED
  {
    BestReaches(AttemptsOf(db, student, Quiz, id), COMPLETED);
  }

  lemma {:induction false} BestIsOne(own: seq<Attempt>)
    requires own != []
    ensures exists a :: a in own && a.marks == BestMarks(own)
    ensures forall a :: a in own ==> a.marks <= BestMarks(own)
  {
    var before, last := own[..|own| - 1], own[|own| - 1];
    assert own == before + [last] && last in own;
    if before != [] {
      BestIsOne(before);
    }
  }

  /** A practice shows as done exactly when some attempt reaches 80 percent of the questions it has now, shown or not. */
  lemma {:induction false} PracticeIsDone(db: Stored, student: Id, id: Id)
    ensures PracticeOf(db, student, id).status == Done
      <==> exists a :: a in AttemptsOf(db, student, Practice, id)
                       && PracticePassResult(a.marks, |QuestionsOf(db.practiceQuestions, id)|).ispass
  {
    SomePasses(AttemptsOf(db, student, Practice, id), |QuestionsOf(db.practiceQuestions, id)|);
  }

  /** Some attempt passes exactly when the best one does. */
  lemma {:induction false} SomePasses(own: seq<Attempt>, questions: nat)
    ensures (exists a :: a in own && PracticePassResult(a.marks, questions).ispass)
      <==> own != [] && PracticePassResult(BestMarks(own), questions).ispass
  {
    if own != [] {
      assert own[0] in own;
      BestIsOne(own);
      if questions > 0 {
        forall a | a in own ensures RoundedPercent(a.marks, questions) <= RoundedPercent(BestMarks(own), questions) {
          RoundedIsMonotone(a.marks, BestMarks(own), questions);
        }
      }
    }
  }

  /** Some attempt of the practice would pass it today, by the rule submissions are scored with. */
  ghost predicate WouldPass(db: Stored, student: Id, id: Id) {
    exists a :: a in AttemptsOf(db, student, Practice, id)
                && PracticePassResult(a.marks, |ShownOf(db.practiceQuestions, id)|).ispass
  }

  lemma {:induction false} ShownAreQuestions(questions: seq<Question>, id: Id)
    ensures |ShownOf(questions, id)| <= |QuestionsOf(questions, id)|
  {
    if questions != [] {
      ShownAreQuestions(questions[..|questions| - 1], id);
    }
  }

  /**
   * The status counts every active question and the scoring only those that can be shown. They
   * disagree, on a practice that shows as in progress and would be passed, exactly when the best
   * marks are 80 percent (as rounded) of the second count and not of the first.
   */
  lemma {:induction false} StatusAndScoreDisagreeWhen(db: Stored, student: Id, id: Id)
    ensures var (own, n) := (AttemptsOf(db, student, Practice, id), |QuestionsOf(db.practiceQuestions, id)|);
            var m := |ShownOf(db.practiceQuestions, id)|;
            (PracticeOf(db, student, id).status == Done) != WouldPass(db, student, id)
            <==> own != [] && 15999 * m <= 20000 * BestMarks(own) < 15999 * n
    ensures PracticeOf(db, student, id).status == Done ==> WouldPass(db, student, id)
  {
    var own, best := AttemptsOf(db, student, Practice, id), BestMarks(AttemptsOf(db, student, Practice, id));
    var n, m := |QuestionsOf(db.practiceQuestions, id)|, |ShownOf(db.practiceQuestions, id)|;
    ShownAreQuestions(db.practiceQuestions, id);
    SomePasses(own, m);
    PassReaches(best, n);
    PassReaches(best, m);
  }

  lemma {:induction false} PassReaches(marks: nat, questions: nat)
    ensures PracticePassResult(marks, questions).ispass <==> 20000 * marks >= 15999 * questions
  {
    if questions > 0 {
      RoundedReaches80(marks, questions);
    }
  }

  // ---- a practice with questions that are not shown --------------------------------------------------------------

  /** Four questions that can be shown and two that cannot, all active, and an attempt of four marks. */
  const SIX_QUESTIONS := seq(6, i => Question("p", true, i < 4))

  const FOUR_RIGHT := [Attempt("s", Practice, "p", 10000, 4)]

  const PARTLY_SHOWN := Stored([], [Item("p", "l", true)], [], [], FOUR_RIGHT, SIX_QUESTIONS, [])

  lemma {:induction false} WhereAll<T(!new)>(s: seq<T>, p: T -> bool)
    requires forall x :: x in s ==> p(x)
    ensures Where(s, p) == s
  {
    if s != [] {
      WhereAll(s[..|s| - 1], p);
      assert s == s[..|s| - 1] + [s[|s| - 1]];
    }
  }

  /** All that can be answered was, and the practice is passed; it shows as in progress at 66.67 percent. */
  lemma {:induction false} PassedButInProgress()
    ensures PracticePassResult(4, |ShownOf(PARTLY_SHOWN.practiceQuestions, "p")|) == PassResult(4, 10000, true)
    ensures PracticeOf(PARTLY_SHOWN, "s", "p") == AttemptProgress("p", InProgress, 1, Some(6667), 6)
    ensures WouldPass(PARTLY_SHOWN, "s", "p")
  {
    var own := AttemptsOf(PARTLY_SHOWN, "s", Practice, "p");
    WhereAll(FOUR_RIGHT, (a: Attempt) => a.student == "s" && a.kind == Practice && a.activity == "p");
    WhereAll(SIX_QUESTIONS, (q: Question) => q.active && q.activity == "p");
    ShownAreFour();
    assert own == FOUR_RIGHT && FOUR_RIGHT[0] in own && FOUR_RIGHT[..0] == [];
    assert BestMarks(own) == 4;
  }

  lemma {:induction false} ShownAreFour()
    ensures |ShownOf(SIX_QUESTIONS, "p")| == 4
  {
    var shown := (q: Question) => q.active && q.rendered && q.activity == "p";
    assert SIX_QUESTIONS == SIX_QUESTIONS[..4] + [SIX_QUESTIONS[4]] + [SIX_QUESTIONS[5]];
    WhereAll(SIX_QUESTIONS[..4], shown);
    WhereOneMore(SIX_QUESTIONS[..4], SIX_QUESTIONS[4], shown);
    WhereOneMore(SIX_QUESTIONS[..4] + [SIX_QUESTIONS[4]], SIX_QUESTIONS[5], shown);
  }

  // ---- batches and single reads -------------------------------------------------------------------------------------

  lemma {:induction false} WhereOneMore<T>(s: seq<T>, x: T, p: T -> bool)
    ensures Where(s + [x], p) == Where(s, p) + if p(x) then [x] else []
  {
    assert (s + [x])[..|s|] == s;
  }

  /** Filtering what a wider query found is the narrower query. */
  lemma {:induction false} WhereOfWhere<T(!new)>(s: seq<T>, wide: T -> bool, p: T -> bool, narrow: T -> bool)
    requires forall x :: narrow(x) <==> wide(x) && p(x)
    ensures Where(Where(s, wide), p) == Where(s, narrow)
  {
    if s != [] {
      var before, last := s[..|s| - 1], s[|s| - 1];
      WhereOfWhere(before, wide, p, narrow);
      assert Where(s, wide) == if wide(last) then Where(before, wide) + [last] else Where(before, wide);
      WhereOneMore(Where(before, wide), last, p);
    }
  }

  /** The results that stand at the items of one lesson. */
  function ResultsIn<T>(items: seq<Item>, results: seq<T>, lesson: Id): seq<T>
    requires |items| == |results|
  {
    if items == [] then []
    else
      var n := |items| - 1;
      ResultsIn(items[..n], results[..n], lesson) + if items[n].lesson == lesson then [results[n]] else []
  }

  lemma {:induction false} ResultsAreEach<T>(items: seq<Item>, results: seq<T>, lesson: Id, f: Id -> T)
    requires results == Each(items, f)
    ensures ResultsIn(items, results, lesson) == Each(ItemsIn(items, lesson), f)
  {
    if items != [] {
      var n := |items| - 1;
      ResultsAreEach(items[..n], results[..n], lesson, f);
    }
  }

  // ---- the loops ------------------------------------------------------------------------------------------------------

  function ViewingsAmong(rows: seq<Viewing>, id: Id): seq<Viewing> {
    Where(rows, (v: Viewing) => v.item == id)
  }

  function AttemptsAmong(rows: seq<Attempt>, id: Id): seq<Attempt> {
    Where(rows, (a: Attempt) => a.activity == id)
  }

  function QuestionsAmong(rows: seq<Question>, id: Id): seq<Question> {
    Where(rows, (q: Question) => q.activity == id)
  }

  function ItemsIn(items: seq<Item>, lesson: Id): seq<Item> {
    Where(items, (x: Item) => x.lesson == lesson)
  }

  function IdsOf(items: seq<Item>): set<Id> {
    set x | x in items :: x.id
  }

  ghost predicate LastOfEach(byId: map<Id, Viewing>, rows: seq<Viewing>) {
    forall id :: var own := ViewingsAmong(rows, id);
      (id in byId <==> own != []) && (id in byId ==> byId[id] == own[|own| - 1])
  }

  ghost predicate AllOfEach(byActivity: map<Id, seq<Attempt>>, rows: seq<Attempt>) {
    forall id :: (if id in byActivity then byActivity[id] else []) == AttemptsAmong(rows, id)
  }

  ghost predicate CountOfEach(counts: map<Id, nat>, rows: seq<Question>) {
    forall id :: (if id in counts then counts[id] else 0) == |QuestionsAmong(rows, id)|
  }

  /** A map from rows: of rows with the same id the last stays. */
  method LastById(rows: seq<Viewing>) returns (byId: map<Id, Viewing>)
    ensures LastOfEach(byId, rows)
  {
    byId := map[];
    for i := 0 to |rows|
      invariant LastOfEach(byId, rows[..i])
    {
      assert rows[..i + 1] == rows[..i] + [rows[i]];
      forall id: Id
        ensures ViewingsAmong(rows[..i + 1], id) == ViewingsAmong(rows[..i], id) + if rows[i].item == id then [rows[i]] else [] {
        WhereOneMore(rows[..i], rows[i], (v: Viewing) => v.item == id);
      }
      byId := byId[rows[i].item := rows[i]];
    }
    assert rows[..|rows|] == rows;
  }

  /** Lists that are looked up and pushed to: the rows of each activity, in the order read. */
  method GroupAttempts(rows: seq<Attempt>) returns (byActivity: map<Id, seq<Attempt>>)
    ensures AllOfEach(byActivity, rows)
  {
    byActivity := map[];
    for i := 0 to |rows|
      invariant AllOfEach(byActivity, rows[..i])
    {
      var activity := rows[i].activity;
      assert rows[..i + 1] == rows[..i] + [rows[i]];
      forall id: Id
        ensures AttemptsAmong(rows[..i + 1], id) == AttemptsAmong(rows[..i], id) + if activity == id then [rows[i]] else [] {
        WhereOneMore(rows[..i], rows[i], (a: Attempt) => a.activity == id);
      }
      byActivity := byActivity[activity := (if activity in byActivity then byActivity[activity] else []) + [rows[i]]];
    }
    assert rows[..|rows|] == rows;
  }

  method CountQuestions(rows: seq<Question>) returns (counts: map<Id, nat>)
    ensures CountOfEach(counts, rows)
  {
    counts := map[];
    for i := 0 to |rows|
      invariant CountOfEach(counts, rows[..i])
    {
      var activity := rows[i].activity;
      assert rows[..i + 1] == rows[..i] + [rows[i]];
      forall id: Id
        ensures QuestionsAmong(rows[..i + 1], id) == QuestionsAmong(rows[..i], id) + if activity == id then [rows[i]] else [] {
        WhereOneMore(rows[..i], rows[i], (q: Question) => q.activity == id);
      }
      counts := counts[activity := (if activity in counts then counts[activity] else 0) + 1];
    }
    assert rows[..|rows|] == rows;
  }

  method BuildLearnings(db: Stored, student: Id, items: seq<Item>) returns (results: seq<LearningProgress>)
    ensures results == Each(items, id => LearningOf(db, student, id))
  {
    var ids := IdsOf(items);
    var rows := Where(db.viewings, (v: Viewing) => v.student == student && v.item in ids);
    var byId := LastById(rows);
    results := [];
    for i := 0 to |items|
      invariant |results| == i
      invariant forall j :: 0 <= j < i ==> results[j] == LearningOf(db, student, items[j].id)
    {
      var id := items[i].id;
      WhereOfWhere(db.viewings, (v: Viewing) => v.student == student && v.item in ids, (v: Viewing) => v.item == id,
                   (v: Viewing) => v.student == student && v.item == id);
      assert ViewingsAmong(rows, id) == Where(db.viewings, (v: Viewing) => v.student == student && v.item == id);
      var result := LearningProgress(id, Todo, 0);
      if id in byId {
        var done, started := byId[id].viewed > 0, byId[id].viewed > 0 || byId[id].percentage > 0;
        var shown := if byId[id].percentage < 0 then 0 else if byId[id].percentage > 100 then 100 else byId[id].percentage;
        result := LearningProgress(id, if done then Done else if started then InProgress else Todo, if done then 100 else shown);
      }
      results := results + [result];
    }
  }

  /** The reads that quizzes and practices share: attempts by activity, and how many active questions each has. */
  method ReadAttempts(db: Stored, student: Id, kind: Kind, questions: seq<Question>, items: seq<Item>)
    returns (byActivity: map<Id, seq<Attempt>>, counts: map<Id, nat>)
    ensures forall id :: id in IdsOf(items) ==>
      (if id in byActivity then byActivity[id] else []) == AttemptsOf(db, student, kind, id)
    ensures forall id :: id in IdsOf(items) ==> (if id in counts then counts[id] else 0) == |QuestionsOf(questions, id)|
  {
    var ids := IdsOf(items);
    var rows := Where(db.attempts, (a: Attempt) => a.student == student && a.kind == kind && a.activity in ids);
    var active := Where(questions, (q: Question) => q.active && q.activity in ids);
    byActivity := GroupAttempts(rows);
    counts := CountQuestions(active);
    forall id | id in ids
      ensures AttemptsAmong(rows, id) == AttemptsOf(db, student, kind, id) && QuestionsAmong(active, id) == QuestionsOf(questions, id)
    {
      WhereOfWhere(db.attempts, (a: Attempt) => a.student == student && a.kind == kind && a.activity in ids,
                   (a: Attempt) => a.activity == id, (a: Attempt) => a.student == student && a.kind == kind && a.activity == id);
      WhereOfWhere(questions, (q: Question) => q.active && q.activity in ids, (q: Question) => q.activity == id,
                   (q: Question) => q.active && q.activity == id);
    }
  }

  method BuildQuizzes(db: Stored, student: Id, items: seq<Item>) returns (results: seq<AttemptProgress>)
    ensures results == Each(items, id => QuizOf(db, student, id))
  {
    var byQuiz, counts := ReadAttempts(db, student, Quiz, db.quizQuestions, items);
    results := [];
    for i := 0 to |items|
      invariant |results| == i
      invariant forall j :: 0 <= j < i ==> results[j] == QuizOf(db, student, items[j].id)
    {
      var id := items[i].id;
      assert id in IdsOf(items);
      results := results + [QuizFrom(id, if id in byQuiz then byQuiz[id] else [], if id in counts then counts[id] else 0)];
    }
  }

  method BuildPractices(db: Stored, student: Id, items: seq<Item>) returns (results: seq<AttemptProgress>)
    ensures results == Each(items, id => PracticeOf(db, student, id))
  {
    var byPractice, counts := ReadAttempts(db, student, Practice, db.practiceQuestions, items);
    results := [];
    for i := 0 to |items|
      invariant |results| == i
      invariant forall j :: 0 <= j < i ==> results[j] == PracticeOf(db, student, items[j].id)
    {
      var id := items[i].id;
      assert id in IdsOf(items);
      results := results + [PracticeFrom(id, if id in byPractice then byPractice[id] else [], if id in counts then counts[id] else 0)];
    }
  }

  /** Pushes each result onto the list of its item's lesson. */
  method Push<T>(items: seq<Item>, results: seq<T>, lessons: set<Id>) returns (lists: map<Id, seq<T>>)
    requires |items| == |results|
    ensures lists.Keys == lessons && forall l :: l in lessons ==> lists[l] == ResultsIn(items, results, l)
  {
    lists := map l | l in lessons :: [];
    for i := 0 to |items|
      invariant lists.Keys == lessons && forall l :: l in lessons ==> lists[l] == ResultsIn(items[..i], results[..i], l)
    {
      var lesson := items[i].lesson;
      assert items[..i + 1][..i] == items[..i] && results[..i + 1][..i] == results[..i];
      if lesson in lists {
        lists := lists[lesson := lists[lesson] + [results[i]]];
      }
    }
    assert items[..|items|] == items && results[..|results|] == results;
  }

  /** One table for many lessons: the active items of any of them. */
  function ActiveAmong(items: seq<Item>, lessons: set<Id>): seq<Item> {
    Where(items, (x: Item) => x.active && x.lesson in lessons)
  }

  lemma {:induction false} ListsAreEach<T>(items: seq<Item>, lessons: set<Id>, results: seq<T>, lesson: Id, f: Id -> T)
    requires results == Each(ActiveAmong(items, lessons), f) && lesson in lessons
    ensures ResultsIn(ActiveAmong(items, lessons), results, lesson) == Each(ActiveIn(items, lesson), f)
  {
    ResultsAreEach(ActiveAmong(items, lessons), results, lesson, f);
    WhereOfWhere(items, (x: Item) => x.active && x.lesson in lessons, (x: Item) => x.lesson == lesson,
                 (x: Item) => x.active && x.lesson == lesson);
  }

  /** The batched read of a whole level: each lesson is shown what it is shown when it is asked for alone. */
  method ActivitiesForLessons(db: Stored, student: Id, lessons: set<Id>) returns (byLesson: map<Id, Activities>)
    ensures byLesson.Keys == lessons && forall l :: l in lessons ==> byLesson[l] == ActivitiesOf(db, student, l)
  {
    var learnings := ActiveAmong(db.learnings, lessons);
    var practices := ActiveAmong(db.practices, lessons);
    var quizzes := ActiveAmong(db.quizzes, lessons);
    var learningResults := BuildLearnings(db, student, learnings);
    var practiceResults := BuildPractices(db, student, practices);
    var quizResults := BuildQuizzes(db, student, quizzes);
    var learningLists := Push(learnings, learningResults, lessons);
    var practiceLists := Push(practices, practiceResults, lessons);
    var quizLists := Push(quizzes, quizResults, lessons);
    forall l | l in lessons
      ensures Activities(learningLists[l], practiceLists[l], quizLists[l]) == ActivitiesOf(db, student, l)
    {
      ListsAreEach(db.learnings, lessons, learningResults, l, id => LearningOf(db, student, id));
      ListsAreEach(db.practices, lessons, practiceResults, l, id => PracticeOf(db, student, id));
      ListsAreEach(db.quizzes, lessons, quizResults, l, id => QuizOf(db, student, id));
    }
    byLesson := map l | l in lessons :: Activities(learningLists[l], practiceLists[l], quizLists[l]);
  }
}
