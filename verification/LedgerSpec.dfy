/**
 * One learner's ledger: attempts and viewed learnings hold points; lesson, level and grade
 * rows hold their sums and the stars. The operations as functions of the stored rows.
 *
 * An activity is a lesson's practice, quiz or learning, or a level's quiz (whose id is the
 * level's own). A row a map does not have is one that was not created yet.
 */
module LedgerSpec {
  import opened Wrappers
  import opened ProgressRules

  type Id = string

  datatype Lesson = Lesson(level: Id, total: nat)

  /** The lesson of each activity, the learning items among them, the level of each lesson, the grade of each level. */
  datatype Content = Content(activities: map<Id, Id>, learnings: set<Id>, lessons: map<Id, Lesson>, levels: map<Id, Id>) {
    /** The foreign keys hold, and no activity shares its id with a level. */
    predicate Valid() {
      && learnings <= activities.Keys
      && (forall a :: a in activities ==> activities[a] in lessons)
      && (forall l :: l in lessons ==> lessons[l].level in levels)
      && activities.Keys !! levels.Keys
    }

    predicate Knows(activity: Id) {
      activity in activities || activity in levels
    }

    function LevelOf(activity: Id): Id
      requires Valid() && Knows(activity)
    {
      if activity in activities then lessons[activities[activity]].level else activity
    }

    function GradeOf(activity: Id): Id
      requires Valid() && Knows(activity)
    {
      levels[LevelOf(activity)]
    }
  }

  /** The natural key of an attempt. */
  datatype Key = Key(activity: Id, start: int)

  /** `counted` marks a pass that counts (under the verified rule, where that is on). */
  datatype Attempt = Attempt(points: nat, scores: nat, counted: bool)
  datatype Viewing = Viewing(viewed: nat, points: nat)
  datatype LessonRow = LessonRow(points: nat, stars: nat, bonus: bool)
  datatype LevelRow = LevelRow(points: nat, stars: nat, quizBonus: bool)
  datatype GradeRow = GradeRow(points: nat, stars: nat)

  datatype State = State(
    attempts: map<Key, Attempt>,
    viewings: map<Id, Viewing>,
    lessons: map<Id, LessonRow>,
    levels: map<Id, LevelRow>,
    grades: map<Id, GradeRow>)

  function Num(v: Option<nat>): nat {
    if v.Some? then v.value else 0
  }

  function Max(a: int, b: int): int {
    if a > b then a else b
  }

  // ---- the rewards ------------------------------------------------------------------------------------------

  /** A delta that would take a row below 0 is skipped. */
  function Added(points: nat, delta: int): nat {
    if delta < 0 && points + delta < 0 then points else points + delta
  }

  /** A lesson keeps only up to its total. */
  function LessonAfter(rows: map<Id, LessonRow>, lesson: Id, delta: int, total: nat): LessonRow {
    if lesson !in rows then LessonRow(Max(delta, 0), 0, false)
    else
      var sum := Added(rows[lesson].points, delta);
      rows[lesson].(points := if sum > total then total else sum)
  }

  /** What of a delta landed on the lesson, and goes on to the level and the grade. */
  function Landed(rows: map<Id, LessonRow>, lesson: Id, delta: int, total: nat): int {
    if lesson !in rows then delta
    else
      var sum := Added(rows[lesson].points, delta);
      if sum > total then Max(0, delta - (sum - total)) else delta
  }

  function LevelAfter(rows: map<Id, LevelRow>, level: Id, delta: int): LevelRow {
    if level !in rows then LevelRow(Max(delta, 0), 0, false)
    else rows[level].(points := Added(rows[level].points, delta))
  }

  function GradeAfter(rows: map<Id, GradeRow>, grade: Id, delta: int): GradeRow {
    if grade !in rows then GradeRow(Max(delta, 0), 0)
    else rows[grade].(points := Added(rows[grade].points, delta))
  }

  /** What an activity of a lesson earns goes to its lesson, its level and its grade. */
  function LessonReward(c: Content, s: State, lesson: Id, delta: int): State
    requires c.Valid() && lesson in c.lessons
  {
    var (total, level) := (c.lessons[lesson].total, c.lessons[lesson].level);
    var landed := Landed(s.lessons, lesson, delta, total);
    s.(lessons := s.lessons[lesson := LessonAfter(s.lessons, lesson, delta, total)],
       levels := s.levels[level := LevelAfter(s.levels, level, landed)],
       grades := s.grades[c.levels[level] := GradeAfter(s.grades, c.levels[level], landed)])
  }

  /** What a level's quiz earns goes to the level and its grade. */
  function LevelReward(c: Content, s: State, level: Id, delta: int): State
    requires level in c.levels
  {
    s.(levels := s.levels[level := LevelAfter(s.levels, level, delta)],
       grades := s.grades[c.levels[level] := GradeAfter(s.grades, c.levels[level], delta)])
  }

  function Reward(c: Content, s: State, activity: Id, delta: int): State
    requires c.Valid() && c.Knows(activity)
  {
    if activity in c.activities then LessonReward(c, s, c.activities[activity], delta) else LevelReward(c, s, activity, delta)
  }

  // ---- reading attempts -----------------------------------------------------------------------------------------

  predicate Tried(attempts: map<Key, Attempt>, activity: Id) {
    exists k :: k in attempts && k.activity == activity
  }

  ghost predicate IsNewest(attempts: map<Key, Attempt>, k: Key) {
    k in attempts && forall j :: j in attempts && j.activity == k.activity ==> j.start <= k.start
  }

  ghost predicate IsFirstPass(attempts: map<Key, Attempt>, k: Key) {
    && k in attempts && attempts[k].counted
    && forall j :: j in attempts && j.activity == k.activity && attempts[j].counted ==> k.start <= j.start
  }

  /** The newest attempt by start time. */
  ghost function Newest(attempts: map<Key, Attempt>, activity: Id): Option<Key> {
    if k :| IsNewest(attempts, k) && k.activity == activity then Some(k) else None
  }

  ghost function FirstPass(attempts: map<Key, Attempt>, activity: Id): Option<Key> {
    if k :| IsFirstPass(attempts, k) && k.activity == activity then Some(k) else None
  }

  ghost function PointsAt(attempts: map<Key, Attempt>, k: Option<Key>): nat {
    if k.Some? && k.value in attempts then attempts[k.value].points else 0
  }

  /** The credit an attempt row holds, or nothing when it is the activity's current points. */
  function OldPoints(held: nat, points: nat): Option<nat> {
    if held == points then None else Some(held)
  }

  // ---- an attempt -------------------------------------------------------------------------------------------------

  /** `points` are the activity's current ones; `rule` is the pass rule of a lesson quiz (off for the others). */
  datatype Submission = Submission(activity: Id, start: int, points: nat, rule: bool, ispass: bool, counted: bool, scores: nat) {
    function NaturalKey(): Key {
      Key(activity, start)
    }

    /** With the rule on a failed attempt earns nothing. */
    function Earned(): nat {
      if rule && !ispass then 0 else points
    }

    function Row(): Attempt {
      Attempt(Earned(), scores, counted)
    }
  }

  /** What a request reads before its transaction. */
  datatype Reads = Reads(tried: bool, held: Option<nat>, newest: Option<int>)

  ghost function Read(s: State, sub: Submission): Reads {
    var newest := Newest(s.attempts, sub.activity);
    Reads(
      Tried(s.attempts, sub.activity),
      if newest.Some? then OldPoints(PointsAt(s.attempts, newest), sub.Earned()) else None,
      if newest.Some? then Some(newest.value.start) else None)
  }

  /** A failed attempt dated before the newest one moves no points under the rule. */
  predicate Stale(sub: Submission, seen: Reads) {
    sub.rule && !sub.ispass && seen.newest.Some? && seen.newest.value > sub.start
  }

  predicate Moves(sub: Submission, seen: Reads) {
    !Stale(sub, seen) && (!seen.tried || seen.held.Some?)
  }

  function Inserted(s: State, sub: Submission): State {
    s.(attempts := s.attempts[sub.NaturalKey() := sub.Row()])
  }

  /** The transaction: find or create the row, and move points only when it was created. */
  function Commit(c: Content, s: State, sub: Submission, seen: Reads): State
    requires c.Valid() && c.Knows(sub.activity)
  {
    if sub.NaturalKey() in s.attempts then s
    else if Moves(sub, seen) then Reward(c, Inserted(s, sub), sub.activity, sub.Earned() - Num(seen.held))
    else Inserted(s, sub)
  }

  // ---- stars ------------------------------------------------------------------------------------------------------

  /** The stored percentage reaches 100; a total of 0 divides to infinity. */
  predicate IsFull(points: nat, total: nat) {
    if total == 0 then points > 0 else RoundedPercent(points, total) >= 10000
  }

  function WithStars(row: LevelRow, stars: nat): LevelRow {
    row.(stars := row.stars + stars)
  }

  function AddedToGrade(rows: map<Id, GradeRow>, grade: Id, stars: nat): map<Id, GradeRow> {
    if grade in rows then rows[grade := rows[grade].(stars := rows[grade].stars + stars)] else rows
  }

  /** A lesson gives one star more the first time it is full. */
  predicate EarnsBonus(c: Content, s: State, lesson: Id) {
    lesson in c.lessons && lesson in s.lessons && IsFull(s.lessons[lesson].points, c.lessons[lesson].total) && !s.lessons[lesson].bonus
  }

  function AddLessonStars(c: Content, s: State, lesson: Id, scores: nat): State
    requires c.Valid() && lesson in c.lessons
  {
    var level := c.lessons[lesson].level;
    var stars := scores + if EarnsBonus(c, s, lesson) then 1 else 0;
    s.(lessons := if lesson in s.lessons
                  then s.lessons[lesson := s.lessons[lesson].(stars := s.lessons[lesson].stars + stars,
                                                              bonus := s.lessons[lesson].bonus || EarnsBonus(c, s, lesson))]
                  else s.lessons,
       levels := if level in s.levels then s.levels[level := WithStars(s.levels[level], stars)] else s.levels,
       grades := AddedToGrade(s.grades, c.levels[level], stars))
  }

  /** A level gives one star more for the first attempt at its quiz. */
  function AddLevelStars(c: Content, s: State, level: Id, scores: nat): State
    requires level in c.levels
  {
    var stars := scores + if level in s.levels && !s.levels[level].quizBonus then 1 else 0;
    s.(levels := if level in s.levels then s.levels[level := WithStars(s.levels[level], stars).(quizBonus := true)] else s.levels,
       grades := AddedToGrade(s.grades, c.levels[level], stars))
  }

  function AddStars(c: Content, s: State, activity: Id, scores: nat): State
    requires c.Valid() && c.Knows(activity)
  {
    if activity in c.activities then AddLessonStars(c, s, c.activities[activity], scores)
    else AddLevelStars(c, s, activity, scores)
  }

  // ---- whole requests ------------------------------------------------------------------------------------------------

  predicate Passed(attempts: map<Key, Attempt>, activity: Id) {
    exists k :: k in attempts && k.activity == activity && attempts[k].counted
  }

  /** The row of the first counted pass takes the activity's current points. */
  ghost function PassPaid(s: State, activity: Id, points: nat): State {
    var pass := FirstPass(s.attempts, activity);
    if pass.Some? && pass.value in s.attempts
    then s.(attempts := s.attempts[pass.value := s.attempts[pass.value].(points := points)]) else s
  }

  /** Once passed, no attempt is stored: the pass takes the activity's current points, and the difference moves. */
  ghost function Repay(c: Content, s: State, sub: Submission): State
    requires c.Valid() && c.Knows(sub.activity)
  {
    var held := PointsAt(s.attempts, if sub.rule then FirstPass(s.attempts, sub.activity) else Newest(s.attempts, sub.activity));
    var paid := PassPaid(s, sub.activity, sub.points);
    if held == sub.points then paid else Reward(c, paid, sub.activity, sub.points - held)
  }

  ghost function Submitted(c: Content, s: State, sub: Submission): State
    requires c.Valid() && c.Knows(sub.activity)
  {
    if Passed(s.attempts, sub.activity) then Repay(c, s, sub)
    else if sub.NaturalKey() in s.attempts then s
    else AddStars(c, Commit(c, s, sub, Read(s, sub)), sub.activity, sub.scores)
  }

  function ViewingOf(s: State, item: Id): Viewing {
    if item in s.viewings then s.viewings[item] else Viewing(0, 0)
  }

  /** A learning item holds its points once it was viewed to the end. */
  function ViewStored(s: State, item: Id, points: nat, ended: bool): State {
    var views := ViewingOf(s, item).viewed + if ended then 1 else 0;
    s.(viewings := s.viewings[item := Viewing(views, if views > 0 then points else 0)])
  }

  function ViewMoved(c: Content, s: State, item: Id, points: nat, ended: bool): State
    requires c.Valid() && item in c.activities
  {
    var (before, stored) := (ViewingOf(s, item), ViewStored(s, item, points, ended));
    var views := stored.viewings[item].viewed;
    var held := if item in s.viewings && views > 0 then OldPoints(before.points, points) else None;
    if held.Some? || (views == 1 && ended) then Reward(c, stored, item, points - Num(held)) else stored
  }

  /** A report on a learning item. */
  function Viewed(c: Content, s: State, item: Id, points: nat, ended: bool): State
    requires c.Valid() && item in c.activities
  {
    var moved := ViewMoved(c, s, item, points, ended);
    if ended then AddStars(c, moved, item, 0) else moved
  }

  datatype Op = Submit(sub: Submission) | View(item: Id, points: nat, ended: bool)

  predicate Fits(c: Content, op: Op) {
    match op
    case Submit(sub) =>
      c.Knows(sub.activity) && sub.activity !in c.learnings && (sub.counted ==> sub.ispass) && (sub.rule ==> sub.activity in c.activities)
    case View(item, _, _) => item in c.learnings
  }

  ghost function Step(c: Content, s: State, op: Op): State
    requires c.Valid() && Fits(c, op)
  {
    match op
    case Submit(sub) => Submitted(c, s, sub)
    case View(item, points, ended) => Viewed(c, s, item, points, ended)
  }

  /** A whole sequential run. */
  ghost function Run(c: Content, s: State, ops: seq<Op>): State
    requires c.Valid() && forall op :: op in ops ==> Fits(c, op)
  {
    if ops == [] then s else Step(c, Run(c, s, ops[..|ops| - 1]), ops[|ops| - 1])
  }
}
