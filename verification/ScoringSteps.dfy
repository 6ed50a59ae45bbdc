/**
 * Adding stars, one database call at a time: the lesson row (of a lesson's activity), the level row
 * and the grade row are each read and then saved, with no lock in between.
 */
module ScoringSteps {
  import opened Wrappers
  import opened LedgerSpec

  /** A row that holds stars. */
  datatype Holder = OfLesson(id: Id) | OfLevel(id: Id) | OfGrade(id: Id)

  /** The rows an activity's stars go to, in the order they are written. */
  function Holders(c: Content, activity: Id): seq<Holder>
    requires c.Valid() && c.Knows(activity)
  {
    var above := [OfLevel(c.LevelOf(activity)), OfGrade(c.GradeOf(activity))];
    if activity in c.activities then [OfLesson(c.activities[activity])] + above else above
  }

  predicate IsThere(s: State, h: Holder) {
    match h
    case OfLesson(l) => l in s.lessons
    case OfLevel(v) => v in s.levels
    case OfGrade(g) => g in s.grades
  }

  function StarsAt(s: State, h: Holder): nat {
    if !IsThere(s, h) then 0
    else
      match h
      case OfLesson(l) => s.lessons[l].stars
      case OfLevel(v) => s.levels[v].stars
      case OfGrade(g) => s.grades[g].stars
  }

  function BonusAt(s: State, h: Holder): bool {
    match h
    case OfLesson(l) => l in s.lessons && s.lessons[l].bonus
    case OfLevel(v) => v in s.levels && s.levels[v].quizBonus
    case OfGrade(_) => false
  }

  /** Is the row's bonus column among those saved? A lesson's by its activities, a level's by its quiz. */
  predicate MarksBonus(c: Content, activity: Id, h: Holder) {
    h.OfLesson? || (h.OfLevel? && activity !in c.activities)
  }

  /** The star more that reading this row decides on. */
  function Earns(c: Content, s: State, activity: Id, h: Holder): nat {
    match h
    case OfLesson(l) => if EarnsBonus(c, s, l) then 1 else 0
    case OfLevel(_) => if activity !in c.activities && !BonusAt(s, h) then 1 else 0
    case OfGrade(_) => 0
  }

  /** A row as it was read: its stars, and its bonus column as it is to be saved. */
  datatype Seen = Seen(stars: nat, bonus: bool)

  /** The next row, what was read of it if it was, and the stars to give: the scores and any bonus decided on. */
  datatype Progress = Progress(row: nat, held: Option<Seen>, gives: nat)

  /** The save of a row: the stars seen and those given, whatever the row holds by now. */
  function Saved(s: State, h: Holder, stars: nat, marks: bool, bonus: bool): State {
    if !IsThere(s, h) then s
    else
      match h
      case OfLesson(l) => s.(lessons := s.lessons[l := s.lessons[l].(stars := stars, bonus := if marks then bonus else s.lessons[l].bonus)])
      case OfLevel(v) => s.(levels := s.levels[v := s.levels[v].(stars := stars, quizBonus := if marks then bonus else s.levels[v].quizBonus)])
      case OfGrade(g) => s.(grades := s.grades[g := s.grades[g].(stars := stars)])
  }

  /** A row that is not there is passed over. */
  function ProgressAfter(c: Content, s: State, activity: Id, p: Progress): Progress
    requires c.Valid() && c.Knows(activity) && p.row < |Holders(c, activity)|
  {
    var h := Holders(c, activity)[p.row];
    if p.held.Some? || !IsThere(s, h) then Progress(p.row + 1, None, p.gives)
    else
      var bonus := Earns(c, s, activity, h);
      Progress(p.row, Some(Seen(StarsAt(s, h), BonusAt(s, h) || bonus == 1)), p.gives + bonus)
  }

  function StateAfter(c: Content, s: State, activity: Id, p: Progress): State
    requires c.Valid() && c.Knows(activity) && p.row < |Holders(c, activity)|
  {
    var h := Holders(c, activity)[p.row];
    if p.held.Some? then Saved(s, h, p.held.value.stars + p.gives, MarksBonus(c, activity, h), p.held.value.bonus) else s
  }

  /** The rest of a scoring with nobody else in between. */
  function Alone(c: Content, s: State, activity: Id, p: Progress): State
    requires c.Valid() && c.Knows(activity) && p.row <= |Holders(c, activity)|
    decreases |Holders(c, activity)| - p.row, if p.held.None? then 1 else 0
  {
    if p.row == |Holders(c, activity)| then s
    else Alone(c, StateAfter(c, s, activity, p), activity, ProgressAfter(c, s, activity, p))
  }

  /** One row, read and saved with nobody in between, gains what is given. */
  function RowScored(c: Content, s: State, activity: Id, row: nat, gives: nat): State
    requires c.Valid() && c.Knows(activity) && row < |Holders(c, activity)|
  {
    var h := Holders(c, activity)[row];
    var bonus := Earns(c, s, activity, h);
    if IsThere(s, h) then Saved(s, h, StarsAt(s, h) + gives + bonus, MarksBonus(c, activity, h), BonusAt(s, h) || bonus == 1) else s
  }

  lemma {:induction false} AloneByRow(c: Content, s: State, activity: Id, row: nat, gives: nat)
    requires c.Valid() && c.Knows(activity) && row < |Holders(c, activity)|
    ensures var h := Holders(c, activity)[row];
            Alone(c, s, activity, Progress(row, None, gives))
            == Alone(c, RowScored(c, s, activity, row, gives), activity,
                     Progress(row + 1, None, gives + if IsThere(s, h) then Earns(c, s, activity, h) else 0))
  {
    var p := ProgressAfter(c, s, activity, Progress(row, None, gives));
    assert StateAfter(c, s, activity, Progress(row, None, gives)) == s;
    if p.held.Some? {
      assert Alone(c, s, activity, p) == Alone(c, StateAfter(c, s, activity, p), activity, ProgressAfter(c, s, activity, p));
    }
  }

  lemma {:induction false} AboveAlone(c: Content, s: State, activity: Id, gives: nat)
    requires c.Valid() && activity in c.activities
    ensures var (v, g) := (c.LevelOf(activity), c.GradeOf(activity));
            Alone(c, s, activity, Progress(1, None, gives))
            == s.(levels := if v in s.levels then s.levels[v := WithStars(s.levels[v], gives)] else s.levels,
                  grades := AddedToGrade(s.grades, g, gives))
  {
    AloneByRow(c, s, activity, 1, gives);
    AloneByRow(c, RowScored(c, s, activity, 1, gives), activity, 2, gives);
  }

  lemma {:induction false} LessonAlone(c: Content, s: State, activity: Id, scores: nat)
    requires c.Valid() && activity in c.activities
    ensures Alone(c, s, activity, Progress(0, None, scores)) == AddLessonStars(c, s, c.activities[activity], scores)
  {
    var gives := scores + if EarnsBonus(c, s, c.activities[activity]) then 1 else 0;
    AloneByRow(c, s, activity, 0, scores);
    AboveAlone(c, RowScored(c, s, activity, 0, scores), activity, gives);
  }

  lemma {:induction false} LevelAlone(c: Content, s: State, level: Id, scores: nat)
    requires c.Valid() && level in c.levels
    ensures Alone(c, s, level, Progress(0, None, scores)) == AddLevelStars(c, s, level, scores)
  {
    var gives := scores + if level in s.levels && !s.levels[level].quizBonus then 1 else 0;
    AloneByRow(c, s, level, 0, scores);
    AloneByRow(c, RowScored(c, s, level, 0, scores), level, 1, gives);
  }

  /** The calls of a scoring together are its whole effect, when nobody else comes between. */
  lemma {:induction false} AloneIsAddStars(c: Content, s: State, activity: Id, scores: nat)
    requires c.Valid() && c.Knows(activity)
    ensures Alone(c, s, activity, Progress(0, None, scores)) == AddStars(c, s, activity, scores)
  {
    if activity in c.activities {
      LessonAlone(c, s, activity, scores);
    } else {
      LevelAlone(c, s, activity, scores);
    }
  }
}
