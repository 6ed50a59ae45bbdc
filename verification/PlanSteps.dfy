/**
 * Steps of a curriculum plan and what they do to the stored rows: write a row, hide a row, write
 * a translation. Rows are columns by name; a hide of a list of ids is a step for each id.
 */
module PlanSteps {

  datatype Kind = PracticeKind | QuizKind

  /** A lesson's place in its module: one of Module 1's fixed four, or one derived from its number. */
  datatype Slot = FixedSlot(n: nat) | DerivedSlot(n: nat)

  /** One of the seven fixed question ids, or a derived slot's own. */
  datatype QuestionId = PoolQuestion(k: nat) | OwnQuestion(slot: Slot, kind: Kind, place: nat)

  datatype Part = LessonPart | DocumentPart | LearningPart | PracticePart | QuizPart

  /** The rows of one module, and those it does not write: the grade's other levels, other join rows, anything else. */
  datatype RowId =
    | CurriculumRow
    | GradeRow
    | LevelRow
    | SlotRow(part: Part, slot: Slot)
    | QuestionRow(question: QuestionId)
    | JoinRow(joinSlot: Slot, kind: Kind, place: nat)
    | OtherLevel(name: string)
    | OtherJoin(otherKind: Kind, name: string)
    | Elsewhere(name: string)

  datatype Column =
    | Name | Description | Order | Status | IsDeleted | Owner
    | Points | QuizPoints | QuizRows
    | Total | Passing | LearningPoints | QuizzesPoints | PracticesPoints | PracticeCount | QuizCount
    | FileName | Identifier | Body | Options | Feedback | Asks | SetOf

  datatype Value =
    | Null
    | Number(n: int)
    | Words(s: string)
    | Choices(c: seq<(string, bool)>)
    | Question(q: QuestionId)
    | InSet(kind: Kind, slot: Slot)

  type Row = map<Column, Value>

  datatype TextField = NameField | TextField | HeadingField | OptionField(k: nat) | CorrectMessage | IncorrectMessage

  datatype TextKey = TextKey(row: RowId, field: TextField)

  datatype Translation = Translation(owner: string, text: string, hash: string, lastupdated: int)

  datatype Db = Db(rows: map<RowId, Row>, texts: map<TextKey, Translation>)

  datatype Step =
    | Put(id: RowId, values: Row, update: set<Column>)
    | Hide(id: RowId, column: Column, value: Value)
    | Translate(key: TextKey, owner: string, text: string, hash: string, stamp: int)

  datatype Target = OfRow(id: RowId) | OfText(key: TextKey)

  function TargetOf(step: Step): Target {
    match step
    case Put(id, _, _) => OfRow(id)
    case Hide(id, _, _) => OfRow(id)
    case Translate(key, _, _, _, _) => OfText(key)
  }

  /** INSERT ... ON DUPLICATE KEY UPDATE: a row that is there takes the columns of the update list only. */
  function PutRow(rows: map<RowId, Row>, id: RowId, values: Row, update: set<Column>): Row {
    if id in rows then rows[id] + (map c | c in update && c in values :: values[c]) else values
  }

  /** A translation that is there keeps its owner, and its moment unless its text or its hash changes. */
  function TranslateText(texts: map<TextKey, Translation>, step: Step): Translation
    requires step.Translate?
  {
    if step.key in texts then
      var was := texts[step.key];
      Translation(was.owner, step.text, step.hash, if was.text != step.text || was.hash != step.hash then step.stamp else was.lastupdated)
    else Translation(step.owner, step.text, step.hash, step.stamp)
  }

  function ApplyStep(db: Db, step: Step): Db {
    match step
    case Put(id, values, update) => db.(rows := db.rows[id := PutRow(db.rows, id, values, update)])
    case Hide(id, column, value) => if id in db.rows then db.(rows := db.rows[id := db.rows[id][column := value]]) else db
    case Translate(key, _, _, _, _) => db.(texts := db.texts[key := TranslateText(db.texts, step)])
  }

  function Apply(db: Db, steps: seq<Step>): Db {
    if steps == [] then db else ApplyStep(Apply(db, steps[..|steps| - 1]), steps[|steps| - 1])
  }

  // ---- distinct targets ---------------------------------------------------------------------------------------

  predicate Targets(steps: seq<Step>, t: Target) {
    exists k :: 0 <= k < |steps| && TargetOf(steps[k]) == t
  }

  /** No row and no text is the target of two steps. */
  predicate Distinct(steps: seq<Step>) {
    forall i, j :: 0 <= i < j < |steps| ==> TargetOf(steps[i]) != TargetOf(steps[j])
  }

  predicate SameAt(a: Db, b: Db, t: Target) {
    match t
    case OfRow(id) => (id in a.rows <==> id in b.rows) && (id in a.rows ==> a.rows[id] == b.rows[id])
    case OfText(key) => (key in a.texts <==> key in b.texts) && (key in a.texts ==> a.texts[key] == b.texts[key])
  }

  lemma {:induction false} StepElsewhere(db: Db, step: Step, t: Target)
    requires TargetOf(step) != t
    ensures SameAt(ApplyStep(db, step), db, t)
  {
  }

  /** Steps leave alone what they do not target. */
  lemma {:induction false} ApplyElsewhere(db: Db, steps: seq<Step>, t: Target)
    requires !Targets(steps, t)
    ensures SameAt(Apply(db, steps), db, t)
  {
    if steps != [] {
      var before, last := steps[..|steps| - 1], steps[|steps| - 1];
      assert TargetOf(steps[|steps| - 1]) != t;
      forall k | 0 <= k < |before| ensures TargetOf(before[k]) != t {
        assert before[k] == steps[k];
      }
      ApplyElsewhere(db, before, t);
      StepElsewhere(Apply(db, before), last, t);
    }
  }

  lemma {:induction false} StepDependsOnTarget(a: Db, b: Db, step: Step)
    requires SameAt(a, b, TargetOf(step))
    ensures SameAt(ApplyStep(a, step), ApplyStep(b, step), TargetOf(step))
  {
  }

  /** With distinct targets each step has its whole effect: no other step undoes it. */
  lemma {:induction false} ApplyAt(db: Db, steps: seq<Step>, k: nat)
    requires Distinct(steps) && k < |steps|
    ensures SameAt(Apply(db, steps), ApplyStep(db, steps[k]), TargetOf(steps[k]))
  {
    var before, last := steps[..|steps| - 1], steps[|steps| - 1];
    if k == |steps| - 1 {
      forall i | 0 <= i < |before| ensures TargetOf(before[i]) != TargetOf(last) {
        assert before[i] == steps[i];
      }
      ApplyElsewhere(db, before, TargetOf(last));
      StepDependsOnTarget(Apply(db, before), db, last);
    } else {
      assert before[k] == steps[k];
      ApplyAt(db, before, k);
      StepElsewhere(Apply(db, before), last, TargetOf(steps[k]));
    }
  }

  // ---- applying twice ---------------------------------------------------------------------------------------------

  /** The same steps, stamped at another moment. */
  predicate SameButStamps(a: seq<Step>, b: seq<Step>) {
    |a| == |b| && forall k :: 0 <= k < |a| ==> SameButStamp(a[k], b[k])
  }

  predicate SameButStamp(a: Step, b: Step) {
    a == b || (a.Translate? && b.Translate? && a.(stamp := b.stamp) == b)
  }

  lemma {:induction false} StepTwice(db: Db, step: Step, again: Step)
    requires SameButStamp(step, again)
    ensures SameAt(ApplyStep(ApplyStep(db, step), again), ApplyStep(db, step), TargetOf(step))
  {
    if step.Put? && step.id in db.rows {
      var once := ApplyStep(db, step).rows[step.id];
      assert once + (map c | c in step.update && c in step.values :: step.values[c]) == once;
    }
    if step.Put? && step.id !in db.rows {
      assert step.values + (map c | c in step.update && c in step.values :: step.values[c]) == step.values;
    }
  }

  lemma {:induction false} SameEverywhere(a: Db, b: Db)
    requires forall t :: SameAt(a, b, t)
    ensures a == b
  {
    forall id ensures (id in a.rows <==> id in b.rows) && (id in a.rows ==> a.rows[id] == b.rows[id]) {
      assert SameAt(a, b, OfRow(id));
    }
    forall key ensures (key in a.texts <==> key in b.texts) && (key in a.texts ==> a.texts[key] == b.texts[key]) {
      assert SameAt(a, b, OfText(key));
    }
    assert a.rows == b.rows && a.texts == b.texts;
  }

  /** The steps that change something, counted as they run. */
  function Changes(db: Db, steps: seq<Step>): nat {
    if steps == [] then 0
    else
      var before := Apply(db, steps[..|steps| - 1]);
      Changes(db, steps[..|steps| - 1]) + if ApplyStep(before, steps[|steps| - 1]) == before then 0 else 1
  }

  lemma {:induction false} NoStepChanges(db: Db, steps: seq<Step>)
    requires forall k :: 0 <= k < |steps| ==> ApplyStep(db, steps[k]) == db
    ensures Apply(db, steps) == db && Changes(db, steps) == 0
  {
    if steps != [] {
      NoStepChanges(db, steps[..|steps| - 1]);
    }
  }

  /** Once all steps ran, each of them, at whatever later moment, is without effect. */
  lemma {:induction false} AgainIsStill(db: Db, steps: seq<Step>, again: seq<Step>, k: nat)
    requires SameButStamps(steps, again) && Distinct(steps) && k < |again|
    ensures ApplyStep(Apply(db, steps), again[k]) == Apply(db, steps)
  {
    var once := Apply(db, steps);
    assert SameButStamp(steps[k], again[k]);
    forall t ensures SameAt(ApplyStep(once, again[k]), once, t) {
      if t == TargetOf(again[k]) {
        ApplyAt(db, steps, k);
        StepDependsOnTarget(once, ApplyStep(db, steps[k]), again[k]);
        StepTwice(db, steps[k], again[k]);
      } else {
        StepElsewhere(once, again[k], t);
      }
    }
    SameEverywhere(ApplyStep(once, again[k]), once);
  }

  /**
   * Applying the same steps again, at any later moment, changes nothing, not even a `lastupdated`,
   * and not one of the statements affects a row.
   */
  lemma {:induction false} ApplyTwice(db: Db, steps: seq<Step>, again: seq<Step>)
    requires SameButStamps(steps, again) && Distinct(steps)
    ensures Apply(Apply(db, steps), again) == Apply(db, steps) && Changes(Apply(db, steps), again) == 0
  {
    forall k | 0 <= k < |again| ensures ApplyStep(Apply(db, steps), again[k]) == Apply(db, steps) {
      AgainIsStill(db, steps, again, k);
    }
    NoStepChanges(Apply(db, steps), again);
  }

  // ---- putting steps together ---------------------------------------------------------------------------------------

  lemma {:induction false} DistinctConcat(a: seq<Step>, b: seq<Step>)
    requires Distinct(a) && Distinct(b)
    requires forall t :: !(Targets(a, t) && Targets(b, t))
    ensures Distinct(a + b)
  {
    forall i, j | 0 <= i < j < |a + b| ensures TargetOf((a + b)[i]) != TargetOf((a + b)[j]) {
      if i < |a| <= j {
        assert TargetOf(a[i]) == TargetOf((a + b)[i]) && TargetOf(b[j - |a|]) == TargetOf((a + b)[j]);
        assert Targets(a, TargetOf(a[i])) && Targets(b, TargetOf(b[j - |a|]));
      }
    }
  }

  lemma {:induction false} TargetsConcat(a: seq<Step>, b: seq<Step>, t: Target)
    ensures Targets(a + b, t) <==> Targets(a, t) || Targets(b, t)
  {
    if k :| 0 <= k < |a| && TargetOf(a[k]) == t {
      assert (a + b)[k] == a[k];
    }
    if k :| 0 <= k < |b| && TargetOf(b[k]) == t {
      assert (a + b)[|a| + k] == b[k];
    }
    if k :| 0 <= k < |a + b| && TargetOf((a + b)[k]) == t {
      if k < |a| {
        assert TargetOf(a[k]) == t;
      } else {
        assert TargetOf(b[k - |a|]) == t;
      }
    }
  }

  // ---- targets by kind ------------------------------------------------------------------------------------------------

  datatype TargetKind = ProgrammeKind | SlotKind | QuestionKind | JoinKind(kind: Kind) | OtherKind | ProgrammeText | SlotText | QuestionText | OtherText

  function KindOf(t: Target): TargetKind {
    match t
    case OfRow(id) => (
      match id
      case CurriculumRow => ProgrammeKind
      case GradeRow => ProgrammeKind
      case LevelRow => ProgrammeKind
      case SlotRow(_, _) => SlotKind
      case QuestionRow(_) => QuestionKind
      case JoinRow(_, kind, _) => JoinKind(kind)
      case _ => OtherKind)
    case OfText(key) => (
      match key.row
      case CurriculumRow => ProgrammeText
      case GradeRow => ProgrammeText
      case LevelRow => ProgrammeText
      case SlotRow(_, _) => SlotText
      case QuestionRow(_) => QuestionText
      case _ => OtherText)
  }

  const JOINS: set<TargetKind> := {JoinKind(PracticeKind), JoinKind(QuizKind)}

  const ROWS: set<TargetKind> := {ProgrammeKind, SlotKind, QuestionKind, OtherKind} + JOINS

  const TEXTS: set<TargetKind> := {ProgrammeText, SlotText, QuestionText, OtherText}

  lemma {:induction false} KindsOfTargets(t: Target)
    ensures t.OfRow? ==> KindOf(t) in ROWS
    ensures t.OfRow? && t.id.JoinRow? ==> KindOf(t) in JOINS
    ensures t.OfText? ==> KindOf(t) in TEXTS
  {
    if t.OfRow? && t.id.JoinRow? {
      assert t.id.kind == PracticeKind || t.id.kind == QuizKind;
    }
  }

  predicate AllOfKind(steps: seq<Step>, kinds: set<TargetKind>) {
    forall k :: 0 <= k < |steps| ==> KindOf(TargetOf(steps[k])) in kinds
  }

  /** Steps for targets of different kinds have different targets. */
  lemma {:induction false} DistinctByKind(a: seq<Step>, b: seq<Step>, ka: set<TargetKind>, kb: set<TargetKind>)
    requires Distinct(a) && Distinct(b) && AllOfKind(a, ka) && AllOfKind(b, kb) && ka !! kb
    ensures Distinct(a + b) && AllOfKind(a + b, ka + kb)
  {
    forall i, j | 0 <= i < |a| && 0 <= j < |b| ensures TargetOf(a[i]) != TargetOf(b[j]) {
      assert KindOf(TargetOf(a[i])) in ka && KindOf(TargetOf(b[j])) in kb;
    }
  }

  lemma {:induction false} KindsByTargets(steps: seq<Step>, kinds: set<TargetKind>)
    requires forall t :: Targets(steps, t) ==> KindOf(t) in kinds
    ensures AllOfKind(steps, kinds)
  {
    forall k | 0 <= k < |steps| ensures KindOf(TargetOf(steps[k])) in kinds {
      assert Targets(steps, TargetOf(steps[k]));
    }
  }
}
