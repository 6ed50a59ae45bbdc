/**
 * The texts after an accepted run: each named text of the file is stored under its row and field, in
 * Khmer, with the hash of its English, and its moment moves only when one of them changes.
 */
module ContentTexts {
  import opened Wrappers
  import opened PlanSteps
  import opened ContentPlan
  import opened ContentPlacing
  import opened ContentPlanRuns
  import opened ContentRerun
  import opened ContentGuarantees

  /** The file's text is stored under this key: its Khmer, and the hash of its English. */
  predicate IsStored(hash: string -> string, before: Db, after: Db, key: TextKey, text: Bilingual, owner: string, stamp: int) {
    && key in after.texts && after.texts[key].text == text.km && after.texts[key].hash == hash(text.en)
    && (if key !in before.texts then after.texts[key].owner == owner && after.texts[key].lastupdated == stamp
        else
          && after.texts[key].owner == before.texts[key].owner
          && after.texts[key].lastupdated
             == if before.texts[key].text == text.km && before.texts[key].hash == hash(text.en) then before.texts[key].lastupdated else stamp)
  }

  lemma {:induction false} WrittenText(hash: string -> string, c: Content, flags: Flags, db: Db, stamp: int, row: RowId,
                                       field: TextField, text: Bilingual)
    requires Valid(c) && TextStep(hash, row, field, text, flags.owner, stamp) in TextSteps(hash, c, flags.owner, stamp)
    ensures IsStored(hash, db, After(hash, c, flags, db, stamp), TextKey(row, field), text, flags.owner, stamp)
  {
    var step := TextStep(hash, row, field, text, flags.owner, stamp);
    var numbers, steps := NumbersOf(c, flags, db.rows), PlanOf(hash, c, flags, db.rows, stamp);
    PlanIsDistinct(hash, c, flags, numbers, stamp);
    StepInWhole(RowSteps(c, flags, numbers), TextSteps(hash, c, flags.owner, stamp), step);
    var k :| 0 <= k < |steps| && steps[k] == step;
    ApplyAt(db, steps, k);
  }

  lemma {:induction false} InTexts(a: seq<Step>, b: seq<Step>, d: seq<Step>, step: Step)
    requires step in a || step in b || step in d
    ensures step in a + b + d
  {
  }

  /** The names of the programme and of the module. */
  lemma {:induction false} HeadTextsAreStored(hash: string -> string, c: Content, flags: Flags, db: Db, stamp: int)
    requires Valid(c)
    ensures var after := After(hash, c, flags, db, stamp);
            && IsStored(hash, db, after, TextKey(CurriculumRow, NameField), c.programme, flags.owner, stamp)
            && IsStored(hash, db, after, TextKey(GradeRow, NameField), c.programme, flags.owner, stamp)
            && IsStored(hash, db, after, TextKey(LevelRow, NameField), c.name, flags.owner, stamp)
  {
    var live, heads := InOrder(c.lessons), HeadTexts(hash, c, flags.owner, stamp);
    TextStepsAre(hash, c, flags.owner, stamp);
    assert heads[0] in heads && heads[1] in heads && heads[2] in heads;
    forall k | 0 <= k < 3 ensures heads[k] in TextSteps(hash, c, flags.owner, stamp) {
      InTexts(heads, AllLessonTexts(hash, live, flags.owner, stamp), AllQuestionTexts(hash, PlaceAll(live), flags.owner, stamp), heads[k]);
    }
    assert heads[0] == TextStep(hash, CurriculumRow, NameField, c.programme, flags.owner, stamp);
    assert heads[1] == TextStep(hash, GradeRow, NameField, c.programme, flags.owner, stamp);
    assert heads[2] == TextStep(hash, LevelRow, NameField, c.name, flags.owner, stamp);
    WrittenText(hash, c, flags, db, stamp, CurriculumRow, NameField, c.programme);
    WrittenText(hash, c, flags, db, stamp, GradeRow, NameField, c.programme);
    WrittenText(hash, c, flags, db, stamp, LevelRow, NameField, c.name);
  }

  /** A part of a lesson that carries its name; a document does not. */
  predicate CarriesName(part: Part) {
    part in {LessonPart, LearningPart, PracticePart, QuizPart}
  }

  lemma {:induction false} LessonTextIsIn(hash: string -> string, live: seq<Lesson>, owner: string, stamp: int, l: Lesson,
                                          part: Part)
    requires l in live && CarriesName(part)
    ensures TextStep(hash, SlotRow(part, PlaceOf(l)), NameField, l.name, owner, stamp) in AllLessonTexts(hash, live, owner, stamp)
  {
    var before, last := live[..|live| - 1], live[|live| - 1];
    assert live == before + [last];
    if l in before {
      LessonTextIsIn(hash, before, owner, stamp, l, part);
    } else {
      var texts := LessonTexts(hash, last, owner, stamp);
      assert texts[0] in texts && texts[1] in texts && texts[2] in texts && texts[3] in texts;
    }
  }

  /** The name of each lesson, on its row and on its learning step, practice and quiz. */
  lemma {:induction false} LessonNamesAreStored(hash: string -> string, c: Content, flags: Flags, db: Db, stamp: int,
                                                l: Lesson, part: Part)
    requires Valid(c) && l in c.lessons && CarriesName(part)
    ensures IsStored(hash, db, After(hash, c, flags, db, stamp), TextKey(SlotRow(part, PlaceOf(l)), NameField), l.name, flags.owner, stamp)
  {
    var live := InOrder(c.lessons);
    InOrderHas(c.lessons, l);
    LessonTextIsIn(hash, live, flags.owner, stamp, l, part);
    TextStepsAre(hash, c, flags.owner, stamp);
    InTexts(HeadTexts(hash, c, flags.owner, stamp), AllLessonTexts(hash, live, flags.owner, stamp),
            AllQuestionTexts(hash, PlaceAll(live), flags.owner, stamp),
            TextStep(hash, SlotRow(part, PlaceOf(l)), NameField, l.name, flags.owner, stamp));
    WrittenText(hash, c, flags, db, stamp, SlotRow(part, PlaceOf(l)), NameField, l.name);
  }

  /** The text a question has for a field: its own twice, its options', and the feedback it has. */
  predicate SaysOf(q: Asked, field: TextField, text: Bilingual) {
    match field
    case TextField => text == q.text
    case HeadingField => text == q.text
    case OptionField(k) => k < |q.options| && text == q.options[k].text
    case CorrectMessage => q.correctMessage == Some(text)
    case IncorrectMessage => q.incorrectMessage == Some(text)
    case NameField => false
  }

  lemma {:induction false} OptionTextIsIn(hash: string -> string, q: QuestionId, options: seq<Choice>, owner: string,
                                          stamp: int, k: nat)
    requires k < |options|
    ensures TextStep(hash, QuestionRow(q), OptionField(k), options[k].text, owner, stamp) in OptionTexts(hash, q, options, owner, stamp)
  {
    if k < |options| - 1 {
      OptionTextIsIn(hash, q, options[..|options| - 1], owner, stamp, k);
    }
  }

  lemma {:induction false} QuestionTextIsIn(hash: string -> string, p: Placed, owner: string, stamp: int, field: TextField,
                                            text: Bilingual)
    requires SaysOf(p.question, field, text)
    ensures TextStep(hash, QuestionRow(p.id), field, text, owner, stamp) in QuestionTexts(hash, p, owner, stamp)
  {
    var row, q := QuestionRow(p.id), p.question;
    var heads := [TextStep(hash, row, TextField.TextField, q.text, owner, stamp), TextStep(hash, row, HeadingField, q.text, owner, stamp)];
    var options := OptionTexts(hash, p.id, q.options, owner, stamp);
    var right := if q.correctMessage.Some? then [TextStep(hash, row, CorrectMessage, q.correctMessage.value, owner, stamp)] else [];
    var wrong := if q.incorrectMessage.Some? then [TextStep(hash, row, IncorrectMessage, q.incorrectMessage.value, owner, stamp)] else [];
    var step := TextStep(hash, row, field, text, owner, stamp);
    assert heads[0] in heads && heads[1] in heads;
    if field.OptionField? {
      OptionTextIsIn(hash, p.id, q.options, owner, stamp, field.k);
    }
    assert step in heads || step in options || step in right || step in wrong;
    InHides(heads, options, right, wrong, step);
  }

  lemma {:induction false} PlacedTextIsIn(hash: string -> string, placed: seq<Placed>, owner: string, stamp: int, k: nat,
                                          step: Step)
    requires k < |placed| && step in QuestionTexts(hash, placed[k], owner, stamp)
    ensures step in AllQuestionTexts(hash, placed, owner, stamp)
  {
    if k < |placed| - 1 {
      PlacedTextIsIn(hash, placed[..|placed| - 1], owner, stamp, k, step);
    }
  }

  /**
   * Each text of each question of the file, under the row that the lesson's set asks at its place: the
   * question and its heading, the options by their place, and the feedback the file gives.
   */
  lemma {:induction false} QuestionTextsAreStored(hash: string -> string, c: Content, flags: Flags, db: Db, stamp: int,
                                                  l: Lesson, kind: Kind, j: nat, field: TextField, text: Bilingual)
    returns (q: QuestionId)
    requires Valid(c) && l in c.lessons && j < |QuestionsOf(l, kind)| && SaysOf(QuestionsOf(l, kind)[j], field, text)
    ensures var after := After(hash, c, flags, db, stamp);
            && JoinRow(PlaceOf(l), kind, j) in after.rows && PutsAt(after.rows[JoinRow(PlaceOf(l), kind, j)], PlaceOf(l), kind, j, q)
            && IsStored(hash, db, after, TextKey(QuestionRow(q), field), text, flags.owner, stamp)
  {
    var live, placed := InOrder(c.lessons), PlaceAll(InOrder(c.lessons));
    InOrderHas(c.lessons, l);
    var k := PlacedHas(live, l, kind, j);
    q := placed[k].id;
    var step := TextStep(hash, QuestionRow(q), field, text, flags.owner, stamp);
    PlacedIsAsked(hash, c, flags, db, stamp, k);
    QuestionTextIsIn(hash, placed[k], flags.owner, stamp, field, text);
    PlacedTextIsIn(hash, placed, flags.owner, stamp, k, step);
    TextStepsAre(hash, c, flags.owner, stamp);
    InTexts(HeadTexts(hash, c, flags.owner, stamp), AllLessonTexts(hash, live, flags.owner, stamp),
            AllQuestionTexts(hash, placed, flags.owner, stamp), step);
    WrittenText(hash, c, flags, db, stamp, QuestionRow(q), field, text);
  }
}
