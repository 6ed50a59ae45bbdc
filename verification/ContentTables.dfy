/**
 * The content tables of one database, as one map from (table, primary key) to row, and
 * the parent relation that hangs every child row from a curriculum or a school.
 *
 * Ids are already case-folded. A row keeps the columns the import reasons about: its
 * owner, the id of its parent row, the country it names (schools), its unique natural
 * key (translations), its deletion mark, and the rest of its columns in two parts: `body`
 * (the columns an upsert overwrites) and `kept` (the ones an upsert of a row that is
 * already there leaves as they are).
 */
module ContentTables {
  import opened Wrappers

  type Id = string

  datatype Table =
    | Countries | Schools | Standards | Subjects | Curriculums | Questions | Documents
    | Baselines | BaselineQuestions | Grades | Levels | Lessons | Learnings | LearningDocuments
    | Plans | Practices | Quizzes | PracticeQuestions | QuizQuestions | LevelQuizQuestions
    | Translations

  datatype Key = Key(table: Table, id: Id)

  datatype Row = Row(
    owner: Option<Id>,
    parent: Option<Id>,
    country: Option<Id>,
    natural: Option<Id>,
    isdeleted: bool,
    body: int,
    kept: int)

  type Db = map<Key, Row>

  /** The table an inherited row hangs from; none for a global or an owned table. */
  function ParentOf(t: Table): Option<Table> {
    match t
    case Standards => Some(Schools)
    case Baselines => Some(Curriculums)
    case BaselineQuestions => Some(Baselines)
    case Grades => Some(Curriculums)
    case Levels => Some(Grades)
    case Lessons => Some(Levels)
    case Learnings => Some(Lessons)
    case LearningDocuments => Some(Learnings)
    case Plans => Some(Lessons)
    case Practices => Some(Lessons)
    case Quizzes => Some(Lessons)
    case PracticeQuestions => Some(Practices)
    case QuizQuestions => Some(Quizzes)
    case LevelQuizQuestions => Some(Levels)
    case _ => None
  }

  /** How far below a curriculum or a school a table hangs. */
  function Depth(t: Table): nat {
    match t
    case Standards => 1
    case Baselines => 1
    case Grades => 1
    case BaselineQuestions => 2
    case Levels => 2
    case Lessons => 3
    case LevelQuizQuestions => 3
    case Learnings => 4
    case Plans => 4
    case Practices => 4
    case Quizzes => 4
    case LearningDocuments => 5
    case PracticeQuestions => 5
    case QuizQuestions => 5
    case _ => 0
  }

  predicate IsChild(t: Table) {
    ParentOf(t).Some?
  }

  /** The tables whose rows carry an owner. */
  predicate IsOwned(t: Table) {
    t in {Schools, Curriculums, Questions, Documents, Subjects, Translations}
  }

  /** The owned tables whose rows an import deletes and re-creates. */
  predicate IsReplaced(t: Table) {
    t in {Questions, Documents, Subjects, Translations}
  }

  /** The key of the row a child row hangs from. */
  function ParentKey(t: Table, row: Row): Key
    requires IsChild(t) && row.parent.Some?
  {
    Key(ParentOf(t).value, row.parent.value)
  }

  ghost predicate HasParent(db: Db, k: Key) {
    k in db && IsChild(k.table) && db[k].parent.Some?
  }

  /**
   * The row of a curriculum, a school or another root table that `k` hangs from, following
   * stored parents only; none when a row on the way is not there.
   */
  ghost function Root(db: Db, k: Key): (r: Option<Key>)
    ensures r.Some? ==> r.value in db && !IsChild(r.value.table)
    ensures r.Some? && IsChild(k.table) ==> r.value.table == if k.table == Standards then Schools else Curriculums
    decreases Depth(k.table)
  {
    if k !in db then None
    else if !IsChild(k.table) then Some(k)
    else if db[k].parent.None? then None
    else Root(db, ParentKey(k.table, db[k]))
  }

  /** `k`, or a stored row above it, is one of the seeds. */
  ghost predicate Reached(db: Db, seeds: set<Key>, k: Key)
    decreases Depth(k.table)
  {
    k in seeds || (HasParent(db, k) && Reached(db, seeds, ParentKey(k.table, db[k])))
  }

  /** The topmost seed on the way up from `k`: nothing above it is a seed. */
  ghost function Topmost(db: Db, seeds: set<Key>, k: Key): (top: Key)
    requires Reached(db, seeds, k)
    ensures top in seeds
    ensures HasParent(db, top) ==> !Reached(db, seeds, ParentKey(top.table, db[top]))
    ensures k in db && Root(db, k).Some? ==> top in db && Root(db, top) == Root(db, k)
    decreases Depth(k.table)
  {
    if HasParent(db, k) && Reached(db, seeds, ParentKey(k.table, db[k])) then
      var up := ParentKey(k.table, db[k]);
      assert Root(db, k) == Root(db, up);
      Topmost(db, seeds, up)
    else k
  }

  /** Every child row's parent is there. */
  ghost predicate Linked(db: Db) {
    forall k :: k in db && IsChild(k.table) ==> db[k].parent.Some? && ParentKey(k.table, db[k]) in db
  }

  /** No two translations share a natural key (table, row, field, subkey, language). */
  ghost predicate TranslationKeysUnique(db: Db) {
    forall j, k :: j in db && k in db && j.table == Translations == k.table && db[j].natural == db[k].natural ==> j == k
  }

  /** Every stored translation has an owner (the column does not accept null). */
  ghost predicate TranslationsOwned(db: Db) {
    forall k :: k in db && k.table == Translations ==> db[k].owner.Some?
  }

  /** What is reached from curricula alone is exactly what has one of them as its root. */
  lemma {:induction false} ReachedFromRoots(db: Db, roots: set<Key>, k: Key)
    requires forall r :: r in roots ==> r in db && !IsChild(r.table)
    requires k in db
    ensures Reached(db, roots, k) <==> Root(db, k).Some? && Root(db, k).value in roots
    decreases Depth(k.table)
  {
    if HasParent(db, k) {
      var p := ParentKey(k.table, db[k]);
      if p in db {
        ReachedFromRoots(db, roots, p);
      } else {
        assert !HasParent(db, p);
      }
    }
  }
}
