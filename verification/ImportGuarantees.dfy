/**
 * What an accepted import means for stored rows, with the tables and their links written out: whose
 * rows it never touches, which of the organisation's own it drops, and whose the written ones are.
 */
module ImportGuarantees {
  import opened Wrappers
  import opened ContentTables
  import opened ImportSpec
  import opened ImportTheorems

  /** The tables with an owner column. */
  const OWNER_TABLES := {Schools, Curriculums, Questions, Documents, Subjects, Translations}

  /** The owned tables whose rows are deleted and written again. */
  const RENEWED_TABLES := {Questions, Documents, Subjects, Translations}

  /** The tables without an owner of their own, each with the table its rows hang from. */
  const LINKS := {
    (Standards, Schools), (Baselines, Curriculums), (BaselineQuestions, Baselines), (Grades, Curriculums), (Levels, Grades),
    (Lessons, Levels), (LevelQuizQuestions, Levels), (Learnings, Lessons), (Plans, Lessons), (Practices, Lessons), (Quizzes, Lessons),
    (LearningDocuments, Learnings), (PracticeQuestions, Practices), (QuizQuestions, Quizzes)}

  predicate IsOthers(db: Db, organisationid: Id, k: Key) {
    k.table in OWNER_TABLES && k in db && db[k].owner.Some? && db[k].owner.value != organisationid
  }

  /** A stored row points at the next. */
  predicate PointsAt(db: Db, k: Key, up: Key) {
    (k.table, up.table) in LINKS && k in db && db[k].parent == Some(up.id)
  }

  /** A chain of stored rows from `path[0]` up to its last row. */
  predicate Climbs(db: Db, path: seq<Key>) {
    path != [] && path[|path| - 1] in db && forall i :: 0 <= i < |path| - 1 ==> PointsAt(db, path[i], path[i + 1])
  }

  lemma {:induction false} LinksAreParents(t: Table, up: Table)
    ensures (t, up) in LINKS <==> ParentOf(t) == Some(up)
    ensures t in OWNER_TABLES ==> ParentOf(t).None?
  {
  }

  /** A chain leads to its last row's root. */
  lemma {:induction false} ClimbsToRoot(db: Db, path: seq<Key>)
    requires Climbs(db, path) && path[|path| - 1].table in OWNER_TABLES
    ensures path[0] in db && Root(db, path[0]) == Some(path[|path| - 1])
    decreases |path|
  {
    if |path| == 1 {
      LinksAreParents(path[0].table, path[0].table);
    } else {
      assert PointsAt(db, path[0], path[1]);
      LinksAreParents(path[0].table, path[1].table);
      forall i | 0 <= i < |path[1..]| - 1 ensures PointsAt(db, path[1..][i], path[1..][i + 1]) {
        assert PointsAt(db, path[i + 1], path[i + 2]);
      }
      ClimbsToRoot(db, path[1..]);
    }
  }

  /**
   * Whatever a payload holds, an accepted import leaves every school, curriculum, question, document,
   * subject and translation of another organisation as it was, and everything below its schools and
   * curricula, and it never carries one.
   */
  lemma {:induction false} OthersRowsStay(db: Db, p: Payload, path: seq<Key>)
    requires p.Valid() && Acceptable(db, p)
    requires Climbs(db, path) && IsOthers(db, p.organisationid, path[|path| - 1])
    ensures path[0].id !in p.RowsOf(path[0].table)
    ensures path[0] in db && path[0] in Imported(db, p) && Imported(db, p)[path[0]] == db[path[0]]
  {
    ClimbsToRoot(db, path);
    ForeignRowIsUntouched(db, p, path[0]);
  }

  /** So a payload that names another organisation's row, or one below its schools or curricula, is refused. */
  lemma {:induction false} NamingOthersRowsIsRefused(db: Db, p: Payload, path: seq<Key>)
    requires p.Valid() && Climbs(db, path) && IsOthers(db, p.organisationid, path[|path| - 1])
    requires path[0].id in p.RowsOf(path[0].table)
    ensures !Acceptable(db, p)
  {
    if Acceptable(db, p) {
      OthersRowsStay(db, p, path);
    }
  }

  /** The organisation's own questions, documents, subjects and translations that the payload lacks are gone. */
  lemma {:induction false} OwnRowsLeftOutAreGone(db: Db, p: Payload, k: Key)
    requires k.table in RENEWED_TABLES && k in db && db[k].owner == Some(p.organisationid) && k.id !in p.RowsOf(k.table)
    ensures k !in Imported(db, p)
  {
    assert k !in p.Keys();
    LinksAreParents(k.table, k.table);
    FateOfOther(db, p, k);
  }

  /** A school or curriculum it lacks is kept, marked deleted. */
  lemma {:induction false} OwnRootsLeftOutAreMarked(db: Db, p: Payload, k: Key)
    requires k.table in {Schools, Curriculums} && k in db && db[k].owner == Some(p.organisationid) && k.id !in p.RowsOf(k.table)
    ensures k in Imported(db, p) && Imported(db, p)[k] == db[k].(isdeleted := true)
  {
    assert k !in p.Keys();
    AbsentRootIsMarked(db, p, k);
  }

  /** Every row of the payload is there, and those of the six tables are the organisation's. */
  lemma {:induction false} WrittenRowsAreOwned(db: Db, p: Payload, k: Key)
    requires p.Valid() && k.id in p.RowsOf(k.table)
    ensures k in Imported(db, p)
    ensures Imported(db, p)[k].owner == if k.table in OWNER_TABLES then Some(p.organisationid) else None
    ensures var (row, sent) := (Imported(db, p)[k], p.RowsOf(k.table)[k.id]);
            row.parent == sent.parent && row.country == sent.country && row.natural == sent.natural
            && row.isdeleted == sent.isdeleted && row.body == sent.body
  {
    assert k in p.Keys() && k in p.Content();
    FateOfCarried(db, p, k);
  }

  /** Below each row of the payload, over every link, there are its rows and no other. */
  lemma {:induction false} OnlyPayloadRowsHangBelow(db: Db, p: Payload, k: Key, up: Key)
    requires up.id in p.RowsOf(up.table) && PointsAt(Imported(db, p), k, up)
    ensures k.id in p.RowsOf(k.table) && p.RowsOf(k.table)[k.id].parent == Some(up.id)
  {
    LinksAreParents(k.table, up.table);
    assert up in p.Keys();
    ImportIsExact(db, p, up, k.table);
    assert k in ChildrenOf(Imported(db, p), k.table, up.id);
    assert k in ChildrenOf(p.Content(), k.table, up.id);
  }

  /** A payload that carries a row stored below a row it does not carry is accepted only if an own absent school or curriculum is above. */
  lemma {:induction false} CarriedFromElsewhere(db: Db, p: Payload, path: seq<Key>)
    requires p.Valid() && Acceptable(db, p) && |path| > 1 && Climbs(db, path) && path[|path| - 1].table in OWNER_TABLES
    requires path[0].id in p.RowsOf(path[0].table) && forall i :: 0 < i < |path| ==> path[i].id !in p.RowsOf(path[i].table)
    ensures db[path[|path| - 1]].owner == Some(p.organisationid)
  {
    TailIsNotReached(db, p, path);
    assert PointsAt(db, path[0], path[1]);
    LinksAreParents(path[0].table, path[1].table);
    assert path[0] in p.Keys();
    NoStrayIsUnderAbsent(db, p, path[0], path[1]);
  }

  lemma {:induction false} TailIsNotReached(db: Db, p: Payload, path: seq<Key>)
    requires |path| > 1 && Climbs(db, path) && path[|path| - 1].table in OWNER_TABLES
    requires forall i :: 0 < i < |path| ==> path[i].id !in p.RowsOf(path[i].table)
    ensures !Reached(db, p.Keys(), path[1])
    ensures path[1] in db && Root(db, path[1]) == Some(path[|path| - 1])
  {
    var tail := path[1..];
    ClimbsTail(db, path);
    ClimbsToRoot(db, tail);
    forall i | 0 <= i < |tail| ensures tail[i].id !in p.RowsOf(tail[i].table) {
      assert tail[i] == path[i + 1];
    }
    NoneReached(db, p, tail);
  }

  /** A carried row that nothing deletes hangs from an absent root, or is a stray. */
  lemma {:induction false} NoStrayIsUnderAbsent(db: Db, p: Payload, k: Key, up: Key)
    requires !CarriesStray(db, p) && k in p.Keys() && PointsAt(db, k, up) && ParentOf(k.table) == Some(up.table)
    requires !Reached(db, p.Keys(), up)
    ensures UnderAbsent(db, p, up)
  {
    assert ParentKey(k.table, db[k]) == up && k in Cleared(db, p);
    assert !StrayKey(db, p, k);
  }

  lemma {:induction false} ClimbsTail(db: Db, path: seq<Key>)
    requires Climbs(db, path) && |path| > 1
    ensures Climbs(db, path[1..])
  {
    forall i | 0 <= i < |path[1..]| - 1 ensures PointsAt(db, path[1..][i], path[1..][i + 1]) {
      assert PointsAt(db, path[i + 1], path[i + 2]);
    }
  }

  lemma {:induction false} NoneReached(db: Db, p: Payload, path: seq<Key>)
    requires Climbs(db, path) && path[|path| - 1].table in OWNER_TABLES
    requires forall i :: 0 <= i < |path| ==> path[i].id !in p.RowsOf(path[i].table)
    ensures !Reached(db, p.Keys(), path[0])
    decreases |path|
  {
    assert path[0] !in p.Keys();
    if |path| == 1 {
      LinksAreParents(path[0].table, path[0].table);
    } else {
      assert PointsAt(db, path[0], path[1]);
      LinksAreParents(path[0].table, path[1].table);
      ClimbsTail(db, path);
      NoneReached(db, p, path[1..]);
    }
  }

  // ---- when a payload is refused -------------------------------------------------------------------------------------------

  /** Stored rows, each pointing at the next; the last one need not be there. */
  predicate Chain(db: Db, path: seq<Key>) {
    path != [] && forall i :: 0 <= i < |path| - 1 ==> PointsAt(db, path[i], path[i + 1])
  }

  predicate ChainFrom(db: Db, k: Key, path: seq<Key>) {
    Chain(db, path) && path[0] == k && |path| > 1
  }

  predicate IsCarried(p: Payload, k: Key) {
    k.id in p.RowsOf(k.table)
  }

  /** A school or curriculum of the organisation that the payload lacks. */
  predicate IsOwnAbsent(db: Db, p: Payload, k: Key) {
    k.table in {Schools, Curriculums} && k in db && db[k].owner == Some(p.organisationid) && !IsCarried(p, k)
  }

  /** Some stored row above `k` is carried. */
  ghost predicate CarriedAbove(db: Db, p: Payload, k: Key) {
    exists path: seq<Key> :: ChainFrom(db, k, path) && IsCarried(p, path[|path| - 1])
  }

  ghost predicate AbsentAbove(db: Db, p: Payload, k: Key) {
    exists path: seq<Key> :: ChainFrom(db, k, path) && IsOwnAbsent(db, p, path[|path| - 1])
  }

  /** A carried row is stored below nothing carried and nothing of the organisation's that it left out. */
  ghost predicate IsElsewhere(db: Db, p: Payload, k: Key) {
    IsCarried(p, k) && k in db && k.table !in OWNER_TABLES + {Countries} && !CarriedAbove(db, p, k) && !AbsentAbove(db, p, k)
  }

  lemma {:induction false} LinkTables(t: Table)
    ensures IsChild(t) <==> t !in OWNER_TABLES + {Countries}
  {
  }

  lemma {:induction false} ChainTail(db: Db, path: seq<Key>)
    requires Chain(db, path) && |path| > 1
    ensures Chain(db, path[1..])
  {
    forall i | 0 <= i < |path[1..]| - 1 ensures PointsAt(db, path[1..][i], path[1..][i + 1]) {
      assert PointsAt(db, path[i + 1], path[i + 2]);
    }
  }

  lemma {:induction false} ChainReaches(db: Db, seeds: set<Key>, path: seq<Key>)
    requires Chain(db, path) && path[|path| - 1] in seeds
    ensures Reached(db, seeds, path[0])
    decreases |path|
  {
    if |path| > 1 {
      assert PointsAt(db, path[0], path[1]);
      LinksAreParents(path[0].table, path[1].table);
      ChainTail(db, path);
      ChainReaches(db, seeds, path[1..]);
    }
  }

  lemma {:induction false} ParentIsPointedAt(db: Db, k: Key)
    requires HasParent(db, k)
    ensures PointsAt(db, k, ParentKey(k.table, db[k]))
  {
    LinksAreParents(k.table, ParentOf(k.table).value);
  }

  lemma {:induction false} ChainOneMore(db: Db, k: Key, path: seq<Key>)
    requires Chain(db, path) && PointsAt(db, k, path[0])
    ensures ChainFrom(db, k, [k] + path) && ([k] + path)[|path|] == path[|path| - 1]
  {
    var longer := [k] + path;
    forall i | 0 <= i < |longer| - 1 ensures PointsAt(db, longer[i], longer[i + 1]) {
      assert longer[i + 1] == path[i];
      assert i > 0 ==> longer[i] == path[i - 1];
    }
  }

  lemma {:induction false} ReachedByChain(db: Db, seeds: set<Key>, k: Key) returns (path: seq<Key>)
    requires Reached(db, seeds, k)
    ensures Chain(db, path) && path[0] == k && path[|path| - 1] in seeds
    decreases Depth(k.table)
  {
    if k in seeds {
      path := [k];
    } else {
      var rest := ReachedByChain(db, seeds, ParentKey(k.table, db[k]));
      ParentIsPointedAt(db, k);
      ChainOneMore(db, k, rest);
      path := [k] + rest;
    }
  }

  lemma {:induction false} RootByChain(db: Db, k: Key) returns (path: seq<Key>)
    requires Root(db, k).Some?
    ensures Chain(db, path) && path[0] == k && path[|path| - 1] == Root(db, k).value
    decreases Depth(k.table)
  {
    if !IsChild(k.table) {
      path := [k];
    } else {
      var rest := RootByChain(db, ParentKey(k.table, db[k]));
      ParentIsPointedAt(db, k);
      ChainOneMore(db, k, rest);
      path := [k] + rest;
    }
  }

  lemma {:induction false} CarriedAboveIs(db: Db, p: Payload, k: Key)
    requires k in db && IsChild(k.table)
    ensures CarriedAbove(db, p, k) <==> HasParent(db, k) && Reached(db, p.Keys(), ParentKey(k.table, db[k]))
  {
    if path: seq<Key> :| ChainFrom(db, k, path) && IsCarried(p, path[|path| - 1]) {
      assert PointsAt(db, path[0], path[1]);
      LinksAreParents(k.table, path[1].table);
      ChainTail(db, path);
      ChainReaches(db, p.Keys(), path[1..]);
    }
    if HasParent(db, k) && Reached(db, p.Keys(), ParentKey(k.table, db[k])) {
      var rest := ReachedByChain(db, p.Keys(), ParentKey(k.table, db[k]));
      ParentIsPointedAt(db, k);
      ChainOneMore(db, k, rest);
      assert IsCarried(p, ([k] + rest)[|rest|]);
    }
  }

  lemma {:induction false} AbsentAboveIs(db: Db, p: Payload, k: Key)
    requires k in db && IsChild(k.table)
    ensures AbsentAbove(db, p, k) <==> HasParent(db, k) && UnderAbsent(db, p, ParentKey(k.table, db[k]))
  {
    if path: seq<Key> :| ChainFrom(db, k, path) && IsOwnAbsent(db, p, path[|path| - 1]) {
      assert PointsAt(db, path[0], path[1]);
      LinksAreParents(k.table, path[1].table);
      ChainTail(db, path);
      ClimbsToRoot(db, path[1..]);
      assert path[|path| - 1] in AbsentRoots(db, p);
    }
    if HasParent(db, k) && UnderAbsent(db, p, ParentKey(k.table, db[k])) {
      var rest := RootByChain(db, ParentKey(k.table, db[k]));
      ParentIsPointedAt(db, k);
      ChainOneMore(db, k, rest);
      assert IsOwnAbsent(db, p, ([k] + rest)[|rest|]);
    }
  }

  lemma {:induction false} StrayIsElsewhere(db: Db, p: Payload, k: Key)
    ensures StrayKey(db, p, k) <==> IsElsewhere(db, p, k)
  {
    LinkTables(k.table);
    if k in db && IsChild(k.table) {
      CarriedAboveIs(db, p, k);
      AbsentAboveIs(db, p, k);
    }
  }

  /** The payload repeats the table, row, field, subkey and language of another organisation's translation. */
  ghost predicate RepeatsOthers(db: Db, p: Payload) {
    exists id, j: Key :: id in p.RowsOf(Translations) && j.table == Translations && IsOthers(db, p.organisationid, j)
                         && db[j].natural == p.RowsOf(Translations)[id].natural
  }

  lemma {:induction false} RepeatsAre(db: Db, p: Payload)
    ensures RepeatsForeignTranslation(db, p) <==> RepeatsOthers(db, p)
  {
    if j: Key, k :| k in p.Content() && k.table == Translations && j.table == Translations
                    && OwnedByAnother(db, p.organisationid, j) && db[j].natural == p.Content()[k].natural {
      assert k.id in p.RowsOf(Translations) && IsOthers(db, p.organisationid, j);
    }
    if id, j: Key :| id in p.RowsOf(Translations) && j.table == Translations && IsOthers(db, p.organisationid, j)
                     && db[j].natural == p.RowsOf(Translations)[id].natural {
      assert Key(Translations, id) in p.Content() && OwnedByAnother(db, p.organisationid, j);
    }
  }

  ghost predicate CarriesOthers(db: Db, p: Payload) {
    exists k :: IsCarried(p, k) && IsOthers(db, p.organisationid, k)
  }

  ghost predicate CarriesFromElsewhere(db: Db, p: Payload) {
    exists k :: IsElsewhere(db, p, k)
  }

  lemma {:induction false} NamesAre(db: Db, p: Payload)
    ensures NamesForeignRow(db, p) <==> CarriesOthers(db, p)
  {
    if k :| k in p.Content() && IsOwned(k.table) && OwnedByAnother(db, p.organisationid, k) {
      assert IsCarried(p, k) && IsOthers(db, p.organisationid, k);
    }
    if k :| IsCarried(p, k) && IsOthers(db, p.organisationid, k) {
      assert k in p.Content() && OwnedByAnother(db, p.organisationid, k);
    }
  }

  lemma {:induction false} StraysAre(db: Db, p: Payload)
    ensures CarriesStray(db, p) <==> CarriesFromElsewhere(db, p)
  {
    if k :| StrayKey(db, p, k) {
      StrayIsElsewhere(db, p, k);
    }
    if k :| IsElsewhere(db, p, k) {
      StrayIsElsewhere(db, p, k);
    }
  }

  /**
   * A payload the validator lets through is refused exactly when it carries another organisation's
   * row, repeats another's translation, or carries a row that is stored elsewhere.
   */
  lemma {:induction false} RefusedExactly(db: Db, p: Payload)
    requires p.Valid()
    ensures !Acceptable(db, p) <==> CarriesOthers(db, p) || RepeatsOthers(db, p) || CarriesFromElsewhere(db, p)
  {
    CountryCheckNeverRefuses(db, p);
    NamesAre(db, p);
    RepeatsAre(db, p);
    StraysAre(db, p);
  }
}
