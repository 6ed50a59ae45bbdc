/**
 * The import itself: an object that reads, deletes, checks, writes and marks the tables step
 * by step, in chunks, and counts what it did. Its methods are proved against ImportSpec.
 */
module OrganisationContent {
  import opened Wrappers
  import opened ContentTables
  import opened ImportSpec

  datatype Refusal = NamesContentOfOthers | CarriesStrayRows | CountryNotHere

  /** Ids per query and per write. */
  const CHUNK: nat := 1000

  // ---- what one statement touches ---------------------------------------------------------------

  /** The rows of `t` whose parent column is one of `ids`. */
  function Hits(db: Db, t: Table, ids: set<Id>): set<Key> {
    set k | k in db && k.table == t && db[k].parent.Some? && db[k].parent.value in ids
  }

  function OwnedRows(db: Db, t: Table, organisationid: Id): set<Key> {
    set k | k in db && k.table == t && db[k].owner == Some(organisationid)
  }

  /** The ids among `ids` whose row of `t` is here under another organisation. */
  function ForeignAmong(db: Db, t: Table, ids: set<Id>, organisationid: Id): set<Id> {
    set id | id in ids && Key(t, id) in db && db[Key(t, id)].owner.Some? && db[Key(t, id)].owner.value != organisationid
  }

  /** The ids among `ids` whose row of `t` is here and hangs from none of `takeover`. */
  function StraysAmong(db: Db, t: Table, ids: set<Id>, takeover: set<Id>): set<Id> {
    set id | id in ids && Key(t, id) in db && !(db[Key(t, id)].parent.Some? && db[Key(t, id)].parent.value in takeover)
  }

  /** The rows of `t` among `ids` that the organisation owns and that are not marked deleted. */
  function Missing(db: Db, t: Table, organisationid: Id, ids: set<Id>): set<Key> {
    set k | k in db && k.table == t && k.id in ids && db[k].owner == Some(organisationid) && !db[k].isdeleted
  }

  function Marked(db: Db, keys: set<Key>): Db {
    map k | k in db :: if k in keys then db[k].(isdeleted := true) else db[k]
  }

  /** The schools among `ids` that point at a country that is not here. */
  function DanglingAmong(db: Db, ids: set<Id>): set<Id> {
    set id | id in ids && Key(Schools, id) in db && db[Key(Schools, id)].country.Some?
      && Key(Countries, db[Key(Schools, id)].country.value) !in db
  }

  lemma {:induction false} ForeignMore(db: Db, t: Table, done: set<Id>, part: set<Id>, organisationid: Id)
    requires done !! part
    ensures |ForeignAmong(db, t, done + part, organisationid)|
      == |ForeignAmong(db, t, done, organisationid)| + |ForeignAmong(db, t, part, organisationid)|
  {
    assert ForeignAmong(db, t, done + part, organisationid)
      == ForeignAmong(db, t, done, organisationid) + ForeignAmong(db, t, part, organisationid);
  }

  lemma {:induction false} StraysMore(db: Db, t: Table, done: set<Id>, part: set<Id>, takeover: set<Id>)
    requires done !! part
    ensures |StraysAmong(db, t, done + part, takeover)|
      == |StraysAmong(db, t, done, takeover)| + |StraysAmong(db, t, part, takeover)|
  {
    assert StraysAmong(db, t, done + part, takeover) == StraysAmong(db, t, done, takeover) + StraysAmong(db, t, part, takeover);
  }

  // ---- progress of the deletes and of the writes ----------------------------------------------------

  /** What is left when the tables `done` have lost their doomed rows. */
  ghost function Remaining(db: Db, p: Payload, done: set<Table>): Db {
    map k | k in db && !(k.table in done && Doomed(db, p, k)) :: db[k]
  }

  lemma {:induction false} OneTableLess(db: Db, p: Payload, done: set<Table>, t: Table, hit: set<Key>)
    requires t !in done
    requires forall k :: k in hit <==> k in Remaining(db, p, done) && k.table == t && Doomed(db, p, k)
    ensures Remaining(db, p, done) - hit == Remaining(db, p, done + {t})
  {
  }

  /** A child row is hit through its parent exactly when it is doomed. */
  lemma {:induction false} HitsAreDoomed(db: Db, p: Payload, done: set<Table>, t: Table, ids: set<Id>)
    requires IsChild(t) && t !in done && IsLink(db, p.Keys(), ParentOf(t).value, ids)
    ensures var left := Remaining(db, p, done); left - Hits(left, t, ids) == Remaining(db, p, done + {t})
  {
    OneTableLess(db, p, done, t, Hits(Remaining(db, p, done), t, ids));
  }

  const CURRICULUM_TABLES: set<Table> := {
    QuizQuestions, PracticeQuestions, LevelQuizQuestions, Quizzes, Practices, LearningDocuments, Learnings,
    Plans, Lessons, Levels, Grades, BaselineQuestions, Baselines}

  lemma {:induction false} AllDeleted(db: Db, p: Payload, done: set<Table>)
    requires done == CURRICULUM_TABLES + {Standards} + {Questions, Documents, Subjects, Translations}
    ensures Remaining(db, p, done) == Cleared(db, p)
  {
    EveryLosingTable(done);
    AllTablesDone(db, p, done);
  }

  lemma {:induction false} EveryLosingTable(done: set<Table>)
    requires done == CURRICULUM_TABLES + {Standards} + {Questions, Documents, Subjects, Translations}
    ensures forall t :: IsChild(t) || IsReplaced(t) ==> t in done
  {
  }

  lemma {:induction false} AllTablesDone(db: Db, p: Payload, done: set<Table>)
    requires forall t :: IsChild(t) || IsReplaced(t) ==> t in done
    ensures Remaining(db, p, done) == Cleared(db, p)
  {
    forall k | k in db && Doomed(db, p, k)
      ensures k.table in done
    {
    }
  }

  ghost function RowsIn(db: Db, t: Table): set<Key> {
    set k | k in db && k.table == t
  }

  /** The rows of a table deleted so far and the rows it still has. */
  ghost function Tally(db: Db, deleted: multiset<Table>, t: Table): nat {
    deleted[t] + |RowsIn(db, t)|
  }

  lemma {:induction false} DeletedAreCounted(db: Db, deleted: multiset<Table>, t: Table, hit: set<Key>)
    requires forall k :: k in hit ==> k in db && k.table == t
    ensures forall u :: Tally(db - hit, deleted[t := deleted[t] + |hit|], u) == Tally(db, deleted, u)
  {
    forall u
      ensures Tally(db - hit, deleted[t := deleted[t] + |hit|], u) == Tally(db, deleted, u)
    {
      RowsLeft(db, t, hit, u);
    }
  }

  lemma {:induction false} RowsLeft(db: Db, t: Table, hit: set<Key>, u: Table)
    requires forall k :: k in hit ==> k in db && k.table == t
    ensures |RowsIn(db, u)| == |RowsIn(db - hit, u)| + if u == t then |hit| else 0
  {
    if u == t {
      assert RowsIn(db, t) == RowsIn(db - hit, t) + hit;
    } else {
      assert RowsIn(db, u) == RowsIn(db - hit, u);
    }
  }

  lemma {:induction false} NextHits(db: Db, t: Table, done: set<Id>, part: set<Id>)
    requires done !! part
    ensures var left := db - Hits(db, t, done); left - Hits(left, t, part) == db - Hits(db, t, done + part)
  {
  }

  lemma {:induction false} NextMissing(db: Db, t: Table, organisationid: Id, done: set<Id>, part: set<Id>)
    requires done !! part
    ensures var before := Missing(db, t, organisationid, done);
            var changed := Missing(Marked(db, before), t, organisationid, part);
            before !! changed && Missing(db, t, organisationid, done + part) == before + changed
  {
  }

  lemma {:induction false} MarkTwice(db: Db, first: set<Key>, second: set<Key>)
    ensures Marked(Marked(db, first), second) == Marked(db, first + second)
  {
  }

  function KeysOf(t: Table, ids: set<Id>): (keys: set<Key>)
    ensures forall k :: k in keys <==> k.table == t && k.id in ids
  {
    set id | id in ids :: Key(t, id)
  }

  /** The rows of one table, as they are written. */
  function Keyed(p: Payload, t: Table, ids: set<Id>): map<Key, Row>
    requires ids <= p.RowsOf(t).Keys
  {
    map k | k in KeysOf(t, ids) :: p.Stamped(t, p.RowsOf(t)[k.id])
  }

  lemma {:induction false} NextRows(db: Db, p: Payload, t: Table, done: set<Id>, part: set<Id>)
    requires done + part <= p.RowsOf(t).Keys && done !! part
    ensures Upsert(Upsert(db, Keyed(p, t, done)), Keyed(p, t, part)) == Upsert(db, Keyed(p, t, done + part))
  {
    UpsertTwice(db, Keyed(p, t, done), Keyed(p, t, part));
    KeyedTogether(p, t, done, part);
  }

  lemma {:induction false} KeyedTogether(p: Payload, t: Table, done: set<Id>, part: set<Id>)
    requires done + part <= p.RowsOf(t).Keys
    ensures Keyed(p, t, done) + Keyed(p, t, part) == Keyed(p, t, done + part)
  {
  }

  lemma {:induction false} UpsertNothing(db: Db, p: Payload, t: Table)
    ensures Upsert(db, Keyed(p, t, {})) == db
  {
  }

  lemma {:induction false} UpsertTwice(db: Db, first: map<Key, Row>, second: map<Key, Row>)
    requires first.Keys !! second.Keys
    ensures Upsert(Upsert(db, first), second) == Upsert(db, first + second)
  {
  }

  const WRITE_ORDER: seq<Table> := [
    Documents, Questions, Subjects, Countries, Schools, Standards, Curriculums, Baselines,
    BaselineQuestions, Grades, Levels, Lessons, Learnings, LearningDocuments, Plans, Practices,
    Quizzes, PracticeQuestions, QuizQuestions, LevelQuizQuestions, Translations]

  function WritePlace(t: Table): (place: nat)
    ensures place < |WRITE_ORDER| && WRITE_ORDER[place] == t
  {
    match t
    case Documents => 0
    case Questions => 1
    case Subjects => 2
    case Countries => 3
    case Schools => 4
    case Standards => 5
    case Curriculums => 6
    case Baselines => 7
    case BaselineQuestions => 8
    case Grades => 9
    case Levels => 10
    case Lessons => 11
    case Learnings => 12
    case LearningDocuments => 13
    case Plans => 14
    case Practices => 15
    case Quizzes => 16
    case PracticeQuestions => 17
    case QuizQuestions => 18
    case LevelQuizQuestions => 19
    case Translations => 20
  }

  lemma {:induction false} WrittenInPlace(i: nat)
    requires i < |WRITE_ORDER|
    ensures forall t :: WritePlace(t) == i <==> t == WRITE_ORDER[i]
  {
  }

  /** The rows of some tables. */
  ghost function Part(rows: map<Key, Row>, tables: set<Table>): map<Key, Row> {
    map k | k in rows && k.table in tables :: rows[k]
  }

  lemma {:induction false} NextTable(db: Db, p: Payload, done: set<Table>, t: Table)
    requires t !in done
    ensures Upsert(Upsert(db, Part(p.Content(), done)), Keyed(p, t, p.RowsOf(t).Keys)) == Upsert(db, Part(p.Content(), done + {t}))
  {
    KeyedIsPart(p, t);
    PartsTogether(p.Content(), done, t);
    UpsertTwice(db, Part(p.Content(), done), Part(p.Content(), {t}));
  }

  lemma {:induction false} KeyedIsPart(p: Payload, t: Table)
    ensures Keyed(p, t, p.RowsOf(t).Keys) == Part(p.Content(), {t})
  {
  }

  lemma {:induction false} PartsTogether(rows: map<Key, Row>, done: set<Table>, t: Table)
    ensures Part(rows, done) + Part(rows, {t}) == Part(rows, done + {t})
  {
  }

  /** Marking the absent schools and then the absent curricula is what the specification marks. */
  lemma {:induction false} MarkedIsImported(db0: Db, p: Payload, absent: Absent, first: Db, second: Db)
    requires forall id :: id in absent.curricula <==> Key(Curriculums, id) in AbsentRoots(db0, p)
    requires forall id :: id in absent.schools <==> Key(Schools, id) in AbsentRoots(db0, p)
    requires first == Marked(Written(db0, p), Missing(Written(db0, p), Schools, p.organisationid, absent.schools))
    requires second == Marked(first, Missing(first, Curriculums, p.organisationid, absent.curricula))
    ensures second == Imported(db0, p)
  {
    forall k | k in Written(db0, p)
      ensures second[k] == Imported(db0, p)[k]
    {
      var row := Written(db0, p)[k];
      assert row.isdeleted ==> row.(isdeleted := true) == row;
      assert k in AbsentRoots(db0, p) ==> row.owner == Some(p.organisationid);
    }
  }

  // ---- the chain ----------------------------------------------------------------------------------------

  /** The ids of the rows other rows hang from, below the curricula. */
  datatype Chain = Chain(
    baselines: set<Id>, grades: set<Id>, levels: set<Id>, lessons: set<Id>,
    learnings: set<Id>, practices: set<Id>, quizzes: set<Id>)
  {
    ghost predicate Reaches(db: Db, seeds: set<Key>) {
      && IsLink(db, seeds, Baselines, baselines)
      && IsLink(db, seeds, Grades, grades)
      && IsLink(db, seeds, Levels, levels)
      && IsLink(db, seeds, Lessons, lessons)
      && IsLink(db, seeds, Learnings, learnings)
      && IsLink(db, seeds, Practices, practices)
      && IsLink(db, seeds, Quizzes, quizzes)
    }
  }

  /** The ids are exactly the ones reached from the seeds. */
  ghost predicate IsLink(db: Db, seeds: set<Key>, t: Table, ids: set<Id>) {
    forall id :: id in ids <==> Reached(db, seeds, Key(t, id))
  }

  /** Below the curricula, the seeds are the rows that are carried. */
  ghost predicate SeedsAre(seeds: set<Key>, carried: map<Table, map<Id, Row>>) {
    forall k: Key :: k.table != Curriculums ==> (k in seeds <==> k.table in carried && k.id in carried[k.table])
  }

  /** The absent curricula and schools of the organisation, and everything stored under them. */
  datatype Absent = Absent(curricula: set<Id>, schools: set<Id>, chain: Chain) {
    function IdsOf(t: Table): set<Id> {
      match t
      case Curriculums => curricula
      case Schools => schools
      case Baselines => chain.baselines
      case Grades => chain.grades
      case Levels => chain.levels
      case Lessons => chain.lessons
      case Learnings => chain.learnings
      case Practices => chain.practices
      case Quizzes => chain.quizzes
      case _ => {}
    }

    ghost predicate Matches(db: Db, p: Payload) {
      forall t :: IsParent(t) ==> AreUnderAbsent(db, p, t, IdsOf(t))
    }
  }

  /** The ids are those of the table's rows at or under an absent root. */
  ghost predicate AreUnderAbsent(db: Db, p: Payload, t: Table, ids: set<Id>) {
    forall id :: id in ids <==> UnderAbsent(db, p, Key(t, id))
  }

  predicate IsParent(t: Table) {
    t in {Curriculums, Schools, Baselines, Grades, Levels, Lessons, Learnings, Practices, Quizzes}
  }

  ghost function AbsentCurricula(db: Db, p: Payload): set<Key> {
    set k | k in AbsentRoots(db, p) && k.table == Curriculums
  }

  lemma {:induction false} AbsentLink(db: Db, p: Payload, t: Table, ids: set<Id>)
    requires IsChild(t) && t != Standards && IsLink(db, AbsentCurricula(db, p), t, ids)
    ensures AreUnderAbsent(db, p, t, ids)
  {
    forall id
      ensures id in ids <==> UnderAbsent(db, p, Key(t, id))
    {
      if Key(t, id) in db {
        ReachedFromRoots(db, AbsentCurricula(db, p), Key(t, id));
      }
    }
  }

  lemma {:induction false} RootsAreUnderAbsent(db: Db, p: Payload, t: Table, ids: set<Id>)
    requires t in {Curriculums, Schools} && forall id :: id in ids <==> Key(t, id) in AbsentRoots(db, p)
    ensures AreUnderAbsent(db, p, t, ids)
  {
  }

  lemma {:induction false} StrayRowFound(db: Db, p: Payload, t: Table, absent: Absent, id: Id)
    requires IsChild(t) && absent.Matches(db, p)
    ensures id in StraysAmong(Cleared(db, p), t, p.RowsOf(t).Keys, absent.IdsOf(ParentOf(t).value)) <==> StrayKey(db, p, Key(t, id))
  {
    var up := ParentOf(t).value;
    assert IsParent(up) && AreUnderAbsent(db, p, up, absent.IdsOf(up));
  }

  lemma {:induction false} StrayRowsFound(db: Db, p: Payload, t: Table, absent: Absent)
    requires IsChild(t) && absent.Matches(db, p)
    ensures StraysAmong(Cleared(db, p), t, p.RowsOf(t).Keys, absent.IdsOf(ParentOf(t).value)) != {}
      <==> exists k: Key :: k.table == t && StrayKey(db, p, k)
  {
    var found := StraysAmong(Cleared(db, p), t, p.RowsOf(t).Keys, absent.IdsOf(ParentOf(t).value));
    if id :| id in found {
      StrayRowFound(db, p, t, absent, id);
    }
    if k: Key :| k.table == t && StrayKey(db, p, k) {
      StrayRowFound(db, p, t, absent, k.id);
      assert k.id in found;
    }
  }

  ghost predicate NamesForeignRowOf(db: Db, p: Payload, t: Table) {
    IsOwned(t) && ForeignAmong(db, t, p.RowsOf(t).Keys, p.organisationid) != {}
  }

  lemma {:induction false} ForeignRowsNamed(db: Db, p: Payload)
    ensures NamesForeignRow(db, p) <==>
      exists t :: NamesForeignRowOf(db, p, t)
  {
    if k :| k in p.Content() && IsOwned(k.table) && OwnedByAnother(db, p.organisationid, k) {
      assert k.id in ForeignAmong(db, k.table, p.RowsOf(k.table).Keys, p.organisationid);
      assert NamesForeignRowOf(db, p, k.table);
    }
    if t :| NamesForeignRowOf(db, p, t) {
      var id :| id in ForeignAmong(db, t, p.RowsOf(t).Keys, p.organisationid);
      assert Key(t, id) in p.Content();
    }
  }

  class OrganisationContentImport {
    var db: Db
    var deleted: multiset<Table>
    var written: multiset<Table>
    var markedDeleted: multiset<Table>

    constructor (db: Db)
      ensures this.db == db && deleted == written == markedDeleted == multiset{}
    {
      this.db := db;
      deleted, written, markedDeleted := multiset{}, multiset{}, multiset{};
    }

    /**
     * The whole import, all or nothing: accepted exactly when the payload is acceptable here,
     * and then the database is the imported one; refused, it is as it was.
     */
    method Run(p: Payload) returns (refusal: Option<Refusal>)
      requires p.Valid() && deleted == written == markedDeleted == multiset{}
      modifies this
      ensures refusal.None? <==> Acceptable(old(db), p)
      ensures refusal.None? ==> db == Imported(old(db), p)
      ensures refusal.None? ==> forall t :: deleted[t] == |RowsIn(old(db), t)| - |RowsIn(Cleared(old(db), p), t)|
      ensures refusal.None? ==> forall t :: written[t] == |p.RowsOf(t)|
      ensures refusal.Some? ==> db == old(db)
    {
      var before := db;
      refusal := Apply(p);
      if refusal.Some? {
        db := before;
      }
    }

    method Apply(p: Payload) returns (refusal: Option<Refusal>)
      requires p.Valid() && deleted == written == markedDeleted == multiset{}
      modifies this
      ensures refusal.None? <==> Acceptable(old(db), p)
      ensures refusal.None? ==> db == Imported(old(db), p)
      ensures refusal.None? ==> forall t :: deleted[t] == |RowsIn(old(db), t)| - |RowsIn(Cleared(old(db), p), t)|
      ensures refusal.None? ==> forall t :: written[t] == |p.RowsOf(t)|
    {
      var schoolsBefore := IdsOwnedBy(Schools, p.organisationid);
      var curriculaBefore := IdsOwnedBy(Curriculums, p.organisationid);
      var foreign := RefuseRowsOfOtherOrganisations(p);
      if foreign {
        return Some(NamesContentOfOthers);
      }
      var missingCurricula := curriculaBefore - p.RowsOf(Curriculums).Keys;
      var missingSchools := schoolsBefore - p.RowsOf(Schools).Keys;
      var absent := AbsentFromPayload(p, missingCurricula, missingSchools);
      DeleteContent(p);
      assert forall t :: Tally(Cleared(old(db), p), deleted, t) == Tally(old(db), multiset{}, t);
      var stray := RefuseStrayChildren(p, absent, old(db));
      if stray {
        return Some(CarriesStrayRows);
      }
      WritePayload(p);
      MarkAbsent(p, absent, old(db));
      var dangling := CheckCountryReferences(p);
      refusal := if dangling then Some(CountryNotHere) else None;
      forall t
        ensures deleted[t] == |RowsIn(old(db), t)| - |RowsIn(Cleared(old(db), p), t)|
      {
        assert Tally(old(db), multiset{}, t) == |RowsIn(old(db), t)|;
      }
    }

    /** The ids of the rows of an owned table that the organisation owns here. */
    method IdsOwnedBy(t: Table, organisationid: Id) returns (ids: set<Id>)
      ensures forall id :: id in ids <==> Key(t, id) in db && db[Key(t, id)].owner == Some(organisationid)
    {
      ids := set k | k in OwnedRows(db, t, organisationid) :: k.id;
      assert forall id :: Key(t, id) in OwnedRows(db, t, organisationid) ==> Key(t, id).id in ids;
    }

    /** At most `CHUNK` of the ids, and at least one. */
    static method NextChunk(ids: set<Id>) returns (part: set<Id>)
      requires ids != {}
      ensures part <= ids && part != {} && |part| <= CHUNK
    {
      part := {};
      var rest := ids;
      while rest != {} && |part| < CHUNK
        invariant part + rest == ids && |part| <= CHUNK
        invariant rest == ids || part != {}
      {
        assert |rest| > 0;
        var id :| id in rest;
        part, rest := part + {id}, rest - {id};
      }
    }

    /** Whether the payload names an owned row, or repeats a translation, of another organisation. */
    method RefuseRowsOfOtherOrganisations(p: Payload) returns (refused: bool)
      ensures refused <==> NamesForeignRow(db, p) || RepeatsForeignTranslation(db, p)
    {
      refused := false;
      for i := 0 to |WRITE_ORDER|
        invariant refused <==> exists t :: WritePlace(t) < i && NamesForeignRowOf(db, p, t)
      {
        var t := WRITE_ORDER[i];
        WrittenInPlace(i);
        var n := 0;
        if IsOwned(t) {
          n := ForeignRowsAmong(t, p.RowsOf(t).Keys, p.organisationid);
        }
        assert n > 0 <==> NamesForeignRowOf(db, p, t);
        refused := refused || n > 0;
      }
      ForeignRowsNamed(db, p);
      var colliding := TranslationsOfOthers(p);
      refused := refused || colliding > 0;
    }

    /** How many of `ids` are rows of `t` here under another organisation. */
    method ForeignRowsAmong(t: Table, ids: set<Id>, organisationid: Id) returns (n: nat)
      ensures n == |ForeignAmong(db, t, ids, organisationid)|
    {
      n := 0;
      var rest := ids;
      while rest != {}
        invariant rest <= ids
        invariant n == |ForeignAmong(db, t, ids - rest, organisationid)|
      {
        var part := NextChunk(rest);
        var found := ForeignAmong(db, t, part, organisationid);
        ForeignMore(db, t, ids - rest, part, organisationid);
        assert ids - rest + part == ids - (rest - part);
        n, rest := n + |found|, rest - part;
      }
      assert ids - rest == ids;
    }

    /** How many natural keys of the payload's translations another organisation holds here. */
    method TranslationsOfOthers(p: Payload) returns (n: nat)
      ensures n > 0 <==> RepeatsForeignTranslation(db, p)
    {
      var rows := p.RowsOf(Translations);
      var held := set j | j in db && j.table == Translations && db[j].owner.Some? && db[j].owner.value != p.organisationid :: db[j].natural;
      var wanted := set id | id in rows :: rows[id].natural;
      n := |held * wanted|;
      if natural :| natural in held * wanted {
        ghost var id :| id in rows && rows[id].natural == natural;
        assert Key(Translations, id) in p.Content();
      }
      if RepeatsForeignTranslation(db, p) {
        ghost var j: Key, k :| k in p.Content() && k.table == Translations && j.table == Translations
          && OwnedByAnother(db, p.organisationid, j) && db[j].natural == p.Content()[k].natural;
        assert db[j].natural in held * wanted;
      }
    }

    /** The ids of the rows of `t` whose parent is one of `parents`. */
    method IdsWhere(t: Table, parents: set<Id>) returns (ids: set<Id>)
      ensures forall id :: id in ids <==> Key(t, id) in Hits(db, t, parents)
    {
      ids := {};
      var rest := parents;
      while rest != {}
        invariant rest <= parents
        invariant forall id :: id in ids <==> Key(t, id) in Hits(db, t, parents - rest)
      {
        var part := NextChunk(rest);
        var found := set k | k in Hits(db, t, part) :: k.id;
        assert forall id :: Key(t, id) in Hits(db, t, part) ==> Key(t, id).id in found;
        ids, rest := ids + found, rest - part;
      }
      assert parents - rest == parents;
    }

    /**
     * The ids of the rows that other rows hang from, down from the curricula, with the ids a
     * payload carries itself added at every table.
     */
    method ChainOf(curriculumIds: set<Id>, carried: map<Table, map<Id, Row>>, ghost seeds: set<Key>) returns (chain: Chain)
      requires IsLink(db, seeds, Curriculums, curriculumIds)
      requires SeedsAre(seeds, carried)
      ensures chain.Reaches(db, seeds)
    {
      var baselines := ChainLink(Baselines, Curriculums, curriculumIds, carried, seeds);
      var grades := ChainLink(Grades, Curriculums, curriculumIds, carried, seeds);
      var levels := ChainLink(Levels, Grades, grades, carried, seeds);
      var lessons := ChainLink(Lessons, Levels, levels, carried, seeds);
      var learnings := ChainLink(Learnings, Lessons, lessons, carried, seeds);
      var practices := ChainLink(Practices, Lessons, lessons, carried, seeds);
      var quizzes := ChainLink(Quizzes, Lessons, lessons, carried, seeds);
      chain := Chain(baselines, grades, levels, lessons, learnings, practices, quizzes);
    }

    method ChainLink(t: Table, ghost up: Table, parents: set<Id>, carried: map<Table, map<Id, Row>>, ghost seeds: set<Key>)
      returns (ids: set<Id>)
      requires t != Curriculums && ParentOf(t) == Some(up) && IsLink(db, seeds, up, parents)
      requires SeedsAre(seeds, carried)
      ensures IsLink(db, seeds, t, ids)
    {
      var found := IdsWhere(t, parents);
      ids := found + if t in carried then carried[t].Keys else {};
    }

    /** The absent curricula and schools, and the ids under them, read before anything is deleted. */
    method AbsentFromPayload(ghost p: Payload, curriculumIds: set<Id>, schoolIds: set<Id>) returns (absent: Absent)
      requires forall id :: id in curriculumIds <==> Key(Curriculums, id) in AbsentRoots(db, p)
      requires forall id :: id in schoolIds <==> Key(Schools, id) in AbsentRoots(db, p)
      ensures absent.curricula == curriculumIds && absent.schools == schoolIds
      ensures absent.Matches(db, p)
    {
      var chain := ChainOf(curriculumIds, map[], AbsentCurricula(db, p));
      absent := Absent(curriculumIds, schoolIds, chain);
      RootsAreUnderAbsent(db, p, Curriculums, curriculumIds);
      RootsAreUnderAbsent(db, p, Schools, schoolIds);
      AbsentLink(db, p, Baselines, chain.baselines);
      AbsentLink(db, p, Grades, chain.grades);
      AbsentLink(db, p, Levels, chain.levels);
      AbsentLink(db, p, Lessons, chain.lessons);
      AbsentLink(db, p, Learnings, chain.learnings);
      AbsentLink(db, p, Practices, chain.practices);
      AbsentLink(db, p, Quizzes, chain.quizzes);
    }

    /** All of this organisation's content that the payload replaces goes, children first. */
    method DeleteContent(p: Payload)
      modifies `db, `deleted
      ensures db == Cleared(old(db), p)
      ensures forall t :: Tally(db, deleted, t) == old(Tally(db, deleted, t))
    {
      ghost var db0 := db;
      assert db == Remaining(db0, p, {});
      ghost var done := DeleteCurriculumChildren(p, db0);
      done := DeleteChildren(p, Standards, Schools, p.RowsOf(Schools).Keys, db0, done);
      done := DestroyOwnedRows(p, db0, done);
      AllDeleted(db0, p, done);
    }

    /** What is under the payload's curricula, and under every parent row the payload carries. */
    method DeleteCurriculumChildren(p: Payload, ghost db0: Db) returns (ghost done: set<Table>)
      requires db == db0 == Remaining(db0, p, {})
      modifies `db, `deleted
      ensures db == Remaining(db0, p, done) && done == CURRICULUM_TABLES
      ensures forall t :: Tally(db, deleted, t) == old(Tally(db, deleted, t))
    {
      var chain := PayloadChain(p);
      done := DeleteQuestionLinks(p, chain, db0);
      done := DeleteLessonRows(p, chain, db0, done);
      done := DeleteUpperRows(p, chain, db0, done);
    }

    method PayloadChain(p: Payload) returns (chain: Chain)
      ensures chain.Reaches(db, p.Keys())
    {
      chain := ChainOf(p.RowsOf(Curriculums).Keys, p.tables, p.Keys());
    }

    method DeleteQuestionLinks(p: Payload, chain: Chain, ghost db0: Db) returns (ghost done: set<Table>)
      requires chain.Reaches(db0, p.Keys()) && db == Remaining(db0, p, {})
      modifies `db, `deleted
      ensures db == Remaining(db0, p, done) && done == {QuizQuestions, PracticeQuestions, LevelQuizQuestions}
      ensures forall t :: Tally(db, deleted, t) == old(Tally(db, deleted, t))
    {
      done := DeleteChildren(p, QuizQuestions, Quizzes, chain.quizzes, db0, {});
      done := DeleteChildren(p, PracticeQuestions, Practices, chain.practices, db0, done);
      done := DeleteChildren(p, LevelQuizQuestions, Levels, chain.levels, db0, done);
    }

    method DeleteLessonRows(p: Payload, chain: Chain, ghost db0: Db, ghost before: set<Table>) returns (ghost done: set<Table>)
      requires chain.Reaches(db0, p.Keys()) && db == Remaining(db0, p, before)
      requires before !! {Quizzes, Practices, LearningDocuments, Learnings, Plans}
      modifies `db, `deleted
      ensures db == Remaining(db0, p, done) && done == before + {Quizzes, Practices, LearningDocuments, Learnings, Plans}
      ensures forall t :: Tally(db, deleted, t) == old(Tally(db, deleted, t))
    {
      done := DeleteChildren(p, Quizzes, Lessons, chain.lessons, db0, before);
      done := DeleteChildren(p, Practices, Lessons, chain.lessons, db0, done);
      done := DeleteChildren(p, LearningDocuments, Learnings, chain.learnings, db0, done);
      done := DeleteChildren(p, Learnings, Lessons, chain.lessons, db0, done);
      done := DeleteChildren(p, Plans, Lessons, chain.lessons, db0, done);
    }

    method DeleteUpperRows(p: Payload, chain: Chain, ghost db0: Db, ghost before: set<Table>)
      returns (ghost done: set<Table>)
      requires chain.Reaches(db0, p.Keys())
      requires db == Remaining(db0, p, before) && before !! {Lessons, Levels, Grades, BaselineQuestions, Baselines}
      modifies `db, `deleted
      ensures db == Remaining(db0, p, done)
      ensures done == before + {Lessons, Levels, Grades, BaselineQuestions, Baselines}
      ensures forall t :: Tally(db, deleted, t) == old(Tally(db, deleted, t))
    {
      var curriculumIds := p.RowsOf(Curriculums).Keys;
      done := DeleteChildren(p, Lessons, Levels, chain.levels, db0, before);
      done := DeleteChildren(p, Levels, Grades, chain.grades, db0, done);
      done := DeleteChildren(p, Grades, Curriculums, curriculumIds, db0, done);
      done := DeleteChildren(p, BaselineQuestions, Baselines, chain.baselines, db0, done);
      done := DeleteChildren(p, Baselines, Curriculums, curriculumIds, db0, done);
    }

    method DestroyOwnedRows(p: Payload, ghost db0: Db, ghost before: set<Table>) returns (ghost done: set<Table>)
      requires db == Remaining(db0, p, before) && before !! {Questions, Documents, Subjects, Translations}
      modifies `db, `deleted
      ensures db == Remaining(db0, p, done) && done == before + {Questions, Documents, Subjects, Translations}
      ensures forall t :: Tally(db, deleted, t) == old(Tally(db, deleted, t))
    {
      done := DestroyOwned(p, Questions, db0, before);
      done := DestroyOwned(p, Documents, db0, done);
      done := DestroyOwned(p, Subjects, db0, done);
      done := DestroyOwned(p, Translations, db0, done);
    }

    /** Deletes the doomed rows of one table of children. */
    method DeleteChildren(ghost p: Payload, t: Table, ghost up: Table, ids: set<Id>, ghost db0: Db, ghost before: set<Table>)
      returns (ghost done: set<Table>)
      requires ParentOf(t) == Some(up) && t !in before && IsLink(db0, p.Keys(), up, ids)
      requires db == Remaining(db0, p, before)
      modifies `db, `deleted
      ensures done == before + {t} && db == Remaining(db0, p, done)
      ensures forall t :: Tally(db, deleted, t) == old(Tally(db, deleted, t))
    {
      done := before + {t};
      HitsAreDoomed(db0, p, before, t, ids);
      DeleteWhere(t, ids);
    }

    /** Deletes the rows of `t` whose parent is one of `ids`, a chunk at a time. */
    method DeleteWhere(t: Table, ids: set<Id>)
      modifies `db, `deleted
      ensures db == old(db) - Hits(old(db), t, ids)
      ensures forall t :: Tally(db, deleted, t) == old(Tally(db, deleted, t))
    {
      ghost var before := db;
      var rest := ids;
      while rest != {}
        invariant rest <= ids
        invariant db == before - Hits(before, t, ids - rest)
        invariant forall t :: Tally(db, deleted, t) == old(Tally(db, deleted, t))
      {
        var part := NextChunk(rest);
        NextHits(before, t, ids - rest, part);
        assert ids - rest + part == ids - (rest - part);
        var hit := Hits(db, t, part);
        DeletedAreCounted(db, deleted, t, hit);
        db, deleted, rest := db - hit, deleted[t := deleted[t] + |hit|], rest - part;
      }
      assert ids - rest == ids;
    }

    /** Deletes this organisation's rows of a table that is replaced as a whole. */
    method DestroyOwned(p: Payload, t: Table, ghost db0: Db, ghost before: set<Table>) returns (ghost done: set<Table>)
      requires IsReplaced(t) && t !in before && db == Remaining(db0, p, before)
      modifies `db, `deleted
      ensures done == before + {t} && db == Remaining(db0, p, done)
      ensures forall t :: Tally(db, deleted, t) == old(Tally(db, deleted, t))
    {
      var hit := OwnedRows(db, t, p.organisationid);
      OneTableLess(db0, p, before, t, hit);
      DeletedAreCounted(db, deleted, t, hit);
      db, deleted, done := db - hit, deleted[t := deleted[t] + |hit|], before + {t};
    }

    /** Whether a payload child row is still here and not under something absent. */
    method RefuseStrayChildren(p: Payload, absent: Absent, ghost db0: Db) returns (refused: bool)
      requires db == Cleared(db0, p) && absent.Matches(db0, p)
      ensures refused <==> CarriesStray(db0, p)
    {
      refused := false;
      for i := 0 to |WRITE_ORDER|
        invariant refused <==> exists k: Key :: WritePlace(k.table) < i && StrayKey(db0, p, k)
      {
        var t := WRITE_ORDER[i];
        WrittenInPlace(i);
        if IsChild(t) {
          var n := StrayRowsAmong(t, p.RowsOf(t).Keys, absent.IdsOf(ParentOf(t).value));
          StrayRowsFound(db0, p, t, absent);
          refused := refused || n > 0;
        }
      }
    }

    /** How many of `ids` are rows of `t` here whose parent is not one of `takeover`. */
    method StrayRowsAmong(t: Table, ids: set<Id>, takeover: set<Id>) returns (n: nat)
      ensures n == |StraysAmong(db, t, ids, takeover)|
    {
      n := 0;
      var rest := ids;
      while rest != {}
        invariant rest <= ids
        invariant n == |StraysAmong(db, t, ids - rest, takeover)|
      {
        var part := NextChunk(rest);
        var found := StraysAmong(db, t, part, takeover);
        StraysMore(db, t, ids - rest, part, takeover);
        assert ids - rest + part == ids - (rest - part);
        n, rest := n + |found|, rest - part;
      }
      assert ids - rest == ids;
    }

    /** Writes every table of the payload, owned tables with their owner, parents before children. */
    method WritePayload(p: Payload)
      requires written == multiset{}
      modifies `db, `written
      ensures db == Upsert(old(db), p.Content())
      ensures forall t :: written[t] == |p.RowsOf(t)|
    {
      ghost var start := db;
      ghost var done: set<Table> := {};
      assert Part(p.Content(), {}) == map[];
      for i := 0 to |WRITE_ORDER|
        invariant forall t :: t in done <==> WritePlace(t) < i
        invariant db == Upsert(start, Part(p.Content(), done))
        invariant forall t :: written[t] == if t in done then |p.RowsOf(t)| else 0
      {
        var t := WRITE_ORDER[i];
        WrittenInPlace(i);
        NextTable(start, p, done, t);
        Write(p, t);
        done := done + {t};
      }
      assert Part(p.Content(), done) == p.Content();
    }

    /** Upserts the payload's rows of one table by id, a chunk at a time. */
    method Write(p: Payload, t: Table)
      modifies `db, `written
      ensures db == Upsert(old(db), Keyed(p, t, p.RowsOf(t).Keys))
      ensures written == old(written)[t := old(written)[t] + |p.RowsOf(t)|]
    {
      ghost var start := db;
      var ids := p.RowsOf(t).Keys;
      var rest := ids;
      UpsertNothing(db, p, t);
      assert ids - rest == {};
      while rest != {}
        invariant rest <= ids && db == Upsert(start, Keyed(p, t, ids - rest)) && written == old(written)
        decreases rest
      {
        rest := WriteChunk(p, t, rest, start);
      }
      assert ids - rest == ids;
      written := written[t := written[t] + |p.RowsOf(t)|];
    }

    /** The next chunk of a table's rows; `start` is the database before the first. */
    method WriteChunk(p: Payload, t: Table, rest: set<Id>, ghost start: Db) returns (left: set<Id>)
      requires rest != {} && rest <= p.RowsOf(t).Keys
      requires db == Upsert(start, Keyed(p, t, p.RowsOf(t).Keys - rest))
      modifies `db
      ensures left < rest && db == Upsert(start, Keyed(p, t, p.RowsOf(t).Keys - left))
    {
      var part := NextChunk(rest);
      left := rest - part;
      NextRows(start, p, t, p.RowsOf(t).Keys - rest, part);
      assert p.RowsOf(t).Keys - rest + part == p.RowsOf(t).Keys - left;
      BulkWrite(p, t, part);
    }

    /** One INSERT ... ON DUPLICATE KEY UPDATE of some of the payload's rows of a table. */
    method BulkWrite(p: Payload, t: Table, ids: set<Id>)
      requires ids <= p.RowsOf(t).Keys
      modifies `db
      ensures db == Upsert(old(db), Keyed(p, t, ids))
    {
      var rows := Keyed(p, t, ids);
      db := map k | k in db.Keys + rows.Keys :: if k in rows then Merge(db, k, rows[k]) else db[k];
    }

    method MarkAbsent(p: Payload, absent: Absent, ghost db0: Db)
      requires markedDeleted == multiset{} && db == Written(db0, p)
      requires forall id :: id in absent.curricula <==> Key(Curriculums, id) in AbsentRoots(db0, p)
      requires forall id :: id in absent.schools <==> Key(Schools, id) in AbsentRoots(db0, p)
      modifies `db, `markedDeleted
      ensures db == Imported(db0, p)
    {
      MarkMissing(Schools, p.organisationid, absent.schools);
      ghost var first := db;
      MarkMissing(Curriculums, p.organisationid, absent.curricula);
      MarkedIsImported(db0, p, absent, first, db);
    }

    /** The rows this organisation had that the payload no longer has are kept and marked deleted. */
    method MarkMissing(t: Table, organisationid: Id, missing: set<Id>)
      modifies `db, `markedDeleted
      ensures db == Marked(old(db), Missing(old(db), t, organisationid, missing))
      ensures markedDeleted == old(markedDeleted)[t := old(markedDeleted)[t] + |Missing(old(db), t, organisationid, missing)|]
    {
      ghost var before, counted := db, markedDeleted;
      var rest := missing;
      while rest != {}
        invariant rest <= missing
        invariant db == Marked(before, Missing(before, t, organisationid, missing - rest))
        invariant markedDeleted == counted[t := counted[t] + |Missing(before, t, organisationid, missing - rest)|]
      {
        var part := NextChunk(rest);
        NextMissing(before, t, organisationid, missing - rest, part);
        assert missing - rest + part == missing - (rest - part);
        var changed := Missing(db, t, organisationid, part);
        MarkTwice(before, Missing(before, t, organisationid, missing - rest), changed);
        db, markedDeleted, rest := Marked(db, changed), markedDeleted[t := markedDeleted[t] + |changed|], rest - part;
      }
      assert missing - rest == missing;
    }

    /** Whether a school of the payload points at a country that is not here. */
    method CheckCountryReferences(p: Payload) returns (dangling: bool)
      ensures dangling <==> DanglingCountry(db, p)
    {
      var found := DanglingAmong(db, p.RowsOf(Schools).Keys);
      dangling := found != {};
      if DanglingCountry(db, p) {
        ghost var k :| k in p.Keys() && k.table == Schools && k in db && db[k].country.Some?
          && Key(Countries, db[k].country.value) !in db;
        assert k.id in found;
      }
      if dangling {
        ghost var id :| id in found;
        assert Key(Schools, id) in p.Keys();
      }
    }
  }
}
