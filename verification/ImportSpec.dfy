/**
 * What an import of one organisation's content payload does to the database, as functions
 * of the database before it and the payload, and when it is refused.
 */
module ImportSpec {
  import opened Wrappers
  import opened ContentTables

  /** One organisation's content: the rows of each table by id (an absent table is an empty one). */
  datatype Payload = Payload(organisationid: Id, tables: map<Table, map<Id, Row>>) {
    function RowsOf(t: Table): map<Id, Row> {
      if t in tables then tables[t] else map[]
    }

    ghost function Keys(): (keys: set<Key>)
      ensures forall k :: k in keys <==> k.id in RowsOf(k.table)
    {
      set t, id | t in tables.Keys && id in tables[t] :: Key(t, id)
    }

    /** A row as it is written: the owned tables carry the header's organisation. */
    function Stamped(t: Table, row: Row): Row {
      if IsOwned(t) then row.(owner := Some(organisationid)) else row
    }

    /** Every row of the payload, by key, as it is written. */
    ghost function Content(): map<Key, Row> {
      map k | k in Keys() :: Stamped(k.table, RowsOf(k.table)[k.id])
    }

    /**
     * What the payload validator guarantees besides one row per id: every parent and every
     * school's country in the payload, no two translations of one text, no owner outside the
     * owned tables.
     */
    ghost predicate Valid() {
      && Linked(Content())
      && TranslationKeysUnique(Content())
      && (forall k :: k in Content() && !IsOwned(k.table) ==> Content()[k].owner.None?)
      && (forall k :: k in Content() && k.table == Schools && Content()[k].country.Some? ==>
            Key(Countries, Content()[k].country.value) in Content())
    }
  }

  // ---- refusals from reads alone -------------------------------------------------------

  ghost predicate OwnedByAnother(db: Db, organisationid: Id, k: Key) {
    k in db && db[k].owner.Some? && db[k].owner.value != organisationid
  }

  /** The payload names an owned row that another organisation has here. */
  ghost predicate NamesForeignRow(db: Db, p: Payload) {
    exists k :: k in p.Content() && IsOwned(k.table) && OwnedByAnother(db, p.organisationid, k)
  }

  /** The payload repeats the natural key of another organisation's translation. */
  ghost predicate RepeatsForeignTranslation(db: Db, p: Payload) {
    exists j: Key, k :: k in p.Content() && k.table == Translations && j.table == Translations
      && OwnedByAnother(db, p.organisationid, j) && db[j].natural == p.Content()[k].natural
  }

  // ---- the deletes ------------------------------------------------------------------------

  /**
   * The rows the import deletes: every row that hangs from a row the payload carries or from
   * anything stored below one, and this organisation's questions, documents, subjects and
   * translations.
   */
  ghost predicate Doomed(db: Db, p: Payload, k: Key)
    requires k in db
  {
    if IsChild(k.table) then
      db[k].parent.Some? && Reached(db, p.Keys(), ParentKey(k.table, db[k]))
    else
      IsReplaced(k.table) && db[k].owner == Some(p.organisationid)
  }

  ghost function Cleared(db: Db, p: Payload): Db {
    map k | k in db && !Doomed(db, p, k) :: db[k]
  }

  // ---- the stray check ----------------------------------------------------------------------

  /** The schools and curricula this organisation owns here that the payload no longer has. */
  ghost function AbsentRoots(db: Db, p: Payload): set<Key> {
    set k | k in db && k.table in {Schools, Curriculums} && db[k].owner == Some(p.organisationid) && k !in p.Keys()
  }

  /** `k` is an absent school or curriculum, or a row stored below one. */
  ghost predicate UnderAbsent(db: Db, p: Payload, k: Key) {
    k in db && Root(db, k).Some? && Root(db, k).value in AbsentRoots(db, p)
  }

  /** A payload child row is still here after the deletes, and not under an absent school or curriculum. */
  ghost predicate StrayKey(db: Db, p: Payload, k: Key) {
    && k in p.Keys() && IsChild(k.table) && k in Cleared(db, p)
    && !(db[k].parent.Some? && UnderAbsent(db, p, ParentKey(k.table, db[k])))
  }

  ghost predicate CarriesStray(db: Db, p: Payload) {
    exists k :: StrayKey(db, p, k)
  }

  // ---- the writes -----------------------------------------------------------------------------

  /** INSERT ... ON DUPLICATE KEY UPDATE: a row already there keeps the columns outside the update list. */
  function Merge(db: Db, k: Key, row: Row): Row {
    if k in db then row.(kept := db[k].kept) else row
  }

  ghost function Upsert(db: Db, rows: map<Key, Row>): Db {
    map k | k in db.Keys + rows.Keys :: if k in rows then Merge(db, k, rows[k]) else db[k]
  }

  ghost function Written(db: Db, p: Payload): Db {
    Upsert(Cleared(db, p), p.Content())
  }

  /** The absent schools and curricula are kept and marked deleted. */
  ghost function Imported(db: Db, p: Payload): Db {
    var w := Written(db, p);
    map k | k in w :: if k in AbsentRoots(db, p) then w[k].(isdeleted := true) else w[k]
  }

  /** A school of the payload points at a country that is not here. */
  ghost predicate DanglingCountry(db: Db, p: Payload) {
    exists k :: k in p.Keys() && k.table == Schools && k in db && db[k].country.Some?
      && Key(Countries, db[k].country.value) !in db
  }

  ghost predicate Acceptable(db: Db, p: Payload) {
    && !NamesForeignRow(db, p)
    && !RepeatsForeignTranslation(db, p)
    && !CarriesStray(db, p)
    && !DanglingCountry(Imported(db, p), p)
  }
}
