/** What holds of every accepted import: isolation, exactness, links, and what a rerun does. */
module ImportTheorems {
  import opened Wrappers
  import opened ContentTables
  import opened ImportSpec

  /** The fate of one row: the payload's own is written, any other is kept unless it is doomed. */
  lemma {:induction false} FateOfCarried(db: Db, p: Payload, k: Key)
    requires k in p.Content()
    ensures k in Imported(db, p) && Imported(db, p)[k] == Merge(Cleared(db, p), k, p.Content()[k])
  {
  }

  lemma {:induction false} FateOfOther(db: Db, p: Payload, k: Key)
    requires k !in p.Content()
    ensures k in Imported(db, p) <==> k in db && !Doomed(db, p, k)
    ensures k in Imported(db, p) ==>
      Imported(db, p)[k] == db[k].(isdeleted := Imported(db, p)[k].isdeleted)
  {
  }

  // ---- isolation --------------------------------------------------------------------------------

  /** An owned row of another organisation, or a row stored below a curriculum or a school of one. */
  ghost predicate Foreign(db: Db, organisationid: Id, k: Key) {
    Root(db, k).Some? && IsOwned(Root(db, k).value.table) && OwnedByAnother(db, organisationid, Root(db, k).value)
  }

  /** Everything the database holds of other organisations. */
  ghost function ForeignRows(db: Db, organisationid: Id): Db {
    map k | k in db && Foreign(db, organisationid, k) :: db[k]
  }

  /**
   * The delete set follows the ids the payload carries, wherever they are stored. A foreign
   * row below one has a topmost carried row above it: nothing deletes that row, so the
   * import either named another organisation's root or finds a stray.
   */
  lemma {:induction false} ReachedForeignIsRefused(db: Db, p: Payload, k: Key)
    requires p.Valid() && k in db && Foreign(db, p.organisationid, k)
    requires Reached(db, p.Keys(), k)
    ensures NamesForeignRow(db, p) || CarriesStray(db, p)
  {
    var top := Topmost(db, p.Keys(), k);
    assert top in p.Content();
    if IsChild(top.table) {
      assert top in Cleared(db, p);
      assert StrayKey(db, p, top);
    } else {
      assert Root(db, top) == Some(top);
    }
  }

  lemma {:induction false} ForeignRowIsUntouched(db: Db, p: Payload, k: Key)
    requires p.Valid() && Acceptable(db, p)
    requires k in db && Foreign(db, p.organisationid, k)
    ensures k !in p.Keys() && k in Imported(db, p) && Imported(db, p)[k] == db[k]
  {
    if Reached(db, p.Keys(), k) {
      ReachedForeignIsRefused(db, p, k);
      assert false;
    }
    assert k !in p.Content();
  }

  /** The root of a row the import leaves alone does not change. */
  lemma {:induction false} RootIsKept(db: Db, after: Db, k: Key)
    requires Root(db, k).Some?
    requires forall j :: j in db && Root(db, j) == Root(db, k) ==> j in after && after[j].parent == db[j].parent
    ensures Root(after, k) == Root(db, k)
    decreases Depth(k.table)
  {
    if IsChild(k.table) {
      RootIsKept(db, after, ParentKey(k.table, db[k]));
    }
  }

  /** Rows stored with the parents a closed set of rows gives them have their roots in that set. */
  lemma {:induction false} ClosedRowsHaveRoots(after: Db, rows: Db, k: Key)
    requires Linked(rows) && k in rows
    requires forall j :: j in rows ==> j in after && after[j].parent == rows[j].parent
    ensures Root(after, k).Some? && Root(after, k).value in rows
    decreases Depth(k.table)
  {
    if IsChild(k.table) {
      ClosedRowsHaveRoots(after, rows, ParentKey(k.table, rows[k]));
    }
  }

  /** A payload row hangs from a payload root once it is written. */
  lemma {:induction false} WrittenRootIsCarried(db: Db, p: Payload, k: Key)
    requires Linked(p.Content()) && k in p.Content()
    ensures Root(Imported(db, p), k).Some? && Root(Imported(db, p), k).value in p.Content()
  {
    forall j | j in p.Content()
      ensures j in Imported(db, p) && Imported(db, p)[j].parent == p.Content()[j].parent
    {
      FateOfCarried(db, p, j);
    }
    ClosedRowsHaveRoots(Imported(db, p), p.Content(), k);
  }

  /** No row whose root is another organisation's afterwards is one of the payload's. */
  lemma {:induction false} ForeignIsNotCarried(db: Db, p: Payload, k: Key)
    requires Linked(p.Content()) && Foreign(Imported(db, p), p.organisationid, k)
    ensures k !in p.Content()
  {
    if k in p.Content() {
      WrittenRootIsCarried(db, p, k);
      FateOfCarried(db, p, Root(Imported(db, p), k).value);
      assert false;
    }
  }

  /** A row that is foreign afterwards was there, and foreign, before. */
  lemma {:induction false} NothingBecomesForeign(db: Db, p: Payload, k: Key)
    requires Linked(p.Content()) && Foreign(Imported(db, p), p.organisationid, k)
    ensures k in db && Root(db, k) == Root(Imported(db, p), k)
    ensures k in Imported(db, p) && Imported(db, p)[k] == db[k]
  {
    var after := Imported(db, p);
    forall j | j in after && Root(after, j) == Root(after, k)
      ensures j in db && db[j].parent == after[j].parent
    {
      ForeignIsNotCarried(db, p, j);
      FateOfOther(db, p, j);
    }
    RootIsKept(after, db, k);
    ForeignIsNotCarried(db, p, k);
    ForeignIsNotMarked(db, p, k);
  }

  lemma {:induction false} ForeignIsNotMarked(db: Db, p: Payload, k: Key)
    requires k !in p.Content() && Foreign(Imported(db, p), p.organisationid, k)
    ensures k in db && Imported(db, p)[k] == db[k]
  {
    FateOfOther(db, p, k);
    if !IsChild(k.table) {
      assert Root(Imported(db, p), k) == Some(k);
    }
  }

  /** A foreign row is there before and after, the same. */
  lemma {:induction false} ForeignRowsAreKept(db: Db, p: Payload, k: Key)
    requires p.Valid() && Acceptable(db, p)
    ensures k in db && Foreign(db, p.organisationid, k) ==>
      k in Imported(db, p) && Imported(db, p)[k] == db[k] && Foreign(Imported(db, p), p.organisationid, k)
    ensures k in Imported(db, p) && Foreign(Imported(db, p), p.organisationid, k) ==>
      k in db && Foreign(db, p.organisationid, k) && db[k] == Imported(db, p)[k]
  {
    if k in db && Foreign(db, p.organisationid, k) {
      ForeignRowIsUntouched(db, p, k);
      ForeignStaysForeign(db, p, k);
    }
    if k in Imported(db, p) && Foreign(Imported(db, p), p.organisationid, k) {
      NothingBecomesForeign(db, p, k);
      RootOfRoot(Imported(db, p), k);
      NothingBecomesForeign(db, p, Root(Imported(db, p), k).value);
    }
  }

  /**
   * Isolation: an accepted import leaves everything other organisations have here exactly as
   * it was, row for row; nothing is taken from it and nothing is added to it.
   */
  lemma {:induction false} ImportIsIsolated(db: Db, p: Payload)
    requires p.Valid() && Acceptable(db, p)
    ensures ForeignRows(Imported(db, p), p.organisationid) == ForeignRows(db, p.organisationid)
  {
    forall k
      ensures k in db && Foreign(db, p.organisationid, k) ==>
        k in Imported(db, p) && Imported(db, p)[k] == db[k] && Foreign(Imported(db, p), p.organisationid, k)
      ensures k in Imported(db, p) && Foreign(Imported(db, p), p.organisationid, k) ==>
        k in db && Foreign(db, p.organisationid, k) && db[k] == Imported(db, p)[k]
    {
      ForeignRowsAreKept(db, p, k);
    }
  }

  lemma {:induction false} RootOfRoot(db: Db, k: Key)
    requires Root(db, k).Some?
    ensures Root(db, Root(db, k).value) == Root(db, k)
  {
  }

  lemma {:induction false} ForeignStaysForeign(db: Db, p: Payload, k: Key)
    requires p.Valid() && Acceptable(db, p)
    requires k in db && Foreign(db, p.organisationid, k)
    ensures Foreign(Imported(db, p), p.organisationid, k)
  {
    forall j | j in db && Root(db, j) == Root(db, k)
      ensures j in Imported(db, p) && Imported(db, p)[j].parent == db[j].parent
    {
      ForeignRowIsUntouched(db, p, j);
    }
    RootIsKept(db, Imported(db, p), k);
    RootOfRoot(db, k);
    ForeignRowIsUntouched(db, p, Root(db, k).value);
  }

  // ---- exactness and links ------------------------------------------------------------------------

  /** The keys of the rows of `t` that hang from `parent`. */
  ghost function ChildrenOf(db: Db, t: Table, parent: Id): set<Key>
    requires IsChild(t)
  {
    set k | k in db && k.table == t && db[k].parent == Some(parent)
  }

  /** Nothing but payload rows is left below a row the payload carries. */
  lemma {:induction false} NothingElseBelowCarried(db: Db, p: Payload, k: Key)
    requires k in Imported(db, p) && IsChild(k.table) && Imported(db, p)[k].parent.Some?
    requires ParentKey(k.table, Imported(db, p)[k]) in p.Keys()
    ensures k in p.Content()
  {
    if k !in p.Content() {
      FateOfOther(db, p, k);
      assert Reached(db, p.Keys(), ParentKey(k.table, db[k]));
      assert false;
    }
  }

  /**
   * Exactness: below every row the payload carries there are, after an accepted import,
   * exactly the payload's rows.
   */
  lemma {:induction false} ImportIsExact(db: Db, p: Payload, parent: Key, t: Table)
    requires parent in p.Keys() && ParentOf(t) == Some(parent.table)
    ensures ChildrenOf(Imported(db, p), t, parent.id) == ChildrenOf(p.Content(), t, parent.id)
  {
    forall k
      ensures k in ChildrenOf(Imported(db, p), t, parent.id) <==> k in ChildrenOf(p.Content(), t, parent.id)
    {
      if k in ChildrenOf(Imported(db, p), t, parent.id) {
        NothingElseBelowCarried(db, p, k);
      }
      if k in p.Content() {
        FateOfCarried(db, p, k);
      }
    }
  }

  /**
   * Each payload row is stored as the payload has it, except that a child row taken over from
   * an absent school or curriculum keeps the columns an upsert does not write.
   */
  lemma {:induction false} ImportedRowIsThePayloads(db: Db, p: Payload, k: Key)
    requires Acceptable(db, p) && k in p.Content()
    ensures k in Imported(db, p) && Imported(db, p)[k].(kept := p.Content()[k].kept) == p.Content()[k]
    ensures IsChild(k.table) && Imported(db, p)[k] != p.Content()[k] ==>
      k in db && db[k].parent.Some? && UnderAbsent(db, p, ParentKey(k.table, db[k]))
  {
    FateOfCarried(db, p, k);
    assert !StrayKey(db, p, k);
  }

  /**
   * The deletes leave no orphan: if every child had its parent before, every child has its
   * parent after, although the parents of deleted rows go too.
   */
  lemma {:induction false} ImportKeepsLinks(db: Db, p: Payload)
    requires Linked(p.Content()) && Linked(db)
    ensures Linked(Imported(db, p))
  {
    forall k | k in Imported(db, p) && IsChild(k.table)
      ensures Imported(db, p)[k].parent.Some? && ParentKey(k.table, Imported(db, p)[k]) in Imported(db, p)
    {
      LinkIsKept(db, p, k);
    }
  }

  lemma {:induction false} LinkIsKept(db: Db, p: Payload, k: Key)
    requires Linked(p.Content()) && Linked(db)
    requires k in Imported(db, p) && IsChild(k.table)
    ensures Imported(db, p)[k].parent.Some? && ParentKey(k.table, Imported(db, p)[k]) in Imported(db, p)
  {
    if k in p.Content() {
      FateOfCarried(db, p, k);
      FateOfCarried(db, p, ParentKey(k.table, p.Content()[k]));
    } else {
      FateOfOther(db, p, k);
      var up := ParentKey(k.table, db[k]);
      assert up in db && !Reached(db, p.Keys(), up);
      FateOfOther(db, p, up);
    }
  }

  /**
   * A row of a curriculum or school the payload leaves out survives unchanged exactly when
   * neither it nor a row above it is carried; otherwise it is gone or is the payload's.
   */
  lemma {:induction false} AbsentContentSurvives(db: Db, p: Payload, k: Key)
    requires p.Valid() && k in db && IsChild(k.table) && UnderAbsent(db, p, k)
    ensures !Reached(db, p.Keys(), k) ==> k in Imported(db, p) && Imported(db, p)[k] == db[k]
    ensures Reached(db, p.Keys(), k) ==> k !in Imported(db, p) || k in p.Keys()
  {
    if Reached(db, p.Keys(), k) && k !in p.Keys() {
      assert Doomed(db, p, k);
    }
  }

  /** An absent school or curriculum is marked deleted and otherwise kept as it is. */
  lemma {:induction false} AbsentRootIsMarked(db: Db, p: Payload, k: Key)
    requires k in AbsentRoots(db, p)
    ensures k in Imported(db, p) && Imported(db, p)[k] == db[k].(isdeleted := true)
  {
  }

  // ---- unique keys and countries --------------------------------------------------------------------

  /**
   * Writing by primary key is safe for translations: no written row meets a stored one of
   * the same natural key, so the keys stay unique.
   */
  lemma {:induction false} TranslationKeysStayUnique(db: Db, p: Payload)
    requires p.Valid() && Acceptable(db, p)
    requires TranslationKeysUnique(db) && TranslationsOwned(db)
    ensures TranslationKeysUnique(Imported(db, p))
  {
    var after, content := Imported(db, p), p.Content();
    forall j, k | j in after && k in after && j.table == Translations == k.table && after[j].natural == after[k].natural
      ensures j == k
    {
      if k in content {
        FateOfCarried(db, p, k);
        if j in content {
          FateOfCarried(db, p, j);
        } else {
          FateOfOther(db, p, j);
          WrittenTranslationIsNew(db, p, j, k);
        }
      } else {
        FateOfOther(db, p, k);
        if j in content {
          FateOfCarried(db, p, j);
          WrittenTranslationIsNew(db, p, k, j);
        } else {
          FateOfOther(db, p, j);
        }
      }
    }
  }

  lemma {:induction false} WrittenTranslationIsNew(db: Db, p: Payload, stored: Key, written: Key)
    requires Acceptable(db, p) && TranslationsOwned(db)
    requires stored in db && !Doomed(db, p, stored) && written in p.Content()
    requires stored.table == Translations == written.table
    ensures db[stored].natural != p.Content()[written].natural
  {
    KeptTranslationIsAnothers(db, p, stored);
    RepeatsNoOther(db, p, stored, written);
  }

  lemma {:induction false} KeptTranslationIsAnothers(db: Db, p: Payload, stored: Key)
    requires TranslationsOwned(db) && stored in db && !Doomed(db, p, stored) && stored.table == Translations
    ensures OwnedByAnother(db, p.organisationid, stored)
  {
  }

  lemma {:induction false} RepeatsNoOther(db: Db, p: Payload, stored: Key, written: Key)
    requires !RepeatsForeignTranslation(db, p) && OwnedByAnother(db, p.organisationid, stored) && written in p.Content()
    requires stored.table == Translations == written.table
    ensures db[stored].natural != p.Content()[written].natural
  {
  }

  /** A payload that is closed over its countries is never refused by the last check. */
  lemma {:induction false} CountryCheckNeverRefuses(db: Db, p: Payload)
    requires p.Valid()
    ensures !DanglingCountry(Imported(db, p), p)
  {
    var after := Imported(db, p);
    forall k | k in p.Keys() && k.table == Schools && k in after && after[k].country.Some?
      ensures Key(Countries, after[k].country.value) in after
    {
      assert after[k].country == p.Content()[k].country;
      assert Key(Countries, after[k].country.value) in p.Content();
    }
  }

  // ---- a second import of the same payload ------------------------------------------------------------

  /** An upserted row that was already here, of a table the import otherwise deletes and re-creates. */
  ghost predicate TakenOver(db: Db, p: Payload, k: Key) {
    k in p.Content() && k in Cleared(db, p) && (IsChild(k.table) || IsReplaced(k.table))
  }

  lemma {:induction false} ImportedAbsentRoots(db: Db, p: Payload)
    requires p.Valid()
    ensures AbsentRoots(Imported(db, p), p) == AbsentRoots(db, p)
  {
    var after := Imported(db, p);
    forall k
      ensures k in AbsentRoots(after, p) <==> k in AbsentRoots(db, p)
    {
      if k in AbsentRoots(db, p) {
        assert k in Cleared(db, p);
      }
    }
  }

  /** Rows that keep their parents keep being out of reach. */
  lemma {:induction false} StaysOutOfReach(db: Db, after: Db, seeds: set<Key>, k: Key)
    requires forall j :: j in after && j !in seeds ==> j in db && after[j].parent == db[j].parent
    requires !Reached(db, seeds, k)
    ensures !Reached(after, seeds, k)
    decreases Depth(k.table)
  {
    if HasParent(after, k) {
      StaysOutOfReach(db, after, seeds, ParentKey(k.table, db[k]));
    }
  }

  /** After an import, what the payload reaches is what the payload carries. */
  lemma {:induction false} ReachedAfterImport(db: Db, p: Payload, k: Key)
    requires k in Imported(db, p)
    ensures Reached(Imported(db, p), p.Keys(), k) <==> k in p.Keys()
  {
    var after := Imported(db, p);
    forall j | j in after && j !in p.Keys()
      ensures j in db && after[j].parent == db[j].parent
    {
      FateOfOther(db, p, j);
    }
    if k !in p.Keys() && HasParent(after, k) {
      FateOfOther(db, p, k);
      var up := ParentKey(k.table, db[k]);
      assert !Reached(db, p.Keys(), up);
      StaysOutOfReach(db, after, p.Keys(), up);
    }
  }

  /** An accepted payload is accepted again. */
  lemma {:induction false} ImportIsAcceptedAgain(db: Db, p: Payload)
    requires p.Valid() && Acceptable(db, p)
    ensures Acceptable(Imported(db, p), p)
  {
    CountryCheckNeverRefuses(Imported(db, p), p);
    NamesNoForeignRowAgain(db, p);
    RepeatsNoTranslationAgain(db, p);
    CarriesNoStrayAgain(db, p);
  }

  lemma {:induction false} NamesNoForeignRowAgain(db: Db, p: Payload)
    ensures !NamesForeignRow(Imported(db, p), p)
  {
    forall k | k in p.Content() && IsOwned(k.table)
      ensures !OwnedByAnother(Imported(db, p), p.organisationid, k)
    {
      FateOfCarried(db, p, k);
    }
  }

  lemma {:induction false} RepeatsNoTranslationAgain(db: Db, p: Payload)
    requires !RepeatsForeignTranslation(db, p)
    ensures !RepeatsForeignTranslation(Imported(db, p), p)
  {
    forall j: Key, k | k in p.Content() && k.table == Translations == j.table
      && OwnedByAnother(Imported(db, p), p.organisationid, j)
      ensures Imported(db, p)[j].natural != p.Content()[k].natural
    {
      if j in p.Content() {
        FateOfCarried(db, p, j);
      } else {
        FateOfOther(db, p, j);
        assert OwnedByAnother(db, p.organisationid, j);
      }
    }
  }

  lemma {:induction false} CarriesNoStrayAgain(db: Db, p: Payload)
    requires Linked(p.Content())
    ensures !CarriesStray(Imported(db, p), p)
  {
    forall k | k in p.Keys() && IsChild(k.table)
      ensures !StrayKey(Imported(db, p), p, k)
    {
      assert k in p.Content();
      FateOfCarried(db, p, k);
      assert ParentKey(k.table, p.Content()[k]) in p.Content();
    }
  }

  /** A second import deletes exactly the payload's own child and replaced rows. */
  lemma {:induction false} ClearedAgain(db: Db, p: Payload, k: Key)
    requires p.Valid() && k in Imported(db, p)
    ensures k in Cleared(Imported(db, p), p) <==> k !in p.Keys() || !(IsChild(k.table) || IsReplaced(k.table))
  {
    if IsChild(k.table) {
      ReachedAfterImport(db, p, k);
      if k in p.Content() {
        FateOfCarried(db, p, k);
        assert ParentKey(k.table, p.Content()[k]) in p.Content();
      }
    } else if k !in p.Content() {
      FateOfOther(db, p, k);
    } else {
      FateOfCarried(db, p, k);
    }
  }

  /** What a second import of the same payload changes: the columns a taken-over row had kept. */
  lemma {:induction false} SecondImportOfRow(db: Db, p: Payload, k: Key)
    requires p.Valid()
    ensures k in Imported(Imported(db, p), p) <==> k in Imported(db, p)
    ensures k in Imported(db, p) ==>
      Imported(Imported(db, p), p)[k] == if TakenOver(db, p, k) then p.Content()[k] else Imported(db, p)[k]
  {
    var first := Imported(db, p);
    ImportedAbsentRoots(db, p);
    if k in p.Content() {
      FateOfCarried(db, p, k);
      FateOfCarried(first, p, k);
      ClearedAgain(db, p, k);
    } else if k in first {
      FateOfOther(db, p, k);
      ClearedAgain(db, p, k);
      FateOfOther(first, p, k);
    } else {
      FateOfOther(first, p, k);
    }
  }

  lemma {:induction false} SecondImport(db: Db, p: Payload)
    requires p.Valid()
    ensures Imported(Imported(db, p), p).Keys == Imported(db, p).Keys
    ensures forall k :: k in Imported(db, p) ==>
      Imported(Imported(db, p), p)[k] == if TakenOver(db, p, k) then p.Content()[k] else Imported(db, p)[k]
  {
    forall k
      ensures k in Imported(Imported(db, p), p) <==> k in Imported(db, p)
      ensures k in Imported(db, p) ==>
        Imported(Imported(db, p), p)[k] == if TakenOver(db, p, k) then p.Content()[k] else Imported(db, p)[k]
    {
      SecondImportOfRow(db, p, k);
    }
  }

  /** The rows a first import takes over, as it leaves them. */
  lemma {:induction false} TakenOverKeeps(db: Db, p: Payload, k: Key)
    requires TakenOver(db, p, k)
    ensures k in Imported(db, p) && Imported(db, p)[k] == p.Content()[k].(kept := db[k].kept)
  {
    FateOfCarried(db, p, k);
  }

  ghost predicate KeptIsThePayloads(db: Db, p: Payload) {
    forall k :: TakenOver(db, p, k) ==> db[k].kept == p.Content()[k].kept
  }

  lemma {:induction false} IdentityRowByRow(db: Db, p: Payload, first: Db, second: Db)
    requires first == Imported(db, p) && second.Keys == first.Keys
    requires forall k :: k in first ==> second[k] == if TakenOver(db, p, k) then p.Content()[k] else first[k]
    ensures second == first <==> KeptIsThePayloads(db, p)
  {
    forall k | TakenOver(db, p, k) ensures k in first && (second[k] == first[k] <==> db[k].kept == p.Content()[k].kept) {
      TakenOverKeeps(db, p, k);
    }
  }

  /** So a second import is the identity exactly when no taken-over row had other values there. */
  lemma {:induction false} SecondImportIsIdentity(db: Db, p: Payload)
    requires p.Valid() && Acceptable(db, p)
    ensures Imported(Imported(db, p), p) == Imported(db, p)
      <==> forall k :: TakenOver(db, p, k) ==> db[k].kept == p.Content()[k].kept
  {
    SecondImport(db, p);
    IdentityRowByRow(db, p, Imported(db, p), Imported(Imported(db, p), p));
  }

  lemma {:induction false} NothingIsTakenOverAgain(db: Db, p: Payload, k: Key)
    requires Linked(p.Content()) && k in p.Content()
    ensures !TakenOver(Imported(db, p), p, k)
  {
    FateOfCarried(db, p, k);
    if IsChild(k.table) {
      assert ParentKey(k.table, p.Content()[k]) in p.Content();
    }
  }

  /** From the second import on nothing changes. */
  lemma {:induction false} ThirdImportChangesNothing(db: Db, p: Payload)
    requires p.Valid() && Acceptable(db, p)
    ensures var second := Imported(Imported(db, p), p); Imported(second, p) == second
  {
    var first := Imported(db, p);
    ImportIsAcceptedAgain(db, p);
    SecondImport(db, p);
    forall k
      ensures !TakenOver(first, p, k)
    {
      if k in p.Content() {
        NothingIsTakenOverAgain(db, p, k);
      }
    }
    SecondImportIsIdentity(first, p);
  }

  // ---- a second import that changes a row ------------------------------------------------------------------------

  function PlainRow(owner: Option<Id>, parent: Option<Id>, kept: int): Row {
    Row(owner, parent, None, None, false, 0, kept)
  }

  /** A curriculum of the organisation and a grade of it. */
  const STORED: Db := map[Key(Curriculums, "gone") := PlainRow(Some("o"), None, 0), Key(Grades, "g") := PlainRow(None, Some("gone"), 1)]

  /** A payload without that curriculum, with the grade under another and other values outside the update list. */
  const MOVED := Payload("o", map[Curriculums := map["new" := PlainRow(Some("o"), None, 0)],
                                  Grades := map["g" := PlainRow(None, Some("new"), 2)]])

  lemma {:induction false} MovedRows(k: Key)
    ensures k in MOVED.Keys() <==> k == Key(Curriculums, "new") || k == Key(Grades, "g")
  {
    assert MOVED.RowsOf(Curriculums) == map["new" := PlainRow(Some("o"), None, 0)];
    assert MOVED.RowsOf(Grades) == map["g" := PlainRow(None, Some("new"), 2)];
  }

  lemma {:induction false} MovedContent()
    ensures MOVED.Keys() == {Key(Curriculums, "new"), Key(Grades, "g")}
    ensures MOVED.Content() == map[Key(Curriculums, "new") := PlainRow(Some("o"), None, 0), Key(Grades, "g") := PlainRow(None, Some("new"), 2)]
  {
    forall k ensures k in MOVED.Keys() <==> k in {Key(Curriculums, "new"), Key(Grades, "g")} {
      MovedRows(k);
    }
  }

  /** Two rows, a grade and the curriculum it hangs from. */
  lemma {:induction false} TwoRowsAreLinked(content: map<Key, Row>, curriculum: Key, grade: Key)
    requires curriculum.table == Curriculums && grade.table == Grades && content.Keys == {curriculum, grade}
    requires content[grade].parent == Some(curriculum.id) && content[grade].owner.None?
    ensures Linked(content) && TranslationKeysUnique(content)
    ensures forall k :: k in content && !IsOwned(k.table) ==> content[k].owner.None?
    ensures forall k :: k in content ==> k.table != Schools
  {
  }

  lemma {:induction false} MovedIsValid()
    ensures MOVED.Valid()
  {
    MovedContent();
    TwoRowsAreLinked(MOVED.Content(), Key(Curriculums, "new"), Key(Grades, "g"));
  }

  lemma {:induction false} MovedIsTakenOver()
    ensures Acceptable(STORED, MOVED) && TakenOver(STORED, MOVED, Key(Grades, "g"))
  {
    MovedContent();
    var grade, gone := Key(Grades, "g"), Key(Curriculums, "gone");
    assert ParentKey(Grades, STORED[grade]) == gone && !HasParent(STORED, gone);
    assert Root(STORED, gone) == Some(gone) && Root(STORED, grade) == Some(gone);
    assert gone in AbsentRoots(STORED, MOVED);
    assert grade in Cleared(STORED, MOVED);
  }

  /** The accepted payload is valid, its grade is taken over, and importing it again changes the grade. */
  lemma {:induction false} SecondImportMayChangeARow()
    ensures MOVED.Valid() && Acceptable(STORED, MOVED)
    ensures var (first, grade) := (Imported(STORED, MOVED), Key(Grades, "g"));
            && grade in first && first[grade].kept == 1
            && grade in Imported(first, MOVED) && Imported(first, MOVED)[grade].kept == 2
  {
    MovedContent();
    MovedIsValid();
    MovedIsTakenOver();
    FateOfCarried(STORED, MOVED, Key(Grades, "g"));
    SecondImportOfRow(STORED, MOVED, Key(Grades, "g"));
  }
}
