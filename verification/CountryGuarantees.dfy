/**
 * What happens to each country of a payload, said from the payload and the table alone: when it is
 * written as it is, when a local row stands in for it and how that row is written, and when none does.
 */
module CountryGuarantees {
  import opened CountryRehoming

  /** A local row has the entry's name. */
  predicate Bears(db: Countries, same: SameName, e: Entry, id: Id) {
    id in db && same(db[id].name, e.country.name)
  }

  lemma {:induction false} LocalIs(payload: seq<Entry>, db: Countries, same: SameName, m: Matches, e: Entry)
    requires Answers(payload, db, same, m) && e in payload
    ensures forall id :: id in m.Local(e.country.name) <==> Bears(db, same, e, id)
    ensures forall id :: Bears(db, same, e, id) ==> m.Local(e.country.name)[id] == db[id]
    ensures IsNew(m, e) <==> forall id :: !Bears(db, same, e, id)
  {
    var local := FindByName(db, same, e.country.name);
    assert m.Local(e.country.name) == local;
    assert forall id :: id in local <==> Bears(db, same, e, id);
    if local != map[] {
      var id :| id in local.Keys;
    }
  }

  lemma {:induction false} TwoAreMore(local: Countries, a: Id, b: Id)
    requires a in local && b in local && a != b
    ensures |local| > 1
  {
    assert |local.Keys - {a}| == |local| - 1;
    assert b in local.Keys - {a};
  }

  // ---- when the payload is refused ------------------------------------------------------------------------------------

  ghost predicate TwoBear(db: Countries, same: SameName, e: Entry) {
    exists a, b :: a != b && Bears(db, same, e, a) && Bears(db, same, e, b)
  }

  lemma {:induction false} AmbiguousEntry(payload: seq<Entry>, db: Countries, same: SameName, m: Matches, e: Entry)
    requires Answers(payload, db, same, m) && e in payload
    ensures Decide(payload, m, e).Ambiguous? <==> !Bears(db, same, e, e.id) && TwoBear(db, same, e)
  {
    LocalIs(payload, db, same, m, e);
    var local := m.Local(e.country.name);
    if a, b :| a != b && Bears(db, same, e, a) && Bears(db, same, e, b) {
      TwoAreMore(local, a, b);
    }
    if |local| > 1 {
      var a :| a in local.Keys;
      assert |local.Keys - {a}| > 0;
      var b :| b in local.Keys - {a};
      assert Bears(db, same, e, a) && Bears(db, same, e, b);
    }
  }

  /** A payload is refused exactly when some name in it is borne here by two rows and neither is its own. */
  lemma {:induction false} RefusedExactly(payload: seq<Entry>, db: Countries, same: SameName, m: Matches)
    requires Answers(payload, db, same, m)
    ensures AnyAmbiguous(payload, m) <==> exists e :: e in payload && !Bears(db, same, e, e.id) && TwoBear(db, same, e)
  {
    AmbiguousIsOneOf(payload, m, |payload|);
    forall e | e in payload
      ensures Decide(payload, m, e).Ambiguous? <==> !Bears(db, same, e, e.id) && TwoBear(db, same, e)
    {
      AmbiguousEntry(payload, db, same, m, e);
    }
  }

  // ---- what a reference becomes -----------------------------------------------------------------------------------------

  lemma {:induction false} ResolvedAs(payload: seq<Entry>, m: Matches, e: Entry)
    requires IdsDistinct(payload) && e in payload
    ensures var (d, id) := (Decide(payload, m, e), Resolve(IdMap(payload, m, |payload|), e.id));
            if d.LocalRow? || d.Onto? then id == d.id else id == e.id
  {
    var i :| 0 <= i < |payload| && payload[i] == e;
    IdMapAt(payload, m, |payload|, i);
  }

  /** A country whose own row here bears its name keeps its id. */
  lemma {:induction false} OwnNameKeepsItsId(payload: seq<Entry>, db: Countries, same: SameName, m: Matches, e: Entry)
    requires Answers(payload, db, same, m) && IdsDistinct(payload) && e in payload
    requires Bears(db, same, e, e.id)
    ensures Resolve(IdMap(payload, m, |payload|), e.id) == e.id
  {
    LocalIs(payload, db, same, m, e);
    ResolvedAs(payload, m, e);
  }

  /** One whose name another row bears takes that row's id. */
  lemma {:induction false} LocalNameTakesItsRow(payload: seq<Entry>, db: Countries, same: SameName, m: Matches, e: Entry,
                                                id: Id)
    requires Answers(payload, db, same, m) && IdsDistinct(payload) && e in payload && !AnyAmbiguous(payload, m)
    requires !Bears(db, same, e, e.id) && Bears(db, same, e, id)
    ensures Decide(payload, m, e) == LocalRow(id)
    ensures Resolve(IdMap(payload, m, |payload|), e.id) == id
  {
    LocalIs(payload, db, same, m, e);
    NotAmbiguous(payload, m, e);
    var local := m.Local(e.country.name);
    assert id in local;
    OnlyLocal(local, id);
    ResolvedAs(payload, m, e);
  }

  lemma {:induction false} OnlyLocal(local: Countries, id: Id)
    requires id in local
    ensures |local| >= 1
    ensures |local| == 1 ==> TheOnly(local) == id
  {
    assert id in local.Keys;
    if |local| == 1 {
      OnlyOne(local);
    }
  }

  /** Entry `i` is the first live one of the name, or the first of a name that has no live one. */
  ghost predicate IsKept(payload: seq<Entry>, same: SameName, name: Name, i: int) {
    && 0 <= i < |payload| && same(payload[i].country.name, name)
    && (forall j :: 0 <= j < i && same(payload[j].country.name, name) ==> payload[j].country.isdeleted)
    && (payload[i].country.isdeleted ==> forall j :: 0 <= j < |payload| && same(payload[j].country.name, name) ==> payload[j].country.isdeleted)
    && (payload[i].country.isdeleted ==> forall j :: 0 <= j < i ==> !same(payload[j].country.name, name))
  }

  lemma {:induction false} SameNameSameRows(db: Countries, same: SameName, e: Entry, f: Entry, id: Id)
    requires IsEquivalence(same) && same(f.country.name, e.country.name)
    ensures Bears(db, same, f, id) ==> Bears(db, same, e, id)
  {
  }

  lemma {:induction false} ClassIsName(payload: seq<Entry>, db: Countries, same: SameName, m: Matches, e: Entry, f: Entry)
    requires IsEquivalence(same) && Answers(payload, db, same, m) && e in payload && f in payload && IsNew(m, e)
    ensures IsOfClass(m, m.ClassOf(e.country.name), f) <==> same(f.country.name, e.country.name)
  {
    LocalIs(payload, db, same, m, e);
    LocalIs(payload, db, same, m, f);
    if same(f.country.name, e.country.name) {
      forall id ensures !Bears(db, same, f, id) {
        SameNameSameRows(db, same, e, f, id);
      }
    }
  }

  /** A name that is new here goes to the first live entry of that name, or to its first when none is live. */
  lemma {:induction false} NewNameGoesToTheKept(payload: seq<Entry>, db: Countries, same: SameName, m: Matches, e: Entry,
                                                i: nat)
    requires IsEquivalence(same) && Answers(payload, db, same, m) && IdsDistinct(payload) && e in payload
    requires (forall id :: !Bears(db, same, e, id)) && IsKept(payload, same, e.country.name, i)
    ensures Resolve(IdMap(payload, m, |payload|), e.id) == payload[i].id
    ensures exists row :: row in Rows(payload, m) && row.id == payload[i].id
  {
    LocalIs(payload, db, same, m, e);
    forall j | 0 <= j < |payload|
      ensures IsOfClass(m, m.ClassOf(e.country.name), payload[j]) <==> same(payload[j].country.name, e.country.name)
    {
      ClassIsName(payload, db, same, m, e, payload[j]);
    }
    assert IsFirstToKeep(payload, m, m.ClassOf(e.country.name), |payload|, i);
    KeeperIsTheFirst(payload, m, m.ClassOf(e.country.name), |payload|, i);
    assert KeeperOf(payload, m, e) == payload[i];
    ResolvedAs(payload, m, e);
    KeptIsWritten(payload, db, same, m, e, i);
  }

  lemma {:induction false} KeptIsWritten(payload: seq<Entry>, db: Countries, same: SameName, m: Matches, e: Entry, i: nat)
    requires e in payload && i < |payload| && IsNew(m, e) && KeeperOf(payload, m, e) == payload[i]
    ensures exists row :: row in Rows(payload, m) && row.id == payload[i].id
  {
    KeeperFacts(payload, m, e);
    assert Decide(payload, m, payload[i]) == Own;
    assert payload[i] in Out(payload, m, payload[i]);
    OutsAreAsked(payload, m, |payload|);
    FirstOfEachFacts(Outs(payload, m, |payload|));
    assert payload[i].id in IdsOf(Rows(payload, m));
  }

  // ---- what is written --------------------------------------------------------------------------------------------------

  /** The entry is written as it is: its own row here bears its name, or its name is new here. */
  ghost predicate IsOwnRow(payload: seq<Entry>, db: Countries, same: SameName, row: Entry) {
    row in payload && (Bears(db, same, row, row.id) || forall id :: !Bears(db, same, row, id))
  }

  /** A local row in the place of an entry that bears its name: as it is stored, and live. */
  ghost predicate IsRevived(payload: seq<Entry>, db: Countries, same: SameName, row: Entry) {
    && row.id in db && row.country == db[row.id].(isdeleted := false)
    && exists e :: e in payload && Bears(db, same, e, row.id) && !Bears(db, same, e, e.id)
  }

  /** Every written row is an entry as the payload has it, or a local row with the name and usage it had, live. */
  lemma {:induction false} EveryRowIsOwnOrRevived(payload: seq<Entry>, db: Countries, same: SameName, m: Matches, row: Entry)
    requires Answers(payload, db, same, m) && row in Rows(payload, m)
    ensures IsOwnRow(payload, db, same, row) || IsRevived(payload, db, same, row)
  {
    OutsAreAsked(payload, m, |payload|);
    FirstOfEachFacts(Outs(payload, m, |payload|));
    assert row in Outs(payload, m, |payload|);
    var e :| Asks(payload, m, e, row);
    AskedIsOwnOrRevived(payload, db, same, m, e, row);
  }

  lemma {:induction false} AskedIsOwnOrRevived(payload: seq<Entry>, db: Countries, same: SameName, m: Matches, e: Entry,
                                               row: Entry)
    requires Answers(payload, db, same, m) && Asks(payload, m, e, row)
    ensures IsOwnRow(payload, db, same, row) || IsRevived(payload, db, same, row)
  {
    LocalIs(payload, db, same, m, e);
    var decision := Decide(payload, m, e);
    if decision.LocalRow? {
      assert Bears(db, same, e, decision.id);
    }
  }

  /**
   * A local row that stands in for a payload's country, and is not itself in the payload, ends live
   * with the name and usage it had, whether or not it was deleted.
   */
  lemma {:induction false} ReplacingRowEndsLive(payload: seq<Entry>, db: Countries, same: SameName, m: Matches, e: Entry,
                                                id: Id)
    requires Answers(payload, db, same, m) && IdsDistinct(payload) && e in payload && !AnyAmbiguous(payload, m)
    requires Bears(db, same, e, id) && !Bears(db, same, e, e.id) && forall f :: f in payload ==> f.id != id
    ensures var after := Upserted(db, Rows(payload, m));
            id in after && after[id] == Country(db[id].name, db[id].usage, false)
  {
    LocalNameTakesItsRow(payload, db, same, m, e, id);
    EveryReferenceIsWritten(payload, m, e);
    FirstOfEachFacts(Outs(payload, m, |payload|));
    var row, asker := FinalRow(payload, db, m, id);
    FinalIsRevived(payload, db, same, m, row, asker);
  }

  lemma {:induction false} FinalIsRevived(payload: seq<Entry>, db: Countries, same: SameName, m: Matches, row: Entry,
                                          asker: Entry)
    requires Answers(payload, db, same, m) && Asks(payload, m, asker, row) && forall f :: f in payload ==> f.id != row.id
    ensures row.id in db && row.country == db[row.id].(isdeleted := false)
  {
    LocalIs(payload, db, same, m, asker);
  }

  /** A country written as it is ends as the payload has it, unless an entry earlier or later takes its row by name. */
  lemma {:induction false} OwnRowEndsAsGiven(payload: seq<Entry>, db: Countries, same: SameName, m: Matches, e: Entry)
    requires Answers(payload, db, same, m) && IdsDistinct(payload) && e in payload && !AnyAmbiguous(payload, m)
    requires Bears(db, same, e, e.id)
    requires forall f :: f in payload && f != e ==> !Bears(db, same, f, e.id)
    ensures var after := Upserted(db, Rows(payload, m)); e.id in after && after[e.id] == e.country
  {
    OwnNameKeepsItsId(payload, db, same, m, e);
    EveryReferenceIsWritten(payload, m, e);
    var row, asker := FinalRow(payload, db, m, e.id);
    LocalIs(payload, db, same, m, asker);
    if asker != e {
      OneOfEachId(payload, e, asker);
    }
  }

  lemma {:induction false} OneOfEachId(payload: seq<Entry>, e: Entry, f: Entry)
    requires IdsDistinct(payload) && e in payload && f in payload && e != f
    ensures e.id != f.id
  {
    var i :| 0 <= i < |payload| && payload[i] == e;
    var j :| 0 <= j < |payload| && payload[j] == f;
    assert payload[i].id != payload[j].id;
  }
}
