/**
 * Matching a payload's countries to the local ones by name. What "the same name" means is
 * the database's collation: an equivalence on names, given as a parameter, under which the
 * local names are unique. Ids are already case-folded.
 */
module CountryRehoming {
  import opened Wrappers

  type Id = string
  type Name = string

  datatype Country = Country(name: Name, usage: Option<int>, isdeleted: bool)
  datatype Entry = Entry(id: Id, country: Country)

  type Countries = map<Id, Country>
  type SameName = (Name, Name) -> bool

  ghost predicate IsEquivalence(same: SameName) {
    && (forall a :: same(a, a))
    && (forall a, b :: same(a, b) ==> same(b, a))
    && (forall a, b, c :: same(a, b) && same(b, c) ==> same(a, c))
  }

  /** The unique key on the name: no two rows have names the collation calls equal. */
  ghost predicate NamesUnique(db: Countries, same: SameName) {
    forall a, b :: a in db && b in db && same(db[a].name, db[b].name) ==> a == b
  }

  ghost predicate IdsDistinct(entries: seq<Entry>) {
    forall i, j :: 0 <= i < j < |entries| ==> entries[i].id != entries[j].id
  }

  function IdsOf(entries: seq<Entry>): set<Id> {
    set e | e in entries :: e.id
  }

  // ---- step one: ask the database about the names ------------------------------------------------

  /** What the lookup said: the local rows of each name, and for a new name the first payload name equal to it. */
  datatype Matches = Matches(local: map<Name, Countries>, firstEqual: map<Name, Name>) {
    function Local(name: Name): Countries {
      if name in local then local[name] else map[]
    }

    function ClassOf(name: Name): Name {
      if name in firstEqual then firstEqual[name] else name
    }
  }

  function FindByName(db: Countries, same: SameName, name: Name): Countries {
    map id | id in db && same(db[id].name, name) :: db[id]
  }

  /** The answers are the database's, and two new names have one class exactly when they are equal. */
  ghost predicate Answers(payload: seq<Entry>, db: Countries, same: SameName, m: Matches) {
    && (forall e :: e in payload ==> m.Local(e.country.name) == FindByName(db, same, e.country.name))
    && (forall e, f :: e in payload && f in payload && IsNew(m, e) && IsNew(m, f) ==>
          (m.ClassOf(e.country.name) == m.ClassOf(f.country.name) <==> same(e.country.name, f.country.name)))
  }

  predicate IsNew(m: Matches, e: Entry) {
    m.Local(e.country.name) == map[]
  }

  /** The classes found so far: each new name points at the one representative equal to it. */
  ghost predicate Classified(firstEqual: map<Name, Name>, reps: seq<Name>, same: SameName) {
    && (forall n :: n in firstEqual ==> firstEqual[n] in reps && same(firstEqual[n], n))
    && (forall i, j :: 0 <= i < j < |reps| ==> !same(reps[i], reps[j]))
  }

  method MatchCountriesByName(payload: seq<Entry>, db: Countries, same: SameName) returns (m: Matches)
    requires IsEquivalence(same)
    ensures Answers(payload, db, same, m)
  {
    var local: map<Name, Countries>, firstEqual: map<Name, Name> := map[], map[];
    var representatives: seq<Name> := [];
    for i := 0 to |payload|
      invariant forall e :: e in payload[..i] ==> e.country.name in local
      invariant forall n :: n in local ==> local[n] == FindByName(db, same, n)
      invariant forall n :: n in firstEqual <==> n in local && local[n] == map[]
      invariant Classified(firstEqual, representatives, same)
      invariant forall r :: r in representatives ==> r in local
    {
      assert payload[..i + 1] == payload[..i] + [payload[i]];
      var name := payload[i].country.name;
      if name !in local {
        var found := FindByName(db, same, name);
        local := local[name := found];
        if found == map[] {
          var first := FirstEqual(representatives, same, name);
          if first == name {
            representatives := representatives + [name];
          }
          firstEqual := firstEqual[name := first];
        }
      }
    }
    assert payload[..|payload|] == payload;
    m := Matches(local, firstEqual);
    ClassesAreNames(firstEqual, representatives, same);
  }

  /** The first representative equal to the name, or the name itself when there is none. */
  method FirstEqual(representatives: seq<Name>, same: SameName, name: Name) returns (first: Name)
    requires name !in representatives
    ensures first == name ==> forall r :: r in representatives ==> !same(r, name)
    ensures first != name ==> first in representatives && same(first, name)
  {
    for j := 0 to |representatives|
      invariant forall k :: 0 <= k < j ==> !same(representatives[k], name)
    {
      if same(representatives[j], name) {
        return representatives[j];
      }
    }
    return name;
  }

  lemma {:induction false} ClassesAreNames(firstEqual: map<Name, Name>, reps: seq<Name>, same: SameName)
    requires IsEquivalence(same) && Classified(firstEqual, reps, same)
    ensures forall a, b :: a in firstEqual && b in firstEqual ==> (firstEqual[a] == firstEqual[b] <==> same(a, b))
  {
    forall a, b | a in firstEqual && b in firstEqual
      ensures firstEqual[a] == firstEqual[b] <==> same(a, b)
    {
      assert same(firstEqual[a], a) && same(firstEqual[b], b);
      var i :| 0 <= i < |reps| && reps[i] == firstEqual[a];
      var j :| 0 <= j < |reps| && reps[j] == firstEqual[b];
      if same(a, b) {
        assert same(reps[i], b) && same(b, reps[j]);
        assert same(reps[i], reps[j]) && same(reps[j], reps[i]);
      }
    }
  }

  // ---- step two: decide, without the database -------------------------------------------------------

  datatype Decision =
    | Own                      // written by its own id
    | LocalRow(id: Id)         // replaced by this server's row
    | Onto(id: Id)             // collapsed onto another payload row of an equal new name
    | Ambiguous                // more than one local row of that name

  /** The payload row kept for a class of new names, among the first `n`: the first live one, else the first. */
  function Keeper(payload: seq<Entry>, m: Matches, kind: Name, n: nat): Option<Entry>
    requires n <= |payload|
  {
    if n == 0 then None
    else
      var e, before := payload[n - 1], Keeper(payload, m, kind, n - 1);
      if !IsNew(m, e) || m.ClassOf(e.country.name) != kind then before
      else if before.None? || (before.value.country.isdeleted && !e.country.isdeleted) then Some(e)
      else before
  }

  /** The row kept for the class of a new name. */
  function KeeperOf(payload: seq<Entry>, m: Matches, e: Entry): Entry {
    var keeper := Keeper(payload, m, m.ClassOf(e.country.name), |payload|);
    if keeper.Some? then keeper.value else e
  }

  /** A class that has a row keeps one of its own, and a live one if it has a live one. */
  lemma {:induction false} KeeperIsOfItsClass(payload: seq<Entry>, m: Matches, kind: Name, n: nat, i: nat)
    requires i < n <= |payload| && IsNew(m, payload[i]) && m.ClassOf(payload[i].country.name) == kind
    ensures Keeper(payload, m, kind, n).Some?
    ensures var kept := Keeper(payload, m, kind, n).value;
            && kept in payload[..n] && IsNew(m, kept) && m.ClassOf(kept.country.name) == kind
            && (kept.country.isdeleted ==> payload[i].country.isdeleted)
  {
    var last := payload[n - 1];
    assert payload[..n] == payload[..n - 1] + [last];
    if i < n - 1 {
      KeeperIsOfItsClass(payload, m, kind, n - 1, i);
    } else if n > 1 {
      KeeperIsAnyOfItsClass(payload, m, kind, n - 1);
    }
  }

  predicate IsOfClass(m: Matches, kind: Name, e: Entry) {
    IsNew(m, e) && m.ClassOf(e.country.name) == kind
  }

  /** Entry `i` is the one to keep: the first live one of its class, or the first of a class without a live one. */
  predicate IsFirstToKeep(payload: seq<Entry>, m: Matches, kind: Name, n: nat, i: nat)
    requires n <= |payload|
  {
    && i < n && IsOfClass(m, kind, payload[i])
    && (if payload[i].country.isdeleted
        then forall j :: 0 <= j < n && IsOfClass(m, kind, payload[j]) ==> payload[j].country.isdeleted && i <= j
        else forall j :: 0 <= j < i && IsOfClass(m, kind, payload[j]) ==> payload[j].country.isdeleted)
  }

  lemma {:induction false} NoneToKeep(payload: seq<Entry>, m: Matches, kind: Name, n: nat)
    requires n <= |payload| && forall j :: 0 <= j < n ==> !IsOfClass(m, kind, payload[j])
    ensures Keeper(payload, m, kind, n).None?
  {
    if n > 0 {
      NoneToKeep(payload, m, kind, n - 1);
    }
  }

  lemma {:induction false} DeletedSoFar(payload: seq<Entry>, m: Matches, kind: Name, n: nat)
    requires n <= |payload| && forall j :: 0 <= j < n && IsOfClass(m, kind, payload[j]) ==> payload[j].country.isdeleted
    ensures var kept := Keeper(payload, m, kind, n); kept.Some? ==> kept.value.country.isdeleted
  {
    if n > 0 {
      DeletedSoFar(payload, m, kind, n - 1);
    }
  }

  /** The row kept for a class is its first live one, and its first one when none is live. */
  lemma {:induction false} KeeperIsTheFirst(payload: seq<Entry>, m: Matches, kind: Name, n: nat, i: nat)
    requires n <= |payload| && IsFirstToKeep(payload, m, kind, n, i)
    ensures Keeper(payload, m, kind, n) == Some(payload[i])
  {
    if i < n - 1 {
      KeeperIsTheFirst(payload, m, kind, n - 1, i);
    } else if payload[i].country.isdeleted {
      NoneToKeep(payload, m, kind, n - 1);
    } else {
      DeletedSoFar(payload, m, kind, n - 1);
    }
  }

  lemma {:induction false} KeeperIsAnyOfItsClass(payload: seq<Entry>, m: Matches, kind: Name, n: nat)
    requires n <= |payload|
    ensures var kept := Keeper(payload, m, kind, n);
            kept.Some? ==> kept.value in payload[..n] && IsNew(m, kept.value) && m.ClassOf(kept.value.country.name) == kind
  {
    if n > 0 {
      assert payload[..n] == payload[..n - 1] + [payload[n - 1]];
      KeeperIsAnyOfItsClass(payload, m, kind, n - 1);
    }
  }

  lemma {:induction false} KeeperFacts(payload: seq<Entry>, m: Matches, e: Entry)
    requires e in payload && IsNew(m, e)
    ensures var keeper := KeeperOf(payload, m, e);
            keeper in payload && IsNew(m, keeper) && m.ClassOf(keeper.country.name) == m.ClassOf(e.country.name)
    ensures Keeper(payload, m, m.ClassOf(e.country.name), |payload|) == Some(KeeperOf(payload, m, e))
  {
    var i :| 0 <= i < |payload| && payload[i] == e;
    KeeperIsOfItsClass(payload, m, m.ClassOf(e.country.name), |payload|, i);
  }

  function Decide(payload: seq<Entry>, m: Matches, e: Entry): Decision {
    var local := m.Local(e.country.name);
    if local != map[] then
      if e.id in local then Own
      else if |local| > 1 then Ambiguous
      else LocalRow(TheOnly(local))
    else if KeeperOf(payload, m, e).id == e.id then Own
    else Onto(KeeperOf(payload, m, e).id)
  }

  function TheOnly(local: Countries): (id: Id)
    requires |local| == 1
    ensures id in local
  {
    OnlyOne(local);
    var id :| id in local;
    id
  }

  lemma {:induction false} OnlyOne(local: Countries)
    requires |local| == 1
    ensures exists id :: id in local
    ensures forall a, b :: a in local && b in local ==> a == b
  {
    var id :| id in local.Keys;
    assert |local.Keys - {id}| == 0;
    forall a | a in local
      ensures a == id
    {
      assert a !in local.Keys - {id};
    }
  }

  /** The row written for an entry, if any: its own, or this server's brought back to life. */
  function Out(payload: seq<Entry>, m: Matches, e: Entry): seq<Entry> {
    match Decide(payload, m, e)
    case Own => [e]
    case LocalRow(id) => [Entry(id, m.Local(e.country.name)[id].(isdeleted := false))]
    case _ => []
  }

  /** The rows the first `n` entries ask to write. */
  function Outs(payload: seq<Entry>, m: Matches, n: nat): seq<Entry>
    requires n <= |payload|
  {
    if n == 0 then [] else Outs(payload, m, n - 1) + Out(payload, m, payload[n - 1])
  }

  /** No id twice: the first row of each id. */
  function FirstOfEach(rows: seq<Entry>): seq<Entry> {
    if rows == [] then []
    else
      var before, last := FirstOfEach(rows[..|rows| - 1]), rows[|rows| - 1];
      if last.id in IdsOf(before) then before else before + [last]
  }

  lemma {:induction false} FirstOfEachFacts(rows: seq<Entry>)
    ensures IdsDistinct(FirstOfEach(rows)) && IdsOf(FirstOfEach(rows)) == IdsOf(rows)
    ensures forall e :: e in FirstOfEach(rows) ==> e in rows
  {
    if rows != [] {
      var before, last := rows[..|rows| - 1], rows[|rows| - 1];
      assert rows == before + [last];
      FirstOfEachFacts(before);
      IdsOfOneMore(before, last);
      IdsOfOneMore(FirstOfEach(before), last);
    }
  }

  lemma {:induction false} IdsOfOneMore(rows: seq<Entry>, row: Entry)
    ensures IdsOf(rows + [row]) == IdsOf(rows) + {row.id}
  {
    assert forall e :: e in rows + [row] <==> e in rows || e == row;
  }

  lemma {:induction false} FirstOfOneMore(rows: seq<Entry>, row: Entry)
    ensures FirstOfEach(rows + [row]) == FirstOfEach(rows) + if row.id in IdsOf(FirstOfEach(rows)) then [] else [row]
  {
    assert (rows + [row])[..|rows + [row]| - 1] == rows;
  }

  /** The payload ids that another id replaces. */
  function IdMap(payload: seq<Entry>, m: Matches, n: nat): map<Id, Id>
    requires n <= |payload|
  {
    if n == 0 then map[]
    else
      var e, before := payload[n - 1], IdMap(payload, m, n - 1);
      var d := Decide(payload, m, e);
      if d.LocalRow? || d.Onto? then before[e.id := d.id] else before
  }

  lemma {:induction false} NextRow(payload: seq<Entry>, m: Matches, i: nat)
    requires i < |payload|
    ensures var out, before := Out(payload, m, payload[i]), FirstOfEach(Outs(payload, m, i));
            FirstOfEach(Outs(payload, m, i + 1)) == before + if out == [] || out[0].id in IdsOf(before) then [] else out
  {
    var out, outs := Out(payload, m, payload[i]), Outs(payload, m, i);
    if out == [] {
      assert outs + out == outs;
    } else {
      assert out == [out[0]];
      FirstOfOneMore(outs, out[0]);
    }
  }

  /** One of the first `n` names has more than one local row. */
  ghost predicate AmbiguousAmong(payload: seq<Entry>, m: Matches, n: nat)
    requires n <= |payload|
  {
    n > 0 && (AmbiguousAmong(payload, m, n - 1) || Decide(payload, m, payload[n - 1]).Ambiguous?)
  }

  ghost predicate AnyAmbiguous(payload: seq<Entry>, m: Matches) {
    AmbiguousAmong(payload, m, |payload|)
  }

  lemma {:induction false} AmbiguousIsOneOf(payload: seq<Entry>, m: Matches, n: nat)
    requires n <= |payload|
    ensures AmbiguousAmong(payload, m, n) <==> exists i :: 0 <= i < n && Decide(payload, m, payload[i]).Ambiguous?
  {
    if n > 0 {
      AmbiguousIsOneOf(payload, m, n - 1);
    }
  }

  lemma {:induction false} NotAmbiguous(payload: seq<Entry>, m: Matches, e: Entry)
    requires e in payload && !AnyAmbiguous(payload, m)
    ensures !Decide(payload, m, e).Ambiguous?
  {
    var i :| 0 <= i < |payload| && payload[i] == e;
    AmbiguousIsOneOf(payload, m, |payload|);
  }

  lemma {:induction false} StaysAmbiguous(payload: seq<Entry>, m: Matches, i: nat, n: nat)
    requires i <= n <= |payload| && AmbiguousAmong(payload, m, i)
    ensures AmbiguousAmong(payload, m, n)
    decreases n
  {
    if i < n {
      StaysAmbiguous(payload, m, i, n - 1);
    }
  }

  datatype Rehoming = Rehoming(rows: seq<Entry>, idMap: map<Id, Id>)

  /** The rows to write and the id replacements, or nothing when a name is ambiguous here. */
  method RehomeCountriesByName(payload: seq<Entry>, m: Matches) returns (result: Option<Rehoming>)
    ensures result.None? <==> AnyAmbiguous(payload, m)
    ensures result.Some? ==> result.value == Placed(payload, m, |payload|)
  {
    var rehoming, seen := Rehoming([], map[]), {};
    NothingPlaced(payload, m);
    for i := 0 to |payload|
      invariant rehoming == Placed(payload, m, i) && seen == IdsOf(rehoming.rows)
      invariant !AmbiguousAmong(payload, m, i)
    {
      if Decide(payload, m, payload[i]).Ambiguous? {
        StaysAmbiguous(payload, m, i + 1, |payload|);
        return None;
      }
      rehoming, seen := PlaceEntry(payload, m, i, rehoming, seen);
    }
    return Some(rehoming);
  }

  function Placed(payload: seq<Entry>, m: Matches, n: nat): Rehoming
    requires n <= |payload|
  {
    Rehoming(FirstOfEach(Outs(payload, m, n)), IdMap(payload, m, n))
  }

  lemma {:induction false} NothingPlaced(payload: seq<Entry>, m: Matches)
    ensures Placed(payload, m, 0) == Rehoming([], map[]) && IdsOf([]) == {}
  {
  }

  method PlaceEntry(payload: seq<Entry>, m: Matches, i: nat, before: Rehoming, seen: set<Id>)
    returns (after: Rehoming, seen': set<Id>)
    requires i < |payload| && before == Placed(payload, m, i) && seen == IdsOf(before.rows)
    ensures after == Placed(payload, m, i + 1) && seen' == IdsOf(after.rows)
  {
    var e := payload[i];
    var decision := Decide(payload, m, e);
    var idMap := if decision.LocalRow? || decision.Onto? then before.idMap[e.id := decision.id] else before.idMap;
    NextRow(payload, m, i);
    var rows;
    rows, seen' := PushOnce(before.rows, seen, Out(payload, m, e));
    after := Rehoming(rows, idMap);
  }

  /** Appends the row unless its id is already there. */
  method PushOnce(rows: seq<Entry>, seen: set<Id>, out: seq<Entry>) returns (rows': seq<Entry>, seen': set<Id>)
    requires |out| <= 1 && seen == IdsOf(rows)
    ensures rows' == rows + if out == [] || out[0].id in IdsOf(rows) then [] else out
    ensures seen' == IdsOf(rows')
  {
    rows', seen' := rows, seen;
    if out != [] && out[0].id !in seen {
      IdsOfOneMore(rows, out[0]);
      assert out == [out[0]];
      rows', seen' := rows + out, seen + {out[0].id};
    }
  }

  // ---- what the rows do to the table ------------------------------------------------------------------

  /** The rows upserted by id, one after the other. */
  ghost function Upserted(db: Countries, rows: seq<Entry>): Countries {
    if rows == [] then db
    else Upserted(db, rows[..|rows| - 1])[rows[|rows| - 1].id := rows[|rows| - 1].country]
  }

  lemma {:induction false} UpsertedAt(db: Countries, rows: seq<Entry>, id: Id)
    requires IdsDistinct(rows)
    ensures id in Upserted(db, rows) <==> id in db || id in IdsOf(rows)
    ensures id !in IdsOf(rows) && id in db ==> Upserted(db, rows)[id] == db[id]
    ensures forall e :: e in rows && e.id == id ==> Upserted(db, rows)[id] == e.country
  {
    if rows != [] {
      var before, last := rows[..|rows| - 1], rows[|rows| - 1];
      assert rows == before + [last];
      UpsertedAt(db, before, id);
    }
  }

  /** An entry asks to write this row. */
  ghost predicate Asks(payload: seq<Entry>, m: Matches, e: Entry, row: Entry) {
    e in payload && row in Out(payload, m, e)
  }

  lemma {:induction false} OutsAreAsked(payload: seq<Entry>, m: Matches, n: nat)
    requires n <= |payload|
    ensures forall row :: row in Outs(payload, m, n) ==> exists e :: Asks(payload, m, e, row)
    ensures forall i, row :: 0 <= i < n && row in Out(payload, m, payload[i]) ==> row in Outs(payload, m, n)
  {
    if n > 0 {
      OutsAreAsked(payload, m, n - 1);
      forall row | row in Outs(payload, m, n)
        ensures exists e :: Asks(payload, m, e, row)
      {
        if row in Out(payload, m, payload[n - 1]) {
          assert Asks(payload, m, payload[n - 1], row);
        }
      }
    }
  }

  lemma {:induction false} IdMapOneMore(payload: seq<Entry>, m: Matches, n: nat)
    requires n < |payload|
    ensures var d := Decide(payload, m, payload[n]);
            IdMap(payload, m, n + 1) == if d.LocalRow? || d.Onto? then IdMap(payload, m, n)[payload[n].id := d.id] else IdMap(payload, m, n)
  {
  }

  lemma {:induction false} IdMapAt(payload: seq<Entry>, m: Matches, n: nat, i: nat)
    requires i < n <= |payload| && IdsDistinct(payload)
    ensures var d := Decide(payload, m, payload[i]);
            payload[i].id in IdMap(payload, m, n) <==> d.LocalRow? || d.Onto?
    ensures var d := Decide(payload, m, payload[i]);
            payload[i].id in IdMap(payload, m, n) ==> IdMap(payload, m, n)[payload[i].id] == d.id
  {
    IdMapOneMore(payload, m, n - 1);
    if i < n - 1 {
      IdMapAt(payload, m, n - 1, i);
      assert payload[n - 1].id != payload[i].id;
    } else {
      NotMappedBefore(payload, m, i, payload[i].id);
    }
  }

  lemma {:induction false} NotMappedBefore(payload: seq<Entry>, m: Matches, n: nat, id: Id)
    requires n <= |payload| && forall j :: 0 <= j < n ==> payload[j].id != id
    ensures id !in IdMap(payload, m, n)
  {
    if n > 0 {
      NotMappedBefore(payload, m, n - 1, id);
    }
  }

  /** The id a reference to `id` ends up holding. */
  function Resolve(idMap: map<Id, Id>, id: Id): Id {
    if id in idMap then idMap[id] else id
  }

  function Rows(payload: seq<Entry>, m: Matches): seq<Entry> {
    Placed(payload, m, |payload|).rows
  }

  /** No reference dangles: whatever a payload country's id becomes is the id of a written row. */
  lemma {:induction false} EveryReferenceIsWritten(payload: seq<Entry>, m: Matches, e: Entry)
    requires IdsDistinct(payload) && e in payload && !AnyAmbiguous(payload, m)
    ensures Resolve(IdMap(payload, m, |payload|), e.id) in IdsOf(Rows(payload, m))
  {
    var i :| 0 <= i < |payload| && payload[i] == e;
    IdMapAt(payload, m, |payload|, i);
    NotAmbiguous(payload, m, e);
    OutsAreAsked(payload, m, |payload|);
    FirstOfEachFacts(Outs(payload, m, |payload|));
    var d := Decide(payload, m, e);
    if d.Onto? {
      var keeper := KeeperOf(payload, m, e);
      KeeperFacts(payload, m, e);
      var j :| 0 <= j < |payload| && payload[j] == keeper;
      assert Decide(payload, m, keeper) == Own;
      assert keeper in Out(payload, m, payload[j]);
    } else {
      assert Out(payload, m, e)[0] in Out(payload, m, payload[i]);
    }
  }

  /** What a written row is: a local row under its own or an equal name, or one new name per class. */
  lemma {:induction false} WrittenRow(payload: seq<Entry>, db: Countries, same: SameName, m: Matches, row: Entry)
    requires Answers(payload, db, same, m) && row in Rows(payload, m)
    requires IsEquivalence(same)
    ensures (row.id in db && same(db[row.id].name, row.country.name)) || IsKeeper(payload, m, row)
  {
    OutsAreAsked(payload, m, |payload|);
    FirstOfEachFacts(Outs(payload, m, |payload|));
    assert row in Outs(payload, m, |payload|);
    var e :| Asks(payload, m, e, row);
    var local := m.Local(e.country.name);
    assert local == FindByName(db, same, e.country.name);
  }

  ghost predicate IsKeeper(payload: seq<Entry>, m: Matches, row: Entry) {
    row in payload && IsNew(m, row) && KeeperOf(payload, m, row).id == row.id
  }

  /** A kept new name is equal to no local name. */
  lemma {:induction false} NewNameIsNew(payload: seq<Entry>, db: Countries, same: SameName, m: Matches, e: Entry, id: Id)
    requires Answers(payload, db, same, m) && e in payload && IsNew(m, e) && id in db
    ensures !same(db[id].name, e.country.name)
  {
    assert id !in FindByName(db, same, e.country.name);
  }

  /** Two kept new names that are equal are one row. */
  lemma {:induction false} OneKeeperPerName(payload: seq<Entry>, db: Countries, same: SameName, m: Matches, a: Entry,
                                            b: Entry)
    requires Answers(payload, db, same, m) && IsKeeper(payload, m, a) && IsKeeper(payload, m, b)
    requires same(a.country.name, b.country.name)
    ensures a.id == b.id
  {
    assert m.ClassOf(a.country.name) == m.ClassOf(b.country.name);
    KeeperFacts(payload, m, a);
  }

  /**
   * The unique name key is never hit: after each of the writes, whichever have been done, no
   * two rows of the table have equal names.
   */
  lemma {:induction false} NamesStayUnique(payload: seq<Entry>, db: Countries, same: SameName, m: Matches, n: nat)
    requires IsEquivalence(same) && NamesUnique(db, same)
    requires Answers(payload, db, same, m) && n <= |Rows(payload, m)|
    ensures NamesUnique(Upserted(db, Rows(payload, m)[..n]), same)
  {
    var rows := Rows(payload, m)[..n];
    FirstOfEachFacts(Outs(payload, m, |payload|));
    assert IdsDistinct(rows);
    forall a, b | a in Upserted(db, rows) && b in Upserted(db, rows)
      && same(Upserted(db, rows)[a].name, Upserted(db, rows)[b].name)
      ensures a == b
    {
      NameIsOldOrKept(payload, db, same, m, n, a);
      NameIsOldOrKept(payload, db, same, m, n, b);
      SameNameSameRow(payload, db, same, m, n, a, b);
    }
  }

  /** The name of a row of the table is equal to the one it had, or is a kept new name. */
  ghost predicate OldOrKept(payload: seq<Entry>, db: Countries, same: SameName, m: Matches, id: Id, name: Name) {
    || (id in db && same(db[id].name, name))
    || (exists e: Entry :: e.id == id && e.country.name == name && IsKeeper(payload, m, e))
  }

  lemma {:induction false} NameIsOldOrKept(payload: seq<Entry>, db: Countries, same: SameName, m: Matches, n: nat, id: Id)
    requires IsEquivalence(same)
    requires Answers(payload, db, same, m) && n <= |Rows(payload, m)|
    requires id in Upserted(db, Rows(payload, m)[..n])
    ensures OldOrKept(payload, db, same, m, id, Upserted(db, Rows(payload, m)[..n])[id].name)
  {
    var rows := Rows(payload, m)[..n];
    FirstOfEachFacts(Outs(payload, m, |payload|));
    assert IdsDistinct(rows);
    UpsertedAt(db, rows, id);
    if id in IdsOf(rows) {
      var row :| row in rows && row.id == id;
      assert row in Rows(payload, m);
      WrittenRow(payload, db, same, m, row);
    }
  }

  lemma {:induction false} SameNameSameRow(payload: seq<Entry>, db: Countries, same: SameName, m: Matches, n: nat, a: Id,
                                           b: Id)
    requires IsEquivalence(same) && NamesUnique(db, same)
    requires Answers(payload, db, same, m) && n <= |Rows(payload, m)|
    requires var after := Upserted(db, Rows(payload, m)[..n]);
             && a in after && b in after && same(after[a].name, after[b].name)
             && OldOrKept(payload, db, same, m, a, after[a].name) && OldOrKept(payload, db, same, m, b, after[b].name)
    ensures a == b
  {
    var after := Upserted(db, Rows(payload, m)[..n]);
    var na, nb := after[a].name, after[b].name;
    if a in db && same(db[a].name, na) {
      assert same(db[a].name, nb);
      if b in db && same(db[b].name, nb) {
        assert same(nb, db[b].name);
        assert same(db[a].name, db[b].name);
      } else {
        var e: Entry :| e.id == b && e.country.name == nb && IsKeeper(payload, m, e);
        NewNameIsNew(payload, db, same, m, e, a);
      }
    } else {
      var e: Entry :| e.id == a && e.country.name == na && IsKeeper(payload, m, e);
      if b in db && same(db[b].name, nb) {
        assert same(nb, na);
        assert same(db[b].name, na);
        NewNameIsNew(payload, db, same, m, e, b);
      } else {
        var f: Entry :| f.id == b && f.country.name == nb && IsKeeper(payload, m, f);
        OneKeeperPerName(payload, db, same, m, e, f);
      }
    }
  }

  lemma {:induction false} AtMostOneMatch(db: Countries, same: SameName, name: Name)
    requires IsEquivalence(same) && NamesUnique(db, same)
    ensures |FindByName(db, same, name)| <= 1
  {
    var local := FindByName(db, same, name);
    if a :| a in local {
      forall b | b in local
        ensures b == a
      {
        assert same(name, db[b].name);
        assert same(db[a].name, db[b].name);
      }
      assert local.Keys == {a};
    }
  }

  /** With unique local names no payload is ambiguous. */
  lemma {:induction false} UniqueNamesAreNeverAmbiguous(payload: seq<Entry>, db: Countries, same: SameName, m: Matches)
    requires IsEquivalence(same) && NamesUnique(db, same) && Answers(payload, db, same, m)
    ensures !AnyAmbiguous(payload, m)
  {
    forall i | 0 <= i < |payload|
      ensures !Decide(payload, m, payload[i]).Ambiguous?
    {
      assert m.Local(payload[i].country.name) == FindByName(db, same, payload[i].country.name);
      AtMostOneMatch(db, same, payload[i].country.name);
    }
    AmbiguousIsOneOf(payload, m, |payload|);
  }

  // ---- whether a reference still names the same country -------------------------------------------------

  /** After the writes, a reference to the entry's id leads to a row of an equal name. */
  ghost predicate NameResolves(payload: seq<Entry>, db: Countries, same: SameName, m: Matches, e: Entry) {
    var after := Upserted(db, Rows(payload, m));
    var id := Resolve(IdMap(payload, m, |payload|), e.id);
    id in after && same(after[id].name, e.country.name)
  }

  /** The payload renames a local country to a new name, and another payload country is replaced by that same row. */
  ghost predicate Renames(payload: seq<Entry>, m: Matches, kept: Entry, e: Entry) {
    IsKeeper(payload, m, kept) && e in payload && Decide(payload, m, e) == LocalRow(kept.id)
  }

  /** The row written under an id is one of those asked for under it. */
  lemma {:induction false} FinalRow(payload: seq<Entry>, db: Countries, m: Matches, id: Id) returns (row: Entry, e: Entry)
    requires id in IdsOf(Rows(payload, m))
    ensures row.id == id && Asks(payload, m, e, row)
    ensures id in Upserted(db, Rows(payload, m)) && Upserted(db, Rows(payload, m))[id] == row.country
  {
    row :| row in Rows(payload, m) && row.id == id;
    FirstOfEachFacts(Outs(payload, m, |payload|));
    UpsertedAt(db, Rows(payload, m), id);
    OutsAreAsked(payload, m, |payload|);
    FirstOfEachFacts(Outs(payload, m, |payload|));
    assert row in Outs(payload, m, |payload|);
    e :| Asks(payload, m, e, row);
  }

  lemma {:induction false} LookedUp(payload: seq<Entry>, db: Countries, same: SameName, m: Matches, e: Entry, id: Id)
    requires Answers(payload, db, same, m) && e in payload && id in m.Local(e.country.name)
    ensures id in db && same(db[id].name, e.country.name) && m.Local(e.country.name)[id] == db[id]
  {
    assert m.Local(e.country.name) == FindByName(db, same, e.country.name);
  }

  /**
   * Every reference still names the country it named exactly when the payload does not give a
   * local country that it also refers to by name a new name.
   */
  lemma {:induction false} ReferencesKeepTheirNames(payload: seq<Entry>, db: Countries, same: SameName, m: Matches)
    requires IsEquivalence(same) && NamesUnique(db, same) && IdsDistinct(payload)
    requires Answers(payload, db, same, m)
    ensures (forall e :: e in payload ==> NameResolves(payload, db, same, m, e))
      <==> !exists kept, e :: Renames(payload, m, kept, e)
  {
    UniqueNamesAreNeverAmbiguous(payload, db, same, m);
    if kept, e :| Renames(payload, m, kept, e) {
      RenamedReferenceIsWrong(payload, db, same, m, kept, e);
    } else {
      forall e | e in payload
        ensures NameResolves(payload, db, same, m, e)
      {
        ReferenceIsRight(payload, db, same, m, e);
      }
    }
  }

  lemma {:induction false} RenamedReferenceIsWrong(payload: seq<Entry>, db: Countries, same: SameName, m: Matches,
                                                   kept: Entry, e: Entry)
    requires IsEquivalence(same) && IdsDistinct(payload)
    requires Answers(payload, db, same, m) && !AnyAmbiguous(payload, m) && Renames(payload, m, kept, e)
    ensures !NameResolves(payload, db, same, m, kept) || !NameResolves(payload, db, same, m, e)
  {
    var id := kept.id;
    var i :| 0 <= i < |payload| && payload[i] == e;
    var j :| 0 <= j < |payload| && payload[j] == kept;
    IdMapAt(payload, m, |payload|, i);
    NotAmbiguous(payload, m, e);
    IdMapAt(payload, m, |payload|, j);
    LookedUp(payload, db, same, m, e, id);
    NewNameIsNew(payload, db, same, m, kept, id);
    EveryReferenceIsWritten(payload, m, e);
    FirstOfEachFacts(Outs(payload, m, |payload|));
    UpsertedAt(db, Rows(payload, m), id);
    var name := Upserted(db, Rows(payload, m))[id].name;
    assert same(name, e.country.name) ==> same(e.country.name, name);
    assert same(name, e.country.name) ==> same(db[id].name, name);
  }

  lemma {:induction false} ReferenceIsRight(payload: seq<Entry>, db: Countries, same: SameName, m: Matches, e: Entry)
    requires IsEquivalence(same) && IdsDistinct(payload)
    requires Answers(payload, db, same, m) && !AnyAmbiguous(payload, m) && e in payload
    requires !exists kept, f :: Renames(payload, m, kept, f)
    ensures NameResolves(payload, db, same, m, e)
  {
    var i :| 0 <= i < |payload| && payload[i] == e;
    IdMapAt(payload, m, |payload|, i);
    NotAmbiguous(payload, m, e);
    EveryReferenceIsWritten(payload, m, e);
    var id := Resolve(IdMap(payload, m, |payload|), e.id);
    var row, f := FinalRow(payload, db, m, id);
    AskedUnderOneId(payload, db, same, m, e, id, f, row);
  }

  /** Without a rename, every row asked for under an id has the name of whatever resolves to it. */
  lemma {:induction false} AskedUnderOneId(payload: seq<Entry>, db: Countries, same: SameName, m: Matches, e: Entry, id: Id,
                                           f: Entry, row: Entry)
    requires IsEquivalence(same) && IdsDistinct(payload)
    requires Answers(payload, db, same, m) && e in payload && !AnyAmbiguous(payload, m)
    requires !exists kept, g :: Renames(payload, m, kept, g)
    requires id == match Decide(payload, m, e) case LocalRow(x) => x case Onto(x) => x case _ => e.id
    requires Asks(payload, m, f, row) && row.id == id
    ensures same(row.country.name, e.country.name)
  {
    var de, df := Decide(payload, m, e), Decide(payload, m, f);
    NotAmbiguous(payload, m, e);
    if de.Onto? {
      var keeper := KeeperOf(payload, m, e);
      KeeperFacts(payload, m, e);
      assert same(keeper.country.name, e.country.name);
      assert !Renames(payload, m, keeper, f);
      if df == Own {
        SameIdSameEntry(payload, f, keeper);
      }
    } else if df == Own {
      if de == Own {
        SameIdSameEntry(payload, f, e);
      } else {
        LookedUp(payload, db, same, m, e, id);
        assert !Renames(payload, m, f, e);
        LookedUp(payload, db, same, m, f, id);
        assert same(f.country.name, db[id].name);
      }
    } else {
      LookedUp(payload, db, same, m, f, id);
      if de == Own {
        assert !Renames(payload, m, e, f);
      }
      LookedUp(payload, db, same, m, e, id);
    }
  }

  lemma {:induction false} SameIdSameEntry(payload: seq<Entry>, a: Entry, b: Entry)
    requires IdsDistinct(payload) && a in payload && b in payload && a.id == b.id
    ensures a == b
  {
    var i :| 0 <= i < |payload| && payload[i] == a;
    var j :| 0 <= j < |payload| && payload[j] == b;
    assert i == j;
  }

  // ---- a payload that renames a country away ----------------------------------------------------------------------

  /** One local country, and a payload that gives it a new name and another country its old one. */
  const HERE: Countries := map["1" := Country("Old", None, false)]

  const RENAMED := [Entry("1", Country("New", None, false)), Entry("2", Country("Old", None, false))]

  const LOOKED_UP := Matches(map["New" := map[], "Old" := HERE], map["New" := "New"])

  function Equal(): SameName {
    (a: Name, b: Name) => a == b
  }

  lemma {:induction false} RenamedIsAnswered()
    ensures IsEquivalence(Equal()) && NamesUnique(HERE, Equal()) && IdsDistinct(RENAMED)
    ensures Answers(RENAMED, HERE, Equal(), LOOKED_UP)
  {
    assert FindByName(HERE, Equal(), "New") == map[] && FindByName(HERE, Equal(), "Old") == HERE;
    forall e | e in RENAMED ensures e == RENAMED[0] || e == RENAMED[1] {
    }
  }

  lemma {:induction false} RenamedRenames()
    ensures Renames(RENAMED, LOOKED_UP, RENAMED[0], RENAMED[1])
  {
    var first, second := RENAMED[0], RENAMED[1];
    assert first in RENAMED && second in RENAMED && IsNew(LOOKED_UP, first);
    assert LOOKED_UP.Local("Old") == HERE && HERE.Keys == {"1"} && |HERE| == 1;
    assert IsFirstToKeep(RENAMED, LOOKED_UP, "New", 2, 0);
    KeeperIsTheFirst(RENAMED, LOOKED_UP, "New", 2, 0);
  }

  /** With unique names and distinct ids, a reference that named the old country or the new one names another now. */
  lemma {:induction false} ARenameBreaksAReference()
    ensures IsEquivalence(Equal()) && NamesUnique(HERE, Equal()) && IdsDistinct(RENAMED)
    ensures Answers(RENAMED, HERE, Equal(), LOOKED_UP) && !AnyAmbiguous(RENAMED, LOOKED_UP)
    ensures exists e :: e in RENAMED && !NameResolves(RENAMED, HERE, Equal(), LOOKED_UP, e)
  {
    RenamedIsAnswered();
    RenamedRenames();
    UniqueNamesAreNeverAmbiguous(RENAMED, HERE, Equal(), LOOKED_UP);
    RenamedReferenceIsWrong(RENAMED, HERE, Equal(), LOOKED_UP, RENAMED[0], RENAMED[1]);
    assert RENAMED[0] in RENAMED && RENAMED[1] in RENAMED;
  }
}
