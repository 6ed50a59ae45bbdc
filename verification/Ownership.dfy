/**
 * Owners are filled, never moved: a map from ids to organisations sets the owner of the rows that
 * have none, whatever else happens between the read and the update.
 */
module Ownership {
  import opened Wrappers

  type Id = string

  /** The owner of each row of one table. */
  type Owners = map<Id, Option<Id>>

  // ---- the specification ------------------------------------------------------------------------------------

  function IsFree(owners: Owners, id: Id): bool {
    id in owners && owners[id].None?
  }

  function Filled(owners: Owners, wanted: map<Id, Id>, ids: set<Id>): Owners {
    map id | id in owners :: if owners[id].None? && id in ids && id in wanted then Some(wanted[id]) else owners[id]
  }

  /** What another writer does meanwhile: rows without an owner gain one. */
  function Gained(owners: Owners, gained: map<Id, Id>): Owners {
    Filled(owners, gained, gained.Keys)
  }

  function FreeAmong(owners: Owners, ids: set<Id>): set<Id> {
    set id | id in ids && IsFree(owners, id)
  }

  function FreeFor(owners: Owners, wanted: map<Id, Id>, ids: set<Id>, org: Id): set<Id> {
    set id | id in ids && id in wanted && IsFree(owners, id) && wanted[id] == org
  }

  function Differing(owners: Owners, wanted: map<Id, Id>, ids: set<Id>): set<Id> {
    set id | id in ids && id in owners && id in wanted && owners[id].Some? && owners[id].value != wanted[id]
  }

  function Agreeing(owners: Owners, wanted: map<Id, Id>): set<Id> {
    set id | id in wanted && id in owners && owners[id] == Some(wanted[id])
  }

  // ---- what it promises -----------------------------------------------------------------------------------------

  /** No row that has an owner ever changes it, whoever writes in between; no row comes or goes. */
  lemma {:induction false} OwnersAreKept(owners: Owners, wanted: map<Id, Id>, gained: map<Id, Id>, id: Id)
    ensures var after := Filled(Gained(owners, gained), wanted, wanted.Keys);
            && after.Keys == owners.Keys
            && (id in owners && owners[id].Some? ==> after[id] == owners[id])
            && (id in owners && owners[id].None? && id in gained ==> after[id] == Some(gained[id]))
            && (id in owners && owners[id].None? && id !in gained ==> after[id] == if id in wanted then Some(wanted[id]) else None)
  {
  }

  /** A second identical call finds nothing to fill, and changes nothing. */
  lemma {:induction false} SecondCallFillsNothing(owners: Owners, wanted: map<Id, Id>, gained: map<Id, Id>)
    ensures var after := Filled(Gained(owners, gained), wanted, wanted.Keys);
            FreeAmong(after, wanted.Keys) == {} && Filled(after, wanted, wanted.Keys) == after
  {
  }

  /** Each requested id is filled, agrees already, disagrees or is unknown, and only one of these. */
  lemma {:induction false} EveryIdIsAccountedFor(owners: Owners, wanted: map<Id, Id>)
    ensures |wanted.Keys| == |FreeAmong(owners, wanted.Keys)| + |Agreeing(owners, wanted)|
                             + |Differing(owners, wanted, wanted.Keys)| + |wanted.Keys - owners.Keys|
  {
    var f, a := FreeAmong(owners, wanted.Keys), Agreeing(owners, wanted);
    var d, u := Differing(owners, wanted, wanted.Keys), wanted.Keys - owners.Keys;
    var there := wanted.Keys * owners.Keys;
    assert there == f + a + d && wanted.Keys == there + u;
    assert |wanted.Keys| == |there| + |u|;
    assert |f + a| == |f| + |a| && |f + a + d| == |f + a| + |d|;
  }

  // ---- the loops ------------------------------------------------------------------------------------------------

  datatype Report = Report(applied: nat, disagreements: nat, unknown: set<Id>)

  /** The ids read so far, grouped by the owner they are to get. */
  ghost predicate Grouped(toFill: map<Id, set<Id>>, owners: Owners, wanted: map<Id, Id>, ids: set<Id>) {
    forall org :: (if org in toFill then toFill[org] else {}) == FreeFor(owners, wanted, ids, org)
  }

  lemma {:induction false} GroupedOneMore(toFill: map<Id, set<Id>>, owners: Owners, wanted: map<Id, Id>, ids: set<Id>,
                                          id: Id)
    requires Grouped(toFill, owners, wanted, ids) && id in wanted
    ensures var org := wanted[id];
            var next := if IsFree(owners, id) then toFill[org := (if org in toFill then toFill[org] else {}) + {id}] else toFill;
            Grouped(next, owners, wanted, ids + {id})
  {
    forall org
      ensures FreeFor(owners, wanted, ids + {id}, org)
        == FreeFor(owners, wanted, ids, org) + if IsFree(owners, id) && wanted[id] == org then {id} else {}
    {
    }
  }

  lemma {:induction false} DifferingOneMore(owners: Owners, wanted: map<Id, Id>, ids: set<Id>, id: Id)
    requires id in wanted && id !in ids
    ensures var differs := id in owners && owners[id].Some? && owners[id].value != wanted[id];
            |Differing(owners, wanted, ids + {id})| == |Differing(owners, wanted, ids)| + if differs then 1 else 0
  {
    var differs := id in owners && owners[id].Some? && owners[id].value != wanted[id];
    assert Differing(owners, wanted, ids + {id}) == Differing(owners, wanted, ids) + if differs then {id} else {};
  }

  lemma {:induction false} FilledMore(owners: Owners, wanted: map<Id, Id>, done: set<Id>, part: set<Id>, org: Id)
    requires done !! part && forall id :: id in part ==> id in wanted && wanted[id] == org
    ensures Filled(Filled(owners, wanted, done), map id | id in part :: org, part) == Filled(owners, wanted, done + part)
    ensures FreeAmong(Filled(owners, wanted, done), part) == FreeAmong(owners, part)
    ensures |FreeAmong(owners, done + part)| == |FreeAmong(owners, done)| + |FreeAmong(owners, part)|
  {
    assert FreeAmong(owners, done + part) == FreeAmong(owners, done) + FreeAmong(owners, part);
  }

  /** What was read of some ids: those that are there, those to fill, and how many disagree. */
  datatype Seen = Seen(found: set<Id>, toFill: map<Id, set<Id>>, disagreements: nat)

  ghost predicate SeenOf(owners: Owners, wanted: map<Id, Id>, ids: set<Id>, seen: Seen) {
    seen.found == ids * owners.Keys && Grouped(seen.toFill, owners, wanted, ids) && seen.disagreements == |Differing(owners, wanted, ids)|
  }

  lemma {:induction false} NothingSeen(owners: Owners, wanted: map<Id, Id>)
    ensures SeenOf(owners, wanted, {}, Seen({}, map[], 0))
  {
    assert Differing(owners, wanted, {}) == {};
  }

  class OwnedTable {
    var owners: Owners

    constructor (owners: Owners)
      ensures this.owners == owners
    {
      this.owners := owners;
    }

    /** Some of the ids still to go: a chunk of any size. */
    method NextChunk(rest: set<Id>) returns (part: set<Id>)
      requires rest != {}
      ensures part != {} && part <= rest
    {
      var id :| id in rest;
      part := {id};
      var more :| more <= rest;
      part := part + more;
    }

    /** UPDATE ... WHERE id IN part AND owner IS NULL. */
    method Update(org: Id, part: set<Id>) returns (count: nat)
      modifies this
      ensures owners == Filled(old(owners), map id | id in part :: org, part)
      ensures count == |FreeAmong(old(owners), part)|
    {
      count := |FreeAmong(owners, part)|;
      owners := Filled(owners, map id | id in part :: org, part);
    }

    /** One row of a chunk. */
    method ReadRow(wanted: map<Id, Id>, id: Id, ghost ids: set<Id>, seen: Seen) returns (next: Seen)
      requires id in wanted && id !in ids && SeenOf(owners, wanted, ids, seen)
      ensures SeenOf(owners, wanted, ids + {id}, next)
    {
      GroupedOneMore(seen.toFill, owners, wanted, ids, id);
      DifferingOneMore(owners, wanted, ids, id);
      next := seen;
      if id in owners {
        next := next.(found := seen.found + {id});
        if owners[id].None? {
          var org := wanted[id];
          next := next.(toFill := seen.toFill[org := (if org in seen.toFill then seen.toFill[org] else {}) + {id}]);
        } else if owners[id].value != wanted[id] {
          next := next.(disagreements := seen.disagreements + 1);
        }
      }
    }

    method ReadChunk(wanted: map<Id, Id>, part: set<Id>, ghost ids: set<Id>, seen: Seen) returns (next: Seen)
      requires part <= wanted.Keys && part !! ids && SeenOf(owners, wanted, ids, seen)
      ensures SeenOf(owners, wanted, ids + part, next)
    {
      next := seen;
      var left := part;
      assert ids + (part - left) == ids;
      while left != {}
        invariant left <= part && SeenOf(owners, wanted, ids + (part - left), next)
        decreases left
      {
        var id :| id in left;
        next := ReadRow(wanted, id, ids + (part - left), next);
        assert ids + (part - left) + {id} == ids + (part - (left - {id}));
        left := left - {id};
      }
      assert ids + (part - {}) == ids + part;
    }

    /** The reads: what is there, what disagrees, and what is to be filled, by owner. */
    method ReadRows(wanted: map<Id, Id>) returns (seen: Seen)
      ensures SeenOf(owners, wanted, wanted.Keys, seen)
    {
      seen := Seen({}, map[], 0);
      NothingSeen(owners, wanted);
      var rest := wanted.Keys;
      assert wanted.Keys - rest == {};
      while rest != {}
        invariant rest <= wanted.Keys && SeenOf(owners, wanted, wanted.Keys - rest, seen)
        decreases rest
      {
        var part := NextChunk(rest);
        seen := ReadChunk(wanted, part, wanted.Keys - rest, seen);
        assert wanted.Keys - rest + part == wanted.Keys - (rest - part);
        rest := rest - part;
      }
      assert wanted.Keys - {} == wanted.Keys;
    }

    /** Fills one owner's ids, chunk by chunk. */
    method FillFor(org: Id, ids: set<Id>, ghost base: Owners, ghost wanted: map<Id, Id>, ghost done: set<Id>) returns (count: nat)
      requires owners == Filled(base, wanted, done) && done !! ids
      requires forall id :: id in ids ==> id in wanted && wanted[id] == org
      modifies this
      ensures owners == Filled(base, wanted, done + ids)
      ensures |FreeAmong(base, done + ids)| == |FreeAmong(base, done)| + count
    {
      var rest := ids;
      ghost var gone := done;
      count := 0;
      while rest != {}
        invariant gone + rest == done + ids && gone !! rest && rest <= ids
        invariant owners == Filled(base, wanted, gone) && |FreeAmong(base, gone)| == |FreeAmong(base, done)| + count
        decreases rest
      {
        var part := NextChunk(rest);
        FilledMore(base, wanted, gone, part, org);
        var filled := Update(org, part);
        count := count + filled;
        gone, rest := gone + part, rest - part;
      }
      assert gone == done + ids;
    }

    /**
     * One table of a call. Between its reads and its updates another writer may give rows owners:
     * those are left to it.
     */
    method ApplyTable(wanted: map<Id, Id>, gained: map<Id, Id>) returns (report: Report)
      modifies this
      ensures owners == Filled(Gained(old(owners), gained), wanted, wanted.Keys)
      ensures report.applied == |FreeAmong(Gained(old(owners), gained), wanted.Keys)|
      ensures report.disagreements == |Differing(old(owners), wanted, wanted.Keys)|
      ensures report.unknown == wanted.Keys - old(owners).Keys
    {
      var seen := ReadRows(wanted);
      var toFill := seen.toFill;
      ghost var read := owners;
      owners := Gained(owners, gained);
      ghost var base := owners;
      var applied := 0;
      var orgs := toFill.Keys;
      ghost var done: set<Id> := {};
      assert Filled(base, wanted, {}) == base && FreeAmong(base, {}) == {};
      while orgs != {}
        invariant orgs <= toFill.Keys
        invariant owners == Filled(base, wanted, done) && applied == |FreeAmong(base, done)|
        invariant forall id :: id in done <==> id in wanted && IsFree(read, id) && wanted[id] in toFill && wanted[id] !in orgs
        decreases orgs
      {
        var org :| org in orgs;
        assert toFill[org] == FreeFor(read, wanted, wanted.Keys, org);
        var count := FillFor(org, toFill[org], base, wanted, done);
        applied := applied + count;
        done := done + toFill[org];
        orgs := orgs - {org};
      }
      AllFreeAreDone(read, base, wanted, gained, toFill, done);
      report := Report(applied, seen.disagreements, wanted.Keys - seen.found);
    }
  }

  /** Every requested row that is still free was read free, so it is among those gone through. */
  lemma {:induction false} AllFreeAreDone(read: Owners, base: Owners, wanted: map<Id, Id>, gained: map<Id, Id>,
                                          toFill: map<Id, set<Id>>, done: set<Id>)
    requires base == Gained(read, gained) && Grouped(toFill, read, wanted, wanted.Keys)
    requires forall id :: id in done <==> id in wanted && IsFree(read, id) && wanted[id] in toFill
    ensures Filled(base, wanted, done) == Filled(base, wanted, wanted.Keys) && FreeAmong(base, done) == FreeAmong(base, wanted.Keys)
  {
    forall id | id in wanted && IsFree(base, id) ensures id in done {
      assert id in FreeFor(read, wanted, wanted.Keys, wanted[id]);
    }
  }
}
