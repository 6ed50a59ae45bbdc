/** Ids in their sort order: an id stands for its rank among the strings. */
module SortedIds {
  datatype Id = Id(rank: nat)

  lemma {:induction false} SomeIsLeast(ids: set<Id>)
    requires ids != {}
    ensures exists m :: IsLeast(ids, m)
  {
    var x :| x in ids;
    var rest := ids - {x};
    if rest == {} {
      assert ids == {x};
      assert IsLeast(ids, x);
    } else {
      SomeIsLeast(rest);
      var m :| IsLeast(rest, m);
      assert ids == rest + {x};
      assert IsLeast(ids, if m.rank < x.rank then m else x);
    }
  }

  predicate IsLeast(ids: set<Id>, m: Id) {
    m in ids && forall x :: x in ids ==> m.rank <= x.rank
  }

  function Least(ids: set<Id>): (m: Id)
    requires ids != {}
    ensures IsLeast(ids, m)
  {
    SomeIsLeast(ids);
    var m :| IsLeast(ids, m);
    m
  }

  /** The ids of a set, each once, in order: `Object.keys(...).sort()`. */
  function Sorted(ids: set<Id>): seq<Id> {
    if ids == {} then []
    else
      var m := Least(ids);
      [m] + Sorted(ids - {m})
  }

  lemma {:induction false} SortedHasEach(ids: set<Id>)
    ensures forall x :: x in Sorted(ids) <==> x in ids
  {
    if ids != {} {
      SortedHasEach(ids - {Least(ids)});
    }
  }

  lemma {:induction false} SortedIsDistinct(ids: set<Id>)
    ensures forall i, j :: 0 <= i < j < |Sorted(ids)| ==> Sorted(ids)[i] != Sorted(ids)[j]
  {
    if ids != {} {
      var rest := ids - {Least(ids)};
      SortedIsDistinct(rest);
      SortedHasEach(rest);
    }
  }

  lemma {:induction false} SortedPrefix(ids: set<Id>, n: nat)
    requires n < |Sorted(ids)|
    ensures Sorted(ids)[n] !in Sorted(ids)[..n]
  {
    SortedIsDistinct(ids);
    assert forall i :: 0 <= i < n ==> Sorted(ids)[..n][i] != Sorted(ids)[n];
  }

  lemma {:induction false} SortedAscends(ids: set<Id>)
    ensures forall i, j :: 0 <= i < j < |Sorted(ids)| ==> Sorted(ids)[i].rank <= Sorted(ids)[j].rank
  {
    if ids != {} {
      var rest := ids - {Least(ids)};
      SortedAscends(rest);
      SortedHasEach(rest);
    }
  }
}
