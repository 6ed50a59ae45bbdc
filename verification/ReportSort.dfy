/**
 * The report's in-place swap loops. The key of row `i` is read once, before the inner loop swaps
 * the row away; the loop is an insertion all the same: a stable sort, newest first.
 */
module ReportSort {
  /** A report row: its start time (0 when it has none) and the rest of it. */
  datatype Entry = Entry(start: int, row: int)

  predicate Descending(s: seq<Entry>) {
    forall i, j :: 0 <= i < j < |s| ==> s[i].start >= s[j].start
  }

  /** Puts an entry after all that are at least as new. */
  function Insert(s: seq<Entry>, x: Entry): seq<Entry> {
    if s == [] then [x]
    else if x.start > s[|s| - 1].start then Insert(s[..|s| - 1], x) + [s[|s| - 1]]
    else s + [x]
  }

  function NewestFirst(s: seq<Entry>): seq<Entry> {
    if s == [] then [] else Insert(NewestFirst(s[..|s| - 1]), s[|s| - 1])
  }

  /** The entries of one start time, in order. */
  function At(s: seq<Entry>, start: int): seq<Entry> {
    if s == [] then [] else At(s[..|s| - 1], start) + if s[|s| - 1].start == start then [s[|s| - 1]] else []
  }

  lemma {:induction false} InsertKeeps(s: seq<Entry>, x: Entry)
    ensures multiset(Insert(s, x)) == multiset(s) + multiset{x} && |Insert(s, x)| == |s| + 1
  {
    if s != [] {
      assert s == s[..|s| - 1] + [s[|s| - 1]];
      if x.start > s[|s| - 1].start {
        InsertKeeps(s[..|s| - 1], x);
      }
    }
  }

  lemma {:induction false} InsertDescends(s: seq<Entry>, x: Entry)
    requires Descending(s)
    ensures Descending(Insert(s, x))
  {
    if s != [] && x.start > s[|s| - 1].start {
      var before, last := s[..|s| - 1], s[|s| - 1];
      InsertDescends(before, x);
      InsertKeeps(before, x);
      forall i | 0 <= i < |Insert(before, x)| ensures Insert(before, x)[i].start >= last.start {
        assert Insert(before, x)[i] in multiset(Insert(before, x));
        assert Insert(before, x)[i] in before || Insert(before, x)[i] == x;
      }
    }
  }

  lemma {:induction false} AtOneMore(s: seq<Entry>, x: Entry, start: int)
    ensures At(s + [x], start) == At(s, start) + if x.start == start then [x] else []
  {
    assert (s + [x])[..|s|] == s;
  }

  /** Inserting leaves the order of each start time alone, and puts the new entry last of its own. */
  lemma {:induction false} InsertIsStable(s: seq<Entry>, x: Entry, start: int)
    ensures At(Insert(s, x), start) == At(s, start) + if x.start == start then [x] else []
  {
    if s == [] || x.start <= s[|s| - 1].start {
      AtOneMore(s, x, start);
    } else {
      InsertIsStable(s[..|s| - 1], x, start);
      AtOneMore(Insert(s[..|s| - 1], x), s[|s| - 1], start);
    }
  }

  /** Newest first, the same entries, and entries of one start time in the order they came. */
  lemma {:induction false} NewestFirstSorts(s: seq<Entry>)
    ensures Descending(NewestFirst(s)) && multiset(NewestFirst(s)) == multiset(s) && |NewestFirst(s)| == |s|
    ensures forall start :: At(NewestFirst(s), start) == At(s, start)
  {
    if s != [] {
      var before, last := s[..|s| - 1], s[|s| - 1];
      assert s == before + [last];
      NewestFirstSorts(before);
      InsertDescends(NewestFirst(before), last);
      InsertKeeps(NewestFirst(before), last);
      forall start ensures At(NewestFirst(s), start) == At(s, start) {
        InsertIsStable(NewestFirst(before), last, start);
      }
    }
  }

  lemma {:induction false} InsertAtEnd(s: seq<Entry>, x: Entry)
    requires forall k :: 0 <= k < |s| ==> s[k].start >= x.start
    ensures Insert(s, x) == s + [x]
  {
  }

  /** One step of the inner loop: the next entry of the sorted part is passed, or the one in hand goes before it. */
  lemma {:induction false} InsertPasses(p: seq<Entry>, x: Entry, j: nat)
    requires Descending(p) && j < |p|
    ensures Insert(p[..j + 1], x) == if x.start > p[j].start then Insert(p[..j], x) + [p[j]] else p[..j + 1] + [x]
    ensures x.start <= p[j].start ==> Insert(p[..j], x) == p[..j] + [x]
  {
    assert p[..j + 1][..j] == p[..j];
    if x.start <= p[j].start {
      InsertAtEnd(p[..j], x);
    }
  }

  /** The inner loop: row `i` goes to its place among the rows before it, which move on one by one. */
  method InsertInPlace(a: array<Entry>, i: nat)
    requires i < a.Length && Descending(a[..i])
    modifies a
    ensures a[..i + 1] == Insert(old(a[..i]), old(a[i]))
    ensures a[i + 1..] == old(a[i + 1..])
  {
    var starttime := a[i].start;
    ghost var p, x := a[..i], a[i];
    ghost var q := [x];
    for j := 0 to i
      invariant q == Insert(p[..j], x) && |q| == j + 1
      invariant forall k :: 0 <= k < j ==> a[k] == q[k]
      invariant a[i] == q[j]
      invariant forall k :: j <= k < i ==> a[k] == p[k]
      invariant forall k :: i < k < a.Length ==> a[k] == old(a[k])
    {
      InsertPasses(p, x, j);
      if starttime > a[j].start {
        a[i], a[j] := a[j], a[i];
        q := q + [p[j]];
      } else {
        q := p[..j] + [p[j], x];
        assert p[..j + 1] + [x] == q;
      }
    }
    assert p[..i] == p && a[..i + 1] == q;
  }

  /** The loops of the report, in place. */
  method SortNewestFirst(a: array<Entry>)
    modifies a
    ensures a[..] == NewestFirst(old(a[..]))
  {
    ghost var was := a[..];
    if a.Length == 0 {
      return;
    }
    assert was[..1][..0] == [];
    for i := 1 to a.Length
      invariant a[..i] == NewestFirst(was[..i])
      invariant a[i..] == was[i..]
    {
      NewestFirstSorts(was[..i]);
      assert was[..i + 1][..i] == was[..i] && a[i] == was[i..][0];
      InsertInPlace(a, i);
      assert was[i + 1..] == was[i..][1..];
    }
    assert was[..a.Length] == was && a[..a.Length] == a[..];
  }
}
