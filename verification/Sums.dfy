/** Sums over finite sets. */
module Sums {
  ghost function Sum<T(!new)>(f: T -> int, s: set<T>): int {
    if s == {} then 0
    else
      var x :| x in s;
      f(x) + Sum(f, s - {x})
  }

  /** Any element may be taken out first. */
  lemma {:induction false} SumPick<T(!new)>(f: T -> int, s: set<T>, x: T)
    requires x in s
    ensures Sum(f, s) == f(x) + Sum(f, s - {x})
    decreases |s|
  {
    var y :| y in s && Sum(f, s) == f(y) + Sum(f, s - {y});
    if x != y {
      SumPick(f, s - {y}, x);
      SumPick(f, s - {x}, y);
      assert s - {x} - {y} == s - {y} - {x};
    }
  }

  lemma {:induction false} SumGrow<T(!new)>(f: T -> int, s: set<T>, x: T)
    requires x !in s
    ensures Sum(f, s + {x}) == Sum(f, s) + f(x)
  {
    SumPick(f, s + {x}, x);
    assert s + {x} - {x} == s;
  }

  lemma {:induction false} SumSame<T(!new)>(f: T -> int, g: T -> int, s: set<T>)
    requires forall x :: x in s ==> f(x) == g(x)
    ensures Sum(f, s) == Sum(g, s)
    decreases |s|
  {
    if s != {} {
      var x :| x in s;
      SumPick(f, s, x);
      SumPick(g, s, x);
      SumSame(f, g, s - {x});
    }
  }

  /** Changing one term changes the sum by as much. */
  lemma {:induction false} SumChange<T(!new)>(f: T -> int, g: T -> int, s: set<T>, k: T)
    requires forall x :: x in s && x != k ==> f(x) == g(x)
    ensures Sum(g, s) == Sum(f, s) + if k in s then g(k) - f(k) else 0
  {
    if k in s {
      SumPick(f, s, k);
      SumPick(g, s, k);
      SumSame(f, g, s - {k});
    } else {
      SumSame(f, g, s);
    }
  }

  lemma {:induction false} SumMonotone<T(!new)>(f: T -> int, g: T -> int, s: set<T>)
    requires forall x :: x in s ==> f(x) <= g(x)
    ensures Sum(f, s) <= Sum(g, s)
    decreases |s|
  {
    if s != {} {
      var x :| x in s;
      SumPick(f, s, x);
      SumPick(g, s, x);
      SumMonotone(f, g, s - {x});
    }
  }

  lemma {:induction false} SumAtLeast<T(!new)>(f: T -> int, s: set<T>, k: T)
    requires k in s && forall x :: x in s ==> f(x) >= 0
    ensures Sum(f, s) >= f(k)
  {
    SumPick(f, s, k);
    SumNotNegative(f, s - {k});
  }

  lemma {:induction false} SumNotNegative<T(!new)>(f: T -> int, s: set<T>)
    requires forall x :: x in s ==> f(x) >= 0
    ensures Sum(f, s) >= 0
    decreases |s|
  {
    if s != {} {
      var x :| x in s;
      SumPick(f, s, x);
      SumNotNegative(f, s - {x});
    }
  }

  lemma {:induction false} SumPlus<T(!new)>(f: T -> int, g: T -> int, h: T -> int, s: set<T>)
    requires forall x :: x in s ==> h(x) == f(x) + g(x)
    ensures Sum(h, s) == Sum(f, s) + Sum(g, s)
    decreases |s|
  {
    if s != {} {
      var x :| x in s;
      SumPick(f, s, x);
      SumPick(g, s, x);
      SumPick(h, s, x);
      SumPlus(f, g, h, s - {x});
    }
  }

  /** A part and the rest. */
  lemma {:induction false} SumSplits<T(!new)>(f: T -> int, s: set<T>, part: set<T>)
    requires part <= s
    ensures Sum(f, s) == Sum(f, part) + Sum(f, s - part)
    decreases |part|
  {
    if part == {} {
      assert s - part == s;
    } else {
      var x :| x in part;
      SumPick(f, s, x);
      SumPick(f, part, x);
      SumSplits(f, s - {x}, part - {x});
      assert s - {x} - (part - {x}) == s - part;
    }
  }

  lemma {:induction false} SumIsZero<T(!new)>(f: T -> int, s: set<T>)
    requires forall x :: x in s ==> f(x) >= 0
    ensures Sum(f, s) == 0 <==> forall x :: x in s ==> f(x) == 0
    decreases |s|
  {
    SumNotNegative(f, s);
    if s != {} {
      var x :| x in s;
      SumPick(f, s, x);
      SumNotNegative(f, s - {x});
      SumIsZero(f, s - {x});
    }
  }

  /** The elements of one key. */
  ghost function Keyed<T(!new), K(!new)>(all: set<T>, key: T -> K, k: K): set<T> {
    set x | x in all && key(x) == k
  }

  /** A sum taken key by key. */
  lemma {:induction false} SumByKey<T(!new), K(!new)>(f: T -> int, all: set<T>, key: T -> K, g: K -> int, keys: set<K>)
    requires forall x :: x in all ==> key(x) in keys
    requires forall k :: k in keys ==> g(k) == Sum(f, Keyed(all, key, k))
    ensures Sum(g, keys) == Sum(f, all)
    decreases |keys|
  {
    if keys != {} {
      var k :| k in keys;
      var own := Keyed(all, key, k);
      SumPick(g, keys, k);
      SumSplits(f, all, own);
      forall j | j in keys - {k} ensures g(j) == Sum(f, Keyed(all - own, key, j)) {
        assert Keyed(all - own, key, j) == Keyed(all, key, j);
      }
      SumByKey(f, all - own, key, g, keys - {k});
    }
  }
}
