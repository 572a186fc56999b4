/** The first n members of a finite set under a strict total order: what `ORDER BY ... LIMIT n` selects. */
module Ranking {

  ghost predicate StrictTotalOn<T(!new)>(less: (T, T) -> bool, s: set<T>) {
    && (forall x :: x in s ==> !less(x, x))
    && (forall x, y :: x in s && y in s && x != y ==> less(x, y) || less(y, x))
    && (forall x, y, z :: x in s && y in s && z in s && less(x, y) && less(y, z) ==> less(x, z))
  }

  /** `low` holds n members, and each of them comes before everything left out. */
  ghost predicate IsFirst<T(!new)>(less: (T, T) -> bool, s: set<T>, low: set<T>, n: nat) {
    low <= s && |low| == n && forall x, y :: x in low && y in s - low ==> less(x, y)
  }

  lemma {:induction false} LeastExists<T(!new)>(less: (T, T) -> bool, s: set<T>) returns (m: T)
    requires StrictTotalOn(less, s) && s != {}
    ensures m in s && forall x :: x in s && x != m ==> less(m, x)
    decreases s
  {
    m :| m in s;
    if s != {m} {
      var g := LeastExists(less, s - {m});
      if less(g, m) { m := g; }
    }
  }

  lemma {:induction false} FirstExists<T(!new)>(less: (T, T) -> bool, s: set<T>, n: nat)
    requires StrictTotalOn(less, s) && n <= |s|
    ensures exists low :: IsFirst(less, s, low, n)
    decreases n
  {
    if n == 0 {
      assert IsFirst(less, s, {}, 0);
    } else {
      var m := LeastExists(less, s);
      FirstExists(less, s - {m}, n - 1);
      var low :| IsFirst(less, s - {m}, low, n - 1);
      assert s - (low + {m}) == (s - {m}) - low;
      assert IsFirst(less, s, low + {m}, n);
    }
  }

  lemma {:induction false} NoneApart<T(!new)>(less: (T, T) -> bool, s: set<T>, low: set<T>, low': set<T>, n: nat, x: T, y: T)
    requires StrictTotalOn(less, s) && IsFirst(less, s, low, n) && IsFirst(less, s, low', n)
    requires x in low && y in low'
    ensures x in low' || y in low
  {
    assert y in s - low ==> less(x, y);
    assert x in s - low' ==> less(y, x);
  }

  /** There is only one such set. */
  lemma {:induction false} FirstUnique<T(!new)>(less: (T, T) -> bool, s: set<T>, low: set<T>, low': set<T>, n: nat)
    requires StrictTotalOn(less, s) && IsFirst(less, s, low, n) && IsFirst(less, s, low', n)
    ensures low == low'
  {
    forall x, y | x in low && y in low' ensures x in low' || y in low { NoneApart(less, s, low, low', n, x, y); }
    assert low <= low' || low' <= low;
    assert low == low * low' + (low - low') && low' == low * low' + (low' - low);
  }

  lemma {:induction false} SubsetSize<T>(a: set<T>, b: set<T>)
    requires a <= b
    ensures |a| <= |b|
  {
    assert b == a + (b - a);
  }
}
