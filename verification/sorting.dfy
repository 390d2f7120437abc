/**
 * `Array.prototype.sort(cmp)` on values. The language requires the sort to be
 * stable; given a consistent comparator the result is then the stable ordering
 * of the input, which insertion sort computes.
 */
module Sorting {

  /**
   * A comparator that the sort can rely on: the sign of `cmp(a, b)` is the
   * opposite of the sign of `cmp(b, a)`, and "not after" (`cmp <= 0`) is transitive.
   */
  ghost predicate Consistent<T(!new)>(cmp: (T, T) -> int) {
    && (forall a, b :: cmp(a, b) < 0 <==> cmp(b, a) > 0)
    && (forall a, b, c :: cmp(a, b) <= 0 && cmp(b, c) <= 0 ==> cmp(a, c) <= 0)
  }

  /** Every element is "not after" every later one. */
  ghost predicate Sorted<T>(s: seq<T>, cmp: (T, T) -> int) {
    forall i, j :: 0 <= i < j < |s| ==> cmp(s[i], s[j]) <= 0
  }

  /** The elements of `s` that compare equal to `k`, in their order in `s`. */
  function ClassOf<T>(s: seq<T>, k: T, cmp: (T, T) -> int): seq<T> {
    if s == [] then []
    else Singleton(s[0], k, cmp) + ClassOf(s[1..], k, cmp)
  }

  /** Puts `x` in front of the first element it is not after. */
  function Insert<T>(x: T, r: seq<T>, cmp: (T, T) -> int): (r': seq<T>)
    ensures multiset(r') == multiset(r) + multiset{x}
  {
    if r == [] || cmp(x, r[0]) <= 0 then [x] + r
    else
      assert r == [r[0]] + r[1..];
      [r[0]] + Insert(x, r[1..], cmp)
  }

  /** The sort: each element is inserted in front of the sorted rest. */
  function Sort<T>(s: seq<T>, cmp: (T, T) -> int): (r: seq<T>)
    ensures multiset(r) == multiset(s)
    ensures |r| == |s|
  {
    if s == [] then []
    else
      assert s == [s[0]] + s[1..];
      Insert(s[0], Sort(s[1..], cmp), cmp)
  }

  lemma {:induction false} InsertSorted<T(!new)>(x: T, r: seq<T>, cmp: (T, T) -> int)
    requires Consistent(cmp) && Sorted(r, cmp)
    ensures Sorted(Insert(x, r, cmp), cmp)
  {
    if r == [] || cmp(x, r[0]) <= 0 {
      var s := [x] + r;
      forall i, j | 0 <= i < j < |s| ensures cmp(s[i], s[j]) <= 0 {
        if i == 0 && j > 1 {
          assert cmp(r[0], r[j - 1]) <= 0;
        }
      }
    } else {
      var t := Insert(x, r[1..], cmp);
      InsertSorted(x, r[1..], cmp);
      var s := [r[0]] + t;
      assert cmp(r[0], x) < 0;
      forall i, j | 0 <= i < j < |s| ensures cmp(s[i], s[j]) <= 0 {
        if i == 0 {
          assert s[j] in multiset(t);
          if s[j] != x {
            assert s[j] in multiset(r[1..]);
            var m :| 0 <= m < |r[1..]| && r[1..][m] == s[j];
            assert cmp(r[0], r[m + 1]) <= 0;
          }
        }
      }
    }
  }

  /** The sort's output is sorted. */
  lemma {:induction false} SortSorted<T(!new)>(s: seq<T>, cmp: (T, T) -> int)
    requires Consistent(cmp)
    ensures Sorted(Sort(s, cmp), cmp)
  {
    if s != [] {
      SortSorted(s[1..], cmp);
      InsertSorted(s[0], Sort(s[1..], cmp), cmp);
    }
  }

  lemma {:induction false} ClassOfAppend<T>(a: seq<T>, b: seq<T>, k: T, cmp: (T, T) -> int)
    ensures ClassOf(a + b, k, cmp) == ClassOf(a, k, cmp) + ClassOf(b, k, cmp)
  {
    if a != [] {
      assert (a + b)[1..] == a[1..] + b;
      ClassOfAppend(a[1..], b, k, cmp);
    } else {
      assert a + b == b;
    }
  }

  function Singleton<T>(x: T, k: T, cmp: (T, T) -> int): seq<T> {
    if cmp(x, k) == 0 then [x] else []
  }

  lemma {:induction false} InsertClass<T(!new)>(x: T, r: seq<T>, k: T, cmp: (T, T) -> int)
    requires Consistent(cmp)
    ensures ClassOf(Insert(x, r, cmp), k, cmp) == Singleton(x, k, cmp) + ClassOf(r, k, cmp)
  {
    if r == [] || cmp(x, r[0]) <= 0 {
      assert ([x] + r)[1..] == r;
    } else {
      var rest := Insert(x, r[1..], cmp);
      InsertClass(x, r[1..], k, cmp);
      assert ClassOf(Insert(x, r, cmp), k, cmp) == Singleton(r[0], k, cmp) + ClassOf(rest, k, cmp) by {
        assert ([r[0]] + rest)[1..] == rest;
      }
      assert Singleton(r[0], k, cmp) + Singleton(x, k, cmp) == Singleton(x, k, cmp) + Singleton(r[0], k, cmp) by {
        NotBothEquivalent(r[0], x, k, cmp);
      }
      assert ClassOf(r, k, cmp) == Singleton(r[0], k, cmp) + ClassOf(r[1..], k, cmp);
    }
  }

  /** An element strictly before another is not equivalent to the same `k` as it. */
  lemma NotBothEquivalent<T(!new)>(y: T, x: T, k: T, cmp: (T, T) -> int)
    requires Consistent(cmp) && cmp(x, y) > 0
    ensures !(cmp(x, k) == 0 && cmp(y, k) == 0)
  {
  }

  /** Stability: the elements of any equivalence class keep their input order. */
  lemma {:induction false} SortStable<T(!new)>(s: seq<T>, k: T, cmp: (T, T) -> int)
    requires Consistent(cmp)
    ensures ClassOf(Sort(s, cmp), k, cmp) == ClassOf(s, k, cmp)
  {
    if s != [] {
      SortStable(s[1..], k, cmp);
      InsertClass(s[0], Sort(s[1..], cmp), k, cmp);
    }
  }
}
