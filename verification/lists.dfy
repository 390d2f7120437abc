/**
 * `Array.prototype.filter` and `Array.prototype.map` on values, with the
 * facts the pipelines built from them rely on.
 */
module Lists {

  /** `s.filter(p)`: the elements satisfying `p`, in their order. */
  function Filter<T>(s: seq<T>, p: T -> bool): (r: seq<T>)
    ensures |r| <= |s|
    ensures forall k :: 0 <= k < |r| ==> p(r[k])
  {
    if s == [] then [] else (if p(s[0]) then [s[0]] else []) + Filter(s[1..], p)
  }

  /** `s.map(f)` */
  function Map<A, B>(s: seq<A>, f: A -> B): (r: seq<B>)
    ensures |r| == |s| && forall k :: 0 <= k < |s| ==> r[k] == f(s[k])
  {
    seq(|s|, k requires 0 <= k < |s| => f(s[k]))
  }

  /** Filtering keeps every occurrence of an element that passes and none of one that does not. */
  lemma {:induction false} FilterCount<T>(s: seq<T>, p: T -> bool, x: T)
    ensures multiset(Filter(s, p))[x] == if p(x) then multiset(s)[x] else 0
  {
    if s != [] {
      FilterCount(s[1..], p, x);
      assert s == [s[0]] + s[1..];
    }
  }

  /** Filtering keeps a sub-multiset of the elements. */
  lemma FilterSub<T>(s: seq<T>, p: T -> bool)
    ensures multiset(Filter(s, p)) <= multiset(s)
  {
    forall x ensures multiset(Filter(s, p))[x] <= multiset(s)[x] {
      FilterCount(s, p, x);
    }
  }

  lemma FilterMember<T>(s: seq<T>, p: T -> bool, x: T)
    ensures x in Filter(s, p) <==> x in s && p(x)
  {
    FilterCount(s, p, x);
    assert x in Filter(s, p) <==> multiset(Filter(s, p))[x] > 0;
  }

  /** A filter that every element passes changes nothing. */
  lemma {:induction false} FilterAll<T>(s: seq<T>, p: T -> bool)
    requires forall k :: 0 <= k < |s| ==> p(s[k])
    ensures Filter(s, p) == s
  {
    if s != [] {
      FilterAll(s[1..], p);
    }
  }

  /** Two tests that agree on the elements give the same result. */
  lemma {:induction false} FilterExt<T>(s: seq<T>, p: T -> bool, q: T -> bool)
    requires forall k :: 0 <= k < |s| ==> p(s[k]) == q(s[k])
    ensures Filter(s, p) == Filter(s, q)
  {
    if s != [] {
      FilterExt(s[1..], p, q);
    }
  }

  lemma {:induction false} FilterAppend<T>(a: seq<T>, b: seq<T>, p: T -> bool)
    ensures Filter(a + b, p) == Filter(a, p) + Filter(b, p)
  {
    if a == [] {
      assert a + b == b;
    } else {
      assert (a + b)[1..] == a[1..] + b;
      FilterAppend(a[1..], b, p);
    }
  }

  /** Filtering twice is filtering once by both tests. */
  lemma {:induction false} FilterFilter<T>(s: seq<T>, p: T -> bool, q: T -> bool)
    ensures Filter(Filter(s, p), q) == Filter(s, x => p(x) && q(x))
  {
    if s != [] {
      var pq := x => p(x) && q(x);
      FilterFilter(s[1..], p, q);
      var head := if p(s[0]) then [s[0]] else [];
      FilterAppend(head, Filter(s[1..], p), q);
      assert Filter(head, q) == if pq(s[0]) then [s[0]] else [] by {
        if p(s[0]) {
          assert head[1..] == [];
        }
      }
    }
  }

  /** Filtering after a map is mapping after filtering by the composed test. */
  lemma {:induction false} FilterMap<A, B>(s: seq<A>, f: A -> B, p: B -> bool)
    ensures Filter(Map(s, f), p) == Map(Filter(s, x => p(f(x))), f)
  {
    if s != [] {
      var g := x => p(f(x));
      var m := Map(s, f);
      FilterMap(s[1..], f, p);
      assert m[1..] == Map(s[1..], f);
      assert Filter(m, p) == (if p(f(s[0])) then [f(s[0])] else []) + Filter(Map(s[1..], f), p);
      var rest := Filter(s[1..], g);
      assert Filter(s, g) == (if g(s[0]) then [s[0]] else []) + rest;
      if g(s[0]) {
        assert Map([s[0]] + rest, f) == [f(s[0])] + Map(rest, f);
      }
    }
  }

  /**
   * A stronger test applied to a smaller collection keeps no more of any
   * element than a weaker test applied to a larger one.
   */
  lemma FilterSubMultiset<T>(a: seq<T>, b: seq<T>, p: T -> bool, q: T -> bool)
    requires multiset(a) <= multiset(b)
    requires forall x :: p(x) ==> q(x)
    ensures multiset(Filter(a, p)) <= multiset(Filter(b, q))
  {
    var fa, fb := multiset(Filter(a, p)), multiset(Filter(b, q));
    forall x ensures fa[x] <= fb[x] {
      FilterCount(a, p, x);
      FilterCount(b, q, x);
      assert multiset(a)[x] <= multiset(b)[x];
    }
    Pointwise(fa, fb);
  }

  lemma Pointwise<T>(a: multiset<T>, b: multiset<T>)
    requires forall x :: a[x] <= b[x]
    ensures a <= b
  {
  }
}
