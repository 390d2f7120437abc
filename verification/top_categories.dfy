/**
 * The home page's "popular categories": every category occurrence across the
 * fetched rows is counted, the names are ranked by count (highest first,
 * ties kept in order of first appearance) and the first eight are shown.
 */
module TopCategories {
  import opened Wrappers
  import opened Lists
  import opened Sorting

  /** One fetched row: its `categories` column, `None` when absent or not an array. */
  datatype Row = Row(categories: Option<seq<string>>)

  /** A name with its count, as `Object.entries` yields it. */
  datatype Entry = Entry(name: string, count: nat)

  /** How many categories the home page shows. */
  const TopCount: nat := 8

  // ----------------------------------------------------- the specification

  /** The categories a row contributes: none unless the column is an array. */
  function RowCategories(row: Row): seq<string> {
    row.categories.GetOr([])
  }

  /** Every category occurrence, row after row, in order. */
  function Flatten(rows: seq<Row>): seq<string> {
    if rows == [] then []
    else Flatten(rows[..|rows| - 1]) + RowCategories(rows[|rows| - 1])
  }

  /** The number of occurrences of `c`, repeats within a row included. */
  function Occurrences(flat: seq<string>, c: string): nat {
    multiset(flat)[c]
  }

  /** No element occurs twice. */
  predicate NoDuplicates<T(==)>(s: seq<T>) {
    forall i, j :: 0 <= i < j < |s| ==> s[i] != s[j]
  }

  /** The distinct elements in order of first appearance: the key order of the counting object. */
  function Distinct(s: seq<string>): (d: seq<string>)
    ensures NoDuplicates(d)
    ensures forall x :: x in d <==> x in s
  {
    if s == [] then []
    else
      var d := Distinct(s[..|s| - 1]);
      var x := s[|s| - 1];
      assert forall y :: y in s <==> y in s[..|s| - 1] || y == x by {
        assert s == s[..|s| - 1] + [x];
      }
      if x in d then d else d + [x]
  }

  /** `Object.entries(categoryCounts)`: each distinct name with its count, in key order. */
  function Entries(flat: seq<string>): seq<Entry> {
    Map(Distinct(flat), c => Entry(c, Occurrences(flat, c)))
  }

  /** The comparator `(a, b) => b[1] - a[1]`: higher counts first. */
  function ByCountDesc(a: Entry, b: Entry): int {
    b.count - a.count
  }

  /** The entries after the (stable) sort by count. */
  function Ranked(flat: seq<string>): seq<Entry> {
    Sort(Entries(flat), ByCountDesc)
  }

  /** `.slice(0, 8).map(([name]) => name)` */
  function FirstNames(ranked: seq<Entry>): seq<string> {
    Map(ranked[..if |ranked| < TopCount then |ranked| else TopCount], (e: Entry) => e.name)
  }

  /** The names of the first eight ranked entries; no data gives none. */
  function TopCategories(data: Option<seq<Row>>): seq<string> {
    match data
    case None => []
    case Some(rows) => FirstNames(Ranked(Flatten(rows)))
  }

  // ------------------------------------------------------ the computation

  /** One more occurrence: a name seen before keeps the key order, a new one is appended. */
  lemma DistinctSnoc(s: seq<string>, x: string)
    ensures Distinct(s + [x]) == if x in Distinct(s) then Distinct(s) else Distinct(s) + [x]
  {
    assert (s + [x])[..|s|] == s;
  }

  /** One more occurrence of `x` adds one to its count and leaves the others alone. */
  lemma OccurrencesSnoc(s: seq<string>, x: string, c: string)
    ensures Occurrences(s + [x], c) == Occurrences(s, c) + if c == x then 1 else 0
  {
    assert multiset(s + [x]) == multiset(s) + multiset{x};
  }

  /** `keys` and `counts` are the key order and the counts of the occurrences in `seen`. */
  ghost predicate Tally(keys: seq<string>, counts: map<string, nat>, seen: seq<string>) {
    && keys == Distinct(seen)
    && (forall c :: c in counts <==> c in keys)
    && (forall c :: c in counts ==> counts[c] == Occurrences(seen, c))
  }

  /** Counting one more occurrence of a name already counted keeps the tally. */
  lemma TallySeen(keys: seq<string>, counts: map<string, nat>, seen: seq<string>, c: string)
    requires Tally(keys, counts, seen) && c in counts
    ensures Tally(keys, counts[c := counts[c] + 1], seen + [c])
  {
    DistinctSnoc(seen, c);
    TallyCounts(counts, counts[c := counts[c] + 1], seen, c);
  }

  /** Counting the first occurrence of a name keeps the tally. */
  lemma TallyNew(keys: seq<string>, counts: map<string, nat>, seen: seq<string>, c: string)
    requires Tally(keys, counts, seen) && c !in counts
    ensures Tally(keys + [c], counts[c := 1], seen + [c])
  {
    DistinctSnoc(seen, c);
    TallyKeys(keys, counts, c);
    TallyCounts(counts, counts[c := 1], seen, c);
  }

  /** The key order and the counted names grow together. */
  lemma TallyKeys(keys: seq<string>, counts: map<string, nat>, c: string)
    requires forall x :: x in counts <==> x in keys
    ensures var counts', keys' := counts[c := if c in counts then counts[c] + 1 else 1], if c in counts then keys else keys + [c];
      forall x :: x in counts' <==> x in keys'
  {
  }

  /** The counts after one more occurrence of `c`, whether it is new or not. */
  lemma TallyCounts(counts: map<string, nat>, counts': map<string, nat>, seen: seq<string>, c: string)
    requires forall x :: x in counts ==> counts[x] == Occurrences(seen, x)
    requires c !in counts ==> c !in seen
    requires counts' == counts[c := if c in counts then counts[c] + 1 else 1]
    ensures forall x :: x in counts' ==> counts'[x] == Occurrences(seen + [c], x)
  {
    forall x | x in counts' ensures counts'[x] == Occurrences(seen + [c], x) {
      OccurrencesSnoc(seen, c, x);
      if x != c {
        assert counts'[x] == counts[x];
      }
    }
  }

  /** The same, for the row's next category. */
  lemma TallyAdd(keys: seq<string>, counts: map<string, nat>, seen: seq<string>, cats: seq<string>, j: nat)
    requires j < |cats| && Tally(keys, counts, seen + cats[..j])
    ensures var c := cats[j];
      c in counts ==> Tally(keys, counts[c := counts[c] + 1], seen + cats[..j + 1])
    ensures var c := cats[j];
      c !in counts ==> Tally(keys + [c], counts[c := 1], seen + cats[..j + 1])
  {
    assert seen + cats[..j + 1] == (seen + cats[..j]) + [cats[j]];
    if cats[j] in counts {
      TallySeen(keys, counts, seen + cats[..j], cats[j]);
    } else {
      TallyNew(keys, counts, seen + cats[..j], cats[j]);
    }
  }

  /** The inner loop: each category of one row adds one to its count. */
  method AddRow(keys: seq<string>, counts: map<string, nat>, cats: seq<string>, ghost seen: seq<string>)
    returns (keys': seq<string>, counts': map<string, nat>)
    requires Tally(keys, counts, seen)
    ensures Tally(keys', counts', seen + cats)
  {
    keys', counts' := keys, counts;
    var j := 0;
    assert seen + cats[..0] == seen;
    while j < |cats|
      invariant 0 <= j <= |cats|
      invariant Tally(keys', counts', seen + cats[..j])
    {
      var c := cats[j];
      TallyAdd(keys', counts', seen, cats, j);
      if c in counts' {
        counts' := counts'[c := counts'[c] + 1];
      } else {
        counts' := counts'[c := 1];
        keys' := keys' + [c];
      }
      j := j + 1;
    }
    assert cats[..j] == cats;
  }

  /**
   * The counting loops: every row whose categories are an array adds one to
   * the count of each of its categories; a name seen for the first time is
   * appended to the key order.
   */
  method CountCategories(rows: seq<Row>) returns (keys: seq<string>, counts: map<string, nat>)
    ensures keys == Distinct(Flatten(rows))
    ensures forall c :: c in counts <==> c in keys
    ensures forall c :: c in counts ==> counts[c] == Occurrences(Flatten(rows), c)
  {
    keys := [];
    counts := map[];
    var i := 0;
    while i < |rows|
      invariant 0 <= i <= |rows|
      invariant Tally(keys, counts, Flatten(rows[..i]))
    {
      assert rows[..i + 1][..i] == rows[..i];
      assert Flatten(rows[..i + 1]) == Flatten(rows[..i]) + RowCategories(rows[i]);
      if rows[i].categories.Some? {
        keys, counts := AddRow(keys, counts, rows[i].categories.value, Flatten(rows[..i]));
      } else {
        assert Flatten(rows[..i]) + RowCategories(rows[i]) == Flatten(rows[..i]);
      }
      i := i + 1;
    }
    assert rows[..i] == rows;
  }

  /** `getTopCategories` on the fetched data: count, sort by count, keep eight, keep the names. */
  method GetTopCategories(data: Option<seq<Row>>) returns (names: seq<string>)
    ensures names == TopCategories(data)
  {
    if data.None? {
      return [];
    }
    var flat := Flatten(data.value);
    var keys, counts := CountCategories(data.value);
    var entries := seq(|keys|, k requires 0 <= k < |keys| => Entry(keys[k], counts[keys[k]]));
    assert entries == Entries(flat);
    var ranked := Sort(entries, ByCountDesc);
    names := FirstNames(ranked);
  }

  // ------------------------------------------------------------ properties

  lemma ByCountDescConsistent()
    ensures Consistent(ByCountDesc)
  {
  }

  /** `r` holds, for each category in `flat`, its name with its number of occurrences, and nothing else. */
  ghost predicate CountedFrom(r: seq<Entry>, flat: seq<string>) {
    && (forall e :: e in r ==> e.name in flat && e.count == Occurrences(flat, e.name))
    && (forall c :: c in flat ==> Entry(c, Occurrences(flat, c)) in r)
  }

  /** The entries hold every category exactly once, with its count. */
  lemma EntriesCounted(flat: seq<string>)
    ensures CountedFrom(Entries(flat), flat)
    ensures NoDuplicates(Entries(flat))
  {
    var es := Entries(flat);
    var d := Distinct(flat);
    forall c | c in flat
      ensures Entry(c, Occurrences(flat, c)) in es
    {
      var k :| 0 <= k < |d| && d[k] == c;
      assert es[k] == Entry(c, Occurrences(flat, c));
    }
    forall i, j | 0 <= i < j < |es| ensures es[i] != es[j] {
      assert es[i].name == d[i];
    }
  }

  /** A permutation of a counted list is counted. */
  lemma CountedPermutation(a: seq<Entry>, b: seq<Entry>, flat: seq<string>)
    requires CountedFrom(a, flat) && multiset(b) == multiset(a)
    ensures CountedFrom(b, flat)
  {
    forall e | e in b ensures e in a {
      assert e in multiset(b);
    }
    forall e | e in a ensures e in b {
      assert e in multiset(a);
    }
  }

  /** In a list without duplicates each element occurs at most once. */
  lemma {:induction false} NoDuplicatesCount<T>(s: seq<T>, x: T)
    requires NoDuplicates(s)
    ensures multiset(s)[x] <= 1
  {
    if s != [] {
      assert s == [s[0]] + s[1..];
      NoDuplicatesCount(s[1..], x);
      if s[0] == x {
        assert x !in s[1..];
      }
    }
  }

  /** A permutation of a list without duplicates has none. */
  lemma PermutationNoDuplicates<T>(s: seq<T>, t: seq<T>)
    requires NoDuplicates(s) && multiset(t) == multiset(s)
    ensures NoDuplicates(t)
  {
    forall i, j | 0 <= i < j < |t| ensures t[i] != t[j] {
      if t[i] == t[j] {
        var x := t[i];
        assert t == t[..j] + t[j..];
        assert x in t[..j] && x in t[j..];
        assert multiset(t)[x] >= 2;
        NoDuplicatesCount(s, x);
        assert false;
      }
    }
  }

  /** In a counted list without duplicates no two entries share a name. */
  lemma CountedNamesDistinct(r: seq<Entry>, flat: seq<string>)
    requires CountedFrom(r, flat) && NoDuplicates(r)
    ensures forall i, j :: 0 <= i < j < |r| ==> r[i].name != r[j].name
  {
    forall i, j | 0 <= i < j < |r| ensures r[i].name != r[j].name {
      assert r[i] in r && r[j] in r;
    }
  }

  /** The ranked entries: a counted permutation of the entries, without duplicates, sorted by count. */
  lemma RankedFacts(flat: seq<string>)
    ensures CountedFrom(Ranked(flat), flat) && NoDuplicates(Ranked(flat))
    ensures Sorted(Ranked(flat), ByCountDesc)
    ensures |Ranked(flat)| == |Distinct(flat)|
  {
    var es := Entries(flat);
    EntriesCounted(flat);
    CountedPermutation(es, Ranked(flat), flat);
    PermutationNoDuplicates(es, Ranked(flat));
    ByCountDescConsistent();
    SortSorted(es, ByCountDesc);
  }

  /** The first names of a counted list without duplicates: at most eight, distinct, each a category of `flat`. */
  lemma FirstNamesShape(r: seq<Entry>, flat: seq<string>)
    requires CountedFrom(r, flat) && NoDuplicates(r)
    ensures |FirstNames(r)| == if |r| < TopCount then |r| else TopCount
    ensures NoDuplicates(FirstNames(r))
    ensures forall c :: c in FirstNames(r) ==> c in flat
  {
    CountedNamesDistinct(r, flat);
    forall c | c in FirstNames(r) ensures c in flat {
      var k :| 0 <= k < |FirstNames(r)| && FirstNames(r)[k] == c;
      assert r[k] in r;
    }
  }

  /**
   * Size and membership: at most eight names, fewer only when fewer distinct
   * categories exist; the names are distinct and each occurs in some row.
   * No data gives no names.
   */
  lemma TopCategoriesShape(data: Option<seq<Row>>)
    ensures data.None? ==> TopCategories(data) == []
    ensures data.Some? ==> var d := Distinct(Flatten(data.value));
      |TopCategories(data)| == if |d| < TopCount then |d| else TopCount
    ensures NoDuplicates(TopCategories(data))
    ensures data.Some? ==> forall c :: c in TopCategories(data) ==> c in Flatten(data.value)
  {
    if data.Some? {
      var flat := Flatten(data.value);
      RankedFacts(flat);
      FirstNamesShape(Ranked(flat), flat);
    }
  }

  /**
   * The first names of a counted list sorted by count: their counts never
   * increase, and a category left out implies eight were kept, none with a
   * smaller count.
   */
  lemma FirstNamesOrder(r: seq<Entry>, flat: seq<string>)
    requires CountedFrom(r, flat) && Sorted(r, ByCountDesc)
    ensures var top := FirstNames(r);
      forall i, j :: 0 <= i < j < |top| ==> Occurrences(flat, top[i]) >= Occurrences(flat, top[j])
    ensures var top := FirstNames(r);
      forall c :: c in flat && c !in top ==>
        |top| == TopCount && Occurrences(flat, c) <= Occurrences(flat, top[TopCount - 1])
  {
    var top := FirstNames(r);
    FirstNamesAt(r);
    forall i, j | 0 <= i < j < |top| ensures Occurrences(flat, top[i]) >= Occurrences(flat, top[j]) {
      SortedCounts(r, flat, i, j);
    }
    forall c | c in flat && c !in top
      ensures |top| == TopCount && Occurrences(flat, c) <= Occurrences(flat, top[TopCount - 1])
    {
      var m :| 0 <= m < |r| && r[m] == Entry(c, Occurrences(flat, c));
      assert m >= |top|;
      SortedCounts(r, flat, TopCount - 1, m);
    }
  }

  /** The first names are the names of the first (up to eight) entries, in order. */
  lemma FirstNamesAt(r: seq<Entry>)
    ensures |FirstNames(r)| == if |r| < TopCount then |r| else TopCount
    ensures forall k :: 0 <= k < |FirstNames(r)| ==> FirstNames(r)[k] == r[k].name
  {
  }

  /** In a counted list sorted by count, an earlier name occurs at least as often as a later one. */
  lemma SortedCounts(r: seq<Entry>, flat: seq<string>, i: nat, j: nat)
    requires CountedFrom(r, flat) && Sorted(r, ByCountDesc) && i <= j < |r|
    ensures Occurrences(flat, r[i].name) >= Occurrences(flat, r[j].name)
  {
    assert r[i] in r && r[j] in r;
    if i < j {
      assert ByCountDesc(r[i], r[j]) <= 0;
    }
  }

  /**
   * Order: the returned names' counts never increase, and a category left
   * out is left out only because eight others were kept, none of them with
   * a smaller count.
   */
  lemma TopCategoriesOrder(rows: seq<Row>)
    ensures var top, flat := TopCategories(Some(rows)), Flatten(rows);
      forall i, j :: 0 <= i < j < |top| ==> Occurrences(flat, top[i]) >= Occurrences(flat, top[j])
    ensures var top, flat := TopCategories(Some(rows)), Flatten(rows);
      forall c :: c in flat && c !in top ==>
        |top| == TopCount && Occurrences(flat, c) <= Occurrences(flat, top[TopCount - 1])
  {
    RankedFacts(Flatten(rows));
    FirstNamesOrder(Ranked(Flatten(rows)), Flatten(rows));
  }

  /** The test "equivalent to `k`". */
  function EquivalentTo<T>(k: T, cmp: (T, T) -> int): T -> bool {
    x => cmp(x, k) == 0
  }

  /** The elements of an equivalence class, as `ClassOf` lists them, are those a filter keeps. */
  lemma {:induction false} ClassOfIsFilter<T>(s: seq<T>, k: T, cmp: (T, T) -> int)
    ensures ClassOf(s, k, cmp) == Filter(s, EquivalentTo(k, cmp))
  {
    if s != [] {
      ClassOfIsFilter(s[1..], k, cmp);
    }
  }

  /** The stable sort keeps the members of each equivalence class in their order. */
  lemma SortStableFilter<T(!new)>(s: seq<T>, k: T, cmp: (T, T) -> int)
    requires Consistent(cmp)
    ensures Filter(Sort(s, cmp), EquivalentTo(k, cmp)) == Filter(s, EquivalentTo(k, cmp))
  {
    SortStable(s, k, cmp);
    ClassOfIsFilter(Sort(s, cmp), k, cmp);
    ClassOfIsFilter(s, k, cmp);
  }

  /** The test "has count `n`". */
  function CountIs(n: nat): Entry -> bool {
    (e: Entry) => e.count == n
  }

  lemma SortByCountClass(es: seq<Entry>, k: Entry)
    ensures Filter(Sort(es, ByCountDesc), EquivalentTo(k, ByCountDesc)) == Filter(es, EquivalentTo(k, ByCountDesc))
  {
    ByCountDescConsistent();
    SortStableFilter(es, k, ByCountDesc);
  }

  /** Sorting by count keeps the entries of each count in their order. */
  lemma SortByCountStable(es: seq<Entry>, n: nat)
    ensures Filter(Sort(es, ByCountDesc), CountIs(n)) == Filter(es, CountIs(n))
  {
    var k := Entry("", n);
    var r := Sort(es, ByCountDesc);
    SortByCountClass(es, k);
    forall e ensures EquivalentTo(k, ByCountDesc)(e) == CountIs(n)(e) {
      CountIsClass(n, e);
    }
    FilterExt(r, EquivalentTo(k, ByCountDesc), CountIs(n));
    FilterExt(es, EquivalentTo(k, ByCountDesc), CountIs(n));
  }

  /** An entry is equivalent to one with count `n` exactly when its count is `n`. */
  lemma CountIsClass(n: nat, e: Entry)
    ensures EquivalentTo(Entry("", n), ByCountDesc)(e) == CountIs(n)(e)
  {
    var k := Entry("", n);
    assert EquivalentTo(k, ByCountDesc)(e) == (ByCountDesc(e, k) == 0);
    assert CountIs(n)(e) == (e.count == n);
  }

  /**
   * Stability: for every count, the ranked entries with that count are in
   * the order their names first appeared in the rows.
   */
  lemma RankedStable(flat: seq<string>, n: nat)
    ensures Filter(Ranked(flat), CountIs(n)) == Filter(Entries(flat), CountIs(n))
  {
    SortByCountStable(Entries(flat), n);
  }
}
