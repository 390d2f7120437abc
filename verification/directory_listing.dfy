/**
 * The directory page: the recomputation that turns the fetched snapshot and
 * the filter state into the ordered result list, the page slicing over that
 * list, and the page state that the handlers update.
 */
module DirectoryListing {
  import opened Wrappers
  import opened Strings
  import opened Lists
  import opened Sorting
  import opened DirectorySearch

  /** A record as it sits in the result list, with the relevance score written on it (or cleared). */
  datatype Scored = Scored(m: Majstor, score: Option<nat>)

  datatype SortField = Name | WaitTimeDays | Location | CreatedAt | SearchScoreField
  datatype SortOrder = Asc | Desc

  /** Everything the recomputation depends on besides the snapshot. */
  datatype Criteria = Criteria(
    query: string,
    categories: seq<string>,
    languages: seq<string>,
    emergencyOnly: bool,
    weekendEveningOnly: bool,
    location: string,
    sortField: SortField,
    sortOrder: SortOrder)

  // ------------------------------------------------------------ the search

  /** The query counts only when it has a non-blank character. */
  predicate QueryActive(query: string) {
    Trim(query) != []
  }

  /** Lower-cased, trimmed, split on runs of white space, empty pieces dropped. */
  function SearchTerms(query: string): seq<string> {
    Words(Trim(Lower(query)))
  }

  /** An active query always yields at least one term, so the inner length test always passes. */
  lemma SearchTermsNonEmpty(query: string)
    ensures SearchTerms(query) != [] <==> QueryActive(query)
    ensures forall k :: 0 <= k < |SearchTerms(query)| ==> IsWord(SearchTerms(query)[k])
  {
    TrimLowerEmpty(query);
    TrimEmptyIffAllSpace(Lower(query));
    var t := Trim(Lower(query));
    if AllSpace(t) {
      TrimEmptyIffAllSpace(t);
      TrimOfTrimmed(t);
    }
  }

  /** A query of Unicode space separators alone (U+3000, U+202F, U+1680) is blank, as `trim` sees it. */
  lemma UnicodeBlankQueryInactive()
    ensures !QueryActive("\U{3000}") && !QueryActive("\U{202F}\U{1680}")
  {
    TrimEmptyIffAllSpace("\U{3000}");
    TrimEmptyIffAllSpace("\U{202F}\U{1680}");
  }

  /** With a query: keep the records that match and write their scores; without: copies with the score cleared. */
  function Annotate(snapshot: seq<Majstor>, query: string): seq<Scored> {
    if QueryActive(query) then
      var terms := SearchTerms(query);
      Map(Filter(snapshot, m => MatchesSearch(m, terms)), m => Scored(m, Some(SearchScore(m, terms))))
    else
      Map(snapshot, m => Scored(m, None))
  }

  // ----------------------------------------------------------- the filters

  /** `selected.some(v => values.includes(v))` */
  predicate SharesAny(selected: seq<string>, values: seq<string>) {
    exists k | 0 <= k < |selected| :: selected[k] in values
  }

  /** `location` or `service_area`, lower-cased, includes the lower-cased query. */
  predicate LocationMatches(locationQuery: string, m: Majstor) {
    Contains(Lower(m.location), locationQuery) || Contains(Lower(m.serviceArea), locationQuery)
  }

  /** A stage that runs only when its control is set. */
  function FilterIf(active: bool, results: seq<Scored>, p: Scored -> bool): seq<Scored> {
    if active then Filter(results, p) else results
  }

  lemma FilterIfIsFilter(active: bool, results: seq<Scored>, p: Scored -> bool)
    ensures FilterIf(active, results, p) == Filter(results, (x: Scored) => !active || p(x))
  {
    if !active {
      FilterAll(results, (x: Scored) => !active || p(x));
    } else {
      FilterExt(results, p, (x: Scored) => !active || p(x));
    }
  }

  lemma FilterIfMember(active: bool, results: seq<Scored>, p: Scored -> bool, x: Scored)
    ensures x in FilterIf(active, results, p) <==> x in results && (active ==> p(x))
  {
    if active {
      FilterMember(results, p, x);
    }
  }

  /** A stricter stage over a smaller list keeps no more of any record. */
  lemma FilterIfShrinks(a: seq<Scored>, b: seq<Scored>, act2: bool, p2: Scored -> bool, act1: bool, p1: Scored -> bool)
    requires multiset(a) <= multiset(b)
    requires forall x :: (act2 ==> p2(x)) ==> (act1 ==> p1(x))
    ensures multiset(FilterIf(act2, a, p2)) <= multiset(FilterIf(act1, b, p1))
  {
    FilterIfIsFilter(act2, a, p2);
    FilterIfIsFilter(act1, b, p1);
    FilterSubMultiset(a, b, (x: Scored) => !act2 || p2(x), (x: Scored) => !act1 || p1(x));
  }

  function CategoryTest(c: Criteria): Scored -> bool {
    (x: Scored) => SharesAny(c.categories, x.m.categories)
  }

  function LanguageTest(c: Criteria): Scored -> bool {
    (x: Scored) => SharesAny(c.languages, x.m.languages)
  }

  function EmergencyTest(c: Criteria): Scored -> bool {
    (x: Scored) => x.m.emergencyAvailable
  }

  function WeekendTest(c: Criteria): Scored -> bool {
    (x: Scored) => x.m.weekendEvening
  }

  function LocationTest(c: Criteria): Scored -> bool {
    (x: Scored) => LocationMatches(Lower(c.location), x.m)
  }

  /** The filter stages after the search, in the effect's order. */
  function Filtered(c: Criteria, r: seq<Scored>): seq<Scored> {
    var r := FilterIf(c.categories != [], r, CategoryTest(c));
    var r := FilterIf(c.languages != [], r, LanguageTest(c));
    var r := FilterIf(c.emergencyOnly, r, EmergencyTest(c));
    var r := FilterIf(c.weekendEveningOnly, r, WeekendTest(c));
    FilterIf(c.location != [], r, LocationTest(c))
  }

  /** The record tests of the five filter stages together. */
  predicate PassesFilters(c: Criteria, x: Scored) {
    && (c.categories != [] ==> CategoryTest(c)(x))
    && (c.languages != [] ==> LanguageTest(c)(x))
    && (c.emergencyOnly ==> EmergencyTest(c)(x))
    && (c.weekendEveningOnly ==> WeekendTest(c)(x))
    && (c.location != [] ==> LocationTest(c)(x))
  }

  /** The filter stages keep exactly the records that pass all five tests. */
  lemma {:induction false} FilteredMember(c: Criteria, r: seq<Scored>, x: Scored)
    ensures x in Filtered(c, r) <==> x in r && PassesFilters(c, x)
  {
    var r1 := FilterIf(c.categories != [], r, CategoryTest(c));
    var r2 := FilterIf(c.languages != [], r1, LanguageTest(c));
    var r3 := FilterIf(c.emergencyOnly, r2, EmergencyTest(c));
    var r4 := FilterIf(c.weekendEveningOnly, r3, WeekendTest(c));
    FilterIfMember(c.location != [], r4, LocationTest(c), x);
    FilterIfMember(c.weekendEveningOnly, r3, WeekendTest(c), x);
    FilterIfMember(c.emergencyOnly, r2, EmergencyTest(c), x);
    FilterIfMember(c.languages != [], r1, LanguageTest(c), x);
    FilterIfMember(c.categories != [], r, CategoryTest(c), x);
  }

  // -------------------------------------------------------------- the sort

  /** A sort value: a number, or a lower-cased string. */
  datatype Key = IntKey(i: int) | StrKey(s: string)

  /**
   * JavaScript's `<` on two numbers or two strings. Every sort field has one
   * kind, so the mixed cases never arise; they are ordered numbers first only
   * to make the order total, not as JavaScript would compare them.
   */
  predicate KeyLess(a: Key, b: Key) {
    match (a, b)
    case (IntKey(x), IntKey(y)) => x < y
    case (StrKey(x), StrKey(y)) => StrLess(x, y)
    case (IntKey(_), StrKey(_)) => true
    case (StrKey(_), IntKey(_)) => false
  }

  lemma KeyLessOrder(a: Key, b: Key, c: Key)
    ensures !KeyLess(a, a)
    ensures KeyLess(a, b) ==> !KeyLess(b, a)
    ensures a == b || KeyLess(a, b) || KeyLess(b, a)
    ensures KeyLess(a, b) && KeyLess(b, c) ==> KeyLess(a, c)
  {
    if a.StrKey? {
      StrLessIrreflexive(a.s);
    }
    if a.StrKey? && b.StrKey? {
      StrLessTotal(a.s, b.s);
      if StrLess(a.s, b.s) { StrLessAsymmetric(a.s, b.s); }
    }
    if a.StrKey? && b.StrKey? && c.StrKey? && KeyLess(a, b) && KeyLess(b, c) {
      StrLessTransitive(a.s, b.s, c.s);
    }
  }

  /** The value the comparator reads; a missing score counts as 0. */
  function SortKey(x: Scored, field: SortField): Key {
    match field
    case Name => StrKey(Lower(x.m.name))
    case WaitTimeDays => IntKey(x.m.waitTimeDays)
    case Location => StrKey(Lower(x.m.location))
    case CreatedAt => StrKey(Lower(x.m.createdAt))
    case SearchScoreField => IntKey(x.score.GetOr(0))
  }

  /** `localeCompare`, taken as the code-point order of the two strings. */
  function LocaleCompare(a: string, b: string): (r: int)
    ensures r == -1 || r == 0 || r == 1
    ensures r < 0 <==> StrLess(a, b)
    ensures r == 0 <==> a == b
  {
    StrLessTotal(a, b);
    StrLessIrreflexive(a);
    if StrLess(a, b) then -1 else if StrLess(b, a) then 1 else 0
  }

  /** The comparator passed to `results.sort`. */
  function Compare(a: Scored, b: Scored, field: SortField, order: SortOrder): int {
    var ka, kb := SortKey(a, field), SortKey(b, field);
    if KeyLess(ka, kb) then (if order == Asc then -1 else 1)
    else if KeyLess(kb, ka) then (if order == Asc then 1 else -1)
    else if field == SearchScoreField then LocaleCompare(Lower(a.m.name), Lower(b.m.name))
    else 0
  }

  function Comparator(field: SortField, order: SortOrder): (Scored, Scored) -> int {
    (a, b) => Compare(a, b, field, order)
  }

  lemma CompareAntisymmetric(a: Scored, b: Scored, field: SortField, order: SortOrder)
    ensures Compare(a, b, field, order) < 0 <==> Compare(b, a, field, order) > 0
  {
    var ka, kb := SortKey(a, field), SortKey(b, field);
    KeyLessOrder(ka, kb, ka);
    var na, nb := Lower(a.m.name), Lower(b.m.name);
    StrLessTotal(na, nb);
    if StrLess(na, nb) { StrLessAsymmetric(na, nb); }
  }

  lemma CompareTransitive(a: Scored, b: Scored, c: Scored, field: SortField, order: SortOrder)
    requires Compare(a, b, field, order) <= 0 && Compare(b, c, field, order) <= 0
    ensures Compare(a, c, field, order) <= 0
  {
    var ka, kb, kc := SortKey(a, field), SortKey(b, field), SortKey(c, field);
    KeyLessOrder(ka, kb, kc);
    KeyLessOrder(kc, kb, ka);
    KeyLessOrder(ka, kc, kb);
    KeyLessOrder(kb, ka, kc);
    KeyLessOrder(kb, kc, ka);
    KeyLessOrder(kc, ka, kb);
    var na, nb, nc := Lower(a.m.name), Lower(b.m.name), Lower(c.m.name);
    if field == SearchScoreField && ka == kb == kc {
      if StrLess(na, nb) && StrLess(nb, nc) { StrLessTransitive(na, nb, nc); }
    }
  }

  /** The comparator is a consistent one, so the sort's guarantees apply. */
  lemma ComparatorConsistent(field: SortField, order: SortOrder)
    ensures Consistent(Comparator(field, order))
  {
    var cmp := Comparator(field, order);
    forall a, b ensures cmp(a, b) < 0 <==> cmp(b, a) > 0 {
      CompareAntisymmetric(a, b, field, order);
    }
    forall a, b, c | cmp(a, b) <= 0 && cmp(b, c) <= 0 ensures cmp(a, c) <= 0 {
      CompareTransitive(a, b, c, field, order);
    }
  }

  /** With an active query the sort is by score, descending, whatever the user chose. */
  function EffectiveField(c: Criteria): SortField {
    if QueryActive(c.query) then SearchScoreField else c.sortField
  }

  function EffectiveOrder(c: Criteria): SortOrder {
    if QueryActive(c.query) then Desc else c.sortOrder
  }

  // ------------------------------------------------------ the recomputation

  /** The effect body: search, the five filters, then the sort. */
  function Recompute(snapshot: seq<Majstor>, c: Criteria): seq<Scored> {
    Sort(Filtered(c, Annotate(snapshot, c.query)), Comparator(EffectiveField(c), EffectiveOrder(c)))
  }

  /** The score a record carries after the search stage. */
  function ScoreFor(query: string, m: Majstor): Option<nat> {
    if QueryActive(query) then Some(SearchScore(m, SearchTerms(query))) else None
  }

  /** The search stage keeps snapshot records (only matching ones under a query) and writes their score. */
  lemma AnnotateMember(snapshot: seq<Majstor>, query: string, x: Scored)
    requires x in Annotate(snapshot, query)
    ensures x.m in snapshot && x.score == ScoreFor(query, x.m)
    ensures QueryActive(query) ==> MatchesSearch(x.m, SearchTerms(query))
  {
    var r0 := Annotate(snapshot, query);
    var k :| 0 <= k < |r0| && r0[k] == x;
    if QueryActive(query) {
      var terms := SearchTerms(query);
      var kept := Filter(snapshot, m => MatchesSearch(m, terms));
      FilterMember(snapshot, m => MatchesSearch(m, terms), kept[k]);
    }
  }

  /** The converse: every snapshot record the search keeps comes out of the stage with its score. */
  lemma AnnotateComplete(snapshot: seq<Majstor>, query: string, m: Majstor)
    requires m in snapshot
    requires QueryActive(query) ==> MatchesSearch(m, SearchTerms(query))
    ensures Scored(m, ScoreFor(query, m)) in Annotate(snapshot, query)
  {
    if QueryActive(query) {
      var terms := SearchTerms(query);
      var kept := Filter(snapshot, m => MatchesSearch(m, terms));
      FilterMember(snapshot, m => MatchesSearch(m, terms), m);
      var k :| 0 <= k < |kept| && kept[k] == m;
      assert Annotate(snapshot, query)[k] == Scored(m, ScoreFor(query, m));
    } else {
      var k :| 0 <= k < |snapshot| && snapshot[k] == m;
      assert Annotate(snapshot, query)[k] == Scored(m, ScoreFor(query, m));
    }
  }

  /**
   * Every returned record is a snapshot record that passes the search (when
   * a query is active) and every active filter, carrying the score of the
   * current query or none; the list is a permutation of the filtered list.
   */
  lemma RecomputeMember(snapshot: seq<Majstor>, c: Criteria, x: Scored)
    requires x in Recompute(snapshot, c)
    ensures x.m in snapshot && x.score == ScoreFor(c.query, x.m)
    ensures QueryActive(c.query) ==> MatchesSearch(x.m, SearchTerms(c.query))
    ensures PassesFilters(c, x)
  {
    var r0 := Annotate(snapshot, c.query);
    assert x in multiset(Recompute(snapshot, c));
    FilteredMember(c, r0, x);
    AnnotateMember(snapshot, c.query, x);
  }

  /**
   * The converse of `RecomputeMember`: every snapshot record that passes the
   * search (when a query is active) and every active filter is returned, with
   * the score of the current query.
   */
  lemma RecomputeComplete(snapshot: seq<Majstor>, c: Criteria, m: Majstor)
    requires m in snapshot
    requires QueryActive(c.query) ==> MatchesSearch(m, SearchTerms(c.query))
    requires PassesFilters(c, Scored(m, ScoreFor(c.query, m)))
    ensures Scored(m, ScoreFor(c.query, m)) in Recompute(snapshot, c)
  {
    var x := Scored(m, ScoreFor(c.query, m));
    var r0 := Annotate(snapshot, c.query);
    AnnotateComplete(snapshot, c.query, m);
    FilteredMember(c, r0, x);
    assert x in multiset(Filtered(c, r0));
    assert x in multiset(Recompute(snapshot, c));
  }

  /** With no query and no filter set, every snapshot record comes back, with its score cleared. */
  lemma NothingSetKeepsAll(snapshot: seq<Majstor>, c: Criteria)
    requires !QueryActive(c.query) && c.categories == [] && c.languages == []
    requires !c.emergencyOnly && !c.weekendEveningOnly && c.location == []
    ensures multiset(Recompute(snapshot, c)) == multiset(Map(snapshot, m => Scored(m, None)))
  {
  }

  /** `c2` filters at least as much as `c1`: same query, and each control is the same or stricter. */
  predicate Tighter(c2: Criteria, c1: Criteria) {
    && c2.query == c1.query
    && (c1.categories != [] ==> c2.categories != [] && forall v :: v in c2.categories ==> v in c1.categories)
    && (c1.languages != [] ==> c2.languages != [] && forall v :: v in c2.languages ==> v in c1.languages)
    && (c1.emergencyOnly ==> c2.emergencyOnly)
    && (c1.weekendEveningOnly ==> c2.weekendEveningOnly)
    && (c1.location != [] ==> Contains(Lower(c2.location), Lower(c1.location)))
  }

  lemma SharesAnySubset(s2: seq<string>, s1: seq<string>, values: seq<string>)
    requires forall v :: v in s2 ==> v in s1
    requires SharesAny(s2, values)
    ensures SharesAny(s1, values)
  {
    var k :| 0 <= k < |s2| && s2[k] in values;
    assert s2[k] in s1;
    var j :| 0 <= j < |s1| && s1[j] == s2[k];
  }

  lemma LocationTighter(c2: Criteria, c1: Criteria, m: Majstor)
    requires Tighter(c2, c1)
    requires c2.location != [] ==> LocationMatches(Lower(c2.location), m)
    ensures c1.location != [] ==> LocationMatches(Lower(c1.location), m)
  {
    var q2, q1 := Lower(c2.location), Lower(c1.location);
    if c1.location != [] {
      assert q1 != [];
      if c2.location == [] {
        ContainsLength(q2, q1);
      } else if Contains(Lower(m.location), q2) {
        ContainsTransitive(Lower(m.location), q2, q1);
      } else {
        ContainsTransitive(Lower(m.serviceArea), q2, q1);
      }
    }
  }

  lemma CategoryTighter(c2: Criteria, c1: Criteria, x: Scored)
    requires Tighter(c2, c1)
    requires c2.categories != [] ==> CategoryTest(c2)(x)
    ensures c1.categories != [] ==> CategoryTest(c1)(x)
  {
    if c1.categories != [] { SharesAnySubset(c2.categories, c1.categories, x.m.categories); }
  }

  lemma LanguageTighter(c2: Criteria, c1: Criteria, x: Scored)
    requires Tighter(c2, c1)
    requires c2.languages != [] ==> LanguageTest(c2)(x)
    ensures c1.languages != [] ==> LanguageTest(c1)(x)
  {
    if c1.languages != [] { SharesAnySubset(c2.languages, c1.languages, x.m.languages); }
  }

  /** Each of the three list-valued controls, once tightened, lets through no record the looser one stops. */
  lemma StageTighter(c2: Criteria, c1: Criteria)
    requires Tighter(c2, c1)
    ensures forall x: Scored :: (c2.categories != [] ==> CategoryTest(c2)(x)) ==> (c1.categories != [] ==> CategoryTest(c1)(x))
    ensures forall x: Scored :: (c2.languages != [] ==> LanguageTest(c2)(x)) ==> (c1.languages != [] ==> LanguageTest(c1)(x))
    ensures forall x: Scored :: (c2.location != [] ==> LocationTest(c2)(x)) ==> (c1.location != [] ==> LocationTest(c1)(x))
  {
    forall x: Scored | c2.categories != [] ==> CategoryTest(c2)(x)
      ensures c1.categories != [] ==> CategoryTest(c1)(x)
    {
      CategoryTighter(c2, c1, x);
    }
    forall x: Scored | c2.languages != [] ==> LanguageTest(c2)(x)
      ensures c1.languages != [] ==> LanguageTest(c1)(x)
    {
      LanguageTighter(c2, c1, x);
    }
    forall x: Scored | c2.location != [] ==> LocationTest(c2)(x)
      ensures c1.location != [] ==> LocationTest(c1)(x)
    {
      LocationTighter(c2, c1, x.m);
    }
  }

  /** The two list-valued stages, tightened, keep no more of any record. */
  lemma ListStagesShrink(c2: Criteria, c1: Criteria, r0: seq<Scored>)
    requires Tighter(c2, c1)
    ensures multiset(FilterIf(c2.languages != [], FilterIf(c2.categories != [], r0, CategoryTest(c2)), LanguageTest(c2)))
         <= multiset(FilterIf(c1.languages != [], FilterIf(c1.categories != [], r0, CategoryTest(c1)), LanguageTest(c1)))
  {
    StageTighter(c2, c1);
    var a1 := FilterIf(c2.categories != [], r0, CategoryTest(c2));
    var b1 := FilterIf(c1.categories != [], r0, CategoryTest(c1));
    FilterIfShrinks(r0, r0, c2.categories != [], CategoryTest(c2), c1.categories != [], CategoryTest(c1));
    FilterIfShrinks(a1, b1, c2.languages != [], LanguageTest(c2), c1.languages != [], LanguageTest(c1));
  }

  /** The three remaining stages, tightened and applied to a smaller list, keep no more of any record. */
  lemma FlagStagesShrink(c2: Criteria, c1: Criteria, a2: seq<Scored>, b2: seq<Scored>)
    requires Tighter(c2, c1)
    requires multiset(a2) <= multiset(b2)
    ensures multiset(FilterIf(c2.location != [], FilterIf(c2.weekendEveningOnly, FilterIf(c2.emergencyOnly, a2, EmergencyTest(c2)), WeekendTest(c2)), LocationTest(c2)))
         <= multiset(FilterIf(c1.location != [], FilterIf(c1.weekendEveningOnly, FilterIf(c1.emergencyOnly, b2, EmergencyTest(c1)), WeekendTest(c1)), LocationTest(c1)))
  {
    StageTighter(c2, c1);
    var a3 := FilterIf(c2.emergencyOnly, a2, EmergencyTest(c2));
    var b3 := FilterIf(c1.emergencyOnly, b2, EmergencyTest(c1));
    FilterIfShrinks(a2, b2, c2.emergencyOnly, EmergencyTest(c2), c1.emergencyOnly, EmergencyTest(c1));
    var a4 := FilterIf(c2.weekendEveningOnly, a3, WeekendTest(c2));
    var b4 := FilterIf(c1.weekendEveningOnly, b3, WeekendTest(c1));
    FilterIfShrinks(a3, b3, c2.weekendEveningOnly, WeekendTest(c2), c1.weekendEveningOnly, WeekendTest(c1));
    FilterIfShrinks(a4, b4, c2.location != [], LocationTest(c2), c1.location != [], LocationTest(c1));
  }

  /** Tightening the controls makes the five filter stages together keep no more of any record. */
  lemma FilteredShrinks(c2: Criteria, c1: Criteria, r0: seq<Scored>)
    requires Tighter(c2, c1)
    ensures multiset(Filtered(c2, r0)) <= multiset(Filtered(c1, r0))
  {
    ListStagesShrink(c2, c1, r0);
    FlagStagesShrink(c2, c1,
      FilterIf(c2.languages != [], FilterIf(c2.categories != [], r0, CategoryTest(c2)), LanguageTest(c2)),
      FilterIf(c1.languages != [], FilterIf(c1.categories != [], r0, CategoryTest(c1)), LanguageTest(c1)));
  }

  /**
   * Monotonicity: tightening any filter never lets a record in; the result
   * under `c2` is a sub-multiset of the result under `c1`, whatever the sort.
   */
  lemma TighterShrinks(snapshot: seq<Majstor>, c2: Criteria, c1: Criteria)
    requires Tighter(c2, c1)
    ensures multiset(Recompute(snapshot, c2)) <= multiset(Recompute(snapshot, c1))
  {
    FilteredShrinks(c2, c1, Annotate(snapshot, c1.query));
  }

  /** Under the relevance comparator, "not after" means a higher score, or the same score and a name not after. */
  lemma RelevanceNotAfter(a: Scored, b: Scored)
    requires a.score.Some? && b.score.Some?
    requires Compare(a, b, SearchScoreField, Desc) <= 0
    ensures a.score.value >= b.score.value
    ensures a.score.value == b.score.value ==> !StrLess(Lower(b.m.name), Lower(a.m.name))
  {
    var na, nb := Lower(a.m.name), Lower(b.m.name);
    if StrLess(nb, na) { StrLessAsymmetric(nb, na); }
  }

  /** A list sorted by the relevance comparator, all of whose records are scored, is in relevance order. */
  lemma RelevanceSorted(r: seq<Scored>)
    requires Sorted(r, Comparator(SearchScoreField, Desc))
    requires forall k :: 0 <= k < |r| ==> r[k].score.Some?
    ensures forall i, j :: 0 <= i < j < |r| ==>
        && r[i].score.value >= r[j].score.value
        && (r[i].score.value == r[j].score.value ==> !StrLess(Lower(r[j].m.name), Lower(r[i].m.name)))
  {
    forall i, j | 0 <= i < j < |r|
      ensures r[i].score.value >= r[j].score.value
      ensures r[i].score.value == r[j].score.value ==> !StrLess(Lower(r[j].m.name), Lower(r[i].m.name))
    {
      assert Comparator(SearchScoreField, Desc)(r[i], r[j]) <= 0;
      RelevanceNotAfter(r[i], r[j]);
    }
  }

  /**
   * With an active query: every record carries its score, scores never
   * increase down the list, and equal scores are in ascending order of the
   * lower-cased name.
   */
  lemma RelevanceOrder(snapshot: seq<Majstor>, c: Criteria)
    requires QueryActive(c.query)
    ensures var r := Recompute(snapshot, c);
      && (forall k :: 0 <= k < |r| ==> r[k].score.Some?)
      && forall i, j :: 0 <= i < j < |r| ==>
        && r[i].score.value >= r[j].score.value
        && (r[i].score.value == r[j].score.value ==> !StrLess(Lower(r[j].m.name), Lower(r[i].m.name)))
  {
    var r := Recompute(snapshot, c);
    forall k | 0 <= k < |r| ensures r[k].score.Some? {
      RecomputeMember(snapshot, c, r[k]);
    }
    ComparatorConsistent(SearchScoreField, Desc);
    SortSorted(Filtered(c, Annotate(snapshot, c.query)), Comparator(SearchScoreField, Desc));
    RelevanceSorted(r);
  }

  /**
   * Without a query: no score is set and the list is ordered by the user's
   * field and direction.
   */
  lemma UserOrder(snapshot: seq<Majstor>, c: Criteria)
    requires !QueryActive(c.query)
    ensures var r := Recompute(snapshot, c);
      && (forall x :: x in r ==> x.score == None)
      && Sorted(r, Comparator(c.sortField, c.sortOrder))
  {
    forall x | x in Recompute(snapshot, c) ensures x.score == None {
      RecomputeMember(snapshot, c, x);
    }
    ComparatorConsistent(c.sortField, c.sortOrder);
    SortSorted(Filtered(c, Annotate(snapshot, c.query)), Comparator(c.sortField, c.sortOrder));
  }

  /** Records the comparator ranks equal keep their order from the snapshot. */
  lemma RecomputeStable(snapshot: seq<Majstor>, c: Criteria, k: Scored)
    ensures var cmp := Comparator(EffectiveField(c), EffectiveOrder(c));
      ClassOf(Recompute(snapshot, c), k, cmp) == ClassOf(Filtered(c, Annotate(snapshot, c.query)), k, cmp)
  {
    ComparatorConsistent(EffectiveField(c), EffectiveOrder(c));
    SortStable(Filtered(c, Annotate(snapshot, c.query)), k, Comparator(EffectiveField(c), EffectiveOrder(c)));
  }

  // ------------------------------------------------------------ pagination

  /** `Array.prototype.slice`'s treatment of one index: negative counts from the end, then clamped. */
  function SliceIndex(i: int, len: nat): (r: nat)
    ensures r <= len
    ensures 0 <= i <= len ==> r == i
  {
    if i < 0 then (if len + i < 0 then 0 else len + i)
    else if i > len then len
    else i
  }

  /** `s.slice(start, end)` */
  function JsSlice<T>(s: seq<T>, start: int, end: int): seq<T> {
    var a, b := SliceIndex(start, |s|), SliceIndex(end, |s|);
    if a < b then s[a..b] else []
  }

  function Min(a: int, b: int): int { if a < b then a else b }
  function Max(a: int, b: int): int { if a < b then b else a }

  /** The items on page `page` of `perPage`. */
  function PageItems<T>(list: seq<T>, page: int, perPage: nat): seq<T> {
    JsSlice(list, page * perPage - perPage, page * perPage)
  }

  /** `Math.ceil(length / perPage)` */
  function TotalPages(length: nat, perPage: nat): nat
    requires perPage > 0
  {
    (length + perPage - 1) / perPage
  }

  lemma TotalPagesIsCeiling(length: nat, perPage: nat)
    requires perPage > 0
    ensures TotalPages(length, perPage) * perPage >= length
    ensures length > 0 ==> (TotalPages(length, perPage) - 1) * perPage < length
    ensures TotalPages(length, perPage) == 0 <==> length == 0
  {
    var t := TotalPages(length, perPage);
    assert length + perPage - 1 == t * perPage + (length + perPage - 1) % perPage;
  }

  /** A non-empty list has at least one page. */
  lemma PagesExist(length: nat, perPage: nat)
    requires perPage > 0
    ensures length > 0 ==> TotalPages(length, perPage) >= 1
  {
    TotalPagesIsCeiling(length, perPage);
  }

  /** Every page from 1 to the page count holds at least one item. */
  lemma PageNonEmpty<T>(list: seq<T>, page: int, perPage: nat)
    requires perPage > 0 && 1 <= page <= TotalPages(|list|, perPage)
    ensures PageItems(list, page, perPage) != []
  {
    var t := TotalPages(|list|, perPage);
    var lo, hi := (page - 1) * perPage, page * perPage;
    TotalPagesIsCeiling(|list|, perPage);
    MulMono(page - 1, t - 1, perPage);
    assert lo < |list|;
    assert hi == lo + perPage by {
      MulSucc(page - 1, perPage);
    }
    PageItemsRange(list, page, perPage);
  }

  lemma MulSucc(a: nat, d: nat)
    ensures (a + 1) * d == a * d + d
  {
  }

  lemma MulMono(a: nat, b: nat, d: nat)
    requires a <= b
    ensures a * d <= b * d
  {
    var e := b - a;
    assert b * d == a * d + e * d;
  }

  /** Page p (from 1) holds the items from (p-1)·n to p·n, cut off at the end of the list. */
  lemma PageItemsRange<T>(list: seq<T>, page: nat, perPage: nat)
    requires page >= 1
    ensures var lo, hi := Min((page - 1) * perPage, |list|), Min(page * perPage, |list|);
      PageItems(list, page, perPage) == list[lo..hi]
  {
    assert page * perPage - perPage == (page - 1) * perPage;
  }

  /** Pages 1 to k, one after another. */
  function PagesUpTo<T>(list: seq<T>, k: nat, perPage: nat): seq<T> {
    if k == 0 then [] else PagesUpTo(list, k - 1, perPage) + PageItems(list, k, perPage)
  }

  lemma {:induction false} PagesUpToPrefix<T>(list: seq<T>, k: nat, perPage: nat)
    ensures PagesUpTo(list, k, perPage) == list[..Min(k * perPage, |list|)]
  {
    if k > 0 {
      PagesUpToPrefix(list, k - 1, perPage);
      PageItemsRange(list, k, perPage);
      PageStep(k, perPage);
      PrefixThenSlice(list, (k - 1) * perPage, k * perPage);
    }
  }

  /** The prefix up to a, then the slice from a to b, both clipped to the list, is the prefix up to b. */
  lemma PrefixThenSlice<T>(list: seq<T>, a: nat, b: nat)
    requires a <= b
    ensures list[..Min(a, |list|)] + list[Min(a, |list|)..Min(b, |list|)] == list[..Min(b, |list|)]
  {
  }

  lemma PageStep(k: nat, perPage: nat)
    requires k > 0
    ensures (k - 1) * perPage <= k * perPage
  {
    assert (k - 1) * perPage + perPage == k * perPage;
  }

  /** Coverage: pages 1 to totalPages, concatenated, are exactly the list. */
  lemma PagesCoverList<T>(list: seq<T>, perPage: nat)
    requires perPage > 0
    ensures PagesUpTo(list, TotalPages(|list|, perPage), perPage) == list
  {
    TotalPagesIsCeiling(|list|, perPage);
    PagesUpToPrefix(list, TotalPages(|list|, perPage), perPage);
  }

  /** The Previous button: `Math.max(1, currentPage - 1)`. */
  function PreviousPage(currentPage: int): int { Max(1, currentPage - 1) }

  /** The Next button: `Math.min(totalPages, currentPage + 1)`. */
  function NextPage(currentPage: int, totalPages: int): int { Min(totalPages, currentPage + 1) }

  /** From a page in range, both buttons land in range, and each stays put only at its end. */
  lemma PageButtonsClamp(currentPage: int, totalPages: int)
    requires 1 <= currentPage <= totalPages
    ensures 1 <= PreviousPage(currentPage) <= totalPages
    ensures 1 <= NextPage(currentPage, totalPages) <= totalPages
    ensures PreviousPage(currentPage) == currentPage <==> currentPage == 1
    ensures NextPage(currentPage, totalPages) == currentPage <==> currentPage == totalPages
    ensures PreviousPage(currentPage) >= currentPage - 1 && NextPage(currentPage, totalPages) <= currentPage + 1
  {
  }

  // -------------------------------------------------------------- handlers

  /** `toggleCategory` / `toggleLanguage`: drop every copy of the value if present, else append it. */
  function Toggle(selected: seq<string>, v: string): seq<string> {
    if v in selected then Filter(selected, w => w != v) else selected + [v]
  }

  /** Toggling flips membership of the value and leaves every other value alone. */
  lemma ToggleFlips(selected: seq<string>, v: string)
    ensures v in Toggle(selected, v) <==> v !in selected
    ensures forall w :: w != v ==> (w in Toggle(selected, v) <==> w in selected)
  {
    forall w ensures w in Filter(selected, u => u != v) <==> w in selected && w != v {
      FilterMember(selected, u => u != v, w);
    }
  }

  /** Toggling a value twice, starting without it, gives the selection back. */
  lemma ToggleTwice(selected: seq<string>, v: string)
    requires v !in selected
    ensures Toggle(Toggle(selected, v), v) == selected
  {
    FilterAppend(selected, [v], w => w != v);
    FilterAll(selected, w => w != v);
    assert Filter([v], w => w != v) == [];
  }

  /**
   * The page state. `Refresh` is the effect: every handler that changes a
   * value the effect depends on runs it, as React does after the render.
   */
  class DirectoryPage {
    var majstori: seq<Majstor>
    var criteria: Criteria
    var filtered: seq<Scored>
    var currentPage: int
    var itemsPerPage: nat

    /** Ten results to a page, and the current page is one of the result pages (or 1 when there are none). */
    ghost predicate Valid()
      reads this
    {
      && itemsPerPage == 10
      && currentPage >= 1
      && (filtered != [] ==> currentPage <= TotalPages(|filtered|, itemsPerPage))
    }

    /** The results are those of the current snapshot and criteria. */
    ghost predicate Current()
      reads this
    {
      filtered == Recompute(majstori, criteria)
    }

    /** The page once the snapshot has been fetched: the initial controls, sorted by name ascending. */
    constructor (snapshot: seq<Majstor>)
      ensures Valid() && Current()
      ensures majstori == snapshot && currentPage == 1
      ensures criteria == Criteria("", [], [], false, false, "", Name, Asc)
    {
      majstori := snapshot;
      criteria := Criteria("", [], [], false, false, "", Name, Asc);
      itemsPerPage := 10;
      filtered := Recompute(snapshot, Criteria("", [], [], false, false, "", Name, Asc));
      currentPage := 1;
      new;
      PagesExist(|filtered|, itemsPerPage);
    }

    /** The effect: recompute the results and go back to page 1. */
    method Refresh()
      modifies this
      requires itemsPerPage == 10
      ensures Valid() && Current() && currentPage == 1
      ensures majstori == old(majstori) && criteria == old(criteria)
    {
      ShowResults(Recompute(majstori, criteria));
    }

    /** The effect's last two steps: `setFilteredMajstori(results)` and `setCurrentPage(1)`. */
    method ShowResults(results: seq<Scored>)
      modifies this
      requires itemsPerPage == 10
      ensures Valid() && filtered == results && currentPage == 1
      ensures majstori == old(majstori) && criteria == old(criteria)
    {
      filtered := results;
      currentPage := 1;
      PagesExist(|filtered|, itemsPerPage);
    }

    /** The items shown: the slice of the results for the current page. */
    function CurrentItems(): seq<Scored>
      reads this
    {
      PageItems(filtered, currentPage, itemsPerPage)
    }

    /** `handleSort`: the same field flips the direction; a new field starts ascending. */
    method HandleSort(field: SortField)
      modifies this
      requires Valid()
      ensures Valid() && Current() && currentPage == 1 && majstori == old(majstori)
      ensures field == old(criteria.sortField) ==>
        criteria == old(criteria).(sortOrder := if old(criteria.sortOrder) == Asc then Desc else Asc)
      ensures field != old(criteria.sortField) ==> criteria == old(criteria).(sortField := field, sortOrder := Asc)
    {
      if field == criteria.sortField {
        criteria := criteria.(sortOrder := if criteria.sortOrder == Asc then Desc else Asc);
      } else {
        criteria := criteria.(sortField := field, sortOrder := Asc);
      }
      Refresh();
    }

    method ToggleCategory(category: string)
      modifies this
      requires Valid()
      ensures Valid() && Current() && currentPage == 1 && majstori == old(majstori)
      ensures criteria == old(criteria).(categories := Toggle(old(criteria.categories), category))
    {
      criteria := criteria.(categories := Toggle(criteria.categories, category));
      Refresh();
    }

    method ToggleLanguage(language: string)
      modifies this
      requires Valid()
      ensures Valid() && Current() && currentPage == 1 && majstori == old(majstori)
      ensures criteria == old(criteria).(languages := Toggle(old(criteria.languages), language))
    {
      criteria := criteria.(languages := Toggle(criteria.languages, language));
      Refresh();
    }

    /** The search box: the query becomes the typed text. */
    method SetQuery(query: string)
      modifies this
      requires Valid()
      ensures Valid() && Current() && currentPage == 1 && majstori == old(majstori)
      ensures criteria == old(criteria).(query := query)
    {
      criteria := criteria.(query := query);
      Refresh();
    }

    /** The emergency check box flips its control. */
    method ToggleEmergency()
      modifies this
      requires Valid()
      ensures Valid() && Current() && currentPage == 1 && majstori == old(majstori)
      ensures criteria == old(criteria).(emergencyOnly := !old(criteria.emergencyOnly))
    {
      criteria := criteria.(emergencyOnly := !criteria.emergencyOnly);
      Refresh();
    }

    /** The weekend/evening check box flips its control. */
    method ToggleWeekendEvening()
      modifies this
      requires Valid()
      ensures Valid() && Current() && currentPage == 1 && majstori == old(majstori)
      ensures criteria == old(criteria).(weekendEveningOnly := !old(criteria.weekendEveningOnly))
    {
      criteria := criteria.(weekendEveningOnly := !criteria.weekendEveningOnly);
      Refresh();
    }

    /** `resetFilters`: every control back to its initial value. */
    method ResetFilters()
      modifies this
      requires Valid()
      ensures Valid() && Current() && currentPage == 1 && majstori == old(majstori)
      ensures criteria == Criteria("", [], [], false, false, "", Name, Asc)
    {
      criteria := Criteria("", [], [], false, false, "", Name, Asc);
      Refresh();
    }

    /** The Previous button, shown only when there are results. */
    method GoPrevious()
      modifies this`currentPage
      requires Valid() && filtered != []
      ensures Valid() && currentPage == PreviousPage(old(currentPage))
      ensures filtered == old(filtered) && majstori == old(majstori) && criteria == old(criteria)
    {
      PageButtonsClamp(currentPage, TotalPages(|filtered|, itemsPerPage));
      currentPage := PreviousPage(currentPage);
    }

    /** A numbered page button; the buttons run from 1 to the page count. */
    method GoToPage(page: int)
      modifies this`currentPage
      requires Valid() && 1 <= page <= TotalPages(|filtered|, itemsPerPage)
      ensures Valid() && currentPage == page
      ensures filtered == old(filtered) && majstori == old(majstori) && criteria == old(criteria)
      ensures PageItems(filtered, currentPage, itemsPerPage) != []
    {
      currentPage := page;
      PageNonEmpty(filtered, page, itemsPerPage);
    }

    /** The Next button, shown only when there are results. */
    method GoNext()
      modifies this`currentPage
      requires Valid() && filtered != []
      ensures Valid() && currentPage == NextPage(old(currentPage), TotalPages(|filtered|, itemsPerPage))
      ensures filtered == old(filtered) && majstori == old(majstori) && criteria == old(criteria)
    {
      PageButtonsClamp(currentPage, TotalPages(|filtered|, itemsPerPage));
      currentPage := NextPage(currentPage, TotalPages(|filtered|, itemsPerPage));
    }
  }
}
