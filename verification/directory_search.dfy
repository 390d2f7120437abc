/**
 * Free-text search over the professionals ("majstori") directory: text
 * normalisation, the fuzzy prefix match, subcategory lookup in the taxonomy,
 * the search filter and the weighted relevance score.
 */
module DirectorySearch {
  import opened Wrappers
  import opened Strings
  import opened Categories

  /**
   * One professional as fetched from the backend. Absent strings are "" and
   * absent arrays are []: every filter and the scorer treat a missing value
   * exactly like the empty one.
   */
  datatype Majstor = Majstor(
    id: string,
    userId: string,
    name: string,
    location: string,
    categories: seq<string>,
    contacts: seq<string>,
    waitTimeDays: int,
    emergencyAvailable: bool,
    weekendEvening: bool,
    serviceArea: string,
    languages: seq<string>,
    bio: string,
    createdAt: string,
    profilePicture: Option<string>)

  // ------------------------------------------------------------ text helpers

  /** `normalizeText`: lower-cased and trimmed; "" stays "". */
  function NormalizeText(text: string): (r: string)
    ensures Trimmed(r) && |r| <= |text|
    ensures forall k :: 0 <= k < |r| ==> !IsUpper(r[k])
  {
    if text == [] then [] else Trim(Lower(text))
  }

  /** Normalising gives "" exactly for an all-white-space text. */
  lemma NormalizeTextEmpty(text: string)
    ensures NormalizeText(text) == [] <==> AllSpace(text)
  {
    if text != [] {
      TrimLowerEmpty(text);
      TrimEmptyIffAllSpace(text);
    }
  }

  /** Some prefix of `t` of length 3 up to its full length occurs in `x`. */
  predicate SomePrefixOccurs(x: string, t: string) {
    exists i | 3 <= i <= |t| :: Contains(x, t[..i])
  }

  /**
   * Trying longer prefixes after the first one never changes the answer: some
   * prefix occurs exactly when the first three characters do.
   */
  lemma SomePrefixFirstThree(x: string, t: string)
    ensures SomePrefixOccurs(x, t) <==> |t| >= 3 && Contains(x, t[..3])
  {
    if SomePrefixOccurs(x, t) {
      var i :| 3 <= i <= |t| && Contains(x, t[..i]);
      ContainsPrefix(x, t[..i], 3);
      assert t[..i][..3] == t[..3];
    }
  }

  /**
   * What `partialMatch` decides: the term has at least 3 characters, the text
   * is not empty, and some prefix of the normalised term of length 3 up to its
   * full length occurs in the normalised text.
   */
  predicate IsPartialMatch(term: string, text: string) {
    && term != [] && text != [] && |term| >= 3
    && SomePrefixOccurs(NormalizeText(text), NormalizeText(term))
  }

  /** `partialMatch`: tries the prefixes of length 3, 4, ... and stops at the first hit. */
  method PartialMatch(term: string, text: string) returns (found: bool)
    ensures found == IsPartialMatch(term, text)
  {
    if term == [] || text == [] || |term| < 3 {
      return false;
    }
    var normalizedTerm := NormalizeText(term);
    var normalizedText := NormalizeText(text);
    var i := 3;
    while i <= |normalizedTerm|
      invariant 3 <= i
      invariant i > 3 ==> |normalizedTerm| >= 3 && !Contains(normalizedText, normalizedTerm[..3])
    {
      if Contains(normalizedText, normalizedTerm[..i]) {
        return true;
      }
      i := i + 1;
    }
    SomePrefixFirstThree(normalizedText, normalizedTerm);
    return false;
  }

  /** For a term of at least three characters, containing the whole term is a partial match. */
  lemma ContainsImpliesPartialMatch(term: string, text: string)
    requires |NormalizeText(term)| >= 3 && |term| >= 3 && text != []
    requires Contains(NormalizeText(text), NormalizeText(term))
    ensures IsPartialMatch(term, text)
  {
    var t := NormalizeText(term);
    assert t[..|t|] == t;
  }

  // -------------------------------------------------------- taxonomy lookup

  /** Length of the run of ASCII digits at the start of `s`. */
  function LeadingDigits(s: string): (n: nat)
    ensures n <= |s| && forall k :: 0 <= k < n ==> IsDigit(s[k])
    ensures n == |s| || !IsDigit(s[n])
  {
    if s != [] && IsDigit(s[0]) then 1 + LeadingDigits(s[1..]) else 0
  }

  /** `name.replace(/^\d+\.\s*\/, '')`: drops a leading ordinal such as "3. ". */
  function StripOrdinal(name: string): (r: string)
    ensures |r| <= |name| && r == name[|name| - |r|..]
  {
    var d := LeadingDigits(name);
    if 0 < d < |name| && name[d] == '.' then TrimStart(name[d + 1..]) else name
  }

  /** A name that does not start with a digit has no ordinal to strip. */
  lemma StripOrdinalPlain(name: string)
    requires name == [] || !IsDigit(name[0])
    ensures StripOrdinal(name) == name
  {
  }

  /** Stripping "n. " from "n. <name>" gives the name back. */
  lemma {:induction false} StripOrdinalNumbered(n: nat, name: string)
    requires name == [] || !IsSpace(name[0])
    ensures StripOrdinal(NatToString(n) + ". " + name) == name
  {
    var digits := NatToString(n);
    var s := digits + ". " + name;
    LeadingDigitsOf(digits, ". " + name);
    assert s == digits + (". " + name);
    var rest := s[|digits| + 1..];
    assert rest == " " + name;
    assert SkipSpaces(rest, 1) == 1;
    assert TrimStart(rest) == rest[1..] == name;
  }

  lemma {:induction false} LeadingDigitsOf(digits: string, rest: string)
    requires forall k :: 0 <= k < |digits| ==> IsDigit(digits[k])
    requires rest == [] || !IsDigit(rest[0])
    ensures LeadingDigits(digits + rest) == |digits|
  {
    if digits != [] {
      assert (digits + rest)[1..] == digits[1..] + rest;
      LeadingDigitsOf(digits[1..], rest);
    } else {
      assert digits + rest == rest;
    }
  }

  /** The lookup's test: same name once ordinals are stripped, or the same raw name. */
  predicate NameMatches(cat: ServiceCategory, categoryName: string) {
    StripOrdinal(cat.name) == StripOrdinal(categoryName) || cat.name == categoryName
  }

  /** `Array.prototype.find`, by index: the first position whose element satisfies `p`. */
  function FindFirst<T>(s: seq<T>, p: T -> bool): (r: Option<nat>)
    ensures r.Some? ==> r.value < |s| && p(s[r.value]) && forall j :: 0 <= j < r.value ==> !p(s[j])
    ensures r.None? ==> forall j :: 0 <= j < |s| ==> !p(s[j])
  {
    if s == [] then None
    else if p(s[0]) then Some(0)
    else
      match FindFirst(s[1..], p)
      case None => None
      case Some(k) => Some(k + 1)
  }

  /** `SERVICE_CATEGORIES.find(...)`: the index of the first entry that matches. */
  function FindCategory(cats: seq<ServiceCategory>, categoryName: string): Option<nat> {
    FindFirst(cats, c => NameMatches(c, categoryName))
  }

  function SubcategoryNames(subs: seq<Subcategory>): (r: seq<string>)
    ensures |r| == |subs| && forall k :: 0 <= k < |subs| ==> r[k] == subs[k].name
  {
    if subs == [] then [] else [subs[0].name] + SubcategoryNames(subs[1..])
  }

  /** `getSubcategoriesForCategory`: the subcategory names of the first matching entry, or []. */
  function SubcategoriesFor(categoryName: string): seq<string> {
    match FindCategory(ServiceCategories, categoryName)
    case Some(i) => SubcategoryNames(ServiceCategories[i].subcategories)
    case None => []
  }

  /** A name that matches no taxonomy entry has no subcategories. */
  lemma UnknownCategoryHasNone(categoryName: string)
    requires forall i :: 0 <= i < |ServiceCategories| ==> !NameMatches(ServiceCategories[i], categoryName)
    ensures SubcategoriesFor(categoryName) == []
  {
  }

  /**
   * The lookup over any list of numbered entries: when entry j's stripped name
   * is `names[j]`, every entry's name starts with a digit, and `names[i]` does
   * not and differs from the names before it, both `names[i]` and entry i's own
   * name find entry i.
   */
  lemma {:induction false} ResolvesAt(cats: seq<ServiceCategory>, names: seq<string>, i: nat)
    requires |cats| == |names| && i < |names|
    requires forall j :: 0 <= j < |cats| ==>
      StripOrdinal(cats[j].name) == names[j] && cats[j].name != [] && IsDigit(cats[j].name[0])
    requires forall j :: 0 <= j < i ==> names[j] != names[i]
    requires names[i] == [] || !IsDigit(names[i][0])
    ensures FindCategory(cats, names[i]) == Some(i)
    ensures FindCategory(cats, cats[i].name) == Some(i)
  {
    var name, own := names[i], cats[i].name;
    StripOrdinalPlain(name);
    forall j | 0 <= j < i
      ensures !NameMatches(cats[j], name) && !NameMatches(cats[j], own)
    {
      assert StripOrdinal(cats[j].name) != StripOrdinal(name);
      assert cats[j].name != name by {
        assert name == [] || cats[j].name[0] != name[0];
      }
    }
    FindFirstAt(cats, c => NameMatches(c, name), i);
    FindFirstAt(cats, c => NameMatches(c, own), i);
  }

  /** `find` returns position i when the element there is the first to satisfy `p`. */
  lemma FindFirstAt<T>(s: seq<T>, p: T -> bool, i: nat)
    requires i < |s| && p(s[i]) && forall j :: 0 <= j < i ==> !p(s[j])
    ensures FindFirst(s, p) == Some(i)
  {
  }

  /** Stripping the ordinal from entry j of the taxonomy gives top-level name j. */
  lemma TaxonomyStrippedNames()
    ensures |ServiceCategories| == |TopCategories|
    ensures forall j :: 0 <= j < |ServiceCategories| ==>
      && StripOrdinal(ServiceCategories[j].name) == TopCategories[j]
      && ServiceCategories[j].name != [] && IsDigit(ServiceCategories[j].name[0])
  {
    TaxonomyWellFormed();
    TopCategoriesDistinct();
    forall j | 0 <= j < |ServiceCategories|
      ensures StripOrdinal(ServiceCategories[j].name) == TopCategories[j]
      ensures ServiceCategories[j].name != [] && IsDigit(ServiceCategories[j].name[0])
    {
      StripOrdinalNumbered(j + 1, TopCategories[j]);
      assert ServiceCategories[j].name[0] == NatToString(j + 1)[0];
    }
  }

  /**
   * Every top-level category name, and every entry's own numbered name,
   * resolves to that entry's subcategories.
   */
  lemma TopCategoryResolves(i: nat)
    requires i < |TopCategories|
    ensures i < |ServiceCategories|
    ensures SubcategoriesFor(TopCategories[i]) == SubcategoryNames(ServiceCategories[i].subcategories)
    ensures SubcategoriesFor(ServiceCategories[i].name) == SubcategoryNames(ServiceCategories[i].subcategories)
  {
    TaxonomyStrippedNames();
    TopCategoriesDistinct();
    ResolvesAt(ServiceCategories, TopCategories, i);
  }

  /** `getAllSubcategories`, as a value: the lookups of the categories, concatenated in order. */
  function AllSubcategories(categories: seq<string>): seq<string> {
    if categories == [] then []
    else AllSubcategories(categories[..|categories| - 1]) + SubcategoriesFor(categories[|categories| - 1])
  }

  /** `getAllSubcategories`: pushes each category's subcategories onto one array. */
  method GetAllSubcategories(categories: seq<string>) returns (all: seq<string>)
    ensures all == AllSubcategories(categories)
  {
    all := [];
    if |categories| == 0 {
      return;
    }
    for i := 0 to |categories|
      invariant all == AllSubcategories(categories[..i])
    {
      assert categories[..i + 1][..i] == categories[..i];
      all := all + SubcategoriesFor(categories[i]);
    }
    assert categories[..|categories|] == categories;
  }

  /** The lookup distributes over concatenation of category lists. */
  lemma {:induction false} AllSubcategoriesAppend(a: seq<string>, b: seq<string>)
    ensures AllSubcategories(a + b) == AllSubcategories(a) + AllSubcategories(b)
    decreases |b|
  {
    if b == [] {
      assert a + b == a;
    } else {
      var b' := b[..|b| - 1];
      assert (a + b)[..|a + b| - 1] == a + b';
      AllSubcategoriesAppend(a, b');
    }
  }

  // ----------------------------------------------------------------- scoring

  datatype Field = Field(text: string, weight: nat)

  const EmergencyText := "emergency hitno"
  const WeekendText := "night weekend evening vikend navecer vece noc"

  /** The subcategory names of a record's categories, joined by spaces. */
  function SubcategoryText(m: Majstor): string {
    Join(AllSubcategories(m.categories), " ")
  }

  /**
   * The eight weighted fields of `calculateSearchScore`, in its order, given
   * the record's subcategory text.
   */
  function ScoreFieldsWith(m: Majstor, subcategoryText: string): (r: seq<Field>)
    ensures |r| == 8
  {
    [ Field(m.name, 10),
      Field(Join(m.categories, " "), 8),
      Field(subcategoryText, 3),
      Field(m.bio, 5),
      Field(m.location, 4),
      Field(m.serviceArea, 3),
      Field(if m.emergencyAvailable then EmergencyText else "", 2),
      Field(if m.weekendEvening then WeekendText else "", 2) ]
  }

  function ScoreFields(m: Majstor): seq<Field> {
    ScoreFieldsWith(m, SubcategoryText(m))
  }

  /** The texts the search filter tests, in its own order. */
  function FilterTextsWith(m: Majstor, subcategoryText: string): seq<string> {
    [ m.name,
      m.bio,
      m.location,
      m.serviceArea,
      Join(m.categories, " "),
      subcategoryText,
      if m.emergencyAvailable then EmergencyText else "",
      if m.weekendEvening then WeekendText else "" ]
  }

  function FilterTexts(m: Majstor): seq<string> {
    FilterTextsWith(m, SubcategoryText(m))
  }

  /**
   * One (already lower-cased) term against one field text: the lower-cased
   * text includes the term, or the term has 3+ characters and partially matches.
   */
  predicate FieldMatches(term: string, text: string) {
    Contains(Lower(text), term) || (|term| >= 3 && IsPartialMatch(term, Lower(text)))
  }

  predicate AnyFieldMatches(term: string, texts: seq<string>) {
    exists f | 0 <= f < |texts| :: FieldMatches(term, texts[f])
  }

  /** The search filter: some term matches some of the record's texts. */
  predicate MatchesSearch(m: Majstor, terms: seq<string>) {
    exists t | 0 <= t < |terms| :: AnyFieldMatches(terms[t], FilterTexts(m))
  }

  /** Twice the weight on inclusion, the weight on a partial match, else nothing. */
  function FieldScore(term: string, field: Field): (r: nat)
    ensures r == 0 || r == field.weight || r == 2 * field.weight
    ensures r > 0 <==> field.weight > 0 && FieldMatches(term, field.text)
  {
    if Contains(Lower(field.text), term) then 2 * field.weight
    else if |term| >= 3 && IsPartialMatch(term, Lower(field.text)) then field.weight
    else 0
  }

  function WeightSum(fields: seq<Field>): nat {
    if fields == [] then 0 else WeightSum(fields[..|fields| - 1]) + fields[|fields| - 1].weight
  }

  /** A term's score: the sum of its field scores. */
  function TermScore(term: string, fields: seq<Field>): nat {
    if fields == [] then 0
    else TermScore(term, fields[..|fields| - 1]) + FieldScore(term, fields[|fields| - 1])
  }

  /** The sum of `f` over `xs`, accumulated from the front. */
  function SumOf<T>(xs: seq<T>, f: T -> nat): nat {
    if xs == [] then 0 else SumOf(xs[..|xs| - 1], f) + f(xs[|xs| - 1])
  }

  lemma {:induction false} SumOfBound<T>(xs: seq<T>, f: T -> nat, b: nat)
    requires forall i :: 0 <= i < |xs| ==> f(xs[i]) <= b
    ensures SumOf(xs, f) <= |xs| * b
  {
    if xs != [] {
      var init := xs[..|xs| - 1];
      assert forall i :: 0 <= i < |init| ==> init[i] == xs[i];
      SumOfBound(init, f, b);
      assert |init| * b + b == |xs| * b;
    }
  }

  lemma {:induction false} SumOfPositive<T>(xs: seq<T>, f: T -> nat)
    ensures SumOf(xs, f) > 0 <==> exists i :: 0 <= i < |xs| && f(xs[i]) > 0
  {
    if xs != [] {
      var init := xs[..|xs| - 1];
      assert forall i :: 0 <= i < |init| ==> init[i] == xs[i];
      SumOfPositive(init, f);
    }
  }

  /** The sum of the term scores. */
  function TotalScore(terms: seq<string>, fields: seq<Field>): nat {
    SumOf(terms, t => TermScore(t, fields))
  }

  /** The relevance score of a record. */
  function SearchScore(m: Majstor, terms: seq<string>): nat {
    TotalScore(terms, ScoreFields(m))
  }

  /** The per-term callback of `calculateSearchScore`: accumulates `termScore` over the fields. */
  method ScoreTerm(term: string, fields: seq<Field>) returns (termScore: nat)
    ensures termScore == TermScore(term, fields)
  {
    termScore := 0;
    for f := 0 to |fields|
      invariant termScore == TermScore(term, fields[..f])
    {
      assert fields[..f + 1][..f] == fields[..f];
      var field := fields[f];
      var fieldLower := Lower(field.text);
      if Contains(fieldLower, term) {
        termScore := termScore + field.weight * 2;
      } else {
        var partial := false;
        if |term| >= 3 {
          partial := PartialMatch(term, fieldLower);
        }
        if partial {
          termScore := termScore + field.weight;
        }
      }
    }
    assert fields[..|fields|] == fields;
  }

  /** `calculateSearchScore`: accumulates `totalScore` over the terms. */
  method CalculateSearchScore(m: Majstor, terms: seq<string>) returns (totalScore: nat)
    ensures totalScore == SearchScore(m, terms)
  {
    if |terms| == 0 {
      return 0;
    }
    totalScore := 0;
    var subcategories := GetAllSubcategories(m.categories);
    var fields := ScoreFieldsWith(m, Join(subcategories, " "));
    for t := 0 to |terms|
      invariant totalScore == TotalScore(terms[..t], fields)
    {
      var termScore := ScoreTerm(terms[t], fields);
      assert terms[..t + 1][..t] == terms[..t];
      totalScore := totalScore + termScore;
    }
    assert terms[..|terms|] == terms;
  }

  /** A term scores at most twice the total weight, and scores at all exactly when some weighted field matches. */
  lemma TermScoreBounds(term: string, fields: seq<Field>)
    ensures TermScore(term, fields) <= 2 * WeightSum(fields)
    ensures TermScore(term, fields) > 0 <==>
      exists f :: 0 <= f < |fields| && fields[f].weight > 0 && FieldMatches(term, fields[f].text)
  {
    TermScoreBelow(term, fields);
    TermScorePositive(term, fields);
  }

  lemma {:induction false} TermScoreBelow(term: string, fields: seq<Field>)
    ensures TermScore(term, fields) <= 2 * WeightSum(fields)
  {
    if fields != [] {
      TermScoreBelow(term, fields[..|fields| - 1]);
    }
  }

  lemma {:induction false} TermScorePositive(term: string, fields: seq<Field>)
    ensures TermScore(term, fields) > 0 <==>
      exists f :: 0 <= f < |fields| && fields[f].weight > 0 && FieldMatches(term, fields[f].text)
  {
    if fields != [] {
      var init, last := fields[..|fields| - 1], fields[|fields| - 1];
      TermScorePositive(term, init);
      if TermScore(term, fields) > 0 {
        if TermScore(term, init) > 0 {
          var f :| 0 <= f < |init| && init[f].weight > 0 && FieldMatches(term, init[f].text);
          assert fields[f] == init[f];
        } else {
          assert FieldScore(term, last) > 0;
        }
      } else {
        forall f | 0 <= f < |fields| ensures !(fields[f].weight > 0 && FieldMatches(term, fields[f].text)) {
          if f < |init| { assert fields[f] == init[f]; }
        }
      }
    }
  }

  /** The total is at most the number of terms times twice the total weight. */
  lemma TotalScoreBounds(terms: seq<string>, fields: seq<Field>)
    ensures TotalScore(terms, fields) <= |terms| * (2 * WeightSum(fields))
  {
    forall i | 0 <= i < |terms| ensures TermScore(terms[i], fields) <= 2 * WeightSum(fields) {
      TermScoreBounds(terms[i], fields);
    }
    SumOfBound(terms, t => TermScore(t, fields), 2 * WeightSum(fields));
  }

  /** The total is positive exactly when some term scores. */
  lemma TotalScorePositive(terms: seq<string>, fields: seq<Field>)
    ensures TotalScore(terms, fields) > 0 <==> exists t :: 0 <= t < |terms| && TermScore(terms[t], fields) > 0
  {
    SumOfPositive(terms, t => TermScore(t, fields));
  }

  /** The weights are 10, 8, 3, 5, 4, 3, 2 and 2: all positive, 37 in all. */
  lemma ScoreWeights(m: Majstor, subcategoryText: string)
    ensures WeightSum(ScoreFieldsWith(m, subcategoryText)) == 37
    ensures forall f :: 0 <= f < 8 ==> ScoreFieldsWith(m, subcategoryText)[f].weight > 0
  {
    var fields := ScoreFieldsWith(m, subcategoryText);
    assert WeightSum(fields[..1]) == 10 by { assert fields[..1][..0] == []; }
    assert WeightSum(fields[..2]) == 18 by { assert fields[..2][..1] == fields[..1]; }
    assert WeightSum(fields[..3]) == 21 by { assert fields[..3][..2] == fields[..2]; }
    assert WeightSum(fields[..4]) == 26 by { assert fields[..4][..3] == fields[..3]; }
    assert WeightSum(fields[..5]) == 30 by { assert fields[..5][..4] == fields[..4]; }
    assert WeightSum(fields[..6]) == 33 by { assert fields[..6][..5] == fields[..5]; }
    assert WeightSum(fields[..7]) == 35 by { assert fields[..7][..6] == fields[..6]; }
    assert fields[..8] == fields;
  }

  /** Every term adds between 0 and 2 x 37 = 74. */
  lemma SearchScoreBounds(m: Majstor, terms: seq<string>)
    ensures SearchScore(m, terms) <= 74 * |terms|
  {
    ScoreWeights(m, SubcategoryText(m));
    TotalScoreBounds(terms, ScoreFields(m));
    assert |terms| * (2 * 37) == 74 * |terms|;
  }

  /** The filter tests the same eight texts as the scorer, only listed in another order. */
  lemma SameTexts(m: Majstor, subcategoryText: string, term: string)
    ensures AnyFieldMatches(term, FilterTextsWith(m, subcategoryText)) <==>
      exists f :: 0 <= f < 8 && FieldMatches(term, ScoreFieldsWith(m, subcategoryText)[f].text)
  {
    var fields, texts := ScoreFieldsWith(m, subcategoryText), FilterTextsWith(m, subcategoryText);
    var perm := [0, 3, 4, 5, 1, 2, 6, 7];
    assert forall f :: 0 <= f < 8 ==> texts[f] == fields[perm[f]].text;
    assert forall f :: 0 <= f < 8 ==> fields[f].text in texts;
  }

  /** A record is kept by the search filter exactly when its relevance score is positive. */
  lemma MatchesIffPositiveScore(m: Majstor, terms: seq<string>)
    ensures MatchesSearch(m, terms) <==> SearchScore(m, terms) > 0
  {
    var x := SubcategoryText(m);
    var fields := ScoreFields(m);
    ScoreWeights(m, x);
    TotalScorePositive(terms, fields);
    forall t | 0 <= t < |terms|
      ensures AnyFieldMatches(terms[t], FilterTexts(m)) <==> TermScore(terms[t], fields) > 0
    {
      SameTexts(m, x, terms[t]);
      TermScoreBounds(terms[t], fields);
    }
  }
}
