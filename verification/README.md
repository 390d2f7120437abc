# Popravci: a verified model of the directory, its search and the profile forms

Popravci is a directory of craftsmen ("majstori") who do household repairs.
Visitors search and filter the directory. The craftsmen sign up, fill in their
profile, place themselves on a map and upload a picture. This project models
the logic behind those pages and proves what it promises:

- **Directory page.** The recomputation turns the fetched list of craftsmen and
  the filter state into an ordered result list. It has a fuzzy text match, a
  relevance score over eight weighted fields, a subcategory lookup in the fixed
  service taxonomy, five conjunctive filters and a comparator with a relevance
  override. The page state then slices the result list into pages of ten.
- **Popular categories.** The landing page lists the eight categories that occur
  most often across all craftsmen.
- **Server actions.** These decode the sign-up, profile, onboarding and location
  forms, choose a handler and decide what is written to the `majstori` table.
- **HTML sanitiser.** It is applied to biographies before server-side rendering.
- **Profile-picture widget.** It covers the resize rule, the storage names and
  paths, the cache-busting URL and the state changes of upload and removal.
- **Bio editor.** The model covers the editor's link box.
- **Location card.** The model covers its defaults, its sync with the parent and
  its reports to the parent.

Code written as expressions is modelled by functions on values. Code that
updates state step by step is modelled by methods:

- the prefix loop of `partialMatch`;
- the score accumulation;
- the push loops;
- the category tally;
- the conditional keys.

Each of these methods is proved equal to a specification function. Component
state that handlers update becomes a class, whose methods state the whole new
state:

- the directory page;
- the picture widget;
- the menu bar;
- the location card.

Backend calls are not executed. What they answer is a parameter, and what
they write is returned as a value, in the order it is issued.

Character handling is modelled as follows:

- **Lower-casing** maps ASCII capitals and the Croatian capitals Č, Ć, Š, Ž and
  Đ to lower case. Every other character is left unchanged.
- **`localeCompare`** is taken as the code-point order of the lower-cased names.
  This is a fixed total order.
- **JavaScript's `Array.prototype.sort`** is stable. With a consistent comparator
  its result is the stable sorted order, modelled by insertion sort.

## Model

| member | source | states |
|---|---|---|
| DirectorySearch.NormalizeText | app/majstori/page.tsx:61-63 | the result is lower-case, carries no surrounding white space and is no longer than the input |
| DirectorySearch.NormalizeTextEmpty | app/majstori/page.tsx:61-63 | normalising gives "" exactly when the text is empty or all white space |
| DirectorySearch.PartialMatch | app/majstori/page.tsx:66-81 | the loop over prefix lengths 3, 4, … returns true exactly when the term and text are non-empty, the term has at least 3 characters, and some prefix of the normalised term of length 3 up to its full length occurs in the normalised text |
| DirectorySearch.SomePrefixFirstThree | app/majstori/page.tsx:73-78 | some prefix of length 3 or more occurs if and only if the first three characters occur, so the longer prefixes never change the answer |
| DirectorySearch.ContainsImpliesPartialMatch | app/majstori/page.tsx:66-81 | a term of 3 or more characters that occurs whole in the normalised text is a partial match |
| DirectorySearch.LeadingDigits | app/majstori/page.tsx:143 | counts the longest run of digits at the start of the name (the `^\d+` of the pattern) |
| DirectorySearch.StripOrdinal | app/majstori/page.tsx:143 | the result of `replace(/^\d+\.\s*/, '')` is a suffix of the name |
| DirectorySearch.StripOrdinalPlain | app/majstori/page.tsx:143 | a name that does not start with a digit is left unchanged |
| DirectorySearch.StripOrdinalNumbered | app/majstori/page.tsx:143 | stripping "<number>. " followed by a name that does not start with white space gives back that name |
| DirectorySearch.FindFirst | app/majstori/page.tsx:146-149 | `find`: the index of the first element that passes, with none before it; None when no element passes |
| DirectorySearch.SubcategoryNames | app/majstori/page.tsx:152 | `subcategories.map(sub => sub.name)`, element by element |
| DirectorySearch.UnknownCategoryHasNone | app/majstori/page.tsx:141-153 | a name that matches no taxonomy entry, whether stripped or raw, has no subcategories |
| DirectorySearch.ResolvesAt | app/majstori/page.tsx:146-149 | in a list of numbered entries with distinct stripped names, both the stripped name and the raw name of entry i find entry i |
| DirectorySearch.TaxonomyStrippedNames | utils/categories.ts:2-113 | stripping the number from entry i of the service taxonomy gives top-level name i, and every entry's name starts with a digit |
| DirectorySearch.TopCategoryResolves | app/majstori/page.tsx:141-153 | every top-level name and every numbered entry name resolves to its own entry's subcategory names |
| DirectorySearch.GetAllSubcategories | app/majstori/page.tsx:156-167 | the push loop yields the concatenation of each category's subcategory names, in category order |
| DirectorySearch.AllSubcategoriesAppend | app/majstori/page.tsx:161-164 | the subcategories of two category lists, one after the other, are those of their concatenation |
| DirectorySearch.ScoreFieldsWith | app/majstori/page.tsx:105-114 | the scorer reads exactly eight fields |
| DirectorySearch.ScoreWeights | app/majstori/page.tsx:88-114 | the eight weights are all positive and sum to 37 |
| DirectorySearch.FieldScore | app/majstori/page.tsx:121-132 | one field contributes 0, its weight or twice its weight, and it contributes something exactly when the term matches the field |
| DirectorySearch.ScoreTerm | app/majstori/page.tsx:118-134 | the inner accumulation equals the specification sum of the field scores for the term |
| DirectorySearch.CalculateSearchScore | app/majstori/page.tsx:84-138 | the nested accumulation equals the specification score: the sum over terms of the per-term scores, 0 for no terms |
| DirectorySearch.TermScoreBounds | app/majstori/page.tsx:118-134 | a term scores at most twice the weight sum, and scores above 0 exactly when it matches some weighted field |
| DirectorySearch.TotalScoreBounds | app/majstori/page.tsx:117-137 | the total is at most the number of terms times twice the weight sum |
| DirectorySearch.TotalScorePositive | app/majstori/page.tsx:117-137 | the total is positive exactly when some term scores |
| DirectorySearch.SearchScoreBounds | app/majstori/page.tsx:84-138 | 0 ≤ score ≤ 74 × the number of terms |
| DirectorySearch.SameTexts | app/majstori/page.tsx:251-262 | the filter's eight texts and the scorer's eight fields are the same texts, in a different order |
| DirectorySearch.MatchesIffPositiveScore | app/majstori/page.tsx:246-281 | a record passes the search filter exactly when its relevance score is positive |
| DirectorySearch.SumOfBound | app/majstori/page.tsx:117-135 | a sum of n terms, each at most b, is at most n·b |
| DirectorySearch.SumOfPositive | app/majstori/page.tsx:117-135 | a sum of naturals is positive exactly when some term is |
| DirectoryListing.SearchTermsNonEmpty | app/majstori/page.tsx:241-245 | an active query, one that is not blank, yields at least one term, and every term is a non-empty word without white space |
| DirectoryListing.UnicodeBlankQueryInactive | app/majstori/page.tsx:241 | a query made only of Unicode space separators (U+3000, U+202F, U+1680) is blank, so no search is applied |
| DirectoryListing.FilterIfIsFilter | app/majstori/page.tsx:292-324 | a filter that applies only when its selection is set is the plain filter by "not set, or passes" |
| DirectoryListing.FilterIfMember | app/majstori/page.tsx:292-324 | a record survives such a filter exactly when it was present and passes whenever the filter is set |
| DirectoryListing.FilterIfShrinks | app/majstori/page.tsx:292-324 | a stronger filter applied to a sub-multiset keeps a sub-multiset |
| DirectoryListing.FilteredMember | app/majstori/page.tsx:292-324 | a record survives the five filters exactly when it was present and passes every filter that is set (conjunction) |
| DirectoryListing.KeyLessOrder | app/majstori/page.tsx:343-353 | `<` on the sort values, after lower-casing, is a strict total order |
| DirectoryListing.LocaleCompare | app/majstori/page.tsx:361 | the tie-break returns -1, 0 or 1: negative exactly when the first name comes first, 0 exactly when the names are equal |
| DirectoryListing.CompareAntisymmetric | app/majstori/page.tsx:330-365 | the comparator says a before b exactly when it says b after a |
| DirectoryListing.CompareTransitive | app/majstori/page.tsx:330-365 | "not after" is transitive |
| DirectoryListing.ComparatorConsistent | app/majstori/page.tsx:327-365 | for every field and direction, the comparator is one a stable sort can rely on |
| DirectoryListing.AnnotateMember | app/majstori/page.tsx:241-289 | every annotated record comes from the snapshot and carries the score for the query (none when no query is active); with an active query it matches some term |
| DirectoryListing.AnnotateComplete | app/majstori/page.tsx:241-289 | the converse: every snapshot record that matches the active query, or every record when none is active, comes out of the search stage carrying its score |
| DirectoryListing.RecomputeMember | app/majstori/page.tsx:236-369 | every result comes from the snapshot, carries its score and passes the search and all the filters that are set |
| DirectoryListing.RecomputeComplete | app/majstori/page.tsx:236-369 | the converse: every snapshot record that passes the search and every filter that is set is among the results, with its score; with RecomputeMember, the results are exactly these records |
| DirectoryListing.NothingSetKeepsAll | app/majstori/page.tsx:286-324 | with a blank query and no filter, the result holds every record of the snapshot with its score cleared, as a multiset |
| DirectoryListing.SharesAnySubset | app/majstori/page.tsx:295-303 | when a selection is a subset of another and a record shares a value with the smaller one, it shares one with the larger |
| DirectoryListing.LocationTighter | app/majstori/page.tsx:318-323 | a record that passes a tighter location query passes the looser one |
| DirectoryListing.CategoryTighter | app/majstori/page.tsx:292-297 | a record that passes a tighter category selection passes the looser one |
| DirectoryListing.LanguageTighter | app/majstori/page.tsx:300-305 | a record that passes a tighter language selection passes the looser one |
| DirectoryListing.StageTighter | app/majstori/page.tsx:292-324 | the previous three, for every record at once |
| DirectoryListing.ListStagesShrink | app/majstori/page.tsx:292-305 | tighter category and language selections keep a sub-multiset |
| DirectoryListing.FlagStagesShrink | app/majstori/page.tsx:307-324 | tighter emergency, weekend and location filters keep a sub-multiset |
| DirectoryListing.FilteredShrinks | app/majstori/page.tsx:292-324 | tightening any filter never adds a record |
| DirectoryListing.TighterShrinks | app/majstori/page.tsx:236-369 | tighter criteria with the same query give a sub-multiset of the results |
| DirectoryListing.RelevanceNotAfter | app/majstori/page.tsx:327-362 | in relevance order, a record not after another has a score at least as high, and on equal scores its lower-cased name does not come later |
| DirectoryListing.RelevanceSorted | app/majstori/page.tsx:327-365 | a list sorted by relevance has non-increasing scores, with equal scores in ascending name order |
| DirectoryListing.RelevanceOrder | app/majstori/page.tsx:236-369 | with an active query every result has a score, scores do not increase, and equal scores are in ascending lower-cased name order |
| DirectoryListing.UserOrder | app/majstori/page.tsx:286-365 | with a blank query every score is cleared and the results are sorted by the user's field and direction |
| DirectoryListing.RecomputeStable | app/majstori/page.tsx:330-365 | records that compare equal keep their relative order from the filtered list |
| DirectoryListing.SliceIndex | app/majstori/page.tsx:374 | a `slice` bound clamped into the list, unchanged when already inside it |
| DirectoryListing.TotalPagesIsCeiling | app/majstori/page.tsx:375 | the page count is ceil(length / perPage): the pages hold the whole list, the last one starts inside it, and there are 0 pages only for an empty list |
| DirectoryListing.PagesExist | app/majstori/page.tsx:375 | a non-empty list has at least one page |
| DirectoryListing.PageItemsRange | app/majstori/page.tsx:372-374 | page p is the list from (p-1)·n up to p·n, both clipped to its length |
| DirectoryListing.PageNonEmpty | app/majstori/page.tsx:700-706 | every page from 1 to the page count shows at least one record |
| DirectoryListing.PagesUpToPrefix | app/majstori/page.tsx:372-374 | pages 1..k concatenated are the first k·n records (clipped) |
| DirectoryListing.PagesCoverList | app/majstori/page.tsx:372-375 | pages 1..totalPages concatenated are the whole list, exactly |
| DirectoryListing.PageButtonsClamp | app/majstori/page.tsx:693-717 | Previous and Next keep the page in [1, totalPages], move by at most one, and stay put exactly on the first and the last page |
| DirectoryListing.ToggleFlips | app/majstori/page.tsx:388-403 | toggling flips the value's membership and no other value's |
| DirectoryListing.ToggleTwice | app/majstori/page.tsx:388-403 | toggling an absent value twice restores the selection |
| DirectoryListing.DirectoryPage.constructor | app/majstori/page.tsx:170-188 | the page starts with the fetched snapshot, the default criteria (no query, no filter, by name ascending), the recomputed results and page 1 |
| DirectoryListing.DirectoryPage.Refresh | app/majstori/page.tsx:236-369 | the effect: the results become the recomputation of the snapshot under the criteria, and the page goes back to 1 |
| DirectoryListing.DirectoryPage.ShowResults | app/majstori/page.tsx:367-368 | the given results are stored and the page becomes 1 |
| DirectoryListing.DirectoryPage.HandleSort | app/majstori/page.tsx:378-385 | the same field flips the direction; a new field is taken with ascending order; the results are recomputed |
| DirectoryListing.DirectoryPage.ToggleCategory | app/majstori/page.tsx:388-394 | the category selection is toggled and the results are recomputed |
| DirectoryListing.DirectoryPage.ToggleLanguage | app/majstori/page.tsx:397-403 | the language selection is toggled and the results are recomputed |
| DirectoryListing.DirectoryPage.SetQuery | app/majstori/page.tsx:432 | the query becomes the input's text and the results are recomputed |
| DirectoryListing.DirectoryPage.ToggleEmergency | app/majstori/page.tsx:519 | the emergency flag flips and the results are recomputed |
| DirectoryListing.DirectoryPage.ToggleWeekendEvening | app/majstori/page.tsx:534 | the weekend/evening flag flips and the results are recomputed |
| DirectoryListing.DirectoryPage.ResetFilters | app/majstori/page.tsx:406-415 | every criterion goes back to its default and the results are recomputed |
| DirectoryListing.DirectoryPage.GoPrevious | app/majstori/page.tsx:693 | the page becomes max(1, page - 1) and nothing else changes |
| DirectoryListing.DirectoryPage.GoToPage | app/majstori/page.tsx:700-706 | a page button selects its page, which shows at least one record, and nothing else changes |
| DirectoryListing.DirectoryPage.GoNext | app/majstori/page.tsx:716 | the page becomes min(totalPages, page + 1) and nothing else changes |
| Categories.TopCategoriesDistinct | utils/categories.ts:2-13 | there are ten top-level names, all distinct, none starting with a digit or white space |
| Categories.SmallNumerals | utils/categories.ts:18-106 | the decimal numerals "1" to "10" that the ids use |
| Categories.ElectricalInstallationsWellFormed | utils/categories.ts:17-27 | entry 1: id "1", named "1. " followed by top-level name 1, subcategories "1.1", "1.2", … (at least three) |
| Categories.PlumbingWellFormed | utils/categories.ts:28-38 | entry 2 is well formed in the same sense |
| Categories.JoineryWellFormed | utils/categories.ts:39-48 | entry 3 is well formed |
| Categories.LocksmithingWellFormed | utils/categories.ts:49-57 | entry 4 is well formed |
| Categories.BathroomWellFormed | utils/categories.ts:58-66 | entry 5 is well formed |
| Categories.KitchenWellFormed | utils/categories.ts:67-75 | entry 6 is well formed |
| Categories.AppliancesWellFormed | utils/categories.ts:76-85 | entry 7 is well formed |
| Categories.AirConditioningHeatingWellFormed | utils/categories.ts:86-94 | entry 8 is well formed |
| Categories.WallsCeilingWellFormed | utils/categories.ts:95-103 | entry 9 is well formed |
| Categories.HomeHelpWellFormed | utils/categories.ts:104-112 | entry 10 is well formed |
| Categories.ElectricalInstallationsNamed | utils/categories.ts:19 | entry 1's name is "1. " followed by top-level name 1 |
| Categories.PlumbingNamed | utils/categories.ts:30 | entry 2's name is "2. " followed by top-level name 2 |
| Categories.JoineryNamed | utils/categories.ts:41 | entry 3's name is "3. " followed by top-level name 3 |
| Categories.LocksmithingNamed | utils/categories.ts:51 | entry 4's name is "4. " followed by top-level name 4 |
| Categories.BathroomNamed | utils/categories.ts:60 | entry 5's name is "5. " followed by top-level name 5 |
| Categories.KitchenNamed | utils/categories.ts:69 | entry 6's name is "6. " followed by top-level name 6 |
| Categories.AppliancesNamed | utils/categories.ts:78 | entry 7's name is "7. " followed by top-level name 7 |
| Categories.AirConditioningHeatingNamed | utils/categories.ts:88 | entry 8's name is "8. " followed by top-level name 8 |
| Categories.WallsCeilingNamed | utils/categories.ts:97 | entry 9's name is "9. " followed by top-level name 9 |
| Categories.HomeHelpNamed | utils/categories.ts:106 | entry 10's name is "10. " followed by top-level name 10 |
| Categories.TaxonomyWellFormed | utils/categories.ts:2-113 | the taxonomy has ten entries; entry i has id "i+1" and is named after top-level name i; every entry has at least 3 subcategories, numbered in order; there are 36 subcategories in all |
| Categories.TaxonomySize | utils/categories.ts:16-113 | there are 36 subcategories in all |
| Categories.DottedInjective | utils/categories.ts:21-110 | an id "a.b", with a and b made of digits, determines a and b |
| Categories.SubcategoryIdsUnique | utils/categories.ts:21-110 | no two subcategories anywhere in the taxonomy share an id |
| TopCategories.Distinct | app/page.tsx:17-27 | the keys of the count dictionary: no duplicates, exactly the categories that occur |
| TopCategories.OccurrencesSnoc | app/page.tsx:21 | one more occurrence adds one to that category's count and nothing to the others |
| TopCategories.TallySeen | app/page.tsx:21 | incrementing a key already present keeps the dictionary's invariant |
| TopCategories.TallyNew | app/page.tsx:21 | adding a new key with count 1, at the end of the key order, keeps the invariant |
| TopCategories.TallyAdd | app/page.tsx:20-22 | one step of the inner loop keeps the invariant |
| TopCategories.AddRow | app/page.tsx:19-23 | the inner loop over one row's categories: the invariant holds for everything seen plus the row |
| TopCategories.CountCategories | app/page.tsx:17-24 | the keys are the distinct categories in first-occurrence order, and each count is the number of occurrences across all rows, repeats within a row included |
| TopCategories.GetTopCategories | app/page.tsx:8-31 | the result equals the specification: no data gives [], else the names of the first eight entries of the count list sorted by count |
| TopCategories.ByCountDescConsistent | app/page.tsx:28 | `b[1] - a[1]` is a consistent comparator |
| TopCategories.EntriesCounted | app/page.tsx:17-27 | every entry carries its category's occurrence count, and the entries are distinct |
| TopCategories.CountedPermutation | app/page.tsx:28 | a permutation of counted entries is still counted |
| TopCategories.PermutationNoDuplicates | app/page.tsx:28 | a permutation of a duplicate-free list is duplicate-free |
| TopCategories.CountedNamesDistinct | app/page.tsx:27-30 | distinct counted entries have distinct names |
| TopCategories.RankedFacts | app/page.tsx:27-28 | the sorted entries are counted, distinct, sorted by count and one per distinct category |
| TopCategories.FirstNamesShape | app/page.tsx:29-30 | `slice(0, 8)` then the names: min(n, 8) distinct names, each of a category that occurs |
| TopCategories.FirstNamesAt | app/page.tsx:29-30 | the k-th name is the k-th entry's name |
| TopCategories.SortedCounts | app/page.tsx:28 | in the sorted list an earlier entry's count is at least a later one's |
| TopCategories.FirstNamesOrder | app/page.tsx:28-29 | the kept counts are non-increasing, and any category left out has been cut at eight and counts no more than the last one kept |
| TopCategories.TopCategoriesShape | app/page.tsx:14-30 | null data gives []; else min(distinct categories, 8) distinct names, each occurring in some row |
| TopCategories.TopCategoriesOrder | app/page.tsx:17-30 | the returned counts are non-increasing and every omitted category counts no more than the smallest returned one |
| TopCategories.ClassOfIsFilter | app/page.tsx:28 | the elements equivalent to k, in order, are the filter by equivalence to k |
| TopCategories.SortStableFilter | app/page.tsx:28 | sorting keeps every equivalence class in its input order |
| TopCategories.SortByCountStable | app/page.tsx:28 | the entries with any given count keep their order |
| TopCategories.RankedStable | app/page.tsx:27-28 | categories of equal count stay in first-appearance order |
| Sorting.Insert | app/majstori/page.tsx:330 | inserting adds exactly the element to the multiset |
| Sorting.Sort | app/majstori/page.tsx:330-365 | the sort is a permutation of its input |
| Sorting.InsertSorted | app/majstori/page.tsx:330 | inserting into a sorted list under a consistent comparator keeps it sorted |
| Sorting.SortSorted | app/majstori/page.tsx:330-365 | the output is sorted under a consistent comparator |
| Sorting.InsertClass | app/majstori/page.tsx:330 | insertion puts the element in front of its equivalence class, which is otherwise unchanged |
| Sorting.SortStable | app/majstori/page.tsx:330-365 | stability: every equivalence class keeps its input order |
| Lists.Filter | app/majstori/page.tsx:293 | `filter`: no longer than its input, and every element kept passes |
| Lists.Map | app/majstori/page.tsx:288 | `map`: the same length, element k is f of element k |
| Lists.FilterCount | app/majstori/page.tsx:293 | a passing element keeps every occurrence, and a failing one keeps none |
| Lists.FilterSub | app/majstori/page.tsx:293 | the kept elements are a sub-multiset of the input |
| Lists.FilterMember | app/majstori/page.tsx:293 | x is kept exactly when it is present and passes |
| Lists.FilterFilter | app/majstori/page.tsx:292-324 | two filters in a row are one filter by both tests |
| Lists.FilterMap | app/majstori/page.tsx:288-293 | filtering after a map is mapping after filtering by the composed test |
| Lists.FilterSubMultiset | app/majstori/page.tsx:292-324 | a weaker test on a larger multiset keeps more |
| Strings.LowerChar | app/majstori/page.tsx:62 | lower-casing a character: white space stays white space, no capital is left, and only ASCII and Croatian capitals change |
| Strings.LowerIdempotent | app/majstori/page.tsx:62 | lower-casing twice is lower-casing once |
| Strings.Lower | app/majstori/page.tsx:122 | `toLowerCase`, character by character, of the same length |
| Strings.Trim | app/majstori/page.tsx:62 | `trim`: the result is the input with its leading and trailing white space cut off, and it carries none |
| Strings.TrimOfTrimmed | app/actions.ts:339 | trimming a trimmed string changes nothing |
| Strings.TrimEmptyIffAllSpace | app/majstori/page.tsx:241 | trimming gives "" exactly when the input is all white space |
| Strings.TrimLowerEmpty | app/majstori/page.tsx:241-243 | lower-casing does not change whether the trimmed text is blank |
| Strings.ContainsTransitive | app/majstori/page.tsx:75 | `includes` is transitive |
| Strings.ContainsTrim | app/majstori/page.tsx:61-81 | a word occurs in the trimmed text exactly when it occurs in the text |
| Strings.Words | app/majstori/page.tsx:243 | `split(/\s+/)` with empty pieces dropped: every piece is a non-empty word, and there are none exactly when the text is blank; with WordsOfWord and WordsSplit, the pieces are the maximal white-space-free runs, in order |
| Strings.WordsOfWord | app/majstori/page.tsx:243 | a text with no white space and at least one character splits into itself alone |
| Strings.WordsSplit | app/majstori/page.tsx:243 | a white-space character separates: the pieces of a, a space and b are the pieces of a followed by the pieces of b |
| Strings.IndexOf | app/actions.ts:339 | the first position of the separator |
| Strings.SplitOn | app/actions.ts:339 | `split(c)`: at least one piece, and no piece holds the separator |
| Strings.JoinSplitOn | app/actions.ts:339 | joining the pieces with the separator gives back the string |
| Strings.SplitOnJoin | app/actions.ts:339 | splitting a join of pieces without the separator gives back the pieces |
| Strings.SplitOnHead | components/account/profile-picture.tsx:85-168 | the first piece is everything before the first separator |
| Strings.SplitOnLast | components/account/profile-picture.tsx:169-170 | the last piece is everything after the last separator |
| Strings.NatToString | components/account/profile-picture.tsx:102 | the decimal numeral is all digits, with no leading zero |
| Strings.NatToStringValue | components/account/profile-picture.tsx:102 | the numeral reads back as the number |
| Strings.NatToStringInjective | components/account/profile-picture.tsx:102 | different numbers have different numerals |
| Strings.StrLessTransitive | app/majstori/page.tsx:350-361 | string order is transitive |
| Strings.StrLessTotal | app/majstori/page.tsx:350-361 | any two different strings are ordered one way |
| Strings.StrLessAsymmetric | app/majstori/page.tsx:350-361 | string order is asymmetric |
| Actions.FormGet | app/actions.ts:9-10 | `formData.get`: present exactly when some field has the key, and then equal to the first value under it, with no earlier field under that key |
| Actions.SignUpGuard | app/actions.ts:8-40 | a missing or empty email or password gives the error redirect to /sign-up whatever the auth call would do; otherwise the outcome is an error exactly when the auth call fails |
| Actions.DispatchCases | app/actions.ts:198-241 | a missing or empty action type selects the basic profile; "notifications" and "display" select the preferences handler; any other value outside the six names is unknown |
| Actions.CollectContacts | app/actions.ts:288-295 | the push loop yields the specification list of contacts |
| Actions.ContactsAppend | app/actions.ts:291-295 | the contacts of two parts of a form, one after the other |
| Actions.ContactsMember | app/actions.ts:291-295 | v is a contact exactly when some field with a "contact_" key has the value v; no contact is empty |
| Actions.CategoriesShape | app/actions.ts:315-319 | the checkbox values come first, unchanged and in order; one more element, the custom category, exactly when it is not empty |
| Actions.WaitTimeText | app/actions.ts:338 | the text handed to `parseInt` is never empty, because "1" replaces a missing or empty value |
| Actions.ParseLanguagesClean | app/actions.ts:339 | no language is empty, padded or holds a comma |
| Actions.TrimAll | app/actions.ts:339 | mapping `trim` over trimmed strings changes nothing |
| Actions.ParseLanguagesJoin | app/actions.ts:339 | clean names joined with commas parse back to the same list, in the same order |
| Actions.AddCoordinates | app/actions.ts:271-273 | the three conditional assignments append exactly the coordinate fields to the record |
| Actions.LookupAppend | app/actions.ts:262-273 | a key's value in an extended record is the first one present |
| Actions.CoordinateKeys | app/actions.ts:254-273 | latitude, longitude and radius are present exactly when their form strings are not empty, and then hold the parsed value |
| Actions.HandlerWrites | app/actions.ts:245-376 | a handler writes at most one update, keyed by the given user; the unknown handler writes nothing |
| Actions.ProfileEffectCreation | app/actions.ts:190-216 | without a user nothing is written; a missing record is first created holding only the user id; a failed creation ends with its error |
| Actions.ProfileEffectUpdates | app/actions.ts:201-241 | after the creation, the only writes are updates keyed by the user; there are at most two writes; an unknown type writes only the creation |
| Actions.UpdateProfileWrites | app/actions.ts:183-242 | the whole action: the two previous lemmas, with the handler chosen from the form |
| Actions.OnboardingCases | app/actions.ts:378-443 | an empty name inserts nothing and redirects to /onboarding; otherwise one record is inserted whose contacts are [phone] or [], and the redirect to /protected happens exactly when the insert succeeds |
| Actions.SaveLocationCases | app/actions.ts:445-506 | "Unauthorized" is thrown, with nothing written, exactly when there is no user or the ids differ; otherwise there is one write: an update of the four location fields, or an insert named "New User" that ends with them; success exactly when the write succeeds |
| SanitizeHtml.FindCi | utils/sanitize-html.ts:12-13 | the first case-insensitive occurrence from a position on, or None when there is none |
| SanitizeHtml.MatchAt | utils/sanitize-html.ts:12-16 | a match of a step's pattern is non-empty and lies inside the string |
| SanitizeHtml.RemoveFromShorter | utils/sanitize-html.ts:12-16 | a global deletion never lengthens the string |
| SanitizeHtml.RemoveFromKeeps | utils/sanitize-html.ts:12-16 | a deletion only keeps characters of its input |
| SanitizeHtml.RemoveFromNoMatch | utils/sanitize-html.ts:12-16 | with no match from a position on, the rest is kept unchanged |
| SanitizeHtml.RemoveStepsNoMatch | utils/sanitize-html.ts:11-16 | a string in which no step's pattern occurs passes the five deletions unchanged |
| SanitizeHtml.RemoveStepsShrinks | utils/sanitize-html.ts:11-16 | the deletions never lengthen the string |
| SanitizeHtml.CleanShape | utils/sanitize-html.ts:11-17 | after the deletions and trim, the result is trimmed and no longer than the input; a trimmed input with no pattern is returned unchanged |
| SanitizeHtml.SanitizeShape | utils/sanitize-html.ts:6-18 | null or empty input gives ""; the output is trimmed and no longer than the input; a trimmed input holding no pattern is returned unchanged |
| SanitizeHtml.UnclosedElementStays | utils/sanitize-html.ts:12-13 | with no closing tag anywhere, no element match starts at any position |
| SanitizeHtml.NoCloseNoElement | utils/sanitize-html.ts:12-13 | an opening tag that is never closed is left in place |
| SanitizeHtml.RemoveStepsSameLength | utils/sanitize-html.ts:11-16 | if the deletions remove nothing, no pattern occurs in the input |
| SanitizeHtml.RoundShortensOrFixes | utils/sanitize-html.ts:11-17 | a pass shortens the string or leaves it unchanged, and an unchanged string is trimmed and holds no pattern |
| SanitizeHtml.Fixpoint | utils/sanitize-html.ts:11-17 | repeating the pass until nothing changes yields a trimmed string holding no pattern |
| SanitizeHtml.SanitizeHtmlToFixpoint | utils/sanitize-html.ts:6-18 | the corrected sanitiser: null or empty gives "", the output is trimmed, no longer than the input, and no pattern occurs in it |
| SanitizeHtml.FixpointAfterCleanRound | utils/sanitize-html.ts:11-17 | when one pass already leaves no pattern, the repetition stops after it |
| SanitizeHtml.SinglePassSuffices | utils/sanitize-html.ts:6-18 | whenever the single pass leaves no pattern, the corrected sanitiser agrees with it |
| SanitizeHtml.LeadAbsent | utils/sanitize-html.ts:12-16 | a string without the first character of a pattern, in either case, holds no match of it |
| SanitizeHtml.SplitRound | utils/sanitize-html.ts:11-17 | one pass over "javajavascript:script:" gives "javascript:" |
| SanitizeHtml.SinglePassRebuildsScheme | utils/sanitize-html.ts:6-18 | the sanitiser as written turns "javajavascript:script:" into "javascript:", which still matches the "javascript:" step |
| ProfilePicture.RoundDiv | components/account/profile-picture.tsx:24 | `Math.round(n / d)`: the nearest integer, halves rounded up |
| ProfilePicture.RoundBelow | components/account/profile-picture.tsx:24 | a quotient below h rounds to at most h |
| ProfilePicture.ScaleDimensions | components/account/profile-picture.tsx:10-26 | a width at most maxWidth keeps both sides; otherwise the width becomes maxWidth and the height is the rounded scaled height, within width/2 of exact; the width never exceeds maxWidth and the height never grows |
| ProfilePicture.UploadName | components/account/profile-picture.tsx:102 | "profile-<userId>-<time>.jpg" holds no '/' or '?' when the id holds none |
| ProfilePicture.UploadNamesDistinct | components/account/profile-picture.tsx:102 | one user's uploads at different times get different names |
| ProfilePicture.WithoutQuery | components/account/profile-picture.tsx:85-168 | `split('?')[0]` holds no '?' |
| ProfilePicture.WithoutQueryStamped | components/account/profile-picture.tsx:85-168 | a URL without a query is its own query-free form, and stamping then stripping gives it back |
| ProfilePicture.DisplayUrlRestamp | components/account/profile-picture.tsx:85 | re-stamping a display URL only replaces the stamp |
| ProfilePicture.RemovalIgnoresStamp | components/account/profile-picture.tsx:85-171 | the removal path does not depend on the stamp |
| ProfilePicture.RemovalPathOfUpload | components/account/profile-picture.tsx:111-171 | for a stored URL ".../<name>", with or without a stamp, the removal path is the upload path of the name |
| ProfilePicture.UploadThenRemove | components/account/profile-picture.tsx:102-171 | removing a freshly uploaded and stamped picture deletes exactly the uploaded file |
| ProfilePicture.ErrorText | components/account/profile-picture.tsx:150-187 | `err.message or fallback`: never empty when the fallback is not |
| ProfilePicture.AttemptUpload | components/account/profile-picture.tsx:92-154 | an upload succeeds exactly when there is a file and compression, upload, public URL and update all succeed; the URL kept is the public URL |
| ProfilePicture.UploadErrorText | components/account/profile-picture.tsx:116-150 | every failed attempt shows a non-empty message |
| ProfilePicture.UploadOperations | components/account/profile-picture.tsx:100-142 | no file or a failed compression makes no call; otherwise the upload of public/<name> comes first; the update follows exactly when a public URL came back |
| ProfilePicture.PictureWidget.constructor | components/account/profile-picture.tsx:67-69 | the widget starts with no picture, no error and no call made |
| ProfilePicture.PictureWidget.SyncExisting | components/account/profile-picture.tsx:80-89 | a non-empty existing URL is shown with a fresh stamp; otherwise the picture is cleared |
| ProfilePicture.PictureWidget.HandleFileChange | components/account/profile-picture.tsx:92-154 | no file changes nothing; success shows the stamped new URL, clears the error and reports the URL; a failure keeps the picture and shows its message; the calls made are the attempt's operations |
| ProfilePicture.PictureWidget.HandleRemove | components/account/profile-picture.tsx:157-191 | no picture changes nothing; otherwise the file at the removal path is deleted and the user's picture cleared, then the widget is cleared and the parent told; a thrown error keeps the picture and shows the message |
| RichTextEditor.NormalizeUrl | components/ui/rich-text-editor.tsx:44-46 | the href always starts with "http://" or "https://"; it is the text itself exactly when the text already has such a scheme, else "https://" before it |
| RichTextEditor.NormalizeIdempotent | components/ui/rich-text-editor.tsx:44-46 | normalising twice is normalising once |
| RichTextEditor.NormalizeKeepsText | components/ui/rich-text-editor.tsx:44-46 | the typed text always ends the href |
| RichTextEditor.NormalizeUpperCaseScheme | components/ui/rich-text-editor.tsx:44 | the test is case-sensitive: "HTTP://…" gets a second scheme |
| RichTextEditor.MenuBar.constructor | components/ui/rich-text-editor.tsx:34-35 | the link box starts empty and hidden, with no link set |
| RichTextEditor.MenuBar.SetLinkUrl | components/ui/rich-text-editor.tsx:155 | typing replaces the link text only |
| RichTextEditor.MenuBar.ToggleLinkInput | components/ui/rich-text-editor.tsx:70 | the box's visibility flips and nothing else changes |
| RichTextEditor.MenuBar.AddLink | components/ui/rich-text-editor.tsx:41-61 | a non-empty text adds one link at its normalised address with target "_blank" and rel "noopener noreferrer"; an empty one adds none; the box is then emptied and hidden; every link set is safe |
| LocationManager.NumberOr | components/account/location-manager.tsx:28-31 | `x or d` on a number: x when present and not 0, else d |
| LocationManager.TextOr | components/account/location-manager.tsx:30 | `x or d` on a string: x when present and not "", else d |
| LocationManager.InitialShape | components/account/location-manager.tsx:27-32 | the initial coordinates and radius are never 0; without an input the state is the defaults (45.815399, 15.966568, "", 20) |
| LocationManager.FirstSyncChanges | components/account/location-manager.tsx:27-58 | the first sync changes the state exactly when the parent passed a 0 coordinate or radius: initialisation replaces 0, the merge keeps it |
| LocationManager.MergeUnchanged | components/account/location-manager.tsx:39-57 | the merge keeps the previous state exactly when every present field already equals it |
| LocationManager.MergeIdempotent | components/account/location-manager.tsx:38-58 | syncing twice with the same input is syncing once |
| LocationManager.MergeComplete | components/account/location-manager.tsx:39-55 | a fully given input replaces the state whatever it was |
| LocationManager.LocationCard.constructor | components/account/location-manager.tsx:27-68 | mounting: the state starts from the defaults rule, is reported, and the sync then runs once on the same input |
| LocationManager.LocationCard.Sync | components/account/location-manager.tsx:34-68 | no input changes nothing; otherwise the state becomes the merge, and a change is reported |
| LocationManager.LocationCard.SelectLocation | components/account/location-manager.tsx:64-82 | lat, lng, name and serviceRadius replace latitude, longitude, location and service_radius, and the new state is reported |

## Left out

- Backend traffic is not modelled: the Supabase fetch, auth, storage upload, remove and public-URL calls, and inserts and updates. What each call answers is a parameter, and what it writes is a value.
- `encodedRedirect` and `redirect` (utils/utils) are not part of this model. They are terminal outcome values.
- The other server actions are not modelled: sign-in, forgot and reset password, sign-out and the bio update. They are auth and redirect glue around backend calls.
- `parseFloat` and `parseInt` are abstract functions (`ParsedFloat`, `ParsedInt`), so NaN is not modelled. Coordinates are `real`s: they are only copied, compared and tested for zero.
- Form entries holding files are left out. Form values are text.
- The order of `Object.entries` over integer-like keys is not modelled. The count list keeps first-insertion order, which is JavaScript's order for the non-numeric keys the taxonomy uses. Keys inherited from `Object.prototype` ("constructor" and the like) are not modelled either.
- Unicode lower-casing is not modelled. It is ASCII plus the five Croatian capitals.
- Strings are sequences of code points, whereas JavaScript strings are UTF-16 code units. Lengths (`term.length >= 3`, app/majstori/page.tsx:67), substring positions (app/majstori/page.tsx:76) and `<` on strings (app/majstori/page.tsx:343-347) are therefore counted in code points. Results can differ only for characters outside the Basic Multilingual Plane, such as emoji.
- `localeCompare` is the code-point order. Collation rules are not modelled.
- The sanitiser's `/i` flag folds ASCII letters only. This agrees with JavaScript for the patterns used, which are all ASCII.
- `Math.round` is exact integer rounding. The floating-point division before it is not modelled.
- Comparator coercion quirks are not modelled: mixed strings and numbers, null, and NaN. A missing value is "" or 0, as the comparator's own defaulting does.
- The score is written in place on records shared with the snapshot (app/majstori/page.tsx:279-281). In the model it is a value attached to each result, so object identity and aliasing are not modelled.
- React scheduling is left out: batching, effect order beyond the one modelled, and rendering. The `loading` flag and the lists of available categories and languages are left out too.
- `Date.now` and `new Date()` are parameters. The canvas, FileReader and JPEG compression are left out, except for the integer dimension rule.
- ProfilePicture.PictureWidget.HandleRemove: storage and database errors that come back as values are ignored by the source. The model follows it: only a thrown error ("removeError" or "updateError") reaches the error state.
- The editor's formatting commands are not modelled: bold, italic, headings, lists, alignment, undo and redo. They are calls into the editor library, and the model records only the link marks.
- DOMPurify in the bio editor is not modelled. It is a foreign library.
- The unused tag arrays at app/majstori/page.tsx:57-58 are not modelled.

## Findings

| source | as written | input that shows it | evidently intended | confidence | as-written member | corrected member |
|---|---|---|---|---|---|---|
| utils/sanitize-html.ts:12-17 | one pass of the five global deletions | "javajavascript:script:" comes out as "javascript:", which the "javascript:" step still matches | line 10 says the pass removes potentially harmful script tags, so the output should hold none of the removed patterns; lines 2-4 say the sanitiser targets SEO and leaves security to client-side DOMPurify, so this is a gap in a stated aim rather than a security hole | not executed | SanitizeHtml.SinglePassRebuildsScheme | SanitizeHtml.SanitizeHtmlToFixpoint |
