/**
 * `simpleSanitizeHtml`: the server-side clean-up of a professional's bio.
 * Five global, case-insensitive regular-expression deletions run one after
 * the other (script elements, iframe elements, "javascript:", "onerror=",
 * "onclick="), then the result is trimmed. It is a single pass: a deletion
 * can join two fragments into a pattern that an earlier step would have
 * removed.
 */
module SanitizeHtml {
  import opened Wrappers
  import opened Strings

  /** What one `replace` step deletes. */
  datatype Pattern =
    | Literal(text: string)             // the literal text, in any ASCII case
    | Element(open: string, close: string)
      // `<tag\b[^<]*(?:(?!</tag>)<[^<]*)*</tag>`: from the opening text, at a
      // word boundary, to the first closing tag after it, in any ASCII case

  /** The five steps, in order. */
  const Steps: seq<Pattern> := [
    Element("<script", "</script>"),
    Element("<iframe", "</iframe>"),
    Literal("javascript:"),
    Literal("onerror="),
    Literal("onclick=")
  ]

  /** `pat` occurs in `s` at `i`, comparing letters without regard to ASCII case. */
  predicate OccursCi(s: string, pat: string, i: nat) {
    i + |pat| <= |s| && forall k :: 0 <= k < |pat| ==> AsciiLower(s[i + k]) == AsciiLower(pat[k])
  }

  /** The regex `\b` after a word character: the end of the text or a non-word character follows. */
  predicate BoundaryAfterWord(s: string, k: nat) {
    k >= |s| || !IsWordChar(s[k])
  }

  /** The first position at or after `from` where `pat` occurs (in any case), if any. */
  function FindCi(s: string, pat: string, from: nat): (r: Option<nat>)
    ensures r.Some? ==> from <= r.value <= |s| && OccursCi(s, pat, r.value)
    ensures r.Some? ==> forall j :: from <= j < r.value ==> !OccursCi(s, pat, j)
    ensures r.None? ==> forall j :: from <= j <= |s| ==> !OccursCi(s, pat, j)
    decreases |s| - from
  {
    if from > |s| then None
    else if OccursCi(s, pat, from) then Some(from)
    else FindCi(s, pat, from + 1)
  }

  /** The length of the step's match starting at `i`, if one starts there. */
  function MatchAt(s: string, i: nat, p: Pattern): (r: Option<nat>)
    ensures r.Some? && Proper(p) ==> r.value > 0
    ensures r.Some? ==> i + r.value <= |s|
  {
    match p
    case Literal(text) =>
      if OccursCi(s, text, i) then Some(|text|) else None
    case Element(open, close) =>
      if OccursCi(s, open, i) && BoundaryAfterWord(s, i + |open|) then
        match FindCi(s, close, i + |open|)
        case Some(j) => Some(j + |close| - i)
        case None => None
      else None
  }

  /** A pattern that only matches text: none is empty. */
  predicate Proper(p: Pattern) {
    match p
    case Literal(text) => text != []
    case Element(open, close) => open != []
  }

  /** `s.replace(p, '')` under the `g` flag, from position `i`: matches are deleted left to right, without overlap. */
  function RemoveFrom(s: string, p: Pattern, i: nat): string
    requires Proper(p)
    decreases |s| - i
  {
    if i >= |s| then []
    else
      var m := MatchAt(s, i, p);
      if m.Some? then RemoveFrom(s, p, i + m.value)
      else [s[i]] + RemoveFrom(s, p, i + 1)
  }

  function Remove(s: string, p: Pattern): string
    requires Proper(p)
  {
    RemoveFrom(s, p, 0)
  }

  /** The five deletions, in order. */
  function RemoveSteps(s: string, steps: seq<Pattern>): string
    requires forall k :: 0 <= k < |steps| ==> Proper(steps[k])
    decreases |steps|
  {
    if steps == [] then s else RemoveSteps(Remove(s, steps[0]), steps[1..])
  }

  /** One pass of the sanitiser: the five deletions, then the trim. */
  function Round(s: string): string {
    StepsProper();
    Trim(RemoveSteps(s, Steps))
  }

  /** `simpleSanitizeHtml`: null or empty gives ""; otherwise one pass. */
  function SimpleSanitizeHtml(html: Option<string>): string {
    if html.None? || html.value == [] then [] else Round(html.value)
  }

  // ------------------------------------------------------------ properties

  /** Deleting never lengthens the text. */
  lemma {:induction false} RemoveFromShorter(s: string, p: Pattern, i: nat)
    requires Proper(p) && i <= |s|
    ensures |RemoveFrom(s, p, i)| <= |s| - i
    decreases |s| - i
  {
    if i < |s| {
      var m := MatchAt(s, i, p);
      if m.Some? {
        RemoveFromShorter(s, p, i + m.value);
      } else {
        RemoveFromShorter(s, p, i + 1);
      }
    }
  }

  /** Deleting only removes characters: whatever remains was in the text. */
  lemma {:induction false} RemoveFromKeeps(s: string, p: Pattern, i: nat)
    requires Proper(p) && i <= |s|
    ensures forall c :: c in RemoveFrom(s, p, i) ==> c in s[i..]
    decreases |s| - i
  {
    if i < |s| {
      var m := MatchAt(s, i, p);
      if m.Some? {
        RemoveFromKeeps(s, p, i + m.value);
        forall c | c in s[i + m.value..] ensures c in s[i..] {
          assert s[i..] == s[i..i + m.value] + s[i + m.value..];
        }
      } else {
        RemoveFromKeeps(s, p, i + 1);
      }
    }
  }

  /** Where the step matches nowhere from `i` on, it deletes nothing. */
  lemma {:induction false} RemoveFromNoMatch(s: string, p: Pattern, i: nat)
    requires Proper(p)
    requires forall j :: i <= j < |s| ==> MatchAt(s, j, p).None?
    ensures RemoveFrom(s, p, i) == if i < |s| then s[i..] else []
    decreases |s| - i
  {
    if i < |s| {
      RemoveFromNoMatch(s, p, i + 1);
      assert s[i..] == [s[i]] + if i + 1 < |s| then s[i + 1..] else [];
    }
  }

  lemma StepsProper()
    ensures forall k :: 0 <= k < |Steps| ==> Proper(Steps[k])
  {
  }

  /** A step "matches nowhere" in `s`. */
  predicate Absent(s: string, p: Pattern) {
    forall j :: 0 <= j < |s| ==> MatchAt(s, j, p).None?
  }

  lemma {:induction false} RemoveStepsNoMatch(s: string, steps: seq<Pattern>)
    requires forall k :: 0 <= k < |steps| ==> Proper(steps[k])
    requires forall k :: 0 <= k < |steps| ==> Absent(s, steps[k])
    ensures RemoveSteps(s, steps) == s
    decreases |steps|
  {
    if steps != [] {
      RemoveFromNoMatch(s, steps[0], 0);
      assert Remove(s, steps[0]) == s;
      RemoveStepsNoMatch(s, steps[1..]);
    }
  }

  lemma {:induction false} RemoveStepsShrinks(s: string, steps: seq<Pattern>)
    requires forall k :: 0 <= k < |steps| ==> Proper(steps[k])
    ensures |RemoveSteps(s, steps)| <= |s|
    decreases |steps|
  {
    if steps != [] {
      RemoveFromShorter(s, steps[0], 0);
      RemoveStepsShrinks(Remove(s, steps[0]), steps[1..]);
    }
  }

  /** The deletions followed by the trim, for any list of steps. */
  lemma CleanShape(s: string, steps: seq<Pattern>)
    requires forall k :: 0 <= k < |steps| ==> Proper(steps[k])
    ensures Trimmed(Trim(RemoveSteps(s, steps)))
    ensures |Trim(RemoveSteps(s, steps))| <= |s|
    ensures Trimmed(s) && (forall k :: 0 <= k < |steps| ==> Absent(s, steps[k])) ==>
      Trim(RemoveSteps(s, steps)) == s
  {
    RemoveStepsShrinks(s, steps);
    if Trimmed(s) && forall k :: 0 <= k < |steps| ==> Absent(s, steps[k]) {
      RemoveStepsNoMatch(s, steps);
      TrimOfTrimmed(s);
    }
  }

  /**
   * The output is trimmed and never longer than the input; null and the
   * empty string give ""; a text in which no step matches and which has no
   * surrounding white space comes back unchanged.
   */
  lemma SanitizeShape(html: Option<string>)
    ensures Trimmed(SimpleSanitizeHtml(html))
    ensures html.None? || html.value == [] ==> SimpleSanitizeHtml(html) == []
    ensures html.Some? ==> |SimpleSanitizeHtml(html)| <= |html.value|
    ensures html.Some? && Trimmed(html.value) && (forall k :: 0 <= k < |Steps| ==> Absent(html.value, Steps[k])) ==>
      SimpleSanitizeHtml(html) == html.value
  {
    if html.Some? && html.value != [] {
      StepsProper();
      CleanShape(html.value, Steps);
    } else {
      assert Trimmed([]);
    }
  }

  /** An opening tag with no closing tag anywhere after it is not a match: it stays in place. */
  lemma UnclosedElementStays(s: string, open: string, close: string, i: nat)
    requires open != []
    requires forall j :: 0 <= j <= |s| ==> !OccursCi(s, close, j)
    ensures MatchAt(s, i, Element(open, close)).None?
  {
  }

  /** A text with no closing tag loses no element. */
  lemma NoCloseNoElement(s: string, open: string, close: string)
    requires open != []
    requires forall j :: 0 <= j <= |s| ==> !OccursCi(s, close, j)
    ensures Remove(s, Element(open, close)) == s
  {
    forall j | 0 <= j < |s| ensures MatchAt(s, j, Element(open, close)).None? {
      UnclosedElementStays(s, open, close, j);
    }
    RemoveFromNoMatch(s, Element(open, close), 0);
  }

  // ------------------------------------------------ single pass vs. fixpoint

  /** A step that deletes nothing shortens nothing: where the length is kept, the step matched nowhere. */
  lemma {:induction false} RemoveFromSameLength(s: string, p: Pattern, i: nat)
    requires Proper(p) && i <= |s|
    requires |RemoveFrom(s, p, i)| == |s| - i
    ensures forall j :: i <= j < |s| ==> MatchAt(s, j, p).None?
    decreases |s| - i
  {
    if i < |s| {
      var m := MatchAt(s, i, p);
      if m.Some? {
        RemoveFromShorter(s, p, i + m.value);
        assert false;
      }
      RemoveFromSameLength(s, p, i + 1);
    }
  }

  /** Steps that together keep the length all matched nowhere, and left the text as it was. */
  lemma {:induction false} RemoveStepsSameLength(s: string, steps: seq<Pattern>)
    requires forall k :: 0 <= k < |steps| ==> Proper(steps[k])
    requires |RemoveSteps(s, steps)| == |s|
    ensures forall k :: 0 <= k < |steps| ==> Absent(s, steps[k])
    ensures RemoveSteps(s, steps) == s
    decreases |steps|
  {
    if steps != [] {
      var r := Remove(s, steps[0]);
      RemoveFromShorter(s, steps[0], 0);
      RemoveStepsShrinks(r, steps[1..]);
      RemoveFromSameLength(s, steps[0], 0);
      RemoveFromNoMatch(s, steps[0], 0);
      assert r == s;
      RemoveStepsSameLength(s, steps[1..]);
      forall k | 1 <= k < |steps| ensures Absent(s, steps[k]) {
        assert steps[k] == steps[1..][k - 1];
      }
    }
  }

  /** A round either shortens the text or leaves it exactly as it was; a text it leaves alone is clean. */
  lemma RoundShortensOrFixes(s: string)
    ensures |Round(s)| <= |s|
    ensures |Round(s)| == |s| ==> Round(s) == s
    ensures Round(s) == s ==> Trimmed(s) && forall k :: 0 <= k < |Steps| ==> Absent(s, Steps[k])
  {
    StepsProper();
    var x := RemoveSteps(s, Steps);
    RemoveStepsShrinks(s, Steps);
    if |Round(s)| == |s| {
      RemoveStepsSameLength(s, Steps);
      var i := SkipSpaces(x, 0);
      assert i == 0;
      assert Round(s) == s[0..|s|];
    }
  }

  /** Rounds repeated until nothing changes. */
  function Fixpoint(s: string): (r: string)
    ensures Trimmed(r) && |r| <= |s|
    ensures forall k :: 0 <= k < |Steps| ==> Absent(r, Steps[k])
    decreases |s|
  {
    RoundShortensOrFixes(s);
    if Round(s) == s then s else Fixpoint(Round(s))
  }

  /**
   * The sanitiser as evidently intended: null or empty gives "", and
   * otherwise no step can match anywhere in what is returned.
   */
  function SanitizeHtmlToFixpoint(html: Option<string>): (r: string)
    ensures Trimmed(r)
    ensures forall k :: 0 <= k < |Steps| ==> Absent(r, Steps[k])
    ensures html.Some? ==> |r| <= |html.value|
    ensures html.None? || html.value == [] ==> r == []
  {
    if html.None? || html.value == [] then
      assert Trimmed([]);
      []
    else Fixpoint(html.value)
  }

  /** A round whose result is already clean is the last one. */
  lemma FixpointAfterCleanRound(s: string)
    requires forall k :: 0 <= k < |Steps| ==> Absent(Round(s), Steps[k])
    ensures Fixpoint(s) == Round(s)
  {
    var t := Round(s);
    if t != s {
      StepsProper();
      CleanShape(t, Steps);
      assert Round(t) == t;
    }
  }

  /** Where the single pass already leaves nothing to delete, the two agree. */
  lemma SinglePassSuffices(html: Option<string>)
    requires forall k :: 0 <= k < |Steps| ==> Absent(SimpleSanitizeHtml(html), Steps[k])
    ensures SanitizeHtmlToFixpoint(html) == SimpleSanitizeHtml(html)
  {
    if html.Some? && html.value != [] {
      FixpointAfterCleanRound(html.value);
    }
  }

  /** The first character every match of the step begins with. */
  function Lead(p: Pattern): char
    requires Proper(p)
  {
    match p
    case Literal(text) => text[0]
    case Element(open, close) => open[0]
  }

  /** A step cannot match a text none of whose characters is its leading one, in any case. */
  lemma LeadAbsent(s: string, p: Pattern)
    requires Proper(p)
    requires forall j :: 0 <= j < |s| ==> AsciiLower(s[j]) != AsciiLower(Lead(p))
    ensures Absent(s, p)
  {
    forall j | 0 <= j < |s| ensures MatchAt(s, j, p).None? {
      match p
      case Literal(text) =>
        assert AsciiLower(s[j + 0]) != AsciiLower(text[0]);
      case Element(open, close) =>
        assert AsciiLower(s[j + 0]) != AsciiLower(open[0]);
    }
  }

  /** Where the step does not match at `i`, that character is kept. */
  lemma RemoveFromKeep(s: string, p: Pattern, i: nat)
    requires Proper(p) && i < |s| && MatchAt(s, i, p).None?
    ensures RemoveFrom(s, p, i) == [s[i]] + RemoveFrom(s, p, i + 1)
  {
  }

  /** Where the step matches at `i`, the match is skipped. */
  lemma RemoveFromSkip(s: string, p: Pattern, i: nat, n: nat)
    requires Proper(p) && i < |s| && MatchAt(s, i, p) == Some(n)
    ensures RemoveFrom(s, p, i) == RemoveFrom(s, p, i + n)
  {
  }

  /** A stretch where the step matches nowhere is kept as it is. */
  lemma {:induction false} RemoveFromKeepRun(s: string, p: Pattern, i: nat, j: nat)
    requires Proper(p) && i <= j <= |s|
    requires forall x :: i <= x < j ==> MatchAt(s, x, p).None?
    ensures RemoveFrom(s, p, i) == s[i..j] + RemoveFrom(s, p, j)
    decreases j - i
  {
    if i < j {
      RemoveFromKeepRun(s, p, i + 1, j);
      RemoveFromKeep(s, p, i);
      assert s[i..j] == [s[i]] + s[i + 1..j];
    }
  }

  const Rebuilt: string := "javascript:"
  const Split: string := "javajavascript:script:"

  // The example lemmas take the text as a parameter equal to `Split`, so
  // that they reason about it one position at a time.

  /** After the match, "script:" holds no "j": it is kept whole. */
  lemma SplitSchemeTail(s: string)
    requires s == Split
    ensures RemoveFrom(s, Literal(Rebuilt), 15) == "script:"
  {
    var js := Literal(Rebuilt);
    var tail := s[15..];
    assert tail == "script:";
    LeadAbsent(tail, js);
    forall j | 15 <= j < |s| ensures MatchAt(s, j, js).None? {
      assert s[j] == tail[j - 15];
    }
    RemoveFromNoMatch(s, js, 15);
  }

  /** The first four positions start no "javascript:": each differs from it somewhere. */
  lemma SplitSchemeHead(s: string)
    requires s == Split
    ensures forall x :: 0 <= x < 4 ==> MatchAt(s, x, Literal(Rebuilt)).None?
  {
    forall x | 0 <= x < 4 ensures MatchAt(s, x, Literal(Rebuilt)).None? {
      if x == 0 {
        assert AsciiLower(s[x + 4]) != AsciiLower(Rebuilt[4]);
      } else {
        assert AsciiLower(s[x + 0]) != AsciiLower(Rebuilt[0]);
      }
    }
  }

  /** The match at 4 is deleted. */
  lemma SplitSchemeSkips(s: string)
    requires s == Split
    ensures RemoveFrom(s, Literal(Rebuilt), 4) == RemoveFrom(s, Literal(Rebuilt), 15)
  {
    assert OccursCi(s, Rebuilt, 4);
    RemoveFromSkip(s, Literal(Rebuilt), 4, 11);
  }

  /** "java" and "script:" make "javascript:". */
  lemma SplitJoin(s: string, joined: string, tail: string)
    requires s == Split && joined == s[0..4] + tail && tail == "script:"
    ensures joined == Rebuilt
  {
    assert s[0..4] == "java";
  }

  /** The scheme step deletes the one "javascript:" at position 4 and joins what surrounds it. */
  lemma SplitSchemeStep(s: string)
    requires s == Split
    ensures Remove(s, Literal(Rebuilt)) == Rebuilt
  {
    SplitSchemeHead(s);
    RemoveFromKeepRun(s, Literal(Rebuilt), 0, 4);
    SplitSchemeSkips(s);
    SplitSchemeTail(s);
    SplitJoin(s, RemoveFrom(s, Literal(Rebuilt), 0), RemoveFrom(s, Literal(Rebuilt), 15));
  }

  /** Neither text holds a "<" or an "o": the element steps and the event-handler steps match nowhere. */
  lemma SplitOtherSteps(s: string)
    requires s == Split
    ensures forall k | k in {0, 1, 3, 4} :: Absent(s, Steps[k]) && Absent(Rebuilt, Steps[k])
  {
    StepsProper();
    forall k | k in {0, 1, 3, 4} ensures Absent(s, Steps[k]) && Absent(Rebuilt, Steps[k]) {
      LeadAbsent(s, Steps[k]);
      LeadAbsent(Rebuilt, Steps[k]);
    }
  }

  /** A pass in which only the scheme step deletes anything, and which leaves no surrounding white space. */
  lemma RoundOnlyScheme(s: string, r: string)
    requires Absent(s, Steps[0]) && Absent(s, Steps[1])
    requires Remove(s, Steps[2]) == r
    requires Absent(r, Steps[3]) && Absent(r, Steps[4]) && Trimmed(r)
    ensures Round(s) == r
  {
    StepsProper();
    RemoveFromNoMatch(s, Steps[0], 0);
    RemoveFromNoMatch(s, Steps[1], 0);
    RemoveFromNoMatch(r, Steps[3], 0);
    RemoveFromNoMatch(r, Steps[4], 0);
    var t1 := Remove(s, Steps[0]);
    var t2 := Remove(t1, Steps[1]);
    var t3 := Remove(t2, Steps[2]);
    var t4 := Remove(t3, Steps[3]);
    var t5 := Remove(t4, Steps[4]);
    assert t5 == r;
    assert RemoveSteps(s, Steps) == t5 by {
      assert RemoveSteps(t5, Steps[5..]) == t5;
      assert RemoveSteps(t4, Steps[4..]) == t5;
      assert RemoveSteps(t3, Steps[3..]) == t5;
      assert RemoveSteps(t2, Steps[2..]) == t5;
      assert RemoveSteps(t1, Steps[1..]) == t5;
    }
    TrimOfTrimmed(r);
  }

  /** One pass over the example deletes its "javascript:" and returns the text it joins. */
  lemma SplitRound(s: string)
    requires s == Split
    ensures Round(s) == Rebuilt
  {
    SplitSchemeStep(s);
    SplitOtherSteps(s);
    RoundOnlyScheme(s, Rebuilt);
  }

  /**
   * The single pass joins "java" and "script:" around a deleted
   * "javascript:" into a new one, which it returns: the output is itself a
   * match of the scheme step.
   */
  lemma SinglePassRebuildsScheme(s: string)
    requires s == Split
    ensures SimpleSanitizeHtml(Some(s)) == Rebuilt
    ensures MatchAt(Rebuilt, 0, Literal(Rebuilt)).Some?
  {
    SplitRound(s);
    assert OccursCi(Rebuilt, Rebuilt, 0);
  }
}
