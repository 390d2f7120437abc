/**
 * String primitives shared by the model: JavaScript's `toLowerCase`, `trim`,
 * `includes`, `startsWith`, `split`, `join`, relational `<` on strings, and
 * number-to-decimal-string conversion, all stated over `seq<char>`.
 */
module Strings {

  /**
   * White space as JavaScript's `trim` and the regex class `\s` see it: the
   * ASCII white space, the line terminators U+2028 and U+2029, U+FEFF and the
   * Unicode space separators (U+00A0, U+1680, U+2000 to U+200A, U+202F,
   * U+205F and U+3000).
   */
  predicate IsSpace(c: char) {
    c == ' ' || c == '\t' || c == '\n' || c == '\r' || c == '\U{000B}' || c == '\U{000C}'
    || c == '\U{00A0}' || c == '\U{1680}' || '\U{2000}' <= c <= '\U{200A}'
    || c == '\U{2028}' || c == '\U{2029}' || c == '\U{202F}' || c == '\U{205F}'
    || c == '\U{3000}' || c == '\U{FEFF}'
  }

  predicate IsDigit(c: char) { '0' <= c <= '9' }

  /** A "word" character of the regex `\b` assertion: `[A-Za-z0-9_]`. */
  predicate IsWordChar(c: char) {
    'a' <= c <= 'z' || 'A' <= c <= 'Z' || IsDigit(c) || c == '_'
  }

  /**
   * Lower-casing of one character. Unicode lower-casing is a library routine;
   * the model fixes it on ASCII letters and the capitals of the Croatian
   * alphabet that the directory's data uses, and leaves every other character alone.
   */
  function LowerChar(c: char): (r: char)
    ensures IsSpace(r) <==> IsSpace(c)
    ensures !IsUpper(r)
    ensures r == c || ('A' <= c <= 'Z' && r == c + ('a' - 'A'))
            || c in ['\U{010C}', '\U{0106}', '\U{0160}', '\U{017D}', '\U{0110}']
  {
    if 'A' <= c <= 'Z' then c + ('a' - 'A')
    else if c == '\U{010C}' then '\U{010D}'  // Č -> č
    else if c == '\U{0106}' then '\U{0107}'  // Ć -> ć
    else if c == '\U{0160}' then '\U{0161}'  // Š -> š
    else if c == '\U{017D}' then '\U{017E}'  // Ž -> ž
    else if c == '\U{0110}' then '\U{0111}'  // Đ -> đ
    else c
  }

  /** The capitals that `LowerChar` maps to another character. */
  predicate IsUpper(c: char) {
    'A' <= c <= 'Z' || c in ['\U{010C}', '\U{0106}', '\U{0160}', '\U{017D}', '\U{0110}']
  }

  lemma LowerCharIdempotent(c: char)
    ensures LowerChar(LowerChar(c)) == LowerChar(c)
  {
  }

  /** ASCII-only case folding, the one a non-Unicode `/i` regex uses for ASCII patterns. */
  function AsciiLower(c: char): char {
    if 'A' <= c <= 'Z' then c + ('a' - 'A') else c
  }

  /** `s.toLowerCase()` */
  function Lower(s: string): (r: string)
    ensures |r| == |s|
    ensures forall i :: 0 <= i < |s| ==> r[i] == LowerChar(s[i])
  {
    seq(|s|, i requires 0 <= i < |s| => LowerChar(s[i]))
  }

  lemma LowerIdempotent(s: string)
    ensures Lower(Lower(s)) == Lower(s)
  {
  }

  lemma LowerAppend(a: string, b: string)
    ensures Lower(a + b) == Lower(a) + Lower(b)
  {
  }

  // ---------------------------------------------------------------- trimming

  /** No white space at either end. */
  predicate Trimmed(s: string) {
    s == [] || (!IsSpace(s[0]) && !IsSpace(s[|s| - 1]))
  }

  predicate AllSpace(s: string) {
    forall i :: 0 <= i < |s| ==> IsSpace(s[i])
  }

  /** The first index from `i` on that does not hold white space; `|s|` when there is none. */
  function SkipSpaces(s: string, i: nat): (j: nat)
    requires i <= |s|
    ensures i <= j <= |s|
    ensures forall k :: i <= k < j ==> IsSpace(s[k])
    ensures j == |s| || !IsSpace(s[j])
    decreases |s| - i
  {
    if i < |s| && IsSpace(s[i]) then SkipSpaces(s, i + 1) else i
  }

  /** Going back from `j` over white space, not below `lo`: the end of the text before `j`. */
  function SkipSpacesBack(s: string, lo: nat, j: nat): (e: nat)
    requires lo <= j <= |s|
    ensures lo <= e <= j
    ensures forall k :: e <= k < j ==> IsSpace(s[k])
    ensures e == lo || !IsSpace(s[e - 1])
    decreases j
  {
    if lo < j && IsSpace(s[j - 1]) then SkipSpacesBack(s, lo, j - 1) else j
  }

  /** `s.trimStart()`, also the regex `^\s*`: the suffix after the leading white space. */
  function TrimStart(s: string): (r: string)
    ensures |r| <= |s| && r == s[|s| - |r|..]
    ensures AllSpace(s[..|s| - |r|])
    ensures r == [] || !IsSpace(r[0])
  {
    s[SkipSpaces(s, 0)..]
  }

  /** `s.trim()`: the longest infix without white space at either end. */
  function Trim(s: string): (r: string)
    ensures Trimmed(r)
    ensures var i := SkipSpaces(s, 0);
      i + |r| <= |s| && r == s[i..i + |r|] && AllSpace(s[..i]) && AllSpace(s[i + |r|..])
  {
    var i := SkipSpaces(s, 0);
    s[i..SkipSpacesBack(s, i, |s|)]
  }

  lemma {:induction false} TrimOfTrimmed(s: string)
    requires Trimmed(s)
    ensures Trim(s) == s
  {
    assert SkipSpaces(s, 0) == 0;
    assert SkipSpacesBack(s, 0, |s|) == |s|;
  }

  lemma {:induction false} TrimEmptyIffAllSpace(s: string)
    ensures Trim(s) == [] <==> AllSpace(s)
  {
    var i := SkipSpaces(s, 0);
    if !AllSpace(s) {
      var k :| 0 <= k < |s| && !IsSpace(s[k]);
      assert k >= i;
      assert SkipSpacesBack(s, i, |s|) > k;
    }
  }

  /** Lower-casing never turns a visible character into white space or back. */
  lemma {:induction false} TrimLowerEmpty(s: string)
    ensures Trim(Lower(s)) == [] <==> Trim(s) == []
  {
    TrimEmptyIffAllSpace(s);
    TrimEmptyIffAllSpace(Lower(s));
  }

  // ------------------------------------------------------- substring search

  predicate OccursAt(text: string, pat: string, i: int) {
    0 <= i && i + |pat| <= |text| && text[i..i + |pat|] == pat
  }

  /** A slice of a slice is a slice of the original. */
  lemma SliceOfSlice(s: string, i: nat, n: nat, j: nat, m: nat)
    requires i + n <= |s| && j + m <= n
    ensures s[i..i + n][j..j + m] == s[i + j..i + j + m]
  {
    var a, b := s[i..i + n][j..j + m], s[i + j..i + j + m];
    forall k | 0 <= k < m ensures a[k] == b[k] {}
  }

  /** `text.includes(pat)` */
  predicate Contains(text: string, pat: string) {
    exists i | 0 <= i <= |text| - |pat| :: OccursAt(text, pat, i)
  }

  lemma ContainsEmpty(text: string)
    ensures Contains(text, [])
  {
    assert OccursAt(text, [], 0);
  }

  lemma ContainsSelf(s: string)
    ensures Contains(s, s)
  {
    assert OccursAt(s, s, 0);
  }

  /** Substring containment is transitive. */
  lemma ContainsTransitive(a: string, b: string, c: string)
    requires Contains(a, b) && Contains(b, c)
    ensures Contains(a, c)
  {
    var i :| 0 <= i <= |a| - |b| && OccursAt(a, b, i);
    var j :| 0 <= j <= |b| - |c| && OccursAt(b, c, j);
    SliceOfSlice(a, i, |b|, j, |c|);
    assert OccursAt(a, c, i + j);
  }

  /** A text that contains a pattern contains every prefix of it. */
  lemma ContainsPrefix(text: string, pat: string, n: nat)
    requires Contains(text, pat) && n <= |pat|
    ensures Contains(text, pat[..n])
  {
    var i :| 0 <= i <= |text| - |pat| && OccursAt(text, pat, i);
    SliceOfSlice(text, i, |pat|, 0, n);
    assert OccursAt(text, pat[..n], i);
  }

  /** Nothing longer than the text occurs in it, and nothing occurs in the empty text but the empty pattern. */
  lemma ContainsLength(text: string, pat: string)
    requires Contains(text, pat)
    ensures |pat| <= |text|
  {
  }

  /** An occurrence in an infix is an occurrence in the whole. */
  lemma ContainsInfix(text: string, i: nat, n: nat, pat: string)
    requires i + n <= |text| && Contains(text[i..i + n], pat)
    ensures Contains(text, pat)
  {
    var j :| 0 <= j <= n - |pat| && OccursAt(text[i..i + n], pat, j);
    SliceOfSlice(text, i, n, j, |pat|);
    assert OccursAt(text, pat, i + j);
  }

  /** An occurrence of a pattern without white space survives trimming the text. */
  lemma {:induction false} ContainsTrim(text: string, pat: string)
    requires IsWord(pat)
    ensures Contains(Trim(text), pat) <==> Contains(text, pat)
  {
    var t := Trim(text);
    var i := SkipSpaces(text, 0);
    if Contains(t, pat) {
      ContainsInfix(text, i, |t|, pat);
    }
    if Contains(text, pat) {
      var j :| 0 <= j <= |text| - |pat| && OccursAt(text, pat, j);
      OccurrenceInsideTrim(text, pat, j);
    }
  }

  lemma {:induction false} OccurrenceInsideTrim(text: string, pat: string, j: nat)
    requires IsWord(pat) && OccursAt(text, pat, j)
    ensures Contains(Trim(text), pat)
  {
    var t := Trim(text);
    var i := SkipSpaces(text, 0);
    assert text[j] == text[j..j + |pat|][0] == pat[0];
    assert j >= i;
    var k := j + |pat| - 1;
    assert text[k] == text[j..j + |pat|][|pat| - 1] == pat[|pat| - 1];
    assert k < i + |t|;
    SliceOfSlice(text, i, |t|, j - i, |pat|);
    assert OccursAt(t, pat, j - i);
  }

  /** `s.startsWith(p)`, as the anchored regexes test it. */
  predicate StartsWith(s: string, p: string) {
    |p| <= |s| && s[..|p|] == p
  }

  /** Case-insensitive (ASCII) `startsWith`, for patterns under the `/i` flag. */
  predicate StartsWithCi(s: string, p: string) {
    |p| <= |s| && forall k :: 0 <= k < |p| ==> AsciiLower(s[k]) == AsciiLower(p[k])
  }

  // --------------------------------------------------- splitting and joining

  /** Length of the leading run of characters that are not white space. */
  function WordLength(s: string): (n: nat)
    ensures n <= |s|
    ensures forall k :: 0 <= k < n ==> !IsSpace(s[k])
    ensures n == |s| || IsSpace(s[n])
  {
    if s == [] || IsSpace(s[0]) then 0 else 1 + WordLength(s[1..])
  }

  predicate IsWord(w: string) {
    w != [] && forall k :: 0 <= k < |w| ==> !IsSpace(w[k])
  }

  /** `s.split(/\s+/).filter(w => w.length > 0)`: the maximal runs of non-space characters. */
  function Words(s: string): (r: seq<string>)
    ensures forall k :: 0 <= k < |r| ==> IsWord(r[k])
    ensures r == [] <==> AllSpace(s)
    decreases |s|
  {
    if s == [] then []
    else if IsSpace(s[0]) then
      var r := Words(s[1..]);
      assert AllSpace(s[1..]) ==> AllSpace(s) by {
        if AllSpace(s[1..]) {
          forall k | 0 <= k < |s| ensures IsSpace(s[k]) {
            if k > 0 { assert s[k] == s[1..][k - 1]; }
          }
        }
      }
      r
    else
      var n := WordLength(s);
      [s[..n]] + Words(s[n..])
  }

  /** The leading word of `a` is not lengthened by text that starts with white space. */
  lemma WordLengthAppend(a: string, t: string)
    requires t != [] && IsSpace(t[0])
    ensures WordLength(a + t) == WordLength(a)
  {
    assert forall k :: 0 <= k < |a| ==> (a + t)[k] == a[k];
    assert (a + t)[|a|] == t[0];
  }

  /** A single word splits into itself. */
  lemma WordsOfWord(w: string)
    requires IsWord(w)
    ensures Words(w) == [w]
  {
    assert WordLength(w) == |w|;
    assert w[..|w|] == w && w[|w|..] == [];
  }

  /** White space separates: the words around a white-space character are the words of each side. */
  lemma {:induction false} WordsSplit(a: string, c: char, b: string)
    requires IsSpace(c)
    ensures Words(a + [c] + b) == Words(a) + Words(b)
    decreases |a|
  {
    var s := a + [c] + b;
    if a == [] {
      assert s[1..] == b;
    } else if IsSpace(a[0]) {
      assert s[1..] == a[1..] + [c] + b;
      WordsSplit(a[1..], c, b);
    } else {
      assert s == a + ([c] + b);
      WordLengthAppend(a, [c] + b);
      var n := WordLength(a);
      assert s[..n] == a[..n];
      assert s[n..] == a[n..] + [c] + b;
      WordsSplit(a[n..], c, b);
    }
  }

  function IndexOf(s: string, c: char): (i: nat)
    requires c in s
    ensures i < |s| && s[i] == c && c !in s[..i]
  {
    if s[0] == c then 0 else 1 + IndexOf(s[1..], c)
  }

  /** `s.split(c)` for a one-character separator; never empty, as in JavaScript. */
  function SplitOn(s: string, c: char): (r: seq<string>)
    ensures |r| >= 1
    ensures forall k :: 0 <= k < |r| ==> c !in r[k]
    decreases |s|
  {
    if c !in s then [s]
    else
      var i := IndexOf(s, c);
      [s[..i]] + SplitOn(s[i + 1..], c)
  }

  /** `parts.join(sep)` */
  function Join(parts: seq<string>, sep: string): string {
    if |parts| == 0 then []
    else if |parts| == 1 then parts[0]
    else parts[0] + sep + Join(parts[1..], sep)
  }

  /** Joining the pieces of a split with the separator gives the string back. */
  lemma {:induction false} JoinSplitOn(s: string, c: char)
    ensures Join(SplitOn(s, c), [c]) == s
    decreases |s|
  {
    if c in s {
      var i := IndexOf(s, c);
      var rest := SplitOn(s[i + 1..], c);
      var parts := [s[..i]] + rest;
      assert SplitOn(s, c) == parts;
      assert |parts| > 1 && parts[0] == s[..i] && parts[1..] == rest;
      assert Join(parts, [c]) == s[..i] + [c] + Join(rest, [c]);
      JoinSplitOn(s[i + 1..], c);
      assert s == s[..i] + [c] + s[i + 1..];
    }
  }

  /** The first piece of a split is everything before the first separator. */
  lemma SplitOnHead(a: string, c: char, b: string)
    requires c !in a
    ensures SplitOn(a, c) == [a]
    ensures SplitOn(a + [c] + b, c)[0] == a
  {
    var s := a + [c] + b;
    assert c in s by { assert s[|a|] == c; }
    var i := IndexOf(s, c);
    assert forall k :: 0 <= k < i ==> s[k] == s[..i][k];
    assert s[|a|] == c;
    assert s[..|a|] == a;
  }

  /** A separator-free prefix is the first piece, and the split goes on after the separator. */
  lemma SplitOnPrefix(x: string, c: char, y: string)
    requires c !in x
    ensures SplitOn(x + [c] + y, c) == [x] + SplitOn(y, c)
  {
    var s := x + [c] + y;
    assert s[|x|] == c;
    var i := IndexOf(s, c);
    assert s[..|x|] == x;
    assert forall k :: 0 <= k < |x| ==> s[k] == x[k];
    assert i == |x|;
    assert s[i + 1..] == y;
  }

  /** The last piece of a split is everything after the last separator. */
  lemma {:induction false} SplitOnLast(a: string, c: char, b: string)
    requires c !in b
    ensures var r := SplitOn(a + [c] + b, c); r[|r| - 1] == b
    decreases |a|
  {
    if c !in a {
      SplitOnPrefix(a, c, b);
      assert SplitOn(b, c) == [b];
    } else {
      var i := IndexOf(a, c);
      SplitOnLast(a[i + 1..], c, b);
      SplitOnLastStep(a, i, c, b);
    }
  }

  /** One step of `SplitOnLast`: the pieces after the first separator of `a` end as they did before. */
  lemma SplitOnLastStep(a: string, i: nat, c: char, b: string)
    requires i < |a| && a[i] == c && c !in a[..i]
    requires var r := SplitOn(a[i + 1..] + [c] + b, c); r[|r| - 1] == b
    ensures var r := SplitOn(a + [c] + b, c); r[|r| - 1] == b
  {
    var head, rest := a[..i], a[i + 1..] + [c] + b;
    assert a + [c] + b == head + [c] + rest by {
      assert a == head + [c] + a[i + 1..];
    }
    SplitOnPrefix(head, c, rest);
  }

  /** Splitting a join recovers the pieces, when no piece holds the separator. */
  lemma {:induction false} SplitOnJoin(parts: seq<string>, c: char)
    requires |parts| >= 1
    requires forall k :: 0 <= k < |parts| ==> c !in parts[k]
    ensures SplitOn(Join(parts, [c]), c) == parts
  {
    if |parts| > 1 {
      var rest := Join(parts[1..], [c]);
      var s := parts[0] + [c] + rest;
      assert c in s by { assert s[|parts[0]|] == c; }
      var i := IndexOf(s, c);
      assert i == |parts[0]|;
      assert s[..i] == parts[0];
      assert s[i + 1..] == rest;
      SplitOnJoin(parts[1..], c);
    }
  }

  // ----------------------------------------------------------------- numbers

  function DigitChar(d: nat): (c: char)
    requires d < 10
    ensures IsDigit(c)
  {
    '0' + d as char
  }

  /** Decimal rendering of a natural number, as template literals print it. */
  function NatToString(n: nat): (r: string)
    ensures r != [] && forall k :: 0 <= k < |r| ==> IsDigit(r[k])
    ensures n >= 10 ==> r[0] != '0'
  {
    if n < 10 then [DigitChar(n)] else NatToString(n / 10) + [DigitChar(n % 10)]
  }

  function DigitsValue(s: string): nat
    requires forall k :: 0 <= k < |s| ==> IsDigit(s[k])
  {
    if s == [] then 0
    else
      assert IsDigit(s[|s| - 1]);
      10 * DigitsValue(s[..|s| - 1]) + (s[|s| - 1] as int - '0' as int)
  }

  /** Reading back the decimal rendering gives the number. */
  lemma {:induction false} NatToStringValue(n: nat)
    ensures DigitsValue(NatToString(n)) == n
  {
    if n >= 10 {
      NatToStringValue(n / 10);
      var s := NatToString(n);
      assert s[..|s| - 1] == NatToString(n / 10);
    }
  }

  /** Different numbers have different renderings. */
  lemma NatToStringInjective(m: nat, n: nat)
    requires NatToString(m) == NatToString(n)
    ensures m == n
  {
    NatToStringValue(m);
    NatToStringValue(n);
  }

  // ----------------------------------------------------------- string order

  /**
   * JavaScript's `a < b` on strings, lexicographic character by character.
   * JavaScript compares UTF-16 code units; here a character is a code point,
   * which gives the same order unless a character lies outside the Basic
   * Multilingual Plane.
   */
  predicate StrLess(a: string, b: string) {
    if a == [] then b != []
    else if b == [] then false
    else a[0] < b[0] || (a[0] == b[0] && StrLess(a[1..], b[1..]))
  }

  lemma {:induction false} StrLessIrreflexive(a: string)
    ensures !StrLess(a, a)
  {
    if a != [] { StrLessIrreflexive(a[1..]); }
  }

  lemma {:induction false} StrLessTransitive(a: string, b: string, c: string)
    requires StrLess(a, b) && StrLess(b, c)
    ensures StrLess(a, c)
  {
    if a != [] && b != [] && c != [] && a[0] == b[0] == c[0] {
      StrLessTransitive(a[1..], b[1..], c[1..]);
    }
  }

  /** Any two strings are equal or ordered one way: the order is total. */
  lemma {:induction false} StrLessTotal(a: string, b: string)
    ensures a == b || StrLess(a, b) || StrLess(b, a)
  {
    if a != [] && b != [] && a[0] == b[0] {
      StrLessTotal(a[1..], b[1..]);
      if a[1..] == b[1..] {
        assert a == [a[0]] + a[1..] && b == [b[0]] + b[1..];
      }
    }
  }

  lemma StrLessAsymmetric(a: string, b: string)
    requires StrLess(a, b)
    ensures !StrLess(b, a)
  {
    if StrLess(b, a) {
      StrLessTransitive(a, b, a);
      StrLessIrreflexive(a);
    }
  }
}
