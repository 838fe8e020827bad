/** The JavaScript string primitives the chat widget relies on: `trim`,
    `toLowerCase` (on ASCII letters), `includes`, and the decimal
    numeral of a clock reading. */
module Strings {

  /** The ECMAScript WhiteSpace and LineTerminator code points: what `trim` strips. */
  const Spaces: set<char> := {
    '\t', '\n', '\U{000B}', '\U{000C}', '\r', ' ', '\U{00A0}', '\U{1680}',
    '\U{2000}', '\U{2001}', '\U{2002}', '\U{2003}', '\U{2004}', '\U{2005}',
    '\U{2006}', '\U{2007}', '\U{2008}', '\U{2009}', '\U{200A}',
    '\U{2028}', '\U{2029}', '\U{202F}', '\U{205F}', '\U{3000}', '\U{FEFF}'
  }

  predicate IsSpace(c: char) {
    c in Spaces
  }

  /** Every character of `s` is white space (the empty string included). */
  predicate IsBlank(s: string) {
    forall k :: 0 <= k < |s| ==> IsSpace(s[k])
  }

  /** Every character of `s` in `[lo, hi)` is white space. */
  predicate BlankBetween(s: string, lo: int, hi: int) {
    forall k :: lo <= k < hi && 0 <= k < |s| ==> IsSpace(s[k])
  }

  /** No white space at either end. */
  predicate Tight(s: string) {
    s == [] || (!IsSpace(s[0]) && !IsSpace(s[|s| - 1]))
  }

  /** The first index at or after `i` that does not hold white space. */
  function SkipSpaces(s: string, i: nat): (n: nat)
    requires i <= |s|
    ensures i <= n <= |s| && BlankBetween(s, i, n)
    ensures n == |s| || !IsSpace(s[n])
    decreases |s| - i
  {
    if i < |s| && IsSpace(s[i]) then SkipSpaces(s, i + 1) else i
  }

  /** Going down from `j` but not below `lo`, the end of the last
      character that is not white space. */
  function SkipSpacesBack(s: string, lo: nat, j: nat): (n: nat)
    requires lo <= j <= |s|
    ensures lo <= n <= j && BlankBetween(s, n, j)
    ensures n == lo || !IsSpace(s[n - 1])
    decreases j
  {
    if j > lo && IsSpace(s[j - 1]) then SkipSpacesBack(s, lo, j - 1) else j
  }

  /** `String.prototype.trim`: the input without its leading and trailing
      white space. */
  function Trim(s: string): (r: string)
    ensures |r| <= |s|
    ensures Tight(r)
  {
    var i := SkipSpaces(s, 0);
    s[i..SkipSpacesBack(s, i, |s|)]
  }

  /** `SkipSpaces` stops at the first non-blank index and nowhere else. */
  lemma {:induction false} SkipSpacesAt(s: string, i: nat, k: nat)
    requires i <= k <= |s| && BlankBetween(s, i, k)
    requires k == |s| || !IsSpace(s[k])
    ensures SkipSpaces(s, i) == k
    decreases k - i
  {
    if i < k {
      SkipSpacesAt(s, i + 1, k);
    }
  }

  /** `SkipSpacesBack` stops after the last non-blank index and nowhere else. */
  lemma {:induction false} SkipSpacesBackAt(s: string, lo: nat, j: nat, k: nat)
    requires lo <= k <= j <= |s| && BlankBetween(s, k, j)
    requires k == lo || !IsSpace(s[k - 1])
    ensures SkipSpacesBack(s, lo, j) == k
    decreases j
  {
    if k < j {
      SkipSpacesBackAt(s, lo, j - 1, k);
    }
  }

  /** Whatever blank padding surrounds a tight slice, `Trim` gives that slice. */
  lemma TrimAt(s: string, i: nat, j: nat)
    requires i <= j <= |s|
    requires BlankBetween(s, 0, i) && BlankBetween(s, j, |s|) && Tight(s[i..j])
    ensures Trim(s) == s[i..j]
  {
    if i == j {
      SkipSpacesAt(s, 0, |s|);
    } else {
      assert s[i] == s[i..j][0] && s[j - 1] == s[i..j][j - i - 1];
      SkipSpacesAt(s, 0, i);
      SkipSpacesBackAt(s, i, |s|, j);
    }
  }

  /** `trim` yields the empty string exactly for blank input. */
  lemma TrimEmpty(s: string)
    ensures Trim(s) == [] <==> IsBlank(s)
  {
    if IsBlank(s) {
      SkipSpacesAt(s, 0, |s|);
    }
  }

  /** `Trim` splits its input into blank head, result, blank tail. */
  lemma TrimSplit(s: string) returns (i: nat, j: nat)
    ensures i <= j <= |s|
    ensures Trim(s) == s[i..j]
    ensures BlankBetween(s, 0, i) && BlankBetween(s, j, |s|)
  {
    i := SkipSpaces(s, 0);
    j := SkipSpacesBack(s, i, |s|);
  }

  /** Extra white space around a string never changes what `trim` gives. */
  lemma TrimIgnoresPadding(w1: string, s: string, w2: string)
    requires IsBlank(w1) && IsBlank(w2)
    ensures Trim(w1 + s + w2) == Trim(s)
  {
    var i, j := TrimSplit(s);
    var p := w1 + s + w2;
    PaddedSlice(w1, s, w2, i, j);
    assert Tight(p[|w1| + i..|w1| + j]) by {
      assert p[|w1| + i..|w1| + j] == Trim(s);
    }
    TrimAt(p, |w1| + i, |w1| + j);
  }

  lemma PaddedSlice(w1: string, s: string, w2: string, i: nat, j: nat)
    requires i <= j <= |s| && IsBlank(w1) && IsBlank(w2)
    requires BlankBetween(s, 0, i) && BlankBetween(s, j, |s|)
    ensures (w1 + s + w2)[|w1| + i..|w1| + j] == s[i..j]
    ensures BlankBetween(w1 + s + w2, 0, |w1| + i)
    ensures BlankBetween(w1 + s + w2, |w1| + j, |w1 + s + w2|)
  {
    var p := w1 + s + w2;
    assert p == w1 + (s + w2);
    assert p[|w1|..] == s + w2;
    assert (s + w2)[i..j] == s[i..j];
  }

  /** `trim` is idempotent. */
  lemma TrimIdempotent(s: string)
    ensures Trim(Trim(s)) == Trim(s)
  {
    var m := Trim(s);
    TrimAt(m, 0, |m|);
  }

  /** `toLowerCase` on one character, for ASCII letters. */
  function LowerChar(c: char): char {
    if 'A' <= c <= 'Z' then (c as int + 32) as char else c
  }

  /** No ASCII capital letter occurs in `s`. */
  predicate NoCapitals(s: string) {
    forall i :: 0 <= i < |s| ==> !('A' <= s[i] <= 'Z')
  }

  /** `toLowerCase`, character by character. */
  function Lower(s: string): (r: string)
    ensures |r| == |s|
    ensures forall i :: 0 <= i < |s| ==> r[i] == LowerChar(s[i])
  {
    if s == [] then [] else [LowerChar(s[0])] + Lower(s[1..])
  }

  /** Lower-casing leaves no ASCII capital letter. */
  lemma LowerNoCapitals(s: string)
    ensures NoCapitals(Lower(s))
  {
    forall k | 0 <= k < |s| ensures !('A' <= Lower(s)[k] <= 'Z') {
      assert Lower(s)[k] == LowerChar(s[k]);
    }
  }

  /** A slice of a string without capitals has none either. */
  lemma SliceNoCapitals(s: string, i: nat, j: nat)
    requires i <= j <= |s| && NoCapitals(s)
    ensures NoCapitals(s[i..j])
  {
    forall k | 0 <= k < j - i ensures !('A' <= s[i..j][k] <= 'Z') {
      assert s[i..j][k] == s[i + k];
    }
  }

  /** Lower-casing never adds or removes white space. */
  lemma LowerCharSpace(c: char)
    ensures IsSpace(LowerChar(c)) <==> IsSpace(c)
    ensures LowerChar(LowerChar(c)) == LowerChar(c)
  {
  }

  /** Lower-casing twice is lower-casing once. */
  lemma LowerIdempotent(s: string)
    ensures Lower(Lower(s)) == Lower(s)
  {
    forall i | 0 <= i < |s| ensures Lower(Lower(s))[i] == Lower(s)[i] {
      LowerCharSpace(s[i]);
    }
  }

  lemma LowerKeepsBlanks(s: string, lo: int, hi: int)
    requires BlankBetween(s, lo, hi)
    ensures BlankBetween(Lower(s), lo, hi)
  {
    forall k | lo <= k < hi && 0 <= k < |s| ensures IsSpace(Lower(s)[k]) {
      LowerCharSpace(s[k]);
    }
  }

  lemma LowerSlice(s: string, i: nat, j: nat)
    requires i <= j <= |s|
    ensures Lower(s[i..j]) == Lower(s)[i..j]
  {
    var a, b := Lower(s[i..j]), Lower(s)[i..j];
    forall k | 0 <= k < |a| ensures a[k] == b[k] {
      assert s[i..j][k] == s[i + k];
    }
  }

  lemma LowerKeepsTight(s: string)
    requires Tight(s)
    ensures Tight(Lower(s))
  {
    if s != [] {
      LowerCharSpace(s[0]);
      LowerCharSpace(s[|s| - 1]);
    }
  }

  /** Lower-casing and trimming commute, so `s.toLowerCase().trim()`
      equals `s.trim().toLowerCase()`. */
  lemma LowerTrimCommute(s: string)
    ensures Trim(Lower(s)) == Lower(Trim(s))
  {
    var i, j := TrimSplit(s);
    var l := Lower(s);
    LowerKeepsBlanks(s, 0, i);
    LowerKeepsBlanks(s, j, |s|);
    LowerSlice(s, i, j);
    LowerKeepsTight(s[i..j]);
    TrimAt(l, i, j);
  }

  /** `t` occurs in `s` starting at index `i`. */
  predicate OccursAt(s: string, t: string, i: nat) {
    i + |t| <= |s| && s[i..i + |t|] == t
  }

  /** `String.prototype.includes`: plain substring search. */
  predicate Contains(s: string, t: string) {
    exists i: nat | i <= |s| :: OccursAt(s, t, i)
  }

  /** A string always contains itself, embedded in any context. */
  lemma ContainsInfix(a: string, t: string, b: string)
    ensures Contains(a + t + b, t)
  {
    assert (a + t + b)[|a|..|a| + |t|] == t;
    assert OccursAt(a + t + b, t, |a|);
  }

  /** Substring containment is transitive. */
  lemma ContainsTransitive(s: string, t: string, u: string)
    requires Contains(s, t) && Contains(t, u)
    ensures Contains(s, u)
  {
    var i: nat :| i <= |s| && OccursAt(s, t, i);
    var j: nat :| j <= |t| && OccursAt(t, u, j);
    forall k | 0 <= k < |u| ensures s[i + j + k] == u[k] {
      assert s[i..i + |t|][j + k] == s[i + j + k];
      assert t[j..j + |u|][k] == t[j + k];
    }
    assert s[i + j..i + j + |u|] == u;
    assert OccursAt(s, u, i + j);
  }

  /** A pattern holding a character the text lacks never occurs in it. */
  lemma MissingChar(s: string, t: string, c: char)
    requires c in t && c !in s
    ensures !Contains(s, t)
  {

  }

  /** The ASCII digit for a value below ten. */
  function Digit(d: nat): char
    requires d < 10
  {
    ('0' as int + d) as char
  }

  predicate IsDigit(c: char) {
    '0' <= c <= '9'
  }

  /** The decimal numeral of a non-negative integer, without leading
      zeros. For the clock readings the ids are built from, this is what
      `Number.prototype.toString()` gives. */
  function DecimalString(n: nat): (r: string)
    ensures |r| >= 1
    ensures forall i :: 0 <= i < |r| ==> IsDigit(r[i])
    ensures r[0] == '0' <==> n == 0
  {
    if n < 10 then [Digit(n)] else DecimalString(n / 10) + [Digit(n % 10)]
  }

  /** Reads a string of decimal digits back as a number. */
  function ParseDecimal(s: string): nat
    requires forall i :: 0 <= i < |s| ==> IsDigit(s[i])
  {
    if s == [] then 0
    else
      assert IsDigit(s[|s| - 1]);
      10 * ParseDecimal(s[..|s| - 1]) + (s[|s| - 1] as int - '0' as int)
  }

  /** Parsing undoes `DecimalString`. */
  lemma {:induction false} ParseDecimalString(n: nat)
    ensures ParseDecimal(DecimalString(n)) == n
  {
    var r := DecimalString(n);
    if n >= 10 {
      ParseDecimalString(n / 10);
      assert r[..|r| - 1] == DecimalString(n / 10);
    }
  }

  /** Different numbers have different decimal numerals. */
  lemma DecimalStringInjective(m: nat, n: nat)
    requires DecimalString(m) == DecimalString(n)
    ensures m == n
  {
    ParseDecimalString(m);
    ParseDecimalString(n);
  }
}
