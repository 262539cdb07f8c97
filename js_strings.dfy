/** The JavaScript string built-ins the application relies on: `trim`, `toLowerCase`,
    `includes`, and the `\s` class of regular expressions.  Case mapping covers the
    ASCII letters only; every other character is left as it is. */
module JsStrings {

  /** ECMAScript WhiteSpace and LineTerminator code points: exactly the characters
      that `trim` strips and that the regular-expression class `\s` matches. */
  predicate IsWhite(c: char) {
    || c == '\t' || c == '\U{0B}' || c == '\U{0C}' || c == ' ' || c == '\U{A0}'
    || c == '\n' || c == '\r' || c == '\U{2028}' || c == '\U{2029}'
    || c == '\U{1680}' || ('\U{2000}' <= c <= '\U{200A}')
    || c == '\U{202F}' || c == '\U{205F}' || c == '\U{3000}' || c == '\U{FEFF}'
  }

  predicate AllWhite(s: string) {
    forall i :: 0 <= i < |s| ==> IsWhite(s[i])
  }

  /** The number of white-space characters `s` starts with. */
  function LeadingWhite(s: string): (n: nat)
    ensures n <= |s|
    ensures forall i :: 0 <= i < n ==> IsWhite(s[i])
    ensures n == |s| || !IsWhite(s[n])
  {
    if |s| > 0 && IsWhite(s[0]) then
      var m := LeadingWhite(s[1..]);
      assert forall i :: 1 <= i < m + 1 ==> s[i] == s[1..][i - 1];
      m + 1
    else 0
  }

  /** The index where the white space `s` ends with begins. */
  function TrailingStart(s: string): (n: nat)
    ensures n <= |s|
    ensures forall i :: n <= i < |s| ==> IsWhite(s[i])
    ensures n == 0 || !IsWhite(s[n - 1])
  {
    if |s| > 0 && IsWhite(s[|s| - 1]) then TrailingStart(s[..|s| - 1]) else |s|
  }

  /** `s.trimStart()`: what follows the leading white space. */
  function TrimStart(s: string): string {
    s[LeadingWhite(s)..]
  }

  /** `s.trimEnd()`: what precedes the trailing white space. */
  function TrimEnd(s: string): string {
    s[..TrailingStart(s)]
  }

  /** `s.trim()`: `s` without its leading and trailing white space. */
  function Trim(s: string): (r: string)
    ensures |r| <= |s|
    ensures r == [] || (!IsWhite(r[0]) && !IsWhite(r[|r| - 1]))
  {
    var u := TrimStart(s);
    var n := TrailingStart(u);
    assert n > 0 ==> u[..n][0] == u[0] == s[LeadingWhite(s)];
    TrimEnd(u)
  }

  /** The three properties of `LeadingWhite` determine it. */
  lemma LeadingWhiteUnique(s: string, n: nat)
    requires n <= |s|
    requires forall i :: 0 <= i < n ==> IsWhite(s[i])
    requires n == |s| || !IsWhite(s[n])
    ensures LeadingWhite(s) == n
  {
  }

  /** The three properties of `TrailingStart` determine it. */
  lemma TrailingStartUnique(s: string, n: nat)
    requires n <= |s|
    requires forall i :: n <= i < |s| ==> IsWhite(s[i])
    requires n == 0 || !IsWhite(s[n - 1])
    ensures TrailingStart(s) == n
  {
  }

  /** `!s.trim()`: the string is empty once trimmed. */
  predicate IsBlank(s: string) {
    Trim(s) == ""
  }

  /** `toLowerCase` on one character, for the ASCII letters. */
  function LowerChar(c: char): char {
    if 'A' <= c <= 'Z' then (c as int + 32) as char else c
  }

  /** `s.toLowerCase()`, character by character. */
  function Lower(s: string): (r: string)
    ensures |r| == |s|
    ensures forall i :: 0 <= i < |s| ==> r[i] == LowerChar(s[i])
  {
    seq(|s|, i requires 0 <= i < |s| => LowerChar(s[i]))
  }

  /** `s.includes(q)`: `q` occurs in `s` as a contiguous piece. */
  predicate Contains(s: string, q: string) {
    exists i :: 0 <= i <= |s| - |q| && OccursAt(s, q, i)
  }

  predicate OccursAt(s: string, q: string, i: int)
    requires 0 <= i <= |s| - |q|
  {
    s[i..i + |q|] == q
  }

  /** `trim` returns a slice of its argument with only white space outside it. */
  lemma TrimBounds(s: string) returns (lo: nat, hi: nat)
    ensures lo <= hi <= |s| && Trim(s) == s[lo..hi]
    ensures forall k :: 0 <= k < lo ==> IsWhite(s[k])
    ensures forall k :: hi <= k < |s| ==> IsWhite(s[k])
  {
    lo := LeadingWhite(s);
    var u := TrimStart(s);
    hi := lo + TrailingStart(u);
    assert forall k :: lo <= k < |s| ==> s[k] == u[k - lo];
    assert u[..hi - lo] == s[lo..hi];
  }

  /** A string that neither starts nor ends with white space is its own trim. */
  lemma TrimTight(s: string)
    requires s == [] || (!IsWhite(s[0]) && !IsWhite(s[|s| - 1]))
    ensures Trim(s) == s
  {
    LeadingWhiteUnique(s, 0);
    assert TrimStart(s) == s;
    TrailingStartUnique(s, |s|);
  }

  /** A string is blank exactly when it is white space throughout. */
  lemma BlankIffAllWhite(s: string)
    ensures IsBlank(s) <==> AllWhite(s)
  {
    var a := LeadingWhite(s);
    var u := TrimStart(s);
    if IsBlank(s) {
      assert TrailingStart(u) == 0;
    }
  }

  lemma TrimIdempotent(s: string)
    ensures Trim(Trim(s)) == Trim(s)
  {
    TrimTight(Trim(s));
  }

  lemma LowerIdempotent(s: string)
    ensures Lower(Lower(s)) == Lower(s)
  {
  }

  lemma LowerCharKeepsWhite(c: char)
    ensures IsWhite(LowerChar(c)) == IsWhite(c)
  {
  }

  /** Lower-casing a slice is slicing the lower-cased string. */
  lemma LowerSlice(s: string, i: nat, j: nat)
    requires i <= j <= |s|
    ensures Lower(s)[i..j] == Lower(s[i..j])
  {
    assert forall k :: 0 <= k < j - i ==> Lower(s)[i..j][k] == LowerChar(s[i..j][k]);
  }

  /** Lower-casing and trimming commute, since case mapping never touches white space. */
  lemma TrimLower(s: string)
    ensures Trim(Lower(s)) == Lower(Trim(s))
  {
    var l := Lower(s);
    forall i | 0 <= i < |s| ensures IsWhite(l[i]) == IsWhite(s[i]) {
      LowerCharKeepsWhite(s[i]);
    }
    var a := LeadingWhite(s);
    LeadingWhiteUnique(l, a);
    LowerSlice(s, a, |s|);
    var u := TrimStart(s);
    assert TrimStart(l) == Lower(u);
    var lu := Lower(u);
    forall i | 0 <= i < |u| ensures IsWhite(lu[i]) == IsWhite(u[i]) {
      LowerCharKeepsWhite(u[i]);
    }
    var b := TrailingStart(u);
    TrailingStartUnique(lu, b);
    LowerSlice(u, 0, b);
  }

  lemma SuffixOfConcat(s: string, p: string, a: nat)
    requires a <= |s|
    ensures (s + p)[a..] == s[a..] + p
  {
  }

  lemma SuffixPastPrefix(p: string, v: string, a: nat)
    requires a <= |v|
    ensures (p + v)[|p| + a..] == v[a..]
  {
  }

  lemma PrefixOfConcat(u: string, p: string, n: nat)
    requires n <= |u|
    ensures (u + p)[..n] == u[..n]
  {
  }

  /** Leading white space in front of a string is trimmed away with its own. */
  lemma TrimStartPrefix(p: string, v: string)
    requires AllWhite(p)
    ensures TrimStart(p + v) == TrimStart(v)
  {
    var w := p + v;
    var n := |p| + LeadingWhite(v);
    assert forall i :: |p| <= i < |w| ==> w[i] == v[i - |p|];
    LeadingWhiteUnique(w, n);
    SuffixPastPrefix(p, v, LeadingWhite(v));
  }

  /** Once a non-white character is met, what follows does not change the count. */
  lemma LeadingWhiteExtend(s: string, p: string)
    requires LeadingWhite(s) < |s|
    ensures LeadingWhite(s + p) == LeadingWhite(s)
  {
    var w := s + p;
    var a := LeadingWhite(s);
    forall i | 0 <= i < a ensures IsWhite(w[i]) {
      assert w[i] == s[i];
    }
    assert w[a] == s[a];
    LeadingWhiteUnique(w, a);
  }

  /** Once a non-white character is met, what follows is kept as it is. */
  lemma TrimStartExtend(s: string, p: string)
    requires LeadingWhite(s) < |s|
    ensures TrimStart(s + p) == TrimStart(s) + p
  {
    LeadingWhiteExtend(s, p);
    SuffixOfConcat(s, p, LeadingWhite(s));
  }

  /** Trailing white space after a string is trimmed away with its own. */
  lemma TrimEndSuffix(u: string, p: string)
    requires AllWhite(p)
    ensures TrimEnd(u + p) == TrimEnd(u)
  {
    var w := u + p;
    assert forall i :: |u| <= i < |w| ==> w[i] == p[i - |u|];
    assert forall i :: 0 <= i < |u| ==> w[i] == u[i];
    TrailingStartUnique(w, TrailingStart(u));
    PrefixOfConcat(u, p, TrailingStart(u));
  }

  /** White space around a string does not change what `trim` returns. */
  lemma TrimPadded(p1: string, s: string, p2: string)
    requires AllWhite(p1) && AllWhite(p2)
    ensures Trim(p1 + s + p2) == Trim(s)
  {
    var v := s + p2;
    assert p1 + s + p2 == p1 + v;
    TrimStartPrefix(p1, v);
    if LeadingWhite(s) == |s| {
      assert AllWhite(s);
      TrimStartPrefix(s, p2);
      LeadingWhiteUnique(p2, |p2|);
      BlankIffAllWhite(s);
    } else {
      TrimStartExtend(s, p2);
      TrimEndSuffix(TrimStart(s), p2);
    }
  }
}
