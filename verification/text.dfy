/** The string primitives search_logic.py and model.py take from Python's `str` and `re` modules,
    restricted to ASCII: `\s`/`str.isspace`, `\w`, `str.lower`, `in` on strings,
    `str.join` and `str.strip`. */
module Text {

  /** `str.isspace` and the regex class `\s` on ASCII: TAB, LF, VT, FF, CR,
      the information separators 0x1C-0x1F, and SPACE. */
  predicate IsSpace(c: char) {
    9 <= c as int <= 13 || 28 <= c as int <= 32
  }

  /** The regex class `\w` on ASCII: letters, digits and the underscore. */
  predicate IsWord(c: char) {
    IsUpper(c) || IsLower(c) || ('0' <= c <= '9') || c == '_'
  }

  predicate IsUpper(c: char) {
    'A' <= c <= 'Z'
  }

  predicate IsLower(c: char) {
    'a' <= c <= 'z'
  }

  /** Every character of `s` is whitespace. */
  predicate AllSpace(s: string) {
    forall k :: 0 <= k < |s| ==> IsSpace(s[k])
  }

  /** `s` neither starts nor ends with whitespace. */
  predicate IsStripped(s: string) {
    s == [] || (!IsSpace(s[0]) && !IsSpace(s[|s| - 1]))
  }

  function LowerChar(c: char): (d: char)
    ensures !IsUpper(d)
    ensures IsUpper(c) ==> d as int == c as int + 32
    ensures !IsUpper(c) ==> d == c
  {
    if IsUpper(c) then (c as int + 32) as char else c
  }

  /** `str.lower()` on ASCII letters; every other character is kept. */
  function Lower(s: string): (r: string)
    ensures |r| == |s|
    ensures forall k :: 0 <= k < |s| ==> r[k] == LowerChar(s[k])
  {
    seq(|s|, k requires 0 <= k < |s| => LowerChar(s[k]))
  }

  /** Lower-casing twice is lower-casing once. */
  lemma LowerIdempotent(s: string)
    ensures Lower(Lower(s)) == Lower(s)
  {
    assert forall k :: 0 <= k < |s| ==> Lower(Lower(s))[k] == LowerChar(LowerChar(s[k]));
  }

  /** `pattern in s` for Python strings. */
  predicate Contains(s: string, pattern: string) {
    pattern <= s || (|s| > 0 && Contains(s[1..], pattern))
  }

  /** `pattern` occurs in `s` at index `at`. */
  predicate OccursAt(s: string, pattern: string, at: int) {
    0 <= at <= |s| - |pattern| && s[at..at + |pattern|] == pattern
  }

  /** An occurrence at any index makes `Contains` true. */
  lemma {:induction false} OccurrenceIsContained(s: string, pattern: string, at: int)
    requires OccursAt(s, pattern, at)
    ensures Contains(s, pattern)
    decreases at
  {
    if at == 0 {
      assert s[..|pattern|] == pattern;
    } else {
      assert s[1..][at - 1..at - 1 + |pattern|] == s[at..at + |pattern|];
      OccurrenceIsContained(s[1..], pattern, at - 1);
    }
  }

  /** `Contains` is substring search: it holds exactly when the pattern occurs at
      some index of `s`. */
  lemma {:induction false} ContainsIffOccurs(s: string, pattern: string)
    ensures Contains(s, pattern) <==> exists at :: OccursAt(s, pattern, at)
    decreases |s|
  {
    if exists at :: OccursAt(s, pattern, at) {
      var at :| OccursAt(s, pattern, at);
      OccurrenceIsContained(s, pattern, at);
    }
    if pattern <= s {
      assert OccursAt(s, pattern, 0);
    } else if |s| > 0 && Contains(s[1..], pattern) {
      ContainsIffOccurs(s[1..], pattern);
      var at :| OccursAt(s[1..], pattern, at);
      assert s[1..][at..at + |pattern|] == s[at + 1..at + 1 + |pattern|];
      assert OccursAt(s, pattern, at + 1);
    }
  }

  /** `sep.join(xs)`. */
  function Join(sep: string, xs: seq<string>): string {
    if |xs| == 0 then ""
    else if |xs| == 1 then xs[0]
    else Join(sep, xs[..|xs| - 1]) + sep + xs[|xs| - 1]
  }

  /** Index of the first non-whitespace character at or after `i`, or `|s|`. */
  function SkipSpace(s: string, i: nat): (k: nat)
    requires i <= |s|
    ensures i <= k <= |s|
    ensures AllSpace(s[i..k])
    ensures k < |s| ==> !IsSpace(s[k])
    decreases |s| - i
  {
    if i < |s| && IsSpace(s[i]) then
      var k := SkipSpace(s, i + 1);
      assert s[i..k] == [s[i]] + s[i + 1..k];
      k
    else i
  }

  /** Index just past the last non-whitespace character of `s[lo..j]`, or `lo`. */
  function SkipSpaceBack(s: string, lo: nat, j: nat): (k: nat)
    requires lo <= j <= |s|
    ensures lo <= k <= j
    ensures AllSpace(s[k..j])
    ensures k > lo ==> !IsSpace(s[k - 1])
    decreases j
  {
    if j > lo && IsSpace(s[j - 1]) then
      var k := SkipSpaceBack(s, lo, j - 1);
      assert s[k..j] == s[k..j - 1] + [s[j - 1]];
      k
    else j
  }

  /** Where the text kept by `str.strip()` starts: after the leading whitespace. */
  function StripStart(s: string): (a: nat)
    ensures a <= |s| && AllSpace(s[..a])
    ensures a < |s| ==> !IsSpace(s[a])
  {
    assert s[..SkipSpace(s, 0)] == s[0..SkipSpace(s, 0)];
    SkipSpace(s, 0)
  }

  /** `str.strip()`: the infix of `s` left after removing leading and trailing
      whitespace. */
  function Strip(s: string): (r: string)
    ensures IsStripped(r)
    ensures StripStart(s) + |r| <= |s|
    ensures r == s[StripStart(s)..StripStart(s) + |r|]
    ensures AllSpace(s[StripStart(s) + |r|..])
    ensures IsStripped(s) ==> r == s
  {
    var a := StripStart(s);
    var b := SkipSpaceBack(s, a, |s|);
    assert a < b ==> !IsSpace(s[a]);
    assert s[b..] == s[b..|s|];
    s[a..b]
  }

  /** `s.replace(a, b)` for single characters `a` and `b`. */
  function ReplaceChar(s: string, a: char, b: char): (r: string)
    ensures |r| == |s|
    ensures a != b ==> a !in r
    ensures forall k :: 0 <= k < |s| && s[k] == a ==> r[k] == b
    ensures forall k :: 0 <= k < |s| && s[k] != a ==> r[k] == s[k]
  {
    seq(|s|, k requires 0 <= k < |s| => if s[k] == a then b else s[k])
  }
}
