/** The summary cleanup of model.py, `re.sub(r'\(.*?\)', '', content).strip()`:
    each `(` is removed together with everything up to the nearest following `)`
    on the same line (`.` does not match a newline), scanning left to right, and
    the result is stripped of surrounding whitespace. */
module Parens {
  import opened Outcomes
  import opened Text

  /** `s[a..b]` holds neither a newline nor `)`: the lazy `.*?` crosses it without
      stopping. */
  predicate OpenRun(s: string, a: int, b: int) {
    0 <= a <= b <= |s| && forall k :: a <= k < b ==> s[k] != '\n' && s[k] != ')'
  }

  /** `\(.*?\)` matches `s[p..q + 1]`: a `(`, then the nearest `)` with no newline
      in between. */
  predicate Span(s: string, p: int, q: int) {
    0 <= p < q < |s| && s[p] == '(' && s[q] == ')' && OpenRun(s, p + 1, q)
  }

  /** No `(` of `s` is followed by a `)` on the same line: the pattern matches
      nowhere. */
  ghost predicate NoSpan(s: string) {
    forall p, q :: !Span(s, p, q)
  }

  /** A subsequence: `a` is `b` with some characters deleted, the rest in order. */
  predicate IsSubseq(a: string, b: string)
    decreases |b|
  {
    if b == [] then a == []
    else (a != [] && a[0] == b[0] && IsSubseq(a[1..], b[1..])) || IsSubseq(a, b[1..])
  }

  /** Index of the `)` that closes a `(` standing just before `t`, if it is on the
      same line. */
  function FindClose(t: string): (r: Option<nat>)
    ensures r.Some? ==> r.value < |t| && t[r.value] == ')' && OpenRun(t, 0, r.value)
    ensures r.None? ==> forall q :: 0 <= q < |t| && t[q] == ')' ==> !OpenRun(t, 0, q)
  {
    if t == [] then None
    else if t[0] == ')' then Some(0)
    else if t[0] == '\n' then None
    else
      match FindClose(t[1..])
      case Some(q) => Some(q + 1)
      case None =>
        assert forall q :: 1 <= q <= |t| && OpenRun(t, 0, q) ==> OpenRun(t[1..], 0, q - 1);
        None
  }

  /** The pattern's match at index 0 is exactly what `FindClose` finds, and it is
      the only one: the lazy `.*?` stops at the nearest `)`. */
  lemma FindCloseIsLazyMatch(s: string, q: int)
    requires |s| > 0 && s[0] == '('
    ensures FindClose(s[1..]) == Some(q - 1) <==> Span(s, 0, q)
  {
  }

  /** A `(` starts at most one match. */
  lemma SpanUnique(s: string, p: int, q: int, q': int)
    requires Span(s, p, q) && Span(s, p, q')
    ensures q == q'
  {
  }

  /** Matches of `[c] + t`: those of `t` shifted by one, plus one starting at `c`. */
  lemma SpanCons(c: char, t: string, p: int, q: int)
    ensures p >= 1 ==> (Span([c] + t, p, q) <==> Span(t, p - 1, q - 1))
    ensures p == 0 ==> (Span([c] + t, p, q) <==>
                          c == '(' && 1 <= q && q - 1 < |t| && t[q - 1] == ')' && OpenRun(t, 0, q - 1))
  {
    var u := [c] + t;
    if 0 <= p && p + 1 <= q <= |u| {
      OpenRunShift(c, t, p, q - 1);
    }
  }

  /** A run of `t` is open exactly when the same run, one to the right, of
      `[c] + t` is. */
  lemma OpenRunShift(c: char, t: string, a: int, b: int)
    requires 0 <= a <= b <= |t|
    ensures OpenRun([c] + t, a + 1, b + 1) <==> OpenRun(t, a, b)
  {
    var u := [c] + t;
    if OpenRun(u, a + 1, b + 1) {
      forall k | a <= k < b
        ensures t[k] != '\n' && t[k] != ')'
      {
        assert t[k] == u[k + 1];
      }
    }
    if OpenRun(t, a, b) {
      forall k | a + 1 <= k < b + 1
        ensures u[k] != '\n' && u[k] != ')'
      {
        assert u[k] == t[k - 1];
      }
    }
  }

  /** Consing a character keeps a text without matches free of them, unless it is a
      `(` whose line in the rest has a `)`. */
  lemma NoSpanCons(c: char, t: string)
    requires NoSpan(t)
    requires c == '(' ==> FindClose(t).None?
    ensures NoSpan([c] + t)
  {
    forall p, q
      ensures !Span([c] + t, p, q)
    {
      SpanCons(c, t, p, q);
    }
  }

  /** Dropping the first character keeps a text free of matches. */
  lemma NoSpanTail(s: string)
    requires |s| > 0
    ensures NoSpan(s) ==> NoSpan(s[1..])
  {
    assert s == [s[0]] + s[1..];
    forall p, q
      ensures Span(s[1..], p, q) ==> Span(s, p + 1, q + 1)
    {
      SpanCons(s[0], s[1..], p + 1, q + 1);
    }
  }

  /** Every infix of a text without matches is without matches. */
  lemma NoSpanInfix(s: string, a: int, b: int)
    requires 0 <= a <= b <= |s|
    requires NoSpan(s)
    ensures NoSpan(s[a..b])
  {
    var t := s[a..b];
    forall p, q
      ensures !Span(t, p, q)
    {
      if 0 <= p < q < |t| {
        assert OpenRun(t, p + 1, q) ==> OpenRun(s, a + p + 1, a + q);
        assert !Span(s, a + p, a + q);
      }
    }
  }

  lemma {:induction false} SubseqEmpty(b: string)
    ensures IsSubseq([], b)
    decreases |b|
  {
    if b != [] {
      SubseqEmpty(b[1..]);
    }
  }

  lemma {:induction false} SubseqPrefix(b: string, n: nat)
    requires n <= |b|
    ensures IsSubseq(b[..n], b)
    decreases |b|
  {
    if n == 0 {
      SubseqEmpty(b);
    } else {
      assert b[..n][1..] == b[1..][..n - 1];
      SubseqPrefix(b[1..], n - 1);
    }
  }

  lemma {:induction false} SubseqDrop(a: string, b: string, k: nat)
    requires k <= |b|
    requires IsSubseq(a, b[k..])
    ensures IsSubseq(a, b)
    decreases k
  {
    if k > 0 {
      assert b[1..][k - 1..] == b[k..];
      SubseqDrop(a, b[1..], k - 1);
    }
  }

  /** Every infix is a subsequence. */
  lemma SubseqInfix(b: string, lo: nat, hi: nat)
    requires lo <= hi <= |b|
    ensures IsSubseq(b[lo..hi], b)
  {
    assert b[lo..hi] == b[lo..][..hi - lo];
    SubseqPrefix(b[lo..], hi - lo);
    SubseqDrop(b[lo..hi], b, lo);
  }

  lemma {:induction false} SubseqTransitive(a: string, b: string, c: string)
    requires IsSubseq(a, b) && IsSubseq(b, c)
    ensures IsSubseq(a, c)
    decreases |c|
  {
    if c != [] {
      if b != [] && b[0] == c[0] && IsSubseq(b[1..], c[1..]) {
        if a != [] && a[0] == b[0] && IsSubseq(a[1..], b[1..]) {
          SubseqTransitive(a[1..], b[1..], c[1..]);
        } else {
          SubseqTransitive(a, b[1..], c[1..]);
        }
      } else {
        SubseqTransitive(a, b, c[1..]);
      }
    }
  }

  /** `re.sub(r'\(.*?\)', '', s)`: the scan deletes the leftmost match, resumes
      after it, and keeps every character at which no match starts. */
  function RemoveParens(s: string): (r: string)
    ensures IsSubseq(r, s)
    ensures NoSpan(r)
    ensures NoSpan(s) ==> r == s
    ensures FindClose(s).None? ==> FindClose(r).None?
    decreases |s|
  {
    if s == [] then []
    else if s[0] == '(' && FindClose(s[1..]).Some? then
      var q := FindClose(s[1..]).value;
      FindCloseIsLazyMatch(s, q + 1);
      var r := RemoveParens(s[q + 2..]);
      SubseqDrop(r, s, q + 2);
      r
    else
      var r := RemoveParens(s[1..]);
      NoSpanCons(s[0], r);
      NoSpanTail(s);
      assert ([s[0]] + r)[1..] == r;
      [s[0]] + r
  }

  /** Where a match starts at the first character, the scan deletes exactly that
      match, up to and including its `)`, and carries on after it. */
  lemma RemoveParensAtMatch(s: string, q: int)
    requires Span(s, 0, q)
    ensures RemoveParens(s) == RemoveParens(s[q + 1..])
  {
    FindCloseIsLazyMatch(s, q);
  }

  /** Where no match starts at the first character, the scan keeps that character
      and carries on with the next one. */
  lemma RemoveParensKeeps(s: string)
    requires |s| > 0
    requires forall q :: !Span(s, 0, q)
    ensures RemoveParens(s) == [s[0]] + RemoveParens(s[1..])
  {
    if s[0] == '(' && FindClose(s[1..]).Some? {
      FindCloseIsLazyMatch(s, FindClose(s[1..]).value + 1);
      assert false;
    }
  }

  /** `re.sub(r'\(.*?\)', '', "a(b)c")` is `"ac"`. */
  lemma RemoveParensExample()
    ensures RemoveParens("a(b)c") == "ac"
  {
    var s := "a(b)c";
    RemoveParensKeeps(s);
    assert s[1..] == "(b)c";
    RemoveParensAtMatch("(b)c", 2);
    assert "(b)c"[3..] == "c";
    RemoveParensKeeps("c");
    assert "c"[1..] == [];
  }

  /** Stripping keeps a text free of matches. */
  lemma StripNoSpan(s: string)
    requires NoSpan(s)
    ensures NoSpan(Strip(s))
  {
    var a := StripStart(s);
    NoSpanInfix(s, a, a + |Strip(s)|);
  }

  /** Stripping gives a subsequence. */
  lemma StripSubseq(s: string)
    ensures IsSubseq(Strip(s), s)
  {
    var a := StripStart(s);
    SubseqInfix(s, a, a + |Strip(s)|);
  }

  lemma CleanupFacts(content: string)
    ensures NoSpan(Strip(RemoveParens(content)))
    ensures IsSubseq(Strip(RemoveParens(content)), content)
  {
    var removed := RemoveParens(content);
    StripNoSpan(removed);
    StripSubseq(removed);
    SubseqTransitive(Strip(removed), removed, content);
  }

  /** The cleanup of `search_wikipedia_summary`: remove every match, then strip.
      The result has no match left, no surrounding whitespace, and keeps the
      surviving characters of `content` in order. */
  function Cleanup(content: string): (r: string)
    ensures NoSpan(r)
    ensures IsStripped(r)
    ensures IsSubseq(r, content)
  {
    CleanupFacts(content);
    Strip(RemoveParens(content))
  }

  /** The cleanup is idempotent. */
  lemma CleanupIdempotent(content: string)
    ensures Cleanup(Cleanup(content)) == Cleanup(content)
  {
  }

  /** The scan changes a text exactly when the pattern matches somewhere in it. */
  lemma RemoveParensIdentityIff(s: string)
    ensures RemoveParens(s) == s <==> NoSpan(s)
  {
  }
}
