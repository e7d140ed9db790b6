/** `summarize_text` (search_logic.py): split plain text into sentences with the
    boundary regex `(?<!\w\.\w.)(?<![A-Z][a-z]\.)(?<=\.|\?)\s`, keep the first
    five, join them with a space and mark truncation with an ellipsis. */
module Sentences {
  import opened Text

  /** Number of sentences kept by the summary. */
  const MaxSentences := 5

  /** Appended when sentences were dropped. */
  const Ellipsis := "..."

  /** The regex matches the single character `s[i]`: it is whitespace, follows `.`
      or `?`, and the text before it ends neither in an initial pattern such as
      `e.g.` (`\w\.\w.`) nor in a capitalised abbreviation such as `Mr.`
      (`[A-Z][a-z]\.`). Lookbehinds see the whole text, not the current piece. */
  predicate IsBoundary(s: string, i: int) {
    && 0 <= i < |s|
    && IsSpace(s[i])
    && 1 <= i && (s[i - 1] == '.' || s[i - 1] == '?')
    // `.` at the end of the initial pattern matches anything but a newline
    && !(4 <= i && IsWord(s[i - 4]) && s[i - 3] == '.' && IsWord(s[i - 2]) && s[i - 1] != '\n')
    && !(3 <= i && IsUpper(s[i - 3]) && IsLower(s[i - 2]) && s[i - 1] == '.')
  }

  /** The boundary indices at or after `i`, in increasing order. */
  function BoundariesFrom(s: string, i: nat): (b: seq<nat>)
    requires i <= |s|
    ensures forall j :: j in b <==> i <= j && IsBoundary(s, j)
    ensures forall k :: 0 <= k < |b| ==> i <= b[k] < |s|
    ensures forall k, l :: 0 <= k < l < |b| ==> b[k] < b[l]
    decreases |s| - i
  {
    if i == |s| then []
    else if IsBoundary(s, i) then [i] + BoundariesFrom(s, i + 1)
    else BoundariesFrom(s, i + 1)
  }

  /** Every index at which `re.split` cuts `s`, in increasing order. */
  function Boundaries(s: string): seq<nat> {
    BoundariesFrom(s, 0)
  }

  /** Cut points around the boundaries at or after `i`: the character before the
      current piece's start, each boundary, and the end of the text. */
  function CutsFrom(s: string, start: nat, i: nat): seq<int>
    requires i <= |s|
  {
    [start - 1] + BoundariesFrom(s, i) + [|s|]
  }

  /** The cut points of the whole text; piece `k` lies strictly between cut `k`
      and cut `k + 1`. */
  function Cuts(s: string): seq<int> {
    CutsFrom(s, 0, 0)
  }

  /** `pieces[k]` is the text strictly between `cuts[k]` and `cuts[k + 1]`. */
  predicate PiecesBetween(s: string, pieces: seq<string>, cuts: seq<int>) {
    && |cuts| == |pieces| + 1
    && forall k {:trigger pieces[k]} :: 0 <= k < |pieces| ==>
         0 <= cuts[k] + 1 <= cuts[k + 1] <= |s| && pieces[k] == s[cuts[k] + 1..cuts[k + 1]]
  }

  /** Prepending the piece before the first cut of `rest` keeps the pieces between
      their cuts. */
  lemma ConsPiece(s: string, start: nat, i: nat, rest: seq<string>)
    requires start <= i < |s| && IsBoundary(s, i)
    requires PiecesBetween(s, rest, CutsFrom(s, i + 1, i + 1))
    ensures PiecesBetween(s, [s[start..i]] + rest, CutsFrom(s, start, i))
  {
    var cuts, cuts' := CutsFrom(s, start, i), CutsFrom(s, i + 1, i + 1);
    assert cuts == [start - 1] + cuts';
    var pieces := [s[start..i]] + rest;
    forall k {:trigger pieces[k]} | 0 <= k < |pieces|
      ensures 0 <= cuts[k] + 1 <= cuts[k + 1] <= |s| && pieces[k] == s[cuts[k] + 1..cuts[k + 1]]
    {
      if k > 0 {
        assert pieces[k] == rest[k - 1];
      }
    }
  }

  /** `re.split` scanning from index `i`, the current piece having started at
      `start`. */
  function SplitFrom(s: string, start: nat, i: nat): (pieces: seq<string>)
    requires start <= i <= |s|
    ensures PiecesBetween(s, pieces, CutsFrom(s, start, i))
    decreases |s| - i
  {
    if i == |s| then
      assert CutsFrom(s, start, i) == [start - 1, |s|];
      [s[start..]]
    else if IsBoundary(s, i) then
      var rest := SplitFrom(s, i + 1, i + 1);
      ConsPiece(s, start, i, rest);
      [s[start..i]] + rest
    else
      assert CutsFrom(s, start, i) == CutsFrom(s, start, i + 1);
      SplitFrom(s, start, i + 1)
  }

  /** `re.split(pattern, text)`: always at least one piece (`[""]` for empty text). */
  function Split(s: string): (pieces: seq<string>)
    ensures |pieces| == |Boundaries(s)| + 1
    ensures PiecesBetween(s, pieces, Cuts(s))
  {
    SplitFrom(s, 0, 0)
  }

  /** The text with every boundary character replaced by a single space. */
  function Blank(s: string): (r: string)
    ensures |r| == |s|
  {
    seq(|s|, j requires 0 <= j < |s| => if IsBoundary(s, j) then ' ' else s[j])
  }

  /** No boundary lies strictly between two consecutive cuts. */
  lemma NoBoundaryInsidePiece(s: string, k: nat, j: int)
    requires k + 1 < |Cuts(s)|
    requires Cuts(s)[k] < j < Cuts(s)[k + 1]
    ensures !IsBoundary(s, j)
  {
  }

  /** Every inner cut is a boundary. */
  lemma InnerCutIsBoundary(s: string, k: nat)
    requires 1 <= k < |Cuts(s)| - 1
    ensures IsBoundary(s, Cuts(s)[k])
  {
  }

  /** The blanked text agrees with the text strictly between two consecutive cuts. */
  lemma BlankInsidePiece(s: string, k: nat)
    requires k + 1 < |Cuts(s)|
    requires 0 <= Cuts(s)[k] + 1 <= Cuts(s)[k + 1] <= |s|
    ensures Blank(s)[Cuts(s)[k] + 1..Cuts(s)[k + 1]] == s[Cuts(s)[k] + 1..Cuts(s)[k + 1]]
  {
  }

  /** Joining the first `k` sentences with a space gives the blanked text up to
      cut `k`. */
  lemma {:induction false} JoinPrefix(s: string, k: nat)
    requires 1 <= k <= |Split(s)|
    ensures 0 <= Cuts(s)[k] <= |s|
    ensures Join(" ", Split(s)[..k]) == Blank(s)[..Cuts(s)[k]]
  {
    var pieces, cuts := Split(s), Cuts(s);
    assert pieces[k - 1] == s[cuts[k - 1] + 1..cuts[k]];
    BlankInsidePiece(s, k - 1);
    if k == 1 {
      assert pieces[..k] == [pieces[0]];
      assert cuts[0] == -1;
      assert Blank(s)[..cuts[1]] == Blank(s)[0..cuts[1]];
    } else {
      JoinPrefix(s, k - 1);
      assert pieces[..k][..k - 1] == pieces[..k - 1];
      var c := cuts[k - 1];
      InnerCutIsBoundary(s, k - 1);
      var blank := Blank(s);
      assert blank[c] == ' ';
      assert blank[..cuts[k]] == blank[..c] + [blank[c]] + blank[c + 1..cuts[k]];
    }
  }

  /** `summarize_text`: at most five sentences, joined with a space, then "..." if
      any were dropped. Equivalently: the text up to the end of its fifth sentence
      (or all of it), with each sentence boundary turned into one space. */
  function Summarize(text: string): (summary: string)
    ensures var n := if |Split(text)| > MaxSentences then MaxSentences else |Split(text)|;
            0 <= Cuts(text)[n] <= |text|
            && summary == Blank(text)[..Cuts(text)[n]]
                          + (if |Split(text)| > MaxSentences then Ellipsis else "")
  {
    var sentences := Split(text);
    var n := if |sentences| > MaxSentences then MaxSentences else |sentences|;
    JoinPrefix(text, n);
    Join(" ", sentences[..n]) + (if |sentences| > n then Ellipsis else "")
  }

  /** Text without any sentence boundary is one piece, and conversely. */
  lemma NoBoundaryOnePiece(s: string)
    ensures Boundaries(s) == [] <==> Split(s) == [s]
    ensures Boundaries(s) == [] ==> Summarize(s) == s
  {
    if Boundaries(s) == [] {
      assert Cuts(s) == [-1, |s|];
      assert Split(s)[0] == s[0..|s|] == s;
      assert |Split(s)| == 1;
      assert Blank(s) == s by {
        forall j | 0 <= j < |s| ensures Blank(s)[j] == s[j] {
          assert j !in Boundaries(s);
        }
      }
    }
  }

  /** Round trip: when every boundary is a plain space and there are at most five
      sentences, the summary is the text itself. */
  lemma ShortTextRoundTrip(s: string)
    requires forall j :: IsBoundary(s, j) ==> s[j] == ' '
    requires |Split(s)| <= MaxSentences
    ensures Summarize(s) == s
  {
  }

  /** At most five sentences: the summary is all of them joined, with no ellipsis. */
  lemma ShortSummary(s: string)
    requires |Split(s)| <= MaxSentences
    ensures Summarize(s) == Join(" ", Split(s))
  {
    JoinPrefix(s, |Split(s)|);
    assert Split(s)[..|Split(s)|] == Split(s);
  }

  /** More than five sentences: the summary is the first five joined, then "...". */
  lemma LongSummary(s: string)
    requires |Split(s)| > MaxSentences
    ensures Summarize(s) == Join(" ", Split(s)[..MaxSentences]) + Ellipsis
  {
  }
}
