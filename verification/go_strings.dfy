/**
 * The parts of Go's `strings` package the credential extractors rely on:
 * `strings.Index`, `strings.Split` (with a non-empty separator) and
 * `strings.TrimSpace`. Strings are sequences of runes.
 */
module GoStrings {

  /** `w` occurs in `s` starting at position `i`. */
  predicate OccursAt(s: string, w: string, i: int) {
    0 <= i <= |s| - |w| && forall k :: 0 <= k < |w| ==> s[i + k] == w[k]
  }

  /** The number of positions at or after `p` where `w` occurs in `s`. */
  function CountFrom(s: string, w: string, p: nat): nat
    requires |w| > 0
    decreases |s| - p
  {
    if p + |w| > |s| then 0
    else (if OccursAt(s, w, p) then 1 else 0) + CountFrom(s, w, p + 1)
  }

  /** The number of positions where `w` occurs in `s`, overlapping ones included. */
  function Count(s: string, w: string): nat
    requires |w| > 0
  {
    CountFrom(s, w, 0)
  }

  /** The first position at or after `p` where `w` occurs in `s`, or -1. */
  function IndexFrom(s: string, w: string, p: nat): (r: int)
    requires |w| > 0
    ensures r == -1 || (p <= r && OccursAt(s, w, r))
    ensures forall j :: p <= j && (r == -1 || j < r) ==> !OccursAt(s, w, j)
    decreases |s| - p
  {
    if p + |w| > |s| then -1
    else if OccursAt(s, w, p) then p
    else IndexFrom(s, w, p + 1)
  }

  /** `strings.Index`: the first position where `w` occurs in `s`, or -1. */
  function Index(s: string, w: string): (r: int)
    requires |w| > 0
    ensures r == -1 || OccursAt(s, w, r)
    ensures forall j :: 0 <= j && (r == -1 || j < r) ==> !OccursAt(s, w, j)
  {
    IndexFrom(s, w, 0)
  }

  /**
   * `strings.Split(s, sep)` for a non-empty separator: cut at each occurrence
   * found by scanning left to right, so n occurrences give n + 1 parts.
   */
  function Split(s: string, sep: string): (parts: seq<string>)
    requires |sep| > 0
    ensures |parts| >= 1
    decreases |s|
  {
    var i := Index(s, sep);
    if i == -1 then [s] else [s[..i]] + Split(s[i + |sep|..], sep)
  }

  /** The first character of `w` occurs nowhere else in `w`. */
  predicate HeadUnique(w: string) {
    |w| > 0 && forall k :: 0 < k < |w| ==> w[k] != w[0]
  }

  /** Occurrences in a suffix are the occurrences in the whole, shifted. */
  lemma OccursInSuffix(s: string, w: string, d: nat, j: int)
    requires d <= |s| && 0 <= j
    ensures OccursAt(s[d..], w, j) <==> OccursAt(s, w, d + j)
  {
  }

  /** Two occurrences of a head-unique word are at least its length apart. */
  lemma NoOverlap(s: string, w: string, i: int, j: int)
    requires HeadUnique(w) && OccursAt(s, w, i) && i < j < i + |w|
    ensures !OccursAt(s, w, j)
  {
    assert s[i + (j - i)] == w[j - i] != w[0];
  }

  /** Positions without an occurrence add nothing to the count. */
  lemma {:induction false} CountSkips(s: string, w: string, p: nat, q: nat)
    requires |w| > 0 && p <= q
    requires forall j :: p <= j < q ==> !OccursAt(s, w, j)
    ensures CountFrom(s, w, p) == CountFrom(s, w, q)
    decreases q - p
  {
    if p < q && p + |w| <= |s| {
      CountSkips(s, w, p + 1, q);
    }
  }

  /** An occurrence at `i` adds one to the count from any `p <= i`. */
  lemma {:induction false} CountCovers(s: string, w: string, p: nat, i: nat)
    requires |w| > 0 && p <= i && OccursAt(s, w, i)
    ensures CountFrom(s, w, p) >= 1 + CountFrom(s, w, i + 1)
    decreases i - p
  {
    if p < i {
      CountCovers(s, w, p + 1, i);
    }
  }

  /** Two distinct occurrences make a count of at least two. */
  lemma TwoOccurrences(s: string, w: string, i: nat, j: nat)
    requires |w| > 0 && i < j && OccursAt(s, w, i) && OccursAt(s, w, j)
    ensures Count(s, w) >= 2
  {
    CountCovers(s, w, 0, i);
    CountCovers(s, w, i + 1, j);
  }

  /** Counting in a suffix is counting in the whole from the suffix's start. */
  lemma {:induction false} CountInSuffix(s: string, w: string, d: nat, p: nat)
    requires |w| > 0 && d <= |s|
    ensures CountFrom(s[d..], w, p) == CountFrom(s, w, d + p)
    decreases |s| - d - p
  {
    if d + p + |w| <= |s| {
      OccursInSuffix(s, w, d, p);
      CountInSuffix(s, w, d, p + 1);
    }
  }

  /**
   * Counting from the first occurrence of a separator whose occurrences
   * cannot overlap: that occurrence, then the occurrences after it.
   */
  lemma CountAfterFirst(s: string, w: string, i: nat)
    requires HeadUnique(w) && OccursAt(s, w, i)
    requires forall j :: 0 <= j < i ==> !OccursAt(s, w, j)
    ensures Count(s, w) == 1 + Count(s[i + |w|..], w)
  {
    CountSkips(s, w, 0, i);
    forall j | i + 1 <= j < i + |w|
      ensures !OccursAt(s, w, j)
    {
      NoOverlap(s, w, i, j);
    }
    CountSkips(s, w, i + 1, i + |w|);
    CountInSuffix(s, w, i + |w|, 0);
  }

  /**
   * `Split` yields one part more than there are occurrences of a separator
   * whose occurrences cannot overlap.
   */
  lemma {:induction false} SplitCount(s: string, w: string)
    requires HeadUnique(w)
    ensures |Split(s, w)| == Count(s, w) + 1
    decreases |s|
  {
    var i := Index(s, w);
    if i == -1 {
      CountSkips(s, w, 0, |s|);
    } else {
      SplitCount(s[i + |w|..], w);
      SplitCountStep(s, w);
    }
  }

  /**
   * Cutting off the first part and the first occurrence leaves the
   * difference between parts and occurrences as it was.
   */
  lemma SplitCountStep(s: string, w: string)
    requires HeadUnique(w) && Index(s, w) != -1
    ensures |Split(s, w)| - Count(s, w)
         == |Split(s[Index(s, w) + |w|..], w)| - Count(s[Index(s, w) + |w|..], w)
  {
    CountAfterFirst(s, w, Index(s, w));
  }

  /**
   * When the separator occurs exactly once, the second of the two parts is
   * everything after that occurrence.
   */
  lemma SplitSecondPart(s: string, w: string)
    requires HeadUnique(w) && Count(s, w) == 1
    ensures Index(s, w) != -1 && |Split(s, w)| == 2
    ensures Split(s, w)[1] == s[Index(s, w) + |w|..]
  {
    SplitCount(s, w);
  }

  /** `unicode.IsSpace`, the predicate `strings.TrimSpace` trims by. */
  predicate IsSpace(c: char) {
    || c == '\t' || c == '\n' || c == '\U{B}' || c == '\U{C}' || c == '\r' || c == ' '
    || c == '\U{85}' || c == '\U{A0}' || c == '\U{1680}'
    || ('\U{2000}' <= c <= '\U{200A}')
    || c == '\U{2028}' || c == '\U{2029}' || c == '\U{202F}' || c == '\U{205F}' || c == '\U{3000}'
  }

  /** Neither end of `s` is white space. */
  predicate IsTrimmed(s: string) {
    s == [] || (!IsSpace(s[0]) && !IsSpace(s[|s| - 1]))
  }

  /** Drops the leading white space of `s`. */
  function TrimLeft(s: string): (r: string)
    ensures |r| <= |s| && r == s[|s| - |r|..]
    ensures r == [] || !IsSpace(r[0])
    ensures forall k :: 0 <= k < |s| - |r| ==> IsSpace(s[k])
    decreases |s|
  {
    if s != [] && IsSpace(s[0]) then TrimLeft(s[1..]) else s
  }

  /** Drops the trailing white space of `s`. */
  function TrimRight(s: string): (r: string)
    ensures |r| <= |s| && r == s[..|r|]
    ensures r == [] || !IsSpace(r[|r| - 1])
    ensures forall k :: |r| <= k < |s| ==> IsSpace(s[k])
    decreases |s|
  {
    if s != [] && IsSpace(s[|s| - 1]) then TrimRight(s[..|s| - 1]) else s
  }

  /**
   * `strings.TrimSpace`: `s` without the white space at either end. The
   * result is trimmed, is empty exactly when `s` is all white space, and is
   * `s` itself when `s` was trimmed already.
   */
  function TrimSpace(s: string): (r: string)
    ensures IsTrimmed(r)
    ensures r == [] <==> forall k :: 0 <= k < |s| ==> IsSpace(s[k])
    ensures IsTrimmed(s) ==> r == s
  {
    TrimRight(TrimLeft(s))
  }

  /**
   * `TrimSpace(s)` is the slice `s[i..j]` left once the leading white space
   * (before `i`) and the trailing white space (from `j`) of `s` are cut.
   */
  lemma TrimSpaceIsSlice(s: string) returns (i: nat, j: nat)
    ensures i <= j <= |s| && TrimSpace(s) == s[i..j]
    ensures forall k :: 0 <= k < i ==> IsSpace(s[k])
    ensures forall k :: j <= k < |s| ==> IsSpace(s[k])
  {
    var t := TrimLeft(s);
    var r := TrimRight(t);
    i, j := TrimmedSlice(s, t, r);
  }

  /**
   * A prefix `r` of a suffix `t` of `s`, with only white space before `t`
   * in `s` and after `r` in `t`, is a slice of `s` with only white space
   * around it.
   */
  lemma TrimmedSlice(s: string, t: string, r: string) returns (i: nat, j: nat)
    requires |t| <= |s| && t == s[|s| - |t|..]
    requires forall k :: 0 <= k < |s| - |t| ==> IsSpace(s[k])
    requires |r| <= |t| && r == t[..|r|]
    requires forall k :: |r| <= k < |t| ==> IsSpace(t[k])
    ensures i <= j <= |s| && r == s[i..j]
    ensures forall k :: 0 <= k < i ==> IsSpace(s[k])
    ensures forall k :: j <= k < |s| ==> IsSpace(s[k])
  {
    i, j := |s| - |t|, |s| - |t| + |r|;
    forall k | j <= k < |s|
      ensures IsSpace(s[k])
    {
      assert s[k] == t[k - i];
    }
  }

  /** Leading white space makes no difference to `TrimSpace`. */
  lemma {:induction false} TrimSpaceSkipsLeadingSpace(ws: string, t: string)
    requires forall k :: 0 <= k < |ws| ==> IsSpace(ws[k])
    ensures TrimSpace(ws + t) == TrimSpace(t)
    decreases |ws|
  {
    if ws == [] {
      assert ws + t == t;
    } else {
      assert (ws + t)[1..] == ws[1..] + t;
      assert TrimLeft(ws + t) == TrimLeft(ws[1..] + t);
      TrimSpaceSkipsLeadingSpace(ws[1..], t);
    }
  }
}
