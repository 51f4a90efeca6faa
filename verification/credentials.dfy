/**
 * Credential extraction shared by the `Authorization: Bearer <token>` and
 * `X-Authorization: Apikey <token>` readers: split the header on the scheme
 * word, insist on exactly two parts, and return the trimmed second part.
 */
module Credentials {
  import opened GoStrings

  /**
   * A scheme word such as "Bearer" or "Apikey": it does not start with white
   * space and its first character occurs nowhere else in it, so two of its
   * occurrences never overlap.
   */
  predicate IsSchemeWord(w: string) {
    HeadUnique(w) && !IsSpace(w[0])
  }

  /**
   * The token after the only occurrence of `scheme` in `header`, trimmed, or
   * "" when there is none. The word is matched case-sensitively and anywhere
   * in the header, not only as a prefix.
   */
  function ExtractToken(header: string, scheme: string): (token: string)
    requires |scheme| > 0
    ensures IsTrimmed(token)
  {
    if header == "" then ""
    else
      var parts := Split(header, scheme);
      if |parts| != 2 then ""
      else
        var token := TrimSpace(parts[1]);
        if |token| < 1 then "" else token
  }

  /**
   * The extractor's whole behaviour in terms of occurrences: nothing unless
   * the scheme word occurs exactly once, and otherwise the trimmed text after
   * that occurrence (which is "" when that text is blank).
   */
  lemma ExtractTokenSpec(header: string, scheme: string)
    requires IsSchemeWord(scheme)
    ensures Count(header, scheme) != 1 ==> ExtractToken(header, scheme) == ""
    ensures Count(header, scheme) == 1 ==>
      && Index(header, scheme) != -1
      && ExtractToken(header, scheme) == TrimSpace(header[Index(header, scheme) + |scheme|..])
  {
    SplitCount(header, scheme);
    if Count(header, scheme) == 1 {
      SplitSecondPart(header, scheme);
    }
  }

  /** A header holding the scheme word twice yields no token. */
  lemma TwiceYieldsNothing(header: string, scheme: string, i: nat, j: nat)
    requires IsSchemeWord(scheme) && i < j
    requires OccursAt(header, scheme, i) && OccursAt(header, scheme, j)
    ensures ExtractToken(header, scheme) == ""
  {
    TwoOccurrences(header, scheme, i, j);
    ExtractTokenSpec(header, scheme);
  }

  /** `scheme + " " + token` holds the scheme word once, at its start. */
  lemma {:induction false} SchemeThenTokenOnce(scheme: string, token: string)
    requires IsSchemeWord(scheme) && Count(token, scheme) == 0
    ensures Count(scheme + " " + token, scheme) == 1
    ensures Index(scheme + " " + token, scheme) == 0
  {
    var h := scheme + " " + token;
    var n := |scheme|;
    assert OccursAt(h, scheme, 0);
    forall j | 1 <= j < n + 1
      ensures !OccursAt(h, scheme, j)
    {
      if j < n {
        NoOverlap(h, scheme, 0, j);
      } else {
        assert h[j + 0] == ' ';
      }
    }
    CountSkips(h, scheme, 1, n + 1);
    assert h[n + 1..] == token;
    CountInSuffix(h, scheme, n + 1, 0);
  }

  /** A header whose only scheme word starts it yields the trimmed rest. */
  lemma ExtractAfterLeadingScheme(header: string, scheme: string, token: string)
    requires IsSchemeWord(scheme) && token != [] && IsTrimmed(token)
    requires Count(header, scheme) == 1 && Index(header, scheme) == 0
    requires header[|scheme|..] == " " + token
    ensures ExtractToken(header, scheme) == token
  {
    ExtractTokenSpec(header, scheme);
    TrimSpaceSkipsLeadingSpace(" ", token);
  }

  /**
   * Round trip: a non-empty trimmed token that does not itself contain the
   * scheme word comes back out of `scheme + " " + token`.
   */
  lemma {:induction false} ExtractTokenRoundTrip(scheme: string, token: string)
    requires IsSchemeWord(scheme)
    requires token != [] && IsTrimmed(token) && Count(token, scheme) == 0
    ensures ExtractToken(scheme + " " + token, scheme) == token
  {
    var header := scheme + " " + token;
    SchemeThenTokenOnce(scheme, token);
    assert header[|scheme|..] == " " + token;
    ExtractAfterLeadingScheme(header, scheme, token);
  }
}
