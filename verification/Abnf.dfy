/** The recognisers of numbers in header values
    (chrome/browser/client_hints/client_hints_browsertest.cc 195-237). */
module Abnf {
  import opened Text

  // ----- The languages -----

  /** 1*DIGIT, a repetition in the sense of section 3.6 of RFC 5234. */
  ghost predicate IsDigits(s: string) {
    s != "" && forall k | 0 <= k < |s| :: '0' <= s[k] <= '9'
  }

  /** 1*DIGIT [ "." 1*DIGIT ], with an optional sequence in the sense of section 3.8 of RFC 5234. */
  ghost predicate IsDouble(s: string) {
    IsDigits(s) || exists p :: IsDoubleAt(s, p)
  }

  /** The optional part starts at the position. */
  ghost predicate IsDoubleAt(s: string, p: int) {
    0 <= p < |s| && IsDigits(s[..p]) && s[p] == '.' && IsDigits(s[p + 1..])
  }

  // ----- The recognisers -----

  method IsSimilarToDoubleABNF(s: string) returns (accepted: bool)
    ensures accepted <==> IsDouble(s)
  {
    if s == "" {
      return false;
    }
    if !IsDigit(s[0]) {
      StartsWithDigit(s);
      return false;
    }
    var periodFound := false;
    var digitFoundAfterPeriod := false;
    ghost var period := -1;
    for i := 0 to |s|
      invariant periodFound <==> period >= 0
      invariant periodFound ==> 0 < period < i && s[period] == '.'
      invariant forall k | 0 <= k < i && k != period :: IsDigit(s[k])
      invariant digitFoundAfterPeriod <==> periodFound && period + 1 < i
    {
      var ch := s[i];
      if IsDigit(ch) {
        if periodFound {
          digitFoundAfterPeriod := true;
        }
        continue;
      }
      if ch == '.' {
        if periodFound {
          OnePeriodOnly(s, period, i);
          return false;
        }
        periodFound := true;
        period := i;
        continue;
      }
      DigitsAndPeriodsOnly(s, i);
      return false;
    }
    if periodFound {
      OnlyAt(s, period);
      return digitFoundAfterPeriod;
    }
    return true;
  }

  method IsSimilarToIntABNF(s: string) returns (accepted: bool)
    ensures accepted <==> IsDigits(s)
  {
    if s == "" {
      return false;
    }
    for i := 0 to |s|
      invariant forall k | 0 <= k < i :: IsDigit(s[k])
    {
      if !IsDigit(s[i]) {
        return false;
      }
    }
    return true;
  }

  /** Around the period of a number there are digits only. */
  lemma DigitsAround(s: string, p: int, k: int)
    requires IsDoubleAt(s, p) && 0 <= k < |s| && k != p
    ensures IsDigit(s[k])
  {
    if k < p {
      assert s[..p][k] == s[k];
    } else {
      assert s[p + 1..][k - p - 1] == s[k];
    }
  }

  lemma StartsWithDigit(s: string)
    requires s != ""
    ensures IsDouble(s) ==> IsDigit(s[0])
  {
    if p :| IsDoubleAt(s, p) { DigitsAround(s, p, 0); }
  }

  lemma OnePeriodOnly(s: string, i: int, j: int)
    requires 0 <= i < j < |s| && s[i] == '.' && s[j] == '.'
    ensures !IsDouble(s)
  {
    if p :| IsDoubleAt(s, p) {
      DigitsAround(s, p, if p == i then j else i);
    }
  }

  lemma DigitsAndPeriodsOnly(s: string, i: int)
    requires 0 <= i < |s| && !IsDigit(s[i]) && s[i] != '.'
    ensures !IsDouble(s)
  {
    if p :| IsDoubleAt(s, p) { DigitsAround(s, p, i); }
  }

  lemma OnlyAt(s: string, p: int)
    requires 0 < p < |s| && s[p] == '.' && forall k | 0 <= k < |s| && k != p :: IsDigit(s[k])
    ensures IsDouble(s) <==> p + 1 < |s|
  {
    if p + 1 < |s| {
      assert IsDoubleAt(s, p);
    } else if q :| IsDoubleAt(s, q) {
      if q != p { DigitsAround(s, q, p); }
    }
  }

  /** The language of integers is that of doubles without a period. */
  lemma IntegersAreDoublesWithoutPeriod(s: string)
    ensures IsDigits(s) <==> IsDouble(s) && '.' !in s
  {
    if p :| IsDoubleAt(s, p) { assert s[p] in s; }
  }
}
