/** What a bar in a pattern does: components/adblock/core/subscription/pattern_matcher.cc 89-95 and
    149-153. A lone bar is an end anchor, at which the pattern is over, unless it stands directly
    behind a wildcard, where it is looked for as text. */
module Anchors {
  import opened Text
  import opened PatternMatcher

  /** A lone bar that demands the end of the input. */
  predicate IsEndAnchor(p: string, m: nat, afterStar: bool) {
    && m < |p| && p[m] == '|'
    && (if m == 0 then !afterStar else p[m - 1] != '|' && p[m - 1] != '*')
    && (m + 1 < |p| ==> p[m + 1] != '|')
  }

  /** The first `i` characters of `p`, and the next one, are no end anchors. */
  predicate NoEndAnchorUpTo(p: string, i: int, afterStar: bool) {
    forall m: nat | m <= i :: !IsEndAnchor(p, m, afterStar)
  }

  lemma NoEndAnchorInRest(p: string, n: nat, i: int, afterStar: bool)
    requires 0 < n <= |p| && NoEndAnchorUpTo(p, i, afterStar)
    requires n < |p| ==> p[n - 1] != '|' || p[n] != '|'
    ensures NoEndAnchorUpTo(p[n..], i - n, p[n - 1] == '*')
  {
    var q, star := p[n..], p[n - 1] == '*';
    forall m: nat | m <= i - n
      ensures !IsEndAnchor(q, m, star)
    {
      assert !IsEndAnchor(p, n + m, afterStar);
    }
  }

  /** Whether `p` matches the whole of `s`. It differs from `Denotes` only in that nothing may be
      left when the pattern is used up. */
  ghost predicate DenotesAll(p: string, s: string, afterStar: bool)
    decreases |p|
  {
    if p == "" then s == ""
    else if p[0] == '*' then
      exists k: nat | k <= |s| :: DenotesAll(p[1..], s[k..], true)
    else if p[0] == '^' then
      if s == "" then DenotesAll(p[1..], s, false)
      else IsSeparator(s[0]) && DenotesAll(p[1..], s[1..], false)
    else if p[0] == '|' then
      var n := Run(p, '|');
      if n == 1 && !afterStar then s == ""
      else StartsWith(s, p[..n]) && DenotesAll(p[n..], s[n..], false)
    else s != "" && s[0] == p[0] && DenotesAll(p[1..], s[1..], false)
  }

  /** A bar put behind `p` is a token of its own and no text. */
  predicate IsClosed(p: string, afterStar: bool) {
    if p == "" then !afterStar else p[|p| - 1] != '*' && p[|p| - 1] != '|'
  }

  // ----- A pattern is over at its first end anchor -----

  lemma ClosedRest(p: string, n: nat, afterStar: bool)
    requires 0 < n <= |p| && IsClosed(p, afterStar)
    ensures IsClosed(p[n..], p[n - 1] == '*')
  {
  }

  lemma HeadOfConcat(p: string, n: nat, tail: string)
    requires n <= |p|
    ensures (p + tail)[n..] == p[n..] + tail && (p + tail)[..n] == p[..n]
  {
  }

  lemma {:induction false} RunOfConcat(p: string, tail: string, c: char)
    requires tail != "" && (Run(p, c) < |p| || tail[0] != c)
    ensures Run(p + tail, c) == Run(p, c)
  {
    if p == "" {
      assert p + tail == tail;
    } else if p[0] == c {
      assert (p + tail)[1..] == p[1..] + tail;
      RunOfConcat(p[1..], tail, c);
    }
  }

  /** What follows an end anchor matches nothing. */
  lemma {:induction false} EndAnchorEndsPattern(p: string, rest: string, s: string, afterStar: bool)
    requires IsClosed(p, afterStar) && (rest == "" || rest[0] != '|')
    ensures Denotes(p + ("|" + rest), s, afterStar) <==> DenotesAll(p, s, afterStar)
    ensures DenotesAll(p + ("|" + rest), s, afterStar) <==> DenotesAll(p, s, afterStar)
    decreases |p|
  {
    var tail := "|" + rest;
    if p == "" {
      assert p + tail == tail && Run(tail, '|') == 1;
    } else {
      assert (p + tail)[0] == p[0];
      if p[0] == '*' {
        EndBehindStar(p, rest, s, afterStar);
      } else if p[0] == '|' {
        EndBehindBars(p, rest, s, afterStar);
      } else {
        HeadOfConcat(p, 1, tail);
        ClosedRest(p, 1, afterStar);
        EndAnchorEndsPattern(p[1..], rest, if s == "" then s else s[1..], false);
      }
    }
  }

  lemma BarsAreNotAll(p: string, afterStar: bool)
    requires p != "" && IsClosed(p, afterStar)
    ensures Run(p, '|') < |p|
  {
    assert forall i :: 0 <= i < Run(p, '|') ==> p[i] == '|';
  }

  lemma EndBehindStar(p: string, rest: string, s: string, afterStar: bool)
    requires IsClosed(p, afterStar) && (rest == "" || rest[0] != '|') && p != "" && p[0] == '*'
    ensures Denotes(p + ("|" + rest), s, afterStar) <==> DenotesAll(p, s, afterStar)
    ensures DenotesAll(p + ("|" + rest), s, afterStar) <==> DenotesAll(p, s, afterStar)
    decreases |p|, 0
  {
    HeadOfConcat(p, 1, "|" + rest);
    ClosedRest(p, 1, afterStar);
    forall k: nat | k <= |s| {
      EndAnchorEndsPattern(p[1..], rest, s[k..], true);
    }
  }

  lemma EndBehindBars(p: string, rest: string, s: string, afterStar: bool)
    requires IsClosed(p, afterStar) && (rest == "" || rest[0] != '|') && p != "" && p[0] == '|'
    ensures Denotes(p + ("|" + rest), s, afterStar) <==> DenotesAll(p, s, afterStar)
    ensures DenotesAll(p + ("|" + rest), s, afterStar) <==> DenotesAll(p, s, afterStar)
    decreases |p|, 0
  {
    var n, tail := Run(p, '|'), "|" + rest;
    BarsAreNotAll(p, afterStar);
    RunOfConcat(p, tail, '|');
    HeadOfConcat(p, n, tail);
    ClosedRest(p, n, afterStar);
    if StartsWith(s, p[..n]) { EndAnchorEndsPattern(p[n..], rest, s[n..], false); }
  }

  /** A pattern is over at its first end anchor: what stands behind it makes no difference. */
  lemma PatternIsOverAtEndAnchor(p: string, rest: string, s: string, afterStar: bool)
    requires IsClosed(p, afterStar) && (rest == "" || rest[0] != '|')
    ensures Denotes(p + "|" + rest, s, afterStar) <==> Denotes(p + "|", s, afterStar)
  {
    assert p + "|" + rest == p + ("|" + rest) && p + "|" == p + ("|" + "");
    EndAnchorEndsPattern(p, rest, s, afterStar);
    EndAnchorEndsPattern(p, "", s, afterStar);
  }

  // ----- When a final bar anchors -----

  /** A bar put behind `p` demands just that `p` reaches the end. */
  ghost predicate FinalBarAnchors(p: string, afterStar: bool) {
    forall s :: BarDemandsEnd(p, s, afterStar)
  }

  ghost predicate BarDemandsEnd(p: string, s: string, afterStar: bool) {
    Denotes(p + "|", s, afterStar) <==> DenotesAll(p, s, afterStar)
  }

  /** The pattern is over before its last character. */
  ghost predicate IsOverBefore(p: string, afterStar: bool) {
    exists m: nat :: m + 1 < |p| && IsEndAnchor(p, m, afterStar)
  }

  /** A final bar anchors exactly if it stands behind neither a wildcard nor another bar, or if
      the pattern is over before. */
  lemma FinalBarAnchorsIff(p: string, afterStar: bool)
    ensures FinalBarAnchors(p, afterStar) <==> IsClosed(p, afterStar) || IsOverBefore(p, afterStar)
  {
    if IsClosed(p, afterStar) {
      forall s
        ensures BarDemandsEnd(p, s, afterStar)
      {
        assert p + "|" == p + ("|" + "");
        EndAnchorEndsPattern(p, "", s, afterStar);
      }
    } else if IsOverBefore(p, afterStar) {
      var m: nat :| m + 1 < |p| && IsEndAnchor(p, m, afterStar);
      forall s
        ensures BarDemandsEnd(p, s, afterStar)
      {
        BarBehindTheEnd(p, m, s, afterStar);
      }
    } else {
      var s := UnanchoredText(p, afterStar);
      assert !BarDemandsEnd(p, s, afterStar);
    }
  }

  lemma BarBehindTheEnd(p: string, m: nat, s: string, afterStar: bool)
    requires m + 1 < |p| && IsEndAnchor(p, m, afterStar)
    ensures BarDemandsEnd(p, s, afterStar)
  {
    var q, rest := p[..m], p[m + 1..];
    assert p == q + ("|" + rest) && p + "|" == q + ("|" + (rest + "|"));
    EndAnchorEndsPattern(q, rest + "|", s, afterStar);
    EndAnchorEndsPattern(q, rest, s, afterStar);
  }

  /** The shortest text `p` matches if it has no end anchor: nothing for wildcards, a slash for
      separators, and all else as it stands. */
  function Sample(p: string): string {
    if p == "" then "" else SampleOf(p[0]) + Sample(p[1..])
  }

  function SampleOf(c: char): string {
    if c == '*' then "" else if c == '^' then "/" else [c]
  }

  ghost predicate NoEndAnchor(p: string, afterStar: bool) {
    NoEndAnchorUpTo(p, |p|, afterStar)
  }

  lemma NoEndAnchorBehind(p: string, n: nat, afterStar: bool)
    requires 0 < n <= |p| && NoEndAnchor(p, afterStar)
    requires n < |p| ==> p[n - 1] != '|' || p[n] != '|'
    ensures NoEndAnchor(p[n..], p[n - 1] == '*')
  {
    NoEndAnchorInRest(p, n, |p|, afterStar);
  }

  lemma LoneBarIsAnchor(p: string, afterStar: bool)
    requires p != "" && p[0] == '|' && Run(p, '|') == 1 && !afterStar
    ensures IsEndAnchor(p, 0, afterStar)
  {
  }

  lemma {:induction false} SampleOfBars(p: string, n: nat)
    requires n <= Run(p, '|')
    ensures n <= |Sample(p)| && Sample(p)[..n] == p[..n] && Sample(p)[n..] == Sample(p[n..])
  {
    if n > 0 {
      SampleOfBars(p[1..], n - 1);
      ShiftedParts(Sample(p), Sample(p[1..]), p, n);
    } else {
      assert p[0..] == p;
    }
  }

  lemma ShiftedParts(s: string, r: string, p: string, n: nat)
    requires p != "" && s == [p[0]] + r && 0 < n <= |p| && n - 1 <= |r| && r[..n - 1] == p[1..][..n - 1]
    ensures s[..n] == p[..n] && s[n..] == r[n - 1..] && p[1..][n - 1..] == p[n..]
  {
    assert s[..n] == [p[0]] + r[..n - 1] && p[..n] == [p[0]] + p[1..][..n - 1];
  }

  lemma {:induction false} MatchesSample(p: string, afterStar: bool)
    requires NoEndAnchor(p, afterStar)
    ensures DenotesAll(p, Sample(p), afterStar)
    decreases |p|
  {
    var s := Sample(p);
    if p == "" {
    } else if p[0] == '|' {
      var n := Run(p, '|');
      if n == 1 && !afterStar { LoneBarIsAnchor(p, afterStar); assert false; }
      SampleOfBars(p, n);
      NoEndAnchorBehind(p, n, afterStar);
      MatchesSample(p[n..], false);
    } else {
      NoEndAnchorBehind(p, 1, afterStar);
      MatchesSample(p[1..], p[0] == '*');
      if p[0] == '*' {
        assert s == Sample(p[1..]) && s[0..] == s;
      } else {
        assert s[1..] == Sample(p[1..]);
      }
    }
  }

  /** A pattern that ends in a bar of text. */
  ghost predicate EndsInTextBar(p: string, afterStar: bool) {
    p != "" && p[|p| - 1] == '|' && NoEndAnchor(p, afterStar)
  }

  /** It matches nothing shorter than its sample. */
  lemma {:induction false} MatchIsAsLongAsSample(p: string, s: string, afterStar: bool)
    requires EndsInTextBar(p, afterStar) && Denotes(p, s, afterStar)
    ensures |Sample(p)| <= |s|
    decreases |p|, 1
  {
    if p[0] == '|' {
      AsLongBehindBars(p, s, afterStar);
    } else {
      NoEndAnchorBehind(p, 1, afterStar);
      AsLongBehindFirst(p, s, afterStar);
    }
  }

  lemma AsLongBehindBars(p: string, s: string, afterStar: bool)
    requires EndsInTextBar(p, afterStar) && Denotes(p, s, afterStar) && p[0] == '|'
    ensures |Sample(p)| <= |s|
    decreases |p|, 0
  {
    var n := Run(p, '|');
    BarsOfMatch(p, s, afterStar, n);
    if n < |p| { MatchIsAsLongAsSample(p[n..], s[n..], false); }
  }

  /** Bars of text are as long in a match as in the sample, and the rest ends in such a bar too. */
  lemma BarsOfMatch(p: string, s: string, afterStar: bool, n: nat)
    requires EndsInTextBar(p, afterStar) && Denotes(p, s, afterStar) && p[0] == '|' && n == Run(p, '|')
    ensures 0 < n <= |s| && Denotes(p[n..], s[n..], false) && |Sample(p)| == n + |Sample(p[n..])|
    ensures n < |p| ==> EndsInTextBar(p[n..], false)
  {
    if n == 1 && !afterStar { LoneBarIsAnchor(p, afterStar); assert false; }
    SampleLength(p, n);
    if n < |p| { NoEndAnchorBehind(p, n, afterStar); }
  }

  lemma SampleLength(p: string, n: nat)
    requires n == Run(p, '|')
    ensures |Sample(p)| == n + |Sample(p[n..])|
  {
    SampleOfBars(p, n);
    assert |Sample(p)[..n]| == n;
  }

  lemma AsLongBehindFirst(p: string, s: string, afterStar: bool)
    requires EndsInTextBar(p, afterStar) && Denotes(p, s, afterStar) && p[0] != '|'
        && EndsInTextBar(p[1..], p[0] == '*')
    ensures |Sample(p)| <= |s|
    decreases |p|, 0
  {
    if p[0] == '*' {
      var k: nat :| k <= |s| && Denotes(p[1..], s[k..], true);
      MatchIsAsLongAsSample(p[1..], s[k..], true);
    } else if s == "" {
      MatchIsAsLongAsSample(p[1..], s, false);
      BarIsInSample(p[1..]);
    } else {
      MatchIsAsLongAsSample(p[1..], s[1..], false);
    }
  }

  lemma {:induction false} BarIsInSample(p: string)
    requires p != "" && p[|p| - 1] == '|'
    ensures Sample(p) != ""
  {
    if |p| > 1 { BarIsInSample(p[1..]); }
  }

  lemma {:induction false} SampleOfConcat(p: string, q: string)
    ensures |Sample(p + q)| == |Sample(p)| + |Sample(q)|
  {
    if p == "" {
      assert p + q == q;
    } else {
      HeadOfConcat(p, 1, q);
      SampleOfConcat(p[1..], q);
    }
  }

  /** A text that tells a bar behind `p` from an anchor. */
  lemma UnanchoredText(p: string, afterStar: bool) returns (s: string)
    requires !IsClosed(p, afterStar) && !IsOverBefore(p, afterStar)
    ensures DenotesAll(p, s, afterStar) && !Denotes(p + "|", s, afterStar)
  {
    var last := |p| - 1;
    var q := if p != "" && IsEndAnchor(p, last, afterStar) then p[..last] else p;
    s := Sample(q);
    NoAnchorBut(p, q, afterStar);
    MatchesSample(q, afterStar);
    if q != p {
      assert p == q + ("|" + "");
      EndAnchorEndsPattern(q, "", s, afterStar);
    }
    SampleIsTooShort(p, q, afterStar);
  }

  /** The text that `q` needs is too short for more bars behind it. */
  lemma SampleIsTooShort(p: string, q: string, afterStar: bool)
    requires NoEndAnchor(p + "|", afterStar) && |q| <= |p| && q == p[..|q|]
    ensures !Denotes(p + "|", Sample(q), afterStar)
  {
    var bars := p + "|";
    var rest := bars[|q|..];
    if Denotes(bars, Sample(q), afterStar) {
      MatchIsAsLongAsSample(bars, Sample(q), afterStar);
      assert bars == q + rest;
      SampleOfConcat(q, rest);
      BarIsInSample(rest);
    }
  }

  lemma NoAnchorBut(p: string, q: string, afterStar: bool)
    requires !IsClosed(p, afterStar) && !IsOverBefore(p, afterStar)
    requires q == if p != "" && IsEndAnchor(p, |p| - 1, afterStar) then p[..|p| - 1] else p
    ensures NoEndAnchor(q, afterStar) && NoEndAnchor(p + "|", afterStar)
    ensures q != p ==> IsClosed(q, afterStar)
  {
    forall m: nat | IsEndAnchor(q, m, afterStar)
      ensures false
    {
      assert IsEndAnchor(p, m, afterStar);
    }
    forall m: nat | IsEndAnchor(p + "|", m, afterStar)
      ensures false
    {
      if m < |p| { assert IsEndAnchor(p, m, afterStar); }
    }
  }

  // ----- A bar behind text, and behind a wildcard -----

  lemma TextDenotesAll(t: string, tail: string, s: string, afterStar: bool)
    requires IsText(t)
    ensures Denotes(t + tail, s, afterStar) <==> StartsWith(s, t) && Denotes(tail, s[|t|..], false)
  {
    var p := t + tail;
    assert p[..|t|] == t && p[|t|..] == tail;
    assert forall i :: 0 <= i < |t| ==> p[i] == t[i];
    TextDenotes(p, |t|, s, afterStar);
  }

  lemma StarBar(s: string)
    ensures Denotes("*|", s, false) <==> '|' in s
  {
    var p := "*|";
    assert p[1..] == "|" && Run("|", '|') == 1 && "|"[..1] == "|" && "|"[1..] == "";
    if k: nat :| k < |s| && s[k] == '|' {
      assert s[k..][..1] == "|";
      assert Denotes("|", s[k..], true);
    }
    if Denotes(p, s, false) {
      var k: nat :| k <= |s| && Denotes("|", s[k..], true);
      assert s[k..][..1] == "|";
      assert s[k] == '|';
    }
  }

  /** Behind text a bar demands the end; behind a wildcard it is looked for itself. */
  lemma BarBehindText(t: string, s: string, afterStar: bool)
    requires IsText(t)
    ensures Denotes(t + "|", s, afterStar) <==> s == t
    ensures Denotes(t + "*|", s, afterStar) <==> StartsWith(s, t) && '|' in s[|t|..]
  {
    TextDenotesAll(t, "|", s, afterStar);
    assert Run("|", '|') == 1;
    TextDenotesAll(t, "*|", s, afterStar);
    if StartsWith(s, t) {
      assert s == s[..|t|] + s[|t|..];
      StarBar(s[|t|..]);
    }
  }

  // ----- What that comes to for urls -----

  /** What is searched for anywhere in a url. */
  predicate IsSearched(p: string) {
    p != "" && p[0] != '|' && p[0] != '*'
  }

  lemma SearchedBody(p: string)
    requires IsSearched(p)
    ensures Body(p) == p && Run(p, '|') == 0
  {
    assert Run(p, '|') == 0 && Run(p, '*') == 0;
  }

  lemma SearchedAnswer(p: string, url: Url)
    requires IsSearched(p) && Levels(p) <= MAX_RECURSION_DEPTH
    ensures Answers(p, url, Verdict(true)) <==> MatchesSomewhere(p, url.Spec())
  {
    SearchedBody(p);
  }

  /** A pattern with a final bar is answered yes exactly for the urls it matches up to their end,
      if the bar anchors, as `FinalBarAnchorsIff` tells. */
  lemma FinalBarAnswer(p: string, url: Url)
    requires IsSearched(p) && Levels(p + "|") <= MAX_RECURSION_DEPTH
    requires IsClosed(p, true) || IsOverBefore(p, true)
    ensures Answers(p + "|", url, Verdict(true)) <==>
              exists j: nat :: j <= |url.Spec()| && DenotesAll(p, url.Spec()[j..], true)
  {
    var s := url.Spec();
    FinalBarAnchorsIff(p, true);
    SearchedAnswer(p + "|", url);
    forall j: nat | j <= |s|
      ensures MatchesAt(p + "|", s, j) <==> DenotesAll(p, s[j..], true)
    {
      assert BarDemandsEnd(p, s[j..], true);
    }
    if MatchesSomewhere(p + "|", s) {
      var j: nat :| MatchesAt(p + "|", s, j);
      assert DenotesAll(p, s[j..], true);
    }
    if j: nat :| j <= |s| && DenotesAll(p, s[j..], true) {
      assert MatchesAt(p + "|", s, j);
    }
  }

  lemma TextStarBarLevels(p: string, t: string)
    requires IsText(t) && p == t + "*|"
    ensures FindLevels(p) == 4
  {
    var star := "*|";
    assert star[1..] == "|" && Run("|", '*') == 0 && "|"[1..] == "";
    TextThenLevels(p, t, star);
  }

  /** Text, a wildcard and a bar are answered yes exactly for urls that have a bar behind the text. */
  lemma BarBehindWildcardAnswer(t: string, url: Url)
    requires IsText(t)
    ensures Answers(t + "*|", url, Verdict(true)) <==>
              exists j: nat :: BarFollows(t, url.Spec(), j)
  {
    var p, s := t + "*|", url.Spec();
    TextStarBarLevels(p, t);
    assert p[0] == t[0];
    SearchedAnswer(p, url);
    forall j: nat
      ensures MatchesAt(p, s, j) <==> BarFollows(t, s, j)
    {
      if j <= |s| { BarBehindText(t, s[j..], true); }
    }
  }

  /** `t` stands in `s` at `j` and a bar somewhere behind it. */
  predicate BarFollows(t: string, s: string, j: nat) {
    j <= |s| && StartsWith(s[j..], t) && '|' in s[j..][|t|..]
  }

  lemma NoBarWitness() returns (url: Url)
    ensures url == Url("http", "a", "", "/") && url.Valid() && '|' !in url.Spec()
    ensures |url.Spec()| == 9 && url.Spec()[7] == 'a'
  {
    url := Url("http", "a", "", "/");
    assert url.Spec() == "http://a/";
  }

  lemma TextAndStarReachTheEnd(t: string, s: string)
    requires |t| == 1 && IsText(t) && s != "" && s[0] == t[0]
    ensures DenotesAll(t + "*", s, true)
  {
    var p, u := t + "*", s[1..];
    assert p[1..] == "*" && "*"[1..] == "" && u[|u|..] == "";
    assert DenotesAll("", u[|u|..], true);
  }

  /** The pattern a*| is answered no for http://a/, though a and the wildcard match up to its end. */
  lemma BarBehindWildcardExample() returns (url: Url)
    ensures url == Url("http", "a", "", "/") && url.Valid()
    ensures !Answers("a*|", url, Verdict(true)) && DenotesAll("a*", url.Spec()[7..], true)
  {
    url := NoBarWitness();
    var s := url.Spec();
    assert "a" + "*|" == "a*|" && "a" + "*" == "a*";
    BarBehindWildcardAnswer("a", url);
    forall j: nat
      ensures !BarFollows("a", s, j)
    {
      if j <= |s| && StartsWith(s[j..], "a") { NoneInSlice(s, j, '|'); NoneInSlice(s[j..], 1, '|'); }
    }
    TextAndStarReachTheEnd("a", s[7..]);
  }

  lemma NoneInSlice(s: string, j: nat, c: char)
    requires j <= |s| && c !in s
    ensures c !in s[j..]
  {
  }
}
