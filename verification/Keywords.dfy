/** Keywords of filter patterns and of URLs: filter_keyword_extractor.cc, url_keyword_extractor.cc
    and keyword_extractor_utils.cc of components/adblock/core.

    A filter is stored under one keyword taken from its pattern and is only looked at for URLs
    that contain that keyword, so every URL the pattern matches has to contain it. */
module Keywords {
  import opened Text
  import opened PatternMatcher

  predicate IsBadKeyword(w: string) {
    w == "http" || w == "https" || w == "com" || w == "js" || |w| < 2
  }

  // ----- What keywords are -----

  /** A letter, a digit or a percent sign. */
  predicate IsNameChar(c: char) {
    'a' <= c <= 'z' || 'A' <= c <= 'Z' || '0' <= c <= '9' || c == '%'
  }

  /** What ends a word for sure in whatever a pattern matches. */
  predicate IsEdge(c: char) {
    !IsNameChar(c) && c != '*'
  }

  predicate AllWord(s: string) {
    forall i :: 0 <= i < |s| ==> IsNameChar(s[i])
  }

  /** At least two characters, and none of the words that are in too many URLs. */
  predicate IsTelling(w: string) {
    2 <= |w| && w != "http" && w != "https" && w != "com" && w != "js"
  }

  // ----- Keywords of a URL -----

  /** Where the stretch of word characters, or of other ones, that begins at `from` ends. */
  function SpanEnd(s: string, from: nat, word: bool): (end: nat)
    requires from <= |s|
    ensures from <= end <= |s|
    ensures forall i :: from <= i < end ==> IsWordChar(s[i]) == word
    ensures end < |s| ==> IsWordChar(s[end]) != word
    decreases |s| - from
  {
    if from < |s| && IsWordChar(s[from]) == word then SpanEnd(s, from + 1, word) else from
  }

  /** `w` stands in `s` at `a` as a whole word. */
  predicate IsWordAt(w: string, s: string, a: nat) {
    && a + |w| <= |s| && s[a..a + |w|] == w
    && (a == 0 || !IsNameChar(s[a - 1]))
    && (a + |w| == |s| || !IsNameChar(s[a + |w|]))
  }

  ghost predicate HasWordFrom(w: string, s: string, from: nat) {
    exists a: nat :: from <= a && IsWordAt(w, s, a)
  }

  ghost predicate HasWord(w: string, s: string) {
    HasWordFrom(w, s, 0)
  }

  /** The keywords of a URL from position `from` on: its words, in order, without the bad ones. */
  function UrlKeywordsFrom(s: string, from: nat): seq<string>
    requires from <= |s|
    decreases |s| - from
  {
    var a := SpanEnd(s, from, false);
    if a == |s| then []
    else
      var end := SpanEnd(s, a, true);
      (if IsBadKeyword(s[a..end]) then [] else [s[a..end]]) + UrlKeywordsFrom(s, end)
  }

  function UrlKeywords(s: string): seq<string> {
    UrlKeywordsFrom(s, 0)
  }

  /** `from` is not inside a word. */
  predicate IsWordEdge(s: string, from: nat) {
    from <= |s| && (from == 0 || from == |s| || !IsWordChar(s[from - 1]) || !IsWordChar(s[from]))
  }

  lemma {:induction false} UrlKeywordsAreWords(s: string, from: nat, w: string)
    requires IsWordEdge(s, from) && AllWord(w) && IsTelling(w)
    ensures w in UrlKeywordsFrom(s, from) <==> HasWordFrom(w, s, from)
    decreases |s| - from
  {
    WordsBehind(s, from, w);
    var a := SpanEnd(s, from, false);
    if a < |s| {
      UrlKeywordsAreWords(s, SpanEnd(s, a, true), w);
    }
  }

  lemma {:induction false} UrlKeywordsAreGood(s: string, from: nat, w: string)
    requires from <= |s| && w in UrlKeywordsFrom(s, from)
    ensures AllWord(w) && IsTelling(w)
    decreases |s| - from
  {
    var a := SpanEnd(s, from, false);
    var end := SpanEnd(s, a, true);
    if w in UrlKeywordsFrom(s, end) {
      UrlKeywordsAreGood(s, end, w);
    }
  }

  /** A whole word of `s` behind `from` is the first one or stands behind that. */
  lemma WordsBehind(s: string, from: nat, w: string)
    requires IsWordEdge(s, from) && w != "" && AllWord(w)
    ensures var a := SpanEnd(s, from, false);
            var end := SpanEnd(s, a, true);
            && (a == |s| ==> !HasWordFrom(w, s, from))
            && (a < |s| ==> (HasWordFrom(w, s, from) <==> w == s[a..end] || HasWordFrom(w, s, end)))
  {
    var a := SpanEnd(s, from, false);
    var end := SpanEnd(s, a, true);
    forall x: nat | from <= x < end && IsWordAt(w, s, x)
      ensures x == a && x + |w| == end
    {
      WordChars(s, x, w);
      assert IsWordChar(s[x]);
      assert !(a < x);
      assert !(x + |w| < end) && !(end < x + |w|);
    }
    if a < |s| {
      assert IsWordAt(s[a..end], s, a);
    }
  }

  lemma WordChars(s: string, x: nat, w: string)
    requires x + |w| <= |s| && s[x..x + |w|] == w && AllWord(w)
    ensures forall i :: x <= i < x + |w| ==> IsWordChar(s[i])
  {
    assert forall i :: x <= i < x + |w| ==> s[i] == w[i - x];
  }

  /** The extractor: the URL's text with its separators overwritten, consumed from the left. */
  class UrlKeywordExtractor {
    const urlWithNulls: string
    var begin: nat

    ghost predicate Valid()
      reads this
    {
      && begin <= |urlWithNulls|
      && forall i :: 0 <= i < |urlWithNulls| ==> urlWithNulls[i] == '\0' || IsWordChar(urlWithNulls[i])
    }

    /** The keywords still to come. */
    ghost function Remaining(): seq<string>
      requires Valid()
      reads this
    {
      UrlKeywordsFrom(urlWithNulls, begin)
    }

    constructor (url: string)
      ensures Valid() && Remaining() == UrlKeywords(url)
    {
      urlWithNulls := seq(|url|, i requires 0 <= i < |url| => if IsWordChar(url[i]) then url[i] else '\0');
      begin := 0;
      new;
      SeparatorsDoNotMatter(url, urlWithNulls, 0);
    }

    method GetNextKeyword() returns (r: Option<string>)
      requires Valid()
      modifies this
      ensures Valid() && begin >= old(begin)
      ensures r.None? ==> old(Remaining()) == []
      ensures r.Some? ==> old(Remaining()) == [r.value] + Remaining() && begin > old(begin)
    {
      var currentKeyword := "";
      while IsBadKeyword(currentKeyword)
        invariant Valid() && begin >= old(begin)
        invariant IsBadKeyword(currentKeyword) ==> old(Remaining()) == Remaining()
        invariant !IsBadKeyword(currentKeyword) ==>
                    old(Remaining()) == [currentKeyword] + Remaining() && begin > old(begin)
        decreases IsBadKeyword(currentKeyword), |urlWithNulls| - begin
      {
        var start := SpanEnd(urlWithNulls, begin, false);
        if start == |urlWithNulls| {
          return None;
        }
        var end := SpanEnd(urlWithNulls, start, true);
        currentKeyword := urlWithNulls[start..end];
        begin := end;
      }
      return Some(currentKeyword);
    }
  }

  ghost predicate SameWordChars(s: string, t: string) {
    && |s| == |t|
    && forall i :: 0 <= i < |s| ==> if IsWordChar(s[i]) then t[i] == s[i] else !IsWordChar(t[i])
  }

  lemma {:induction false} SpansAgree(s: string, t: string, from: nat, word: bool)
    requires SameWordChars(s, t) && from <= |s|
    ensures SpanEnd(s, from, word) == SpanEnd(t, from, word)
    decreases |s| - from
  {
    if from < |s| {
      SpansAgree(s, t, from + 1, word);
    }
  }

  lemma {:induction false} SeparatorsDoNotMatter(s: string, t: string, from: nat)
    requires SameWordChars(s, t) && from <= |s|
    ensures UrlKeywordsFrom(s, from) == UrlKeywordsFrom(t, from)
    decreases |s| - from
  {
    SpansAgree(s, t, from, false);
    var a := SpanEnd(s, from, false);
    if a < |s| {
      SpansAgree(s, t, a, true);
      var end := SpanEnd(s, a, true);
      assert s[a..end] == t[a..end];
      SeparatorsDoNotMatter(s, t, end);
    }
  }

  // ----- Keywords of a filter pattern -----

  predicate IsBoundary(c: char) {
    !IsWordChar(c) && c != '*'
  }

  /** The characters of `p` strictly between `i` and `j` are a keyword. */
  predicate IsKeywordAt(p: string, i: nat, j: nat) {
    && i + 2 < j < |p|
    && IsEdge(p[i]) && IsEdge(p[j])
    && (forall k :: i < k < j ==> IsNameChar(p[k]))
    && IsTelling(p[i + 1..j])
  }

  /** No keyword begins in the stretch. */
  ghost predicate NoKeyword(p: string, from: nat, to: nat) {
    forall i: nat, j: nat | from <= i < to :: !IsKeywordAt(p, i, j)
  }

  /** A boundary at `i` with two word characters behind it. */
  predicate WordStarts(p: string, i: nat) {
    i + 2 < |p| && IsBoundary(p[i]) && IsWordChar(p[i + 1]) && IsWordChar(p[i + 2])
  }

  /** The leftmost such place. */
  function FindWord(p: string, from: nat): (r: Option<nat>)
    ensures r.Some? ==> from <= r.value && WordStarts(p, r.value) && NoKeyword(p, from, r.value)
    ensures r.None? ==> NoKeyword(p, from, |p|)
    decreases |p| - from
  {
    if |p| <= from + 2 then None
    else if WordStarts(p, from) then Some(from)
    else FindWord(p, from + 1)
  }

  function WordOrStarEnd(p: string, from: nat): (end: nat)
    requires from <= |p|
    ensures from <= end <= |p| && NoKeyword(p, from, end)
    decreases |p| - from
  {
    if from < |p| && !IsBoundary(p[from]) then WordOrStarEnd(p, from + 1) else from
  }

  /** `w` is, in lower case, the first keyword of `p` at or behind `from`; it spans from `i` to `j`. */
  ghost predicate IsNextKeyword(p: string, from: nat, i: nat, j: nat, w: string) {
    && from <= i && IsKeywordAt(p, i, j) && NoKeyword(p, from, i) && NoKeyword(p, i + 1, j)
    && w == ToLower(p[i + 1..j])
  }

  /** The extractor over a pattern, consumed from the left. */
  class FilterKeywordExtractor {
    const pattern: string
    var begin: nat

    ghost predicate Valid()
      reads this
    {
      begin <= |pattern|
    }

    constructor (pattern: string)
      ensures Valid() && this.pattern == pattern && begin == 0
    {
      this.pattern := pattern;
      begin := 0;
    }

    method GetNextKeyword() returns (r: Option<string>)
      requires Valid()
      modifies this
      ensures Valid()
      ensures r.None? ==> NoKeyword(pattern, old(begin), |pattern|)
      ensures r.Some? ==> exists i: nat :: IsNextKeyword(pattern, old(begin), i, begin, r.value)
    {
      var currentKeyword := "";
      ghost var i: nat := 0;
      while IsBadKeyword(currentKeyword)
        invariant old(begin) <= begin <= |pattern|
        invariant IsBadKeyword(currentKeyword) ==> NoKeyword(pattern, old(begin), begin)
        invariant !IsBadKeyword(currentKeyword) ==>
                    && old(begin) <= i && IsKeywordAt(pattern, i, begin) && NoKeyword(pattern, old(begin), i)
                    && NoKeyword(pattern, i + 1, begin) && currentKeyword == pattern[i + 1..begin]
        decreases IsBadKeyword(currentKeyword), |pattern| - begin
      {
        var found := FindWord(pattern, begin);
        if found.None? {
          return None;
        }
        i := found.value;
        var end := SpanEnd(pattern, found.value + 1, true);
        WordStep(pattern, old(begin), begin, i, end);
        currentKeyword := pattern[found.value + 1..end];
        begin := end;
        if end == |pattern| || !IsBoundary(pattern[end]) {
          begin := WordOrStarEnd(pattern, end);
          currentKeyword := "";
        }
      }
      assert IsNextKeyword(pattern, old(begin), i, begin, ToLower(currentKeyword));
      return Some(ToLower(currentKeyword));
    }
  }

  /** A word found behind a boundary is the next keyword, or none has begun up to its end. */
  lemma WordStep(p: string, from: nat, begin: nat, i: nat, end: nat)
    requires NoKeyword(p, from, begin) && NoKeyword(p, begin, i) && begin <= i
    requires WordStarts(p, i) && end == SpanEnd(p, i + 1, true)
    ensures i + 2 < end && NoKeyword(p, i + 1, end) && NoKeyword(p, from, i)
    ensures if end < |p| && IsBoundary(p[end]) && !IsBadKeyword(p[i + 1..end]) then IsKeywordAt(p, i, end)
            else NoKeyword(p, from, end)
  {
    OneWord(p, i, end);
  }

  /** Only one word follows a boundary. */
  lemma OneWord(p: string, i: nat, end: nat)
    requires WordStarts(p, i) && end == SpanEnd(p, i + 1, true)
    ensures i + 2 < end && NoKeyword(p, i + 1, end)
    ensures !IsKeywordAt(p, i, end) ==> NoKeyword(p, i, end)
  {
    forall j: nat | IsKeywordAt(p, i, j)
      ensures j == end
    {
      assert !(j < end) && !(end < j);
    }
  }
}
