/** The keyword index finds what a scan over all filters finds: a URL that a pattern matches has
    the pattern's keyword as a whole word. This needs the texts between a keyword's two
    boundaries to be matched at all, which is where an end anchor inside a pattern and the late
    lower-casing of case-sensitive keywords break it. */
module IndexSoundness {
  import opened Text
  import opened PatternMatcher
  import opened Anchors
  import opened Keywords
  import opened FilterIndex

  // ----- A keyword of a matched pattern stands in the text -----

  /** What matches from a boundary on does not begin with a word character. */
  lemma BoundaryEndsWord(p: string, s: string)
    requires p != "" && IsEdge(p[0]) && Denotes(p, s, false)
    ensures s == "" || !IsNameChar(s[0])
  {
    if p[0] == '|' && Run(p, '|') != 1 {
      assert s[0] == s[..Run(p, '|')][0];
    }
  }

  /** The word at the head of `p` stands at `b` in `s` if no word character precedes it there. */
  lemma WordHere(p: string, length: nat, s: string, b: nat)
    requires 2 <= length < |p| && AllWord(p[..length]) && IsEdge(p[length])
    requires b <= |s| && Denotes(p, s[b..], false)
    requires b == 0 || !IsNameChar(s[b - 1])
    ensures IsWordAt(p[..length], s, b)
  {
    assert forall i :: 0 <= i < length ==> p[i] == p[..length][i];
    TextDenotes(p, length, s[b..], false);
    assert s[b..][..length] == s[b..b + length] && s[b..][length..] == s[b + length..];
    BoundaryEndsWord(p[length..], s[b + length..]);
  }

  /** A boundary in front of a word matches one character, which is no word character. */
  lemma BoundaryBeforeWord(p: string, s: string, afterStar: bool)
    requires 2 <= |p| && IsEdge(p[0]) && IsNameChar(p[1])
    requires Denotes(p, s, afterStar) && !IsEndAnchor(p, 0, afterStar)
    ensures s != "" && !IsNameChar(s[0]) && Denotes(p[1..], s[1..], false)
  {
    if p[0] == '^' {
      TextDenotes(p[1..], 1, s, false);
    } else if p[0] == '|' {
      assert Run(p, '|') == 1;
      assert p[..1] == "|" && s[..1] == "|" && s[0] == s[..1][0];
    }
  }

  /** Bars that are no end anchor are matched as text. */
  lemma BarsAreText(p: string, s: string, k: nat, afterStar: bool)
    requires p != "" && p[0] == '|' && !IsEndAnchor(p, 0, afterStar)
    requires k <= |s| && Denotes(p, s[k..], afterStar)
    ensures var n := Run(p, '|');
            0 < n && k + n <= |s| && s[k + n - 1] == '|' && Denotes(p[n..], s[k + n..], false)
  {
    var n := Run(p, '|');
    assert s[k..][n..] == s[k + n..] && s[k..][..n] == p[..n];
    assert s[k + n - 1] == s[k..][..n][n - 1];
  }

  lemma StepOverStar(p: string, s: string, k: nat, afterStar: bool) returns (k': nat)
    requires p != "" && p[0] == '*' && k <= |s| && Denotes(p, s[k..], afterStar)
    ensures k <= k' <= |s| && Denotes(p[1..], s[k'..], true)
  {
    var d: nat :| d <= |s[k..]| && Denotes(p[1..], s[k..][d..], true);
    k' := k + d;
    assert s[k..][d..] == s[k'..];
  }

  /** A character of the pattern that is no wildcard and no bar matches one of the text, unless it is
      a separator at the end. */
  lemma StepOverOne(p: string, s: string, k: nat, afterStar: bool) returns (k': nat)
    requires p != "" && p[0] != '*' && p[0] != '|' && k <= |s| && Denotes(p, s[k..], afterStar)
    ensures k <= k' <= k + 1 && k' <= |s| && Denotes(p[1..], s[k'..], false)
    ensures k' == k ==> k == |s| && p[0] == '^'
    ensures k' == k + 1 ==> if p[0] == '^' then IsSeparator(s[k]) else s[k] == p[0]
  {
    if k == |s| {
      k' := k;
    } else {
      k' := k + 1;
      assert s[k..][1..] == s[k'..] && s[k..][0] == s[k];
    }
  }

  /** One step of a match over the first `n` characters of the pattern. */
  lemma StepTo(p: string, s: string, k: nat, afterStar: bool, i: nat) returns (n: nat, k': nat)
    requires k <= |s| && Denotes(p, s[k..], afterStar) && NoEndAnchorUpTo(p, i, afterStar)
    requires 0 < i && i + 1 < |p| && IsEdge(p[i]) && IsNameChar(p[i + 1])
    ensures 0 < n <= i + 1 && k <= k' <= |s|
    ensures n <= i ==> Denotes(p[n..], s[k'..], p[n - 1] == '*') && NoEndAnchorUpTo(p[n..], i - n, p[n - 1] == '*')
    ensures n == i + 1 ==> 0 < k' && !IsNameChar(s[k' - 1]) && Denotes(p[n..], s[k'..], false)
  {
    if p[0] == '|' {
      n, k' := StepOverBars(p, s, k, afterStar, i);
    } else {
      n := 1;
      if p[0] == '*' {
        k' := StepOverStar(p, s, k, afterStar);
      } else {
        k' := StepOverOne(p, s, k, afterStar);
      }
      NoEndAnchorInRest(p, 1, i, afterStar);
    }
  }

  lemma StepOverBars(p: string, s: string, k: nat, afterStar: bool, i: nat) returns (n: nat, k': nat)
    requires 0 < i && i + 1 < |p| && p[0] == '|' && IsNameChar(p[i + 1])
    requires k <= |s| && Denotes(p, s[k..], afterStar) && NoEndAnchorUpTo(p, i, afterStar)
    ensures 0 < n <= i + 1 && k < k' <= |s| && p[n - 1] == '|' && s[k' - 1] == '|' && Denotes(p[n..], s[k'..], false)
    ensures n <= i ==> NoEndAnchorUpTo(p[n..], i - n, false)
  {
    assert !IsEndAnchor(p, 0, afterStar);
    n := Run(p, '|');
    k' := k + n;
    BarsAreText(p, s, k, afterStar);
    if n <= i { NoEndAnchorInRest(p, n, i, afterStar); }
  }

  lemma {:induction false} KeywordIsInMatch(p: string, s: string, k: nat, afterStar: bool, i: nat, j: nat)
    requires IsKeywordAt(p, i, j)
    requires k <= |s| && Denotes(p, s[k..], afterStar) && NoEndAnchorUpTo(p, i, afterStar)
    ensures HasWord(p[i + 1..j], s)
    decreases i
  {
    var w := p[i + 1..j];
    if i == 0 {
      BoundaryBeforeWord(p, s[k..], afterStar);
      assert s[k..][1..] == s[k + 1..] && s[k..][0] == s[k];
      WordAfterBoundary(p, s, k + 1, i, j);
    } else {
      var n, k' := StepTo(p, s, k, afterStar, i);
      if n == i + 1 {
        WordAfterBoundary(p, s, k', i, j);
      } else {
        KeywordOfRest(p, n, i, j);
        KeywordIsInMatch(p[n..], s, k', p[n - 1] == '*', i - n, j - n);
      }
    }
  }

  lemma KeywordOfRest(p: string, n: nat, i: nat, j: nat)
    requires n <= i && IsKeywordAt(p, i, j)
    ensures IsKeywordAt(p[n..], i - n, j - n) && p[n..][i - n + 1..j - n] == p[i + 1..j]
  {
    assert p[n..][i - n + 1..j - n] == p[i + 1..j];
    assert forall x :: i - n < x < j - n ==> p[n..][x] == p[x + n];
  }

  lemma WordAfterBoundary(p: string, s: string, b: nat, i: nat, j: nat)
    requires IsKeywordAt(p, i, j) && b <= |s| && Denotes(p[i + 1..], s[b..], false)
    requires b == 0 || !IsNameChar(s[b - 1])
    ensures HasWord(p[i + 1..j], s)
  {
    var q := p[i + 1..];
    assert q[..j - i - 1] == p[i + 1..j] && q[j - i - 1] == p[j];
    WordHere(q, j - i - 1, s, b);
  }

  // ----- A keyword of a pattern stands in every URL the pattern answers to -----

  /** Position `i` of the pattern is reached before an end anchor ends the matching. */
  predicate IsReached(p: string, i: nat) {
    NoEndAnchorUpTo(Body(p), i - (|p| - |Body(p)|), Run(p, '|') != 1)
  }

  /** Where the matched part of a pattern begins: behind bars and wildcards only. */
  lemma BodyPlace(p: string) returns (n: nat)
    ensures n <= |p| && p[n..] == Body(p)
    ensures forall x :: 0 <= x < n ==> p[x] == '|' || p[x] == '*'
    ensures n > 0 && p[n - 1] != '*' ==> Run(p, '|') == 1 || (Run(p, '|') == 2 && n == 2)
  {
    var bars := Run(p, '|');
    var m := if bars == 1 || bars == 2 then bars else 0;
    var stars := if bars == 1 then 0 else Run(p[m..], '*');
    n := m + stars;
    assert p[m..][stars..] == p[n..];
    assert forall x :: m <= x < n ==> p[x] == p[m..][x - m];
  }

  /** A keyword lies in the matched part of the pattern or directly behind its leading anchor. */
  lemma KeywordPlace(p: string, i: nat, j: nat) returns (n: nat)
    requires IsKeywordAt(p, i, j)
    ensures n <= |p| && p[n..] == Body(p)
    ensures n <= i || (n == i + 1 && (Run(p, '|') == 1 || IsHostAnchored(p)))
  {
    n := BodyPlace(p);
    assert IsEdge(p[i]) && IsNameChar(p[i + 1]) && p[i + 1] != '|' && p[i + 1] != '*';
  }

  /** A word that is matched at a host start has no word character before it. */
  lemma HostStartIsWordStart(url: Url, j: nat)
    requires url.Valid() && |url.scheme| <= j < |url.Spec()| && IsHostStart(url, j)
    requires IsNameChar(url.Spec()[j])
    ensures 0 < j && !IsNameChar(url.Spec()[j - 1])
  {
    var s := url.Spec();
    assert s == url.scheme + "://" + url.host + (url.port + url.path);
    assert s[|url.scheme|] == ':' && s[|url.scheme| + 1] == '/' && s[|url.scheme| + 2] == '/';
    assert s[url.HostEnd()] == (url.port + url.path)[0];
  }

  lemma KeywordIsInUrl(p: string, url: Url, i: nat, j: nat)
    requires url.Valid() && Answers(p, url, Verdict(true)) && IsKeywordAt(p, i, j) && IsReached(p, i)
    ensures HasWord(p[i + 1..j], url.Spec())
  {
    var n := KeywordPlace(p, i, j);
    var x: nat := MatchPosition(p, url);
    if n <= i {
      KeywordOfRestIsInMatch(p, n, url.Spec(), x, Run(p, '|') != 1, i, j);
    } else {
      WordBehindAnchor(p, url, x, i, j);
    }
  }

  lemma KeywordOfRestIsInMatch(p: string, n: nat, s: string, x: nat, afterStar: bool, i: nat, j: nat)
    requires n <= i && IsKeywordAt(p, i, j) && NoEndAnchorUpTo(p[n..], i - n, afterStar)
    requires x <= |s| && Denotes(p[n..], s[x..], afterStar)
    ensures HasWord(p[i + 1..j], s)
  {
    KeywordOfRest(p, n, i, j);
    KeywordIsInMatch(p[n..], s, x, afterStar, i - n, j - n);
  }

  /** The position the anchor of the pattern accepts. */
  ghost predicate IsAnchored(p: string, url: Url, x: nat) {
    && (Run(p, '|') == 1 ==> x == 0)
    && (IsHostAnchored(p) ==>
          && x <= |url.Spec()|
          && HostVerdict(url, SkippedLength(Body(p), url.Spec(), x)) == Verdict(true))
  }

  lemma MatchPosition(p: string, url: Url) returns (x: nat)
    requires url.Valid() && Answers(p, url, Verdict(true))
    ensures x <= |url.Spec()| && Denotes(Body(p), url.Spec()[x..], Run(p, '|') != 1) && IsAnchored(p, url, x)
  {
    var s := url.Spec();
    if Run(p, '|') == 1 {
      x := 0;
      assert s[0..] == s;
    } else if IsHostAnchored(p) {
      x :| IsLeftmost(Body(p), s, x) && Verdict(true) == HostVerdict(url, SkippedLength(Body(p), s, x));
    } else {
      x :| MatchesAt(Body(p), s, x);
    }
  }

  lemma WordBehindAnchor(p: string, url: Url, x: nat, i: nat, j: nat)
    requires url.Valid() && IsKeywordAt(p, i, j) && Body(p) == p[i + 1..]
    requires Run(p, '|') == 1 || IsHostAnchored(p)
    requires x <= |url.Spec()| && Denotes(Body(p), url.Spec()[x..], Run(p, '|') != 1) && IsAnchored(p, url, x)
    ensures HasWord(p[i + 1..j], url.Spec())
  {
    var s := url.Spec();
    var body := Body(p);
    assert body[0] == p[i + 1];
    TextDenotes(body, 1, s[x..], Run(p, '|') != 1);
    TextDenotes(body, 1, s[x..], false);
    assert s[x..][..1] == body[..1] && s[x] == s[x..][..1][0] == body[0];
    if IsHostAnchored(p) {
      HostStartIsWordStart(url, x);
    }
    WordAfterBoundary(p, s, x, i, j);
  }

  // ----- Letter case -----

  lemma LowerKeepsWords(w: string, s: string)
    requires HasWord(w, s)
    ensures HasWord(ToLower(w), ToLower(s))
  {
    var a: nat :| IsWordAt(w, s, a);
    var s', w' := ToLower(s), ToLower(w);
    assert s'[a..a + |w|] == w' by {
      assert forall x :: a <= x < a + |w| ==> s[x] == s[a..a + |w|][x - a];
    }
    assert IsWordAt(w', s', a);
  }

  lemma LowerKeepsKeyword(p: string, i: nat, j: nat)
    requires IsKeywordAt(p, i, j)
    ensures AllWord(ToLower(p[i + 1..j])) && ToLower(p[i + 1..j]) != ""
  {
    assert forall x :: i < x < j ==> p[x] == p[i + 1..j][x - i - 1];
  }

  // ----- What a lookup finds -----

  /** The key of a bucket the lookup visits. */
  ghost predicate IsLookedUp(k: string, url: Url) {
    k == "" || (IsTelling(k) && HasWord(k, ToLower(url.Spec())))
  }

  lemma VisitedIffLookedUp(k: string, url: Url)
    requires k == "" || AllWord(k)
    ensures IsVisited(k, url) <==> IsLookedUp(k, url)
  {
    var s := ToLower(url.Spec());
    if k != "" {
      if IsTelling(k) {
        UrlKeywordsAreWords(s, 0, k);
      } else if k in UrlKeywords(s) {
        UrlKeywordsAreGood(s, 0, k);
      }
    }
  }

  lemma KeysAreWords(f: UrlFilter, k: string)
    requires IsKeyOf(f, k)
    ensures k == "" || AllWord(k)
  {
    if k != "" {
      var i: nat, j: nat :| IsKeywordAt(f.pattern, i, j) && k == ToLower(f.pattern[i + 1..j]);
      LowerKeepsKeyword(f.pattern, i, j);
    }
  }

  /** A filter is stored under a key that is looked up for the url. */
  ghost predicate IsReachable(f: UrlFilter, index: Index, url: Url) {
    exists k :: f in Bucket(index, k) && IsLookedUp(k, url)
  }

  /** The lookup finds exactly the filters that accept the query and are stored without a key or
      under one that is a word of the url and none of those skipped there. */
  lemma FoundIff(filters: seq<UrlFilter>, index: Index, q: Query, f: UrlFilter)
    requires Holds(index, filters)
    ensures IsFound(f, index, q) <==> Accepts(f, q) && IsReachable(f, index, q.url)
  {
    forall k | f in Bucket(index, k)
      ensures IsVisited(k, q.url) <==> IsLookedUp(k, q.url)
    {
      KeysAreWords(f, k);
      VisitedIffLookedUp(k, q.url);
    }
    if IsFound(f, index, q) {
      var k :| IsVisited(k, q.url) && f in Bucket(index, k) && Accepts(f, q);
      assert IsLookedUp(k, q.url);
    }
    if Accepts(f, q) && IsReachable(f, index, q.url) {
      var k :| f in Bucket(index, k) && IsLookedUp(k, q.url);
      assert IsVisited(k, q.url);
    }
  }

  /** A filter that fails the check on the skipped text is among those looked up. */
  ghost predicate SomeReachableFails(index: Index, q: Query) {
    exists f :: IsReachable(f, index, q.url) && Fails(f, q)
  }

  lemma VisitedFailsIff(filters: seq<UrlFilter>, index: Index, q: Query)
    requires Holds(index, filters)
    ensures SomeVisitedFails(index, q) <==> SomeReachableFails(index, q)
  {
    if SomeVisitedFails(index, q) {
      var k :| IsVisited(k, q.url) && SomeIn(Bucket(index, k), FailingBy(q));
      var f :| f in Bucket(index, k) && Fails(f, q);
      KeysAreWords(f, k);
      VisitedIffLookedUp(k, q.url);
      assert IsReachable(f, index, q.url);
    }
    if SomeReachableFails(index, q) {
      var f :| IsReachable(f, index, q.url) && Fails(f, q);
      var k :| f in Bucket(index, k) && IsLookedUp(k, q.url);
      KeysAreWords(f, k);
      VisitedIffLookedUp(k, q.url);
      assert SomeIn(Bucket(index, k), FailingBy(q));
    }
  }

  /** The subscription's query, end to end: storing filters and finding all that match. It fails
      exactly if the check on the skipped text fails for a filter looked up. */
  method FindAllIn(filters: seq<UrlFilter>, q: Query)
    returns (results: Option<seq<UrlFilter>>, index: Index, ghost keys: seq<string>)
    requires q.url.Valid()
    ensures IsStored(index, filters, keys)
    ensures results.None? <==> SomeReachableFails(index, q)
    ensures results.Some? ==>
              forall f :: f in results.value <==> IsListedAndReachable(f, filters, index, q)
  {
    index, keys := Serialize(filters);
    results := FindInternal(index, q, FindAll);
    VisitedFailsIff(filters, index, q);
    AllFoundIff(filters, index, q);
  }

  ghost predicate IsListedAndReachable(f: UrlFilter, filters: seq<UrlFilter>, index: Index, q: Query) {
    f in filters && Accepts(f, q) && IsReachable(f, index, q.url)
  }

  lemma AllFoundIff(filters: seq<UrlFilter>, index: Index, q: Query)
    requires Holds(index, filters)
    ensures forall f :: IsFound(f, index, q) <==> IsListedAndReachable(f, filters, index, q)
  {
    forall f
      ensures IsFound(f, index, q) <==> IsListedAndReachable(f, filters, index, q)
    {
      FoundIff(filters, index, q, f);
      if IsReachable(f, index, q.url) { ReachableIsListed(filters, index, q, f); }
    }
  }

  lemma ReachableIsListed(filters: seq<UrlFilter>, index: Index, q: Query, f: UrlFilter)
    requires Holds(index, filters) && IsReachable(f, index, q.url)
    ensures f in filters
  {
  }

  // ----- The index against a scan -----

  /** `k` is stored for a part of the pattern that every match reaches. */
  ghost predicate IsReachedKey(f: UrlFilter, k: string) {
    k == "" || exists i: nat, j: nat ::
      IsKeywordAt(f.pattern, i, j) && IsReached(f.pattern, i) && k == ToLower(f.pattern[i + 1..j])
  }

  lemma LowerSlice(s: string, a: nat, b: nat)
    requires a <= b <= |s|
    ensures ToLower(s)[a..b] == ToLower(s[a..b])
  {
  }

  lemma KeyIsInUrl(f: UrlFilter, i: nat, j: nat, q: Query)
    requires q.url.Valid() && IsParsed(f) && !IsRegex(f.pattern) && Accepts(f, q)
    requires IsKeywordAt(f.pattern, i, j) && IsReached(f.pattern, i)
    ensures HasWord(ToLower(f.pattern[i + 1..j]), ToLower(q.url.Spec()))
  {
    LowerUrlIsValid(q.url);
    KeywordIsInUrl(f.pattern, UrlFor(f, q.url), i, j);
    if f.matchCase {
      LowerKeepsWords(f.pattern[i + 1..j], q.url.Spec());
    } else {
      LowerSlice(f.pattern, i + 1, j);
    }
  }

  /** A filter that accepts a query and is stored for a part of its pattern that is reached: the
      lookup visits its bucket exactly if its key is not one of the words skipped in URLs. */
  lemma VisitedIffKeyIsGood(f: UrlFilter, k: string, q: Query)
    requires q.url.Valid() && IsParsed(f) && !IsRegex(f.pattern)
    requires IsReachedKey(f, k) && Accepts(f, q)
    ensures IsLookedUp(k, q.url) <==> k == "" || IsTelling(k)
  {
    if k != "" {
      var i: nat, j: nat :| IsKeywordAt(f.pattern, i, j) && IsReached(f.pattern, i)
          && k == ToLower(f.pattern[i + 1..j]);
      KeyIsInUrl(f, i, j, q);
    }
  }

  /** Only case-sensitive filters have keys of that kind. */
  lemma KeysWithoutCaseAreGood(f: UrlFilter, k: string)
    requires IsParsed(f) && !f.matchCase && IsKeyOf(f, k)
    ensures k == "" || IsTelling(k)
  {
    if k != "" {
      var i: nat, j: nat :| IsKeywordAt(f.pattern, i, j) && k == ToLower(f.pattern[i + 1..j]);
      assert k == f.pattern[i + 1..j];
    }
  }

  /** A key the index can be trusted with. */
  ghost predicate IsSafeKey(f: UrlFilter, k: string) {
    k == "" || (!IsRegex(f.pattern) && IsReachedKey(f, k) && IsTelling(k))
  }

  /** If every filter is stored under a key that is reached and good, looking up finds exactly what
      trying every filter finds. */
  lemma LookupEqualsScan(filters: seq<UrlFilter>, index: Index, q: Query, f: UrlFilter)
    requires q.url.Valid() && Holds(index, filters)
    requires forall g | g in filters :: IsParsed(g)
    requires forall k, g | g in Bucket(index, k) :: IsSafeKey(g, k)
    ensures IsFound(f, index, q) <==> f in filters && Accepts(f, q)
  {
    FoundIff(filters, index, q, f);
    if IsFound(f, index, q) {
      ReachableIsListed(filters, index, q, f);
    }
    if f in filters && Accepts(f, q) {
      var k := KeyOfListed(filters, index, f);
      assert IsSafeKey(f, k);
      if k != "" { VisitedIffKeyIsGood(f, k, q); }
      assert IsReachable(f, index, q.url);
    }
  }

  lemma KeyOfListed(filters: seq<UrlFilter>, index: Index, f: UrlFilter) returns (k: string)
    requires Holds(index, filters) && f in filters
    ensures IsKeyOf(f, k) && f in Bucket(index, k)
  {
    assert IsHeld(index, f);
    k :| IsKeyOf(f, k) && f in Bucket(index, k);
  }

  // ----- The two families the condition shuts out -----

  /** The index holds nothing but `f`, which accepts the query and is not found for it. */
  ghost predicate Misses(f: UrlFilter, index: Index, q: Query) {
    Holds(index, [f]) && Accepts(f, q) && !IsFound(f, index, q)
  }

  /** A filter alone in the index is missed exactly if it accepts the query and its key is a word
      skipped in urls or none of this url. */
  lemma MissedIff(f: UrlFilter, k: string, q: Query)
    requires IsKeyOf(f, k)
    ensures Misses(f, map[k := [f]], q) <==> Accepts(f, q) && !IsLookedUp(k, q.url)
  {
    var index := map[k := [f]];
    assert f in Bucket(index, k);
    assert forall k', g | g in Bucket(index, k') :: k' == k && g == f;
    assert IsHeld(index, f);
    FoundIff([f], index, q, f);
  }

  /** Whatever case-sensitive filter has a key that is skipped in urls once in lower case, it is
      missed for every query it accepts. */
  lemma UpperCaseKeyHidesFilter(f: UrlFilter, i: nat, j: nat, q: Query)
    requires !IsRegex(f.pattern) && IsKeywordAt(f.pattern, i, j) && !IsTelling(ToLower(f.pattern[i + 1..j]))
    ensures f.matchCase || !IsParsed(f)
    ensures Misses(f, map[ToLower(f.pattern[i + 1..j]) := [f]], q) <==> Accepts(f, q)
  {
    var k := ToLower(f.pattern[i + 1..j]);
    assert IsCandidate(f.pattern, k);
    assert IsKeyOf(f, k);
    if IsParsed(f) && !f.matchCase { KeysWithoutCaseAreGood(f, k); }
    MissedIff(f, k, q);
  }

  lemma SomewhereIsAnswered(f: UrlFilter, q: Query, x: nat)
    requires f.matchCase && |f.pattern| <= 48 && IsSearched(f.pattern)
    requires f.pattern[0] != '/' && q.viable(f) && MatchesAt(f.pattern, q.url.Spec(), x)
    ensures Accepts(f, q)
  {
    SearchedBody(f.pattern);
    ShortPatternsAreNotCutOff(f.pattern);
    SearchedAnswer(f.pattern, q.url);
  }

  lemma SeparatedTextAt(p: string, t: string, s: string, x: nat)
    requires t != "" && AllWord(t) && p == "^" + t + "^"
    requires x + |t| + 2 <= |s| && IsSeparator(s[x]) && s[x + 1..x + 1 + |t|] == t && IsSeparator(s[x + 1 + |t|])
    ensures MatchesAt(p, s, x) && p[1..|t| + 1] == t
  {
    var n := |t|;
    var u := s[x..][1..];
    assert p[1..] == t + "^" && p[1..][..n] == t && p[1..][n..] == "^";
    assert u[..n] == s[x + 1..x + 1 + n] && u[n..][0] == s[x + 1 + n];
    TextDenotes(p[1..], n, u, false);
  }

  lemma SeparatedTextKey(p: string, t: string)
    requires p == "^" + t + "^" && 2 <= |t| && AllWord(t) && IsTelling(t)
    ensures IsKeywordAt(p, 0, |t| + 1) && p[1..|t| + 1] == t
  {
    assert forall i :: 0 < i <= |t| ==> p[i] == t[i - 1];
    assert p[|t| + 1] == '^' && p[1..|t| + 1] == t;
  }

  lemma UpperCaseWitness() returns (t: string, url: Url)
    ensures url.Valid() && 2 <= |t| <= 46 && AllWord(t) && IsTelling(t) && !IsTelling(ToLower(t))
    ensures var s := url.Spec();
            8 + |t| + 2 <= |s| && IsSeparator(s[8]) && s[9..9 + |t|] == t && IsSeparator(s[9 + |t|])
  {
    t, url := "COM", Url("http", "a", "", "/COM/");
    assert url.Spec() == "http://a/COM/";
    assert ToLower(t) == "com";
  }

  /** Such a filter is the case-sensitive ^COM^: it accepts http://a/COM/ and is not found for it. */
  lemma UpperCaseKeyExample() returns (f: UrlFilter, index: Index, q: Query)
    ensures q.url.Valid() && IsParsed(f) && Misses(f, index, q)
  {
    var t, url := UpperCaseWitness();
    q := Query(url, _ => true, _ => false);
    f := UrlFilter(0, "^" + t + "^", true);
    SeparatedTextAt(f.pattern, t, url.Spec(), 8);
    SeparatedTextKey(f.pattern, t);
    SomewhereIsAnswered(f, q, 8);
    UpperCaseKeyHidesFilter(f, 0, |t| + 1, q);
    index := map[ToLower(t) := [f]];
  }

  /** A keyword behind an end anchor: it takes no part in what the filter accepts, and if it is the
      key the filter is missed for exactly those urls it accepts that do not have the keyword. */
  lemma KeyBehindEndAnchorHidesFilter(p: string, rest: string, f: UrlFilter, i: nat, j: nat, q: Query)
    requires IsSearched(p) && IsClosed(p, true) && rest != "" && rest[0] != '|' && f.pattern == p + "|" + rest
    requires !IsRegex(f.pattern) && |p| <= i && IsKeywordAt(f.pattern, i, j)
    ensures var s := UrlFor(f, q.url).Spec();
            Levels(f.pattern) <= MAX_RECURSION_DEPTH ==>
              (Accepts(f, q) <==> q.viable(f) && exists x: nat :: x <= |s| && DenotesAll(p, s[x..], true))
    ensures var k := ToLower(f.pattern[i + 1..j]);
            Misses(f, map[k := [f]], q) <==> Accepts(f, q) && (!IsTelling(k) || !HasWord(k, ToLower(q.url.Spec())))
  {
    var k := ToLower(f.pattern[i + 1..j]);
    assert IsCandidate(f.pattern, k);
    LowerKeepsKeyword(f.pattern, i, j);
    MissedIff(f, k, q);
    if Levels(f.pattern) <= MAX_RECURSION_DEPTH {
      OverAtEndAnchorAnswer(p, rest, f.pattern, UrlFor(f, q.url));
    }
  }

  lemma OverAtEndAnchorAnswer(p: string, rest: string, pattern: string, url: Url)
    requires IsSearched(p) && IsClosed(p, true) && rest != "" && rest[0] != '|' && pattern == p + "|" + rest
    requires Levels(pattern) <= MAX_RECURSION_DEPTH
    ensures Answers(pattern, url, Verdict(true)) <==>
              exists x: nat :: x <= |url.Spec()| && DenotesAll(p, url.Spec()[x..], true)
  {
    var s := url.Spec();
    assert pattern == p + ("|" + rest) && pattern[0] == p[0];
    SearchedAnswer(pattern, url);
    forall x: nat | x <= |s|
      ensures MatchesAt(pattern, s, x) <==> DenotesAll(p, s[x..], true)
    {
      EndAnchorEndsPattern(p, rest, s[x..], true);
    }
    if MatchesSomewhere(pattern, s) {
      var x: nat :| MatchesAt(pattern, s, x);
      assert DenotesAll(p, s[x..], true);
    }
    if x: nat :| x <= |s| && DenotesAll(p, s[x..], true) {
      assert MatchesAt(pattern, s, x);
    }
  }

  lemma KeyBehindBar(p: string, a: char, t: string)
    requires p == [a] + "|" + ("." + t + ".") && 2 <= |t| && AllWord(t) && IsTelling(t)
    ensures IsKeywordAt(p, 2, |t| + 3) && p[3..|t| + 3] == t
  {
    assert forall i :: 3 <= i < |t| + 3 ==> p[i] == t[i - 3];
    assert p[3..|t| + 3] == t && |p| == |t| + 4 && p[2] == '.' && p[|t| + 3] == '.';
  }

  lemma LetterAtEnd(a: char, s: string)
    requires IsTextChar(a) && s != "" && s[|s| - 1] == a
    ensures DenotesAll([a], s[|s| - 1..], true)
  {
    var u, tokens := s[|s| - 1..], "*^|";
    assert tokens[0] != a && tokens[1] != a && tokens[2] != a;
    assert u == [a] && [a][1..] == "" && u[1..] == "";
    assert DenotesAll([a][1..], u[1..], false);
  }

  lemma BehindEndAnchorWitness() returns (a: char, t: string, url: Url)
    ensures IsTextChar(a) && a != '/' && url.Valid() && 2 <= |t| <= 40 && AllWord(t) && IsTelling(t)
    ensures !HasWord(ToLower(t), ToLower(url.Spec())) && url.Spec()[|url.Spec()| - 1] == a && ToLower(t) == t
  {
    a, t, url := 'a', "xyz", Url("http", "a", "", "/a");
    var s := ToLower(url.Spec());
    assert s == "http://a/a" && ToLower(t) == t;
    forall x: nat
      ensures !IsWordAt(t, s, x)
    {
      if x + |t| <= |s| {
        assert s[x..x + |t|][0] == s[x] != 'x';
      }
    }
  }

  lemma LetterBarAnswer(p: string, a: char, rest: string, url: Url)
    requires p == [a] + "|" + rest && |p| <= 48 && IsTextChar(a) && rest != "" && rest[0] != '|'
    requires url.Spec() != "" && url.Spec()[|url.Spec()| - 1] == a
    ensures Answers(p, url, Verdict(true))
  {
    LetterAtEnd(a, url.Spec());
    ShortPatternsAreNotCutOff(p);
    LetterIsSearched(a);
    OverAtEndAnchorAnswer([a], rest, p, url);
  }

  lemma LetterIsSearched(a: char)
    requires IsTextChar(a)
    ensures IsSearched([a]) && IsClosed([a], true)
  {
    var tokens := "*^|";
    assert tokens[0] != a && tokens[2] != a;
  }

  lemma KeyBehindBarIsMissed(f: UrlFilter, a: char, t: string, q: Query)
    requires f.pattern == [a] + "|" + ("." + t + ".") && 2 <= |t| && AllWord(t) && IsTelling(t) && a != '/'
    requires Accepts(f, q) && !HasWord(ToLower(t), ToLower(q.url.Spec()))
    ensures Misses(f, map[ToLower(t) := [f]], q)
  {
    KeyBehindBar(f.pattern, a, t);
    assert IsCandidate(f.pattern, ToLower(t));
    MissedIff(f, ToLower(t), q);
  }

  /** Such a filter is a|.xyz. : it accepts http://a/a and is not found for it. */
  lemma KeyBehindEndAnchorExample() returns (f: UrlFilter, index: Index, q: Query)
    ensures q.url.Valid() && IsParsed(f) && Misses(f, index, q) && forall k | k in index :: IsTelling(k)
  {
    var a, t, url := BehindEndAnchorWitness();
    q := Query(url, _ => true, _ => false);
    f := UrlFilter(0, [a] + "|" + ("." + t + "."), true);
    LetterBarAnswer(f.pattern, a, "." + t + ".", url);
    KeyBehindBarIsMissed(f, a, t, q);
    index := map[ToLower(t) := [f]];
  }
}
