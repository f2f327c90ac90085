/** What the filters of an index accept and what a lookup finds, in terms of the URL's text: letter
    case, text filters and the filters of a domain. */
module FilterMeaning {
  import opened Text
  import opened PatternMatcher
  import opened PatternForms
  import opened Anchors
  import opened Keywords
  import opened FilterIndex
  import opened IndexSoundness

  // ----- Letter case -----

  /** The same letter, be it upper or lower case. */
  ghost predicate SameLetter(c: char, d: char) {
    || c == d
    || ('A' <= c <= 'Z' && d as int == c as int + 32)
    || ('A' <= d <= 'Z' && c as int == d as int + 32)
  }

  ghost predicate SameLetters(s: string, t: string) {
    |s| == |t| && forall i | 0 <= i < |s| :: SameLetter(s[i], t[i])
  }

  ghost predicate SameUrlButForCase(a: Url, b: Url) {
    && SameLetters(a.scheme, b.scheme) && SameLetters(a.host, b.host)
    && SameLetters(a.port, b.port) && SameLetters(a.path, b.path)
  }

  ghost predicate HasNoUpperCase(s: string) {
    forall c | 'A' <= c <= 'Z' :: c !in s
  }

  lemma SameLetterIff(c: char, d: char)
    ensures SameLetter(c, d) <==> ToLowerChar(c) == ToLowerChar(d)
  {
  }

  lemma SameLettersIff(s: string, t: string)
    ensures SameLetters(s, t) <==> ToLower(s) == ToLower(t)
  {
    if |s| == |t| {
      forall i | 0 <= i < |s|
        ensures SameLetter(s[i], t[i]) <==> ToLower(s)[i] == ToLower(t)[i]
      {
        SameLetterIff(s[i], t[i]);
      }
    }
  }

  lemma LowerIsSame(s: string)
    requires HasNoUpperCase(s)
    ensures ToLower(s) == s
  {
    forall i | 0 <= i < |s|
      ensures ToLower(s)[i] == s[i]
    {
      assert s[i] in s;
    }
  }

  /** A filter that ignores case accepts URLs alike that differ in case only. */
  lemma CaseMakesNoDifference(f: UrlFilter, q: Query, q': Query)
    requires !f.matchCase && !IsRegex(f.pattern) && SameUrlButForCase(q.url, q'.url) && q.viable(f) == q'.viable(f)
    ensures Accepts(f, q) <==> Accepts(f, q')
  {
    SameLettersIff(q.url.scheme, q'.url.scheme);
    SameLettersIff(q.url.host, q'.url.host);
    SameLettersIff(q.url.port, q'.url.port);
    SameLettersIff(q.url.path, q'.url.path);
    assert UrlFor(f, q.url) == UrlFor(f, q'.url);
  }

  // ----- What a filter accepts -----

  /** A regular expression stands between slashes and is left to the engine for them. */
  lemma RegexFilterAccepts(f: UrlFilter, e: string, q: Query)
    requires e != "" && f.pattern == "/" + e + "/"
    ensures Accepts(f, q) <==> q.viable(f) && q.regexMatches(f)
  {
    RegexIff(f.pattern);
  }

  /** The text stands in the URL, letter for letter. */
  ghost predicate OccursInAnyCase(t: string, s: string) {
    exists i: nat :: StandsInAnyCase(t, s, i)
  }

  ghost predicate StandsInAnyCase(t: string, s: string, i: nat) {
    i + |t| <= |s| && SameLetters(t, s[i..i + |t|])
  }

  /** A text filter accepts the URLs with the text in them, in the same case or in any. */
  lemma TextFilterAccepts(f: UrlFilter, q: Query, s: string)
    requires IsPlain(f.pattern) && (f.pattern[0] != '/' || f.pattern[|f.pattern| - 1] != '/')
    requires IsTextOf(s, q.url) && (!f.matchCase ==> HasNoUpperCase(f.pattern))
    ensures Accepts(f, q) <==>
              q.viable(f) && if f.matchCase then Occurs(f.pattern, s) else OccursInAnyCase(f.pattern, s)
  {
    var url := UrlFor(f, q.url);
    TextAnswer(f.pattern, url, url.Spec());
    AnswerIsUniqueFor(f.pattern, url, Verdict(Occurs(f.pattern, url.Spec())));
    if !f.matchCase {
      LowerSpec(q.url);
      OccursInLowerCase(f.pattern, s);
    }
  }

  lemma LowerSpec(url: Url)
    ensures LowerUrl(url).Spec() == ToLower(url.Spec())
  {
  }

  lemma OccursInLowerCase(t: string, s: string)
    requires HasNoUpperCase(t)
    ensures Occurs(t, ToLower(s)) <==> OccursInAnyCase(t, s)
  {
    LowerIsSame(t);
    forall i: nat
      ensures StandsAt(t, ToLower(s), i) <==> StandsInAnyCase(t, s, i)
    {
      if i + |t| <= |s| {
        LowerSlice(s, i, i + |t|);
        SameLettersIff(t, s[i..i + |t|]);
      }
    }
  }

  // ----- How an index is filled -----

  ghost function PlacesOf(filters: seq<UrlFilter>, keys: seq<string>, k: string, f: UrlFilter): set<nat>
    requires |filters| == |keys|
  {
    set n: nat | n < |filters| && keys[n] == k && filters[n] == f
  }

  /** A bucket holds a filter as often as it was stored under the bucket's key. */
  lemma {:induction false} StoredAsOften(filters: seq<UrlFilter>, keys: seq<string>, k: string, f: UrlFilter)
    requires |filters| == |keys|
    ensures multiset(Bucket(Filed(filters, keys), k))[f] == |PlacesOf(filters, keys, k, f)|
  {
    BucketIsFiled(filters, keys, k);
    if filters == [] {
      assert PlacesOf(filters, keys, k, f) == {};
    } else {
      var last := |filters| - 1;
      StoredAsOften(filters[..last], keys[..last], k, f);
      BucketIsFiled(filters[..last], keys[..last], k);
      PlacesOneMore(filters, keys, k, f);
    }
  }

  lemma PlacesOneMore(filters: seq<UrlFilter>, keys: seq<string>, k: string, f: UrlFilter)
    requires |filters| == |keys| && filters != []
    ensures var last := |filters| - 1;
            |PlacesOf(filters, keys, k, f)| ==
            |PlacesOf(filters[..last], keys[..last], k, f)| + if keys[last] == k && filters[last] == f then 1 else 0
  {
    var last := |filters| - 1;
    var before := PlacesOf(filters[..last], keys[..last], k, f);
    assert last !in before;
    assert PlacesOf(filters, keys, k, f) == if keys[last] == k && filters[last] == f then before + {last} else before;
  }

  // ----- Which filter is found first -----

  lemma {:induction false} BucketsThen(index: Index, keywords: seq<string>, k: string)
    ensures InBuckets(index, keywords + [k]) == InBuckets(index, keywords) + Bucket(index, k)
  {
    if keywords == [] {
      assert keywords + [k] == [k] && [k][1..] == [];
      assert [] + Bucket(index, k) == Bucket(index, k) + [] == Bucket(index, k);
    } else {
      assert (keywords + [k])[0] == keywords[0] && (keywords + [k])[1..] == keywords[1..] + [k];
      BucketsThen(index, keywords[1..], k);
      Associative(Bucket(index, keywords[0]), InBuckets(index, keywords[1..]), Bucket(index, k));
    }
  }

  /** The first filter of a bucket that accepts the query, none of an earlier bucket doing so. */
  ghost predicate IsEarliest(index: Index, keywords: seq<string>, q: Query, n: nat, i: nat, f: UrlFilter) {
    && n < |keywords| && i < |Bucket(index, keywords[n])| && Bucket(index, keywords[n])[i] == f && Accepts(f, q)
    && (forall m, g | 0 <= m < n && g in Bucket(index, keywords[m]) :: !Accepts(g, q))
    && (forall j | 0 <= j < i :: !Accepts(Bucket(index, keywords[n])[j], q))
  }

  lemma {:induction false} FirstOfBuckets(index: Index, keywords: seq<string>, q: Query) returns (n: nat, i: nat)
    requires Offered(InBuckets(index, keywords), AcceptedBy(q)) != []
    ensures IsEarliest(index, keywords, q, n, i, Offered(InBuckets(index, keywords), AcceptedBy(q))[0])
  {
    var bucket, rest, accepted := Bucket(index, keywords[0]), InBuckets(index, keywords[1..]), AcceptedBy(q);
    OfferedOfConcat(bucket, rest, accepted);
    if Offered(bucket, accepted) != [] {
      n, i := 0, FirstIn(bucket, accepted);
      FirstOfBucket(bucket, accepted);
      FirstInNone(bucket, accepted);
    } else {
      forall g | g in bucket
        ensures !Accepts(g, q)
      {
        InOffered(bucket, accepted, g);
      }
      var n', i' := FirstOfBuckets(index, keywords[1..], q);
      n, i := n' + 1, i';
    }
  }

  lemma FirstOfBucket(bucket: seq<UrlFilter>, accepted: iset<UrlFilter>)
    requires Offered(bucket, accepted) != []
    ensures FirstIn(bucket, accepted) < |bucket| && Offered(bucket, accepted)[0] == bucket[FirstIn(bucket, accepted)]
  {
    NoneOfferedIff(bucket, accepted);
    var n := FirstIn(bucket, accepted);
    FirstInNone(bucket, accepted);
    NothingOffered(bucket, n, accepted);
    FirstOffered(bucket, n, accepted);
  }

  /** When one is enough the lookup yields the first filter that accepts the query in the bucket of
      the URL's earliest keyword that has one; that of the filters without keyword comes last. */
  lemma FirstFoundIsEarliest(index: Index, q: Query, results: Option<seq<UrlFilter>>) returns (n: nat, i: nat)
    requires IsOutcome(results, Met(index, q.url), q, FindFirst) && results.Some? && results.value != []
    ensures results.value == [results.value[0]]
    ensures IsEarliest(index, UrlKeywords(ToLower(q.url.Spec())) + [""], q, n, i, results.value[0])
  {
    var keywords := UrlKeywords(ToLower(q.url.Spec()));
    BucketsThen(index, keywords, "");
    n, i := FirstOfBuckets(index, keywords + [""], q);
  }

  // ----- What a lookup finds -----

  /** The keys of a domain's filter are reached by every match. */
  lemma DomainKeyIsReached(p: string, d: string, i: nat)
    requires IsPlain(d) && p == "||" + d + "^"
    ensures IsReached(p, i)
  {
    var q := d + "^";
    assert p == "||" + q;
    NoBarInDomain(q, d);
    TwoBars(p, q);
    BodyIsBehind(p, q);
    ReachedIfNoBar(p, q, i);
  }

  lemma NoBarInDomain(q: string, d: string)
    requires IsPlain(d) && q == d + "^"
    ensures IsSearched(q) && '|' !in q
  {
    LevelsOf(q, d, "^");
  }

  lemma ReachedIfNoBar(p: string, q: string, i: nat)
    requires Run(p, '|') == 2 && Body(p) == q && '|' !in q
    ensures IsReached(p, i)
  {
    NoBarNoEndAnchor(q, i - (|p| - |q|));
  }

  lemma NoBarNoEndAnchor(q: string, i: int)
    requires '|' !in q
    ensures NoEndAnchorUpTo(q, i, true)
  {
    assert forall m | 0 <= m < |q| :: q[m] in q;
  }

  lemma DomainKeyIsSafe(f: UrlFilter, d: string, k: string)
    requires IsPlain(d) && HasNoUpperCase(d) && f.pattern == "||" + d + "^" && !f.matchCase && IsKeyOf(f, k)
    ensures IsParsed(f) && !IsRegex(f.pattern) && IsReachedKey(f, k) && (k == "" || IsTelling(k))
  {
    assert HasNoUpperCase(f.pattern) by { assert forall c | c in f.pattern :: c in d || c == '|' || c == '^'; }
    LowerIsSame(f.pattern);
    KeysWithoutCaseAreGood(f, k);
    if k != "" {
      var i: nat, j: nat :| IsKeywordAt(f.pattern, i, j) && k == ToLower(f.pattern[i + 1..j]);
      DomainKeyIsReached(f.pattern, d, i);
    }
  }

  /** Wherever the index stores a domain's filter, a lookup finds it for exactly the URLs it accepts. */
  lemma DomainFilterIsFoundIff(f: UrlFilter, d: string, filters: seq<UrlFilter>, index: Index, q: Query)
    requires IsPlain(d) && HasNoUpperCase(d) && f.pattern == "||" + d + "^" && !f.matchCase
    requires q.url.Valid() && Holds(index, filters) && f in filters
    ensures IsFound(f, index, q) <==> Accepts(f, q)
  {
    var k := KeyOfListed(filters, index, f);
    DomainKeyIsSafe(f, d, k);
    if Accepts(f, q) && k != "" { VisitedIffKeyIsGood(f, k, q); }
    FoundIff(filters, index, q, f);
    assert Accepts(f, q) ==> IsReachable(f, index, q.url);
  }

  /** So it is found for the domain and its subdomains, whatever the case of the URL, port and path,
      unless the domain's name stands separated in what precedes it. */
  lemma DomainFilterIsFound(f: UrlFilter, d: string, a: string, filters: seq<UrlFilter>, index: Index, q: Query,
                            s: string, i: nat)
    requires IsPlain(d) && HasNoUpperCase(d) && f.pattern == "||" + d + "^" && !f.matchCase && q.viable(f)
    requires q.url.Valid() && IsTextOf(s, q.url) && Holds(index, filters) && f in filters
    requires (SameLetters(d, q.url.host) && i == |q.url.scheme| + 3)
             || (SameLetters(a + "." + d, q.url.host) && i == |q.url.scheme| + 3 + |a| + 1)
    requires forall k: nat | k < i :: !StandsSeparatedAt(d, ToLower(s), k)
    ensures IsFound(f, index, q)
  {
    var url := LowerUrl(q.url);
    LowerUrlIsValid(q.url);
    LowerSpec(q.url);
    LowerIsSame(d);
    if SameLetters(d, q.url.host) && i == |q.url.scheme| + 3 {
      SameLettersIff(d, q.url.host);
    } else {
      SameLettersIff(a + "." + d, q.url.host);
      assert ToLower(a + "." + d) == ToLower(a) + "." + ToLower(d);
    }
    DomainIsMatched(d, ToLower(a), url, url.Spec(), i);
    assert f.pattern[0] == '|';
    DomainFilterIsFoundIff(f, d, filters, index, q);
  }
}
