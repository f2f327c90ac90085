/** The keyword index of URL filters: how flatbuffer_serializer.cc stores a filter and how
    installed_subscription_impl.cc finds the filters that match a URL, both in
    components/adblock/core. The index exists so that a lookup need not try every filter; it is
    right if it finds what trying every filter would find. */
module FilterIndex {
  import opened Text
  import opened PatternMatcher
  import opened Keywords

  /** `id` stands for the filter's options, which are not part of this model. */
  datatype UrlFilter = UrlFilter(id: nat, pattern: string, matchCase: bool)

  predicate IsRegex(pattern: string) {
    2 < |pattern| && pattern[0] == '/' && pattern[|pattern| - 1] == '/'
  }

  /** A regular expression stands between slashes. */
  lemma RegexIff(pattern: string)
    ensures IsRegex(pattern) <==> exists e: string :: e != "" && pattern == "/" + e + "/"
  {
    if IsRegex(pattern) { assert pattern == "/" + pattern[1..|pattern| - 1] + "/"; }
  }

  /** What parsing leaves: the pattern of a filter that ignores case is in lower case. */
  predicate IsParsed(f: UrlFilter) {
    !f.matchCase && !IsRegex(f.pattern) ==> f.pattern == ToLower(f.pattern)
  }

  type Index = map<string, seq<UrlFilter>>

  function Bucket(index: Index, keyword: string): seq<UrlFilter> {
    if keyword in index then index[keyword] else []
  }

  // ----- Storing -----

  ghost predicate IsCandidate(pattern: string, keyword: string) {
    exists i: nat, j: nat :: IsKeywordAt(pattern, i, j) && keyword == ToLower(pattern[i + 1..j])
  }

  /** `k` is stored less often than `k'`, or as often but is not shorter. */
  predicate NoWorse(index: Index, k: string, k': string) {
    |Bucket(index, k)| < |Bucket(index, k')| || (|Bucket(index, k)| == |Bucket(index, k')| && |k| >= |k'|)
  }

  /** The keyword of a pattern: of its candidates one that is stored least often, among those a
      longest one; none if there is no candidate. */
  method FindCandidateKeyword(index: Index, value: string) returns (keyword: string)
    ensures keyword == "" <==> NoKeyword(value, 0, |value|)
    ensures keyword != "" ==> IsCandidate(value, keyword)
    ensures keyword != "" ==> forall k | IsCandidate(value, k) ::
              || |Bucket(index, keyword)| < |Bucket(index, k)|
              || (|Bucket(index, keyword)| == |Bucket(index, k)| && |k| <= |keyword|)
  {
    var extractor := new FilterKeywordExtractor(value);
    var lastSize: Option<nat> := None;
    keyword := "";
    ghost var seen: nat := 0;
    var current := extractor.GetNextKeyword();
    while current.Some?
      invariant extractor.Valid() && extractor.pattern == value && seen <= |value|
      invariant current.Some? ==> exists i: nat :: IsNextKeyword(value, seen, i, extractor.begin, current.value)
      invariant current.None? ==> NoKeyword(value, seen, |value|)
      invariant lastSize == if keyword == "" then None else Some(|Bucket(index, keyword)|)
      invariant BestBefore(index, value, keyword, seen)
      decreases current.Some?, |value| - extractor.begin
    {
      var candidate := current.value;
      var size := |Bucket(index, candidate)|;
      BestStep(index, value, keyword, seen, extractor.begin, candidate);
      if lastSize.None? || size < lastSize.value || (size == lastSize.value && |candidate| > |keyword|) {
        lastSize := Some(size);
        keyword := candidate;
      }
      seen := extractor.begin;
      current := extractor.GetNextKeyword();
    }
    BestOfAll(index, value, keyword, seen);
  }

  /** `keyword` is the best of the keywords that begin in `value` before `to`. */
  ghost predicate BestBefore(index: Index, value: string, keyword: string, to: nat) {
    if keyword == "" then NoKeyword(value, 0, to)
    else
      && IsCandidate(value, keyword)
      && forall i: nat, j: nat | i < to && IsKeywordAt(value, i, j) :: NoWorse(index, keyword, ToLower(value[i + 1..j]))
  }

  lemma BestStep(index: Index, value: string, keyword: string, from: nat, to: nat, candidate: string)
    requires BestBefore(index, value, keyword, from)
    requires exists i: nat :: IsNextKeyword(value, from, i, to, candidate)
    ensures candidate != ""
    ensures keyword == "" || !NoWorse(index, keyword, candidate) ==> BestBefore(index, value, candidate, to)
    ensures keyword != "" && NoWorse(index, keyword, candidate) ==> BestBefore(index, value, keyword, to)
  {
    var i: nat :| IsNextKeyword(value, from, i, to, candidate);
    NextIsCandidate(value, from, i, to, candidate);
    var best := if keyword == "" || !NoWorse(index, keyword, candidate) then candidate else keyword;
    forall i': nat, j': nat | i' < to && IsKeywordAt(value, i', j')
      ensures NoWorse(index, best, ToLower(value[i' + 1..j']))
    {
      if i' < from {
        assert keyword != "";
      } else {
        OnlyKeyword(value, from, i, to, candidate, i', j');
      }
    }
  }

  lemma NextIsCandidate(value: string, from: nat, i: nat, to: nat, candidate: string)
    requires IsNextKeyword(value, from, i, to, candidate)
    ensures candidate != "" && IsCandidate(value, candidate)
  {
  }

  lemma OnlyKeyword(p: string, from: nat, i: nat, j: nat, w: string, i': nat, j': nat)
    requires IsNextKeyword(p, from, i, j, w) && from <= i' < j && IsKeywordAt(p, i', j')
    ensures i' == i && j' == j
  {
    assert !(i' < i) && !(i < i');
    assert !(j < j') && !(j' < j);
  }

  lemma BestOfAll(index: Index, value: string, keyword: string, seen: nat)
    requires seen <= |value| && BestBefore(index, value, keyword, seen) && NoKeyword(value, seen, |value|)
    ensures keyword == "" <==> NoKeyword(value, 0, |value|)
    ensures keyword != "" ==> forall k | IsCandidate(value, k) :: NoWorse(index, keyword, k)
  {
    if keyword != "" {
      var i: nat, j: nat :| IsKeywordAt(value, i, j) && keyword == ToLower(value[i + 1..j]);
      forall k | IsCandidate(value, k)
        ensures NoWorse(index, keyword, k)
      {
        var i': nat, j': nat :| IsKeywordAt(value, i', j') && k == ToLower(value[i' + 1..j']);
        assert i' < seen;
      }
    }
  }

  /** `k` is a keyword `f` may be stored under. */
  ghost predicate IsKeyOf(f: UrlFilter, k: string) {
    if IsRegex(f.pattern) then k == ""
    else if k == "" then NoKeyword(f.pattern, 0, |f.pattern|)
    else IsCandidate(f.pattern, k)
  }

  class Serializer {
    var index: Index

    constructor ()
      ensures index == map[]
    {
      index := map[];
    }

    /** Every filter is stored once, behind those stored before under its key. */
    method AddUrlFilterToIndex(filter: UrlFilter) returns (ghost key: string)
      modifies this
      ensures IsBestKey(old(index), filter, key) && index == WithFilter(old(index), key, filter)
      ensures key == "" <==> IsRegex(filter.pattern) || NoKeyword(filter.pattern, 0, |filter.pattern|)
      ensures Bucket(index, key) == Bucket(old(index), key) + [filter]
      ensures forall k | k != key :: Bucket(index, k) == Bucket(old(index), k)
    {
      var keyword := "";
      if !IsRegex(filter.pattern) {
        keyword := FindCandidateKeyword(index, filter.pattern);
      }
      key := keyword;
      index := index[keyword := Bucket(index, keyword) + [filter]];
    }
  }

  /** The key a filter gets: of its keywords one that is stored least often so far, among those a
      longest one. */
  ghost predicate IsBestKey(index: Index, f: UrlFilter, k: string) {
    IsKeyOf(f, k) && (k != "" ==> forall k' | IsCandidate(f.pattern, k') :: NoWorse(index, k, k'))
  }

  function WithFilter(index: Index, k: string, f: UrlFilter): Index {
    index[k := Bucket(index, k) + [f]]
  }

  /** The index after storing the filters, each under the key of the same position. */
  function Filed(filters: seq<UrlFilter>, keys: seq<string>): Index
    requires |filters| == |keys|
  {
    if filters == [] then map[]
    else
      var last := |filters| - 1;
      WithFilter(Filed(filters[..last], keys[..last]), keys[last], filters[last])
  }

  ghost predicate IsBestKeyAt(filters: seq<UrlFilter>, keys: seq<string>, n: nat)
    requires n < |filters| == |keys|
  {
    IsBestKey(Filed(filters[..n], keys[..n]), filters[n], keys[n])
  }

  ghost predicate AreBestKeys(filters: seq<UrlFilter>, keys: seq<string>) {
    |filters| == |keys| && forall n: nat | n < |filters| :: IsBestKeyAt(filters, keys, n)
  }

  /** The filters stored under `k`, in the order they were stored, as often as they were. */
  function FiledUnder(filters: seq<UrlFilter>, keys: seq<string>, k: string): seq<UrlFilter>
    requires |filters| == |keys|
  {
    if filters == [] then []
    else
      var last := |filters| - 1;
      FiledUnder(filters[..last], keys[..last], k) + if keys[last] == k then [filters[last]] else []
  }

  lemma {:induction false} BucketIsFiled(filters: seq<UrlFilter>, keys: seq<string>, k: string)
    requires |filters| == |keys|
    ensures Bucket(Filed(filters, keys), k) == FiledUnder(filters, keys, k)
  {
    if filters != [] {
      var last := |filters| - 1;
      BucketIsFiled(filters[..last], keys[..last], k);
    }
  }

  lemma FiledOneMore(filters: seq<UrlFilter>, keys: seq<string>, f: UrlFilter, k: string)
    requires AreBestKeys(filters, keys) && IsBestKey(Filed(filters, keys), f, k)
    ensures Filed(filters + [f], keys + [k]) == WithFilter(Filed(filters, keys), k, f)
    ensures AreBestKeys(filters + [f], keys + [k])
  {
    var fs, ks := filters + [f], keys + [k];
    assert fs[..|filters|] == filters && ks[..|keys|] == keys;
    forall n: nat | n < |fs|
      ensures IsBestKeyAt(fs, ks, n)
    {
      if n < |filters| {
        assert IsBestKeyAt(filters, keys, n);
        assert fs[..n] == filters[..n] && ks[..n] == keys[..n];
      }
    }
  }

  /** An index that holds exactly the filters of a list, each under a keyword of its own. */
  ghost predicate Holds(index: Index, filters: seq<UrlFilter>) {
    && (forall f | f in filters :: IsHeld(index, f))
    && (forall k, f | f in Bucket(index, k) :: f in filters && IsKeyOf(f, k))
  }

  ghost predicate IsHeld(index: Index, f: UrlFilter) {
    exists k :: IsKeyOf(f, k) && f in Bucket(index, k)
  }

  lemma HoldsOneMore(index: Index, filters: seq<UrlFilter>, f: UrlFilter, k: string)
    requires Holds(index, filters) && IsKeyOf(f, k)
    ensures Holds(WithFilter(index, k, f), filters + [f])
  {
    var index' := WithFilter(index, k, f);
    forall g | g in filters + [f]
      ensures IsHeld(index', g)
    {
      if g in filters {
        assert IsHeld(index, g);
        var k' :| IsKeyOf(g, k') && g in Bucket(index, k');
        assert g in Bucket(index', k');
      } else {
        assert g in Bucket(index', k);
      }
    }
    forall k', g | g in Bucket(index', k')
      ensures g in filters + [f] && IsKeyOf(g, k')
    {
      assert g in Bucket(index, k') || g == f;
    }
  }

  /** The index holds the filters, each stored under the key of the same position. */
  ghost predicate IsStored(index: Index, filters: seq<UrlFilter>, keys: seq<string>) {
    AreBestKeys(filters, keys) && index == Filed(filters, keys) && Holds(index, filters)
  }

  lemma StoredOneMore(index: Index, filters: seq<UrlFilter>, keys: seq<string>, f: UrlFilter, k: string)
    requires IsStored(index, filters, keys) && IsBestKey(index, f, k)
    ensures IsStored(WithFilter(index, k, f), filters + [f], keys + [k])
  {
    FiledOneMore(filters, keys, f, k);
    HoldsOneMore(index, filters, f, k);
  }

  method Serialize(filters: seq<UrlFilter>) returns (index: Index, ghost keys: seq<string>)
    ensures Holds(index, filters)
    ensures IsStored(index, filters, keys)
  {
    var serializer := new Serializer();
    keys := [];
    for n := 0 to |filters|
      invariant IsStored(serializer.index, filters[..n], keys)
    {
      ghost var before := serializer.index;
      ghost var key := serializer.AddUrlFilterToIndex(filters[n]);
      StoredOneMore(before, filters[..n], keys, filters[n], key);
      assert filters[..n + 1] == filters[..n] + [filters[n]];
      keys := keys + [key];
    }
    assert filters[..|filters|] == filters;
    index := serializer.index;
  }

  // ----- Looking up -----

  function LowerUrl(url: Url): Url {
    Url(ToLower(url.scheme), ToLower(url.host), ToLower(url.port), ToLower(url.path))
  }

  lemma LowerUrlIsValid(url: Url)
    requires url.Valid()
    ensures LowerUrl(url).Valid() && LowerUrl(url).Spec() == ToLower(url.Spec())
  {
  }

  function UrlFor(f: UrlFilter, url: Url): Url {
    if f.matchCase then url else LowerUrl(url)
  }

  /** A query for a URL: which filters are viable for the rest of the request, and which regular
      expressions match the URL, is decided elsewhere. */
  datatype Query = Query(url: Url, viable: UrlFilter -> bool, regexMatches: UrlFilter -> bool)

  /** What a filter by itself says about a query. */
  ghost predicate Accepts(f: UrlFilter, q: Query) {
    && q.viable(f)
    && (f.pattern == ""
        || (if IsRegex(f.pattern) then q.regexMatches(f)
            else Answers(f.pattern, UrlFor(f, q.url), Verdict(true))))
  }

  /** The check on the skipped text fails for `f`, which ends the whole lookup: the filter is viable
      and its host anchor's leftmost match skips less than the scheme. */
  ghost predicate Fails(f: UrlFilter, q: Query) {
    q.viable(f) && !IsRegex(f.pattern) && CutsScheme(f.pattern, UrlFor(f, q.url))
  }

  ghost function FailingBy(q: Query): iset<UrlFilter> {
    iset f: UrlFilter | Fails(f, q)
  }

  datatype FindStrategy = FindFirst | FindAll

  ghost function AcceptedBy(q: Query): iset<UrlFilter> {
    iset f: UrlFilter | Accepts(f, q)
  }

  ghost predicate SomeIn(fs: seq<UrlFilter>, accepted: iset<UrlFilter>) {
    exists f :: f in fs && f in accepted
  }

  /** What a bucket has to offer, in its order. A filter without a pattern is offered twice: the
      code goes on to match its empty pattern. */
  ghost function Offered(bucket: seq<UrlFilter>, accepted: iset<UrlFilter>): seq<UrlFilter> {
    if bucket == [] then []
    else
      var last := |bucket| - 1;
      Offered(bucket[..last], accepted) + OfferedBy(bucket[last], accepted)
  }

  ghost function OfferedBy(f: UrlFilter, accepted: iset<UrlFilter>): seq<UrlFilter> {
    if f !in accepted then [] else if f.pattern == "" then [f, f] else [f]
  }

  ghost function Taken(offered: seq<UrlFilter>, strategy: FindStrategy): seq<UrlFilter> {
    if strategy == FindAll || offered == [] then offered else [offered[0]]
  }

  /** `results` grew by all the bucket offers, or by the first of it. */
  ghost predicate Grown(before: seq<UrlFilter>, results: seq<UrlFilter>, bucket: seq<UrlFilter>,
                        accepted: iset<UrlFilter>, strategy: FindStrategy)
  {
    results == before + Taken(Offered(bucket, accepted), strategy)
  }

  lemma OfferedUpTo(bucket: seq<UrlFilter>, n: nat, accepted: iset<UrlFilter>)
    requires n < |bucket|
    ensures Offered(bucket[..n + 1], accepted) == Offered(bucket[..n], accepted) + OfferedBy(bucket[n], accepted)
  {
    assert bucket[..n + 1][..n] == bucket[..n];
  }

  lemma {:induction false} OfferedGrows(bucket: seq<UrlFilter>, n: nat, accepted: iset<UrlFilter>)
    requires n <= |bucket|
    ensures Offered(bucket[..n], accepted) <= Offered(bucket, accepted)
  {
    var last := |bucket| - 1;
    if n <= last {
      OfferedGrows(bucket[..last], n, accepted);
      assert bucket[..last][..n] == bucket[..n];
    } else {
      assert bucket[..n] == bucket;
    }
  }

  lemma {:induction false} InOffered(bucket: seq<UrlFilter>, accepted: iset<UrlFilter>, f: UrlFilter)
    ensures f in Offered(bucket, accepted) <==> f in bucket && f in accepted
  {
    if bucket != [] {
      var last := |bucket| - 1;
      InOffered(bucket[..last], accepted, f);
      assert bucket == bucket[..last] + [bucket[last]];
    }
  }

  /** The first filter that is accepted is the first of what is offered. */
  lemma FirstOffered(bucket: seq<UrlFilter>, n: nat, accepted: iset<UrlFilter>)
    requires n < |bucket| && Offered(bucket[..n], accepted) == [] && bucket[n] in accepted
    ensures Taken(Offered(bucket, accepted), FindFirst) == [bucket[n]]
  {
    OfferedUpTo(bucket, n, accepted);
    OfferedGrows(bucket, n + 1, accepted);
  }

  /** The empty pattern means every URL. */
  lemma EmptyPatternMatches(url: Url)
    ensures Answers("", url, Verdict(true))
  {
    var p := "";
    assert Run(p, '|') == 0 && Body(p) == "";
    assert MatchesAt(p, url.Spec(), 0);
  }

  /** How many filters of the bucket come before the first that is accepted. */
  ghost function FirstIn(bucket: seq<UrlFilter>, accepted: iset<UrlFilter>): (n: nat)
    ensures n <= |bucket|
  {
    if bucket == [] || bucket[0] in accepted then 0 else 1 + FirstIn(bucket[1..], accepted)
  }

  lemma {:induction false} FirstInIs(bucket: seq<UrlFilter>, n: nat, accepted: iset<UrlFilter>)
    requires n <= |bucket| && (forall i | 0 <= i < n :: bucket[i] !in accepted)
    requires n < |bucket| ==> bucket[n] in accepted
    ensures FirstIn(bucket, accepted) == n
  {
    if n > 0 {
      assert bucket[0] !in accepted;
      FirstInIs(bucket[1..], n - 1, accepted);
    }
  }

  /** The filters of a bucket that are tried: up to the first hit if only that is wanted. */
  ghost function Tried(bucket: seq<UrlFilter>, accepted: iset<UrlFilter>, strategy: FindStrategy): seq<UrlFilter> {
    if strategy == FindAll then bucket else bucket[..FirstIn(bucket, accepted)]
  }

  lemma CutIsNoMatch(p: string, url: Url)
    requires CutsScheme(p, url)
    ensures p != "" && !Answers(p, url, Verdict(true))
  {
    SchemeCutIff(p, url);
    AnswerIsUniqueFor(p, url, SchemeCut);
  }

  /** A failing filter is none that is accepted. */
  lemma FailingIsNotAccepted(q: Query)
    ensures AcceptedBy(q) !! FailingBy(q)
  {
    forall f | Fails(f, q)
      ensures !Accepts(f, q)
    {
      CutIsNoMatch(f.pattern, UrlFor(f, q.url));
    }
  }

  /** `n` filters have been tried, and the search goes on. */
  ghost predicate IsSearching(bucket: seq<UrlFilter>, n: nat, accepted: iset<UrlFilter>, failing: iset<UrlFilter>,
                              strategy: FindStrategy)
    requires n <= |bucket|
  {
    && (forall i | 0 <= i < n :: bucket[i] !in failing)
    && (strategy == FindFirst ==> forall i | 0 <= i < n :: bucket[i] !in accepted)
  }

  lemma SearchFails(bucket: seq<UrlFilter>, n: nat, accepted: iset<UrlFilter>, failing: iset<UrlFilter>,
      strategy: FindStrategy)
    requires n < |bucket| && IsSearching(bucket, n, accepted, failing, strategy) && bucket[n] in failing
    requires accepted !! failing
    ensures SomeIn(Tried(bucket, accepted, strategy), failing)
  {
    if strategy == FindFirst {
      FirstInBehind(bucket, n, accepted);
      assert bucket[n] == Tried(bucket, accepted, strategy)[n];
    }
  }

  lemma {:induction false} FirstInBehind(bucket: seq<UrlFilter>, n: nat, accepted: iset<UrlFilter>)
    requires n < |bucket| && forall i | 0 <= i <= n :: bucket[i] !in accepted
    ensures n < FirstIn(bucket, accepted)
  {
    assert bucket[0] !in accepted;
    if n > 0 { FirstInBehind(bucket[1..], n - 1, accepted); }
  }

  lemma SearchHits(bucket: seq<UrlFilter>, n: nat, accepted: iset<UrlFilter>, failing: iset<UrlFilter>)
    requires n < |bucket| && IsSearching(bucket, n, accepted, failing, FindFirst) && bucket[n] in accepted
    ensures !SomeIn(Tried(bucket, accepted, FindFirst), failing)
    ensures Taken(Offered(bucket, accepted), FindFirst) == [bucket[n]]
  {
    FirstInIs(bucket, n, accepted);
    NothingOffered(bucket, n, accepted);
    FirstOffered(bucket, n, accepted);
  }

  /** The first hit ends the search if only that is wanted. */
  lemma SearchStops(before: seq<UrlFilter>, bucket: seq<UrlFilter>, n: nat, accepted: iset<UrlFilter>,
                    failing: iset<UrlFilter>, results: seq<UrlFilter>)
    requires n < |bucket| && IsSearching(bucket, n, accepted, failing, FindFirst) && bucket[n] in accepted
    requires results == before + Offered(bucket[..n], accepted) + [bucket[n]]
    ensures !SomeIn(Tried(bucket, accepted, FindFirst), failing) && Grown(before, results, bucket, accepted, FindFirst)
  {
    SearchHits(bucket, n, accepted, failing);
    NothingOffered(bucket, n, accepted);
    assert before + [] == before;
  }

  lemma SearchGoesOn(bucket: seq<UrlFilter>, n: nat, accepted: iset<UrlFilter>, failing: iset<UrlFilter>,
      strategy: FindStrategy)
    requires n < |bucket| && IsSearching(bucket, n, accepted, failing, strategy) && bucket[n] !in failing
    requires strategy == FindFirst ==> bucket[n] !in accepted
    ensures IsSearching(bucket, n + 1, accepted, failing, strategy)
  {
  }

  lemma PushedOffers(before: seq<UrlFilter>, bucket: seq<UrlFilter>, n: nat, accepted: iset<UrlFilter>)
    requires n < |bucket|
    ensures before + Offered(bucket[..n], accepted) + OfferedBy(bucket[n], accepted) ==
        before + Offered(bucket[..n + 1], accepted)
  {
    OfferedUpTo(bucket, n, accepted);
  }

  lemma {:induction false} NothingOffered(bucket: seq<UrlFilter>, n: nat, accepted: iset<UrlFilter>)
    requires n <= |bucket| && forall i | 0 <= i < n :: bucket[i] !in accepted
    ensures Offered(bucket[..n], accepted) == []
  {
    if n > 0 {
      NothingOffered(bucket, n - 1, accepted);
      OfferedUpTo(bucket, n - 1, accepted);
    }
  }

  lemma SearchEnds(bucket: seq<UrlFilter>, accepted: iset<UrlFilter>, failing: iset<UrlFilter>, strategy: FindStrategy)
    requires IsSearching(bucket, |bucket|, accepted, failing, strategy)
    ensures !SomeIn(Tried(bucket, accepted, strategy), failing)
    ensures strategy == FindFirst ==> Offered(bucket, accepted) == []
  {
    if strategy == FindFirst {
      NothingOffered(bucket, |bucket|, accepted);
      assert bucket[..|bucket|] == bucket;
    }
  }

  /** Tries the filters of a bucket; none if the check on the skipped text fails for one tried. */
  method FindFiltersForKeyword(index: Index, keyword: string, q: Query, strategy: FindStrategy, before: seq<UrlFilter>)
    returns (outResults: Option<seq<UrlFilter>>)
    requires q.url.Valid()
    ensures outResults.None? <==> SomeIn(Tried(Bucket(index, keyword), AcceptedBy(q), strategy), FailingBy(q))
    ensures outResults.Some? ==> Grown(before, outResults.value, Bucket(index, keyword), AcceptedBy(q), strategy)
  {
    var results := before;
    var bucket := Bucket(index, keyword);
    ghost var accepted, failing := AcceptedBy(q), FailingBy(q);
    FailingIsNotAccepted(q);
    var n := 0;
    while n < |bucket|
      invariant 0 <= n <= |bucket|
      invariant IsSearching(bucket, n, accepted, failing, strategy)
      invariant results == before + Offered(bucket[..n], accepted)
    {
      var tried := TryFilter(bucket[n], q, strategy, results);
      if tried.None? {
        SearchFails(bucket, n, accepted, failing, strategy);
        return None;
      }
      if strategy == FindFirst && |results| < |tried.value| {
        SearchStops(before, bucket, n, accepted, failing, tried.value);
        return tried;
      }
      SearchGoesOn(bucket, n, accepted, failing, strategy);
      PushedOffers(before, bucket, n, accepted);
      results := tried.value;
      n := n + 1;
    }
    SearchEnds(bucket, accepted, failing, strategy);
    assert bucket[..n] == bucket;
    return Some(results);
  }

  lemma TakenBehind(before: seq<UrlFilter>, f: UrlFilter, accepted: iset<UrlFilter>, strategy: FindStrategy)
    ensures before + Taken(OfferedBy(f, accepted), strategy) ==
            if f !in accepted then before
            else if f.pattern == "" && strategy == FindAll then before + [f] + [f]
            else before + [f]
  {
  }

  /** One filter of a bucket: pushed if it is viable and matches. */
  method TryFilter(filter: UrlFilter, q: Query, strategy: FindStrategy, before: seq<UrlFilter>)
    returns (results: Option<seq<UrlFilter>>)
    requires q.url.Valid()
    ensures results.None? <==> filter in FailingBy(q)
    ensures results.Some? ==> results.value == before + Taken(OfferedBy(filter, AcceptedBy(q)), strategy)
  {
    TakenBehind(before, filter, AcceptedBy(q), strategy);
    results := Some(before);
    if !q.viable(filter) {
      return;
    }
    if filter.pattern == "" {
      EmptyPatternMatches(UrlFor(filter, q.url));
      results := Some(before + [filter]);
      if strategy == FindFirst {
        return;
      }
    }
    var matched := DoesFilterMatch(filter, q);
    if matched.None? {
      return None;
    }
    if matched.value {
      results := Some(results.value + [filter]);
    }
  }

  /** Whether the pattern of a viable filter matches, by expression or by the pattern matcher; none
      if the check on the skipped text fails. */
  method DoesFilterMatch(filter: UrlFilter, q: Query) returns (matched: Option<bool>)
    requires q.url.Valid() && q.viable(filter)
    ensures matched.None? <==> Fails(filter, q)
    ensures matched.Some? ==> (matched.value <==> Accepts(filter, q))
  {
    EmptyPatternMatches(UrlFor(filter, q.url));
    if IsRegex(filter.pattern) {
      return Some(q.regexMatches(filter));
    }
    LowerUrlIsValid(q.url);
    var outcome := DoesPatternMatchUrl(filter.pattern, UrlFor(filter, q.url));
    AnswerIsUniqueFor(filter.pattern, UrlFor(filter, q.url), outcome);
    SchemeCutIff(filter.pattern, UrlFor(filter, q.url));
    return if outcome.SchemeCut? then None else Some(outcome.matched);
  }

  lemma AnswerIsUniqueFor(p: string, url: Url, r: Outcome)
    requires Answers(p, url, r)
    ensures forall r' | Answers(p, url, r') :: r' == r
  {
    forall r' | Answers(p, url, r') { AnswerIsUnique(p, url, r, r'); }
  }

  /** The buckets a lookup visits: one for every keyword of the URL, and the one without keyword. */
  ghost predicate IsVisited(k: string, url: Url) {
    k == "" || k in UrlKeywords(ToLower(url.Spec()))
  }

  ghost predicate IsFound(f: UrlFilter, index: Index, q: Query) {
    exists k :: IsVisited(k, q.url) && f in Bucket(index, k) && Accepts(f, q)
  }

  /** The filters in the buckets of these keywords, bucket by bucket. */
  function InBuckets(index: Index, keywords: seq<string>): seq<UrlFilter> {
    if keywords == [] then [] else Bucket(index, keywords[0]) + InBuckets(index, keywords[1..])
  }

  /** The filters a lookup meets, in its order. */
  function Met(index: Index, url: Url): seq<UrlFilter> {
    InBuckets(index, UrlKeywords(ToLower(url.Spec()))) + Bucket(index, "")
  }

  lemma {:induction false} InBucketsIff(index: Index, keywords: seq<string>, f: UrlFilter)
    ensures f in InBuckets(index, keywords) <==> exists k :: k in keywords && f in Bucket(index, k)
  {
    if keywords != [] {
      InBucketsIff(index, keywords[1..], f);
      assert keywords == [keywords[0]] + keywords[1..];
    }
  }

  lemma MetIffVisited(index: Index, url: Url, f: UrlFilter)
    ensures f in Met(index, url) <==> exists k :: IsVisited(k, url) && f in Bucket(index, k)
  {
    var keywords := UrlKeywords(ToLower(url.Spec()));
    InBucketsIff(index, keywords, f);
    assert f in Bucket(index, "") ==> IsVisited("", url);
    assert forall k | k in keywords :: IsVisited(k, url);
  }

  // ----- Trying bucket after bucket -----

  lemma {:induction false} OfferedOfConcat(a: seq<UrlFilter>, b: seq<UrlFilter>, accepted: iset<UrlFilter>)
    ensures Offered(a + b, accepted) == Offered(a, accepted) + Offered(b, accepted)
  {
    if b == [] {
      assert a + b == a;
    } else {
      var last := |b| - 1;
      OfferedOfConcat(a, b[..last], accepted);
      SplitLast(a, b);
      OfferedMore(a + b[..last], b[last], accepted);
      OfferedMore(b[..last], b[last], accepted);
      Associative(Offered(a, accepted), Offered(b[..last], accepted), OfferedBy(b[last], accepted));
    }
  }

  lemma OfferedMore(fs: seq<UrlFilter>, f: UrlFilter, accepted: iset<UrlFilter>)
    ensures Offered(fs + [f], accepted) == Offered(fs, accepted) + OfferedBy(f, accepted)
  {
    assert (fs + [f])[..|fs|] == fs;
  }

  lemma SplitLast<T>(a: seq<T>, b: seq<T>)
    requires b != []
    ensures a + b == (a + b[..|b| - 1]) + [b[|b| - 1]] && b == b[..|b| - 1] + [b[|b| - 1]]
  {
  }

  lemma {:induction false} FirstInOfConcat(a: seq<UrlFilter>, b: seq<UrlFilter>, accepted: iset<UrlFilter>)
    ensures FirstIn(a + b, accepted) ==
            if FirstIn(a, accepted) < |a| then FirstIn(a, accepted) else |a| + FirstIn(b, accepted)
  {
    if a == [] {
      assert a + b == b;
    } else {
      assert (a + b)[0] == a[0] && (a + b)[1..] == a[1..] + b;
      FirstInOfConcat(a[1..], b, accepted);
    }
  }

  /** Nothing is offered exactly if no filter is accepted. */
  lemma NoneOfferedIff(fs: seq<UrlFilter>, accepted: iset<UrlFilter>)
    ensures Offered(fs, accepted) == [] <==> FirstIn(fs, accepted) == |fs|
  {
    var n := FirstIn(fs, accepted);
    FirstInNone(fs, accepted);
    NothingOffered(fs, n, accepted);
    assert fs[..|fs|] == fs;
    if n < |fs| {
      InOffered(fs, accepted, fs[n]);
    }
  }

  lemma {:induction false} FirstInNone(fs: seq<UrlFilter>, accepted: iset<UrlFilter>)
    ensures forall i | 0 <= i < FirstIn(fs, accepted) :: fs[i] !in accepted
    ensures FirstIn(fs, accepted) < |fs| ==> fs[FirstIn(fs, accepted)] in accepted
  {
    if fs != [] && fs[0] !in accepted {
      FirstInNone(fs[1..], accepted);
      assert forall i | 0 < i < FirstIn(fs, accepted) :: fs[i] == fs[1..][i - 1];
    }
  }

  /** While nothing has been hit that ends the search, another bucket goes on as if alone. */
  lemma TriedMore(a: seq<UrlFilter>, b: seq<UrlFilter>, accepted: iset<UrlFilter>, strategy: FindStrategy)
    requires strategy == FindFirst ==> Offered(a, accepted) == []
    ensures Tried(a + b, accepted, strategy) == Tried(a, accepted, strategy) + Tried(b, accepted, strategy)
    ensures Taken(Offered(a + b, accepted), strategy) ==
            Taken(Offered(a, accepted), strategy) + Taken(Offered(b, accepted), strategy)
  {
    OfferedOfConcat(a, b, accepted);
    if strategy == FindFirst {
      NoneOfferedIff(a, accepted);
      FirstInOfConcat(a, b, accepted);
      assert a[..|a|] == a && (a + b)[..|a| + FirstIn(b, accepted)] == a + b[..FirstIn(b, accepted)];
      assert [] + Offered(b, accepted) == Offered(b, accepted);
      assert [] + Taken(Offered(b, accepted), FindFirst) == Taken(Offered(b, accepted), FindFirst);
    }
  }

  /** After a hit that ends the search nothing more is tried. */
  lemma HitIsFinal(a: seq<UrlFilter>, b: seq<UrlFilter>, accepted: iset<UrlFilter>)
    requires Offered(a, accepted) != []
    ensures Tried(a + b, accepted, FindFirst) == Tried(a, accepted, FindFirst)
    ensures Taken(Offered(a + b, accepted), FindFirst) == Taken(Offered(a, accepted), FindFirst)
  {
    OfferedOfConcat(a, b, accepted);
    NoneOfferedIff(a, accepted);
    FirstInOfConcat(a, b, accepted);
    assert (a + b)[..FirstIn(a, accepted)] == a[..FirstIn(a, accepted)];
  }

  lemma FailureIsFinal(a: seq<UrlFilter>, b: seq<UrlFilter>, accepted: iset<UrlFilter>, failing: iset<UrlFilter>,
                       strategy: FindStrategy)
    requires SomeIn(Tried(a, accepted, strategy), failing)
    ensures SomeIn(Tried(a + b, accepted, strategy), failing)
  {
    var f :| f in Tried(a, accepted, strategy) && f in failing;
    if strategy == FindFirst && Offered(a, accepted) != [] {
      HitIsFinal(a, b, accepted);
    } else {
      TriedMore(a, b, accepted, strategy);
      assert f in Tried(a + b, accepted, strategy);
    }
  }

  lemma SomeInConcat(a: seq<UrlFilter>, b: seq<UrlFilter>, failing: iset<UrlFilter>)
    ensures SomeIn(a + b, failing) <==> SomeIn(a, failing) || SomeIn(b, failing)
  {
    if f :| f in a && f in failing { assert f in a + b; }
    if f :| f in b && f in failing { assert f in a + b; }
  }

  /** What trying the filters of a list in turn comes to. */
  ghost predicate IsOutcome(results: Option<seq<UrlFilter>>, fs: seq<UrlFilter>, q: Query, strategy: FindStrategy) {
    if SomeIn(Tried(fs, AcceptedBy(q), strategy), FailingBy(q)) then results.None?
    else results == Some(Taken(Offered(fs, AcceptedBy(q)), strategy))
  }

  /** One bucket more. */
  lemma OutcomeMore(before: seq<UrlFilter>, results: Option<seq<UrlFilter>>, a: seq<UrlFilter>, b: seq<UrlFilter>,
                    q: Query, strategy: FindStrategy)
    requires IsOutcome(Some(before), a, q, strategy) && (strategy == FindFirst ==> before == [])
    requires results.None? <==> SomeIn(Tried(b, AcceptedBy(q), strategy), FailingBy(q))
    requires results.Some? ==> Grown(before, results.value, b, AcceptedBy(q), strategy)
    ensures IsOutcome(results, a + b, q, strategy)
  {
    var accepted, failing := AcceptedBy(q), FailingBy(q);
    TriedMore(a, b, accepted, strategy);
    SomeInConcat(Tried(a, accepted, strategy), Tried(b, accepted, strategy), failing);
  }

  /** A failure, or a hit if one is enough, is the outcome whatever follows. */
  lemma OutcomeIsFinal(results: Option<seq<UrlFilter>>, a: seq<UrlFilter>, b: seq<UrlFilter>, q: Query,
                       strategy: FindStrategy)
    requires IsOutcome(results, a, q, strategy)
    requires results.None? || (strategy == FindFirst && results.value != [])
    ensures IsOutcome(results, a + b, q, strategy)
  {
    if results.None? {
      FailureIsFinal(a, b, AcceptedBy(q), FailingBy(q), strategy);
    } else {
      HitIsFinal(a, b, AcceptedBy(q));
    }
  }

  /** The lookup tries the filters of the visited buckets in turn. It fails exactly if the check on
      the skipped text fails for a filter it tries; else it yields what it is offered, all of it or
      the first. */
  method FindInternal(index: Index, q: Query, strategy: FindStrategy) returns (results: Option<seq<UrlFilter>>)
    requires q.url.Valid()
    ensures IsOutcome(results, Met(index, q.url), q, strategy)
    ensures strategy == FindAll ==> (results.None? <==> SomeVisitedFails(index, q))
    ensures results.Some? && strategy == FindAll ==> forall f :: f in results.value <==> IsFound(f, index, q)
    ensures results.Some? && strategy == FindFirst ==>
              |results.value| <= 1 && forall f | f in results.value :: IsFound(f, index, q)
    ensures results.Some? && results.value == [] ==> forall f :: !IsFound(f, index, q)
  {
    LowerUrlIsValid(q.url);
    var isFinal: bool;
    results, isFinal := VisitKeywordBuckets(index, q, LowerUrl(q.url).Spec(), strategy);
    ghost var met := InBuckets(index, UrlKeywords(LowerUrl(q.url).Spec()));
    if isFinal {
      OutcomeIsFinal(results, met, Bucket(index, ""), q, strategy);
    } else {
      results := VisitBucket(index, "", q, strategy, results.value, met);
    }
    OutcomeOfMet(results, index, q, strategy);
  }

  /** A filter in a visited bucket fails the check. */
  ghost predicate SomeVisitedFails(index: Index, q: Query) {
    exists k :: IsVisited(k, q.url) && SomeIn(Bucket(index, k), FailingBy(q))
  }

  /** What the outcome over the filters met means for the buckets. */
  lemma OutcomeOfMet(results: Option<seq<UrlFilter>>, index: Index, q: Query, strategy: FindStrategy)
    requires IsOutcome(results, Met(index, q.url), q, strategy)
    ensures strategy == FindAll ==> (results.None? <==> SomeVisitedFails(index, q))
    ensures results.Some? && strategy == FindAll ==> forall f :: f in results.value <==> IsFound(f, index, q)
    ensures results.Some? && strategy == FindFirst ==>
              |results.value| <= 1 && forall f | f in results.value :: IsFound(f, index, q)
    ensures results.Some? && results.value == [] ==> forall f :: !IsFound(f, index, q)
  {
    OfferedIsFound(index, q);
    SomeMetFails(index, q);
  }

  lemma OfferedIsFound(index: Index, q: Query)
    ensures forall f :: f in Offered(Met(index, q.url), AcceptedBy(q)) <==> IsFound(f, index, q)
  {
    forall f
      ensures f in Offered(Met(index, q.url), AcceptedBy(q)) <==> IsFound(f, index, q)
    {
      InOffered(Met(index, q.url), AcceptedBy(q), f);
      MetIffVisited(index, q.url, f);
    }
  }

  lemma SomeMetFails(index: Index, q: Query)
    ensures SomeIn(Met(index, q.url), FailingBy(q)) <==> SomeVisitedFails(index, q)
  {
    var failing := FailingBy(q);
    if f :| f in Met(index, q.url) && f in failing {
      MetIffVisited(index, q.url, f);
      var k :| IsVisited(k, q.url) && f in Bucket(index, k);
      assert SomeIn(Bucket(index, k), failing);
    }
    if k :| IsVisited(k, q.url) && SomeIn(Bucket(index, k), failing) {
      var f :| f in Bucket(index, k) && f in failing;
      MetIffVisited(index, q.url, f);
    }
  }

  /** The visits to the buckets of the URL's keywords, until nothing can change any more. */
  method VisitKeywordBuckets(index: Index, q: Query, lowerCaseUrl: string, strategy: FindStrategy)
    returns (results: Option<seq<UrlFilter>>, isFinal: bool)
    requires q.url.Valid()
    ensures IsOutcome(results, InBuckets(index, UrlKeywords(lowerCaseUrl)), q, strategy)
    ensures isFinal <==> results.None? || (strategy == FindFirst && results.value != [])
  {
    results, isFinal := Some([]), false;
    ghost var all, met: seq<UrlFilter> := InBuckets(index, UrlKeywords(lowerCaseUrl)), [];
    NothingTried(q, strategy);
    var extractor := new UrlKeywordExtractor(lowerCaseUrl);
    ghost var rest := extractor.Remaining();
    var current := extractor.GetNextKeyword();
    while current.Some?
      invariant extractor.Valid() && results.Some?
      invariant all == met + InBuckets(index, rest)
      invariant rest == if current.Some? then [current.value] + extractor.Remaining() else []
      invariant IsOutcome(results, met, q, strategy)
      invariant !isFinal && (strategy == FindFirst ==> results.value == [])
      decreases current.Some?, |extractor.urlWithNulls| - extractor.begin
    {
      BucketMore(index, met, rest);
      results := VisitBucket(index, current.value, q, strategy, results.value, met);
      met, rest := met + Bucket(index, current.value), rest[1..];
      if results.None? || (strategy == FindFirst && results.value != []) {
        OutcomeIsFinal(results, met, InBuckets(index, rest), q, strategy);
        return results, true;
      }
      current := extractor.GetNextKeyword();
    }
    assert met + [] == met;
  }

  lemma NothingTried(q: Query, strategy: FindStrategy)
    ensures IsOutcome(Some([]), [], q, strategy)
  {
  }

  lemma BucketMore(index: Index, met: seq<UrlFilter>, rest: seq<string>)
    requires rest != []
    ensures met + InBuckets(index, rest) == (met + Bucket(index, rest[0])) + InBuckets(index, rest[1..])
  {
    Associative(met, Bucket(index, rest[0]), InBuckets(index, rest[1..]));
  }

  method VisitBucket(index: Index, k: string, q: Query, strategy: FindStrategy, before: seq<UrlFilter>,
                     ghost met: seq<UrlFilter>)
    returns (results: Option<seq<UrlFilter>>)
    requires q.url.Valid() && IsOutcome(Some(before), met, q, strategy)
    requires strategy == FindFirst ==> before == []
    ensures IsOutcome(results, met + Bucket(index, k), q, strategy)
  {
    results := FindFiltersForKeyword(index, k, q, strategy, before);
    OutcomeMore(before, results, met, Bucket(index, k), q, strategy);
  }
}
