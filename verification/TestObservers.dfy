/** Two observers of the browser tests: a counter of client hints by first visits
    (chrome/browser/client_hints/client_hints_browsertest.cc 122-192) and a waiter for subscriptions
    (chrome/browser/adblock/adblock_filtering_configurations_browsertest.cc 42-72). */
module TestObservers {
  type Url = string

  /** A request, with the names of its headers. */
  datatype Request = Request(url: Url, headers: set<string>)

  // ----- First visits -----

  /** How many of the hints a request carries. */
  function HintsOf(r: Request, hints: seq<string>): nat {
    if hints == [] then 0
    else
      var last := |hints| - 1;
      HintsOf(r, hints[..last]) + if hints[last] in r.headers then 1 else 0
  }

  function AllHints(seen: seq<Request>, hints: seq<string>): nat {
    if seen == [] then 0
    else
      var last := |seen| - 1;
      AllHints(seen[..last], hints) + HintsOf(seen[last], hints)
  }

  ghost predicate IsFirstVisit(seen: seq<Request>, i: nat)
    requires i < |seen|
  {
    forall j | 0 <= j < i :: seen[j].url != seen[i].url
  }

  /** The hints of the requests that are the first to their url. */
  ghost function FirstVisitHints(seen: seq<Request>, hints: seq<string>): nat {
    if seen == [] then 0
    else
      var last := |seen| - 1;
      FirstVisitHints(seen[..last], hints) + if IsFirstVisit(seen, last) then HintsOf(seen[last], hints) else 0
  }

  ghost function Urls(seen: seq<Request>): set<Url> {
    set r | r in seen :: r.url
  }

  ghost predicate AreIntercepted(seen: seq<Request>, interceptedUrls: set<Url>) {
    forall i | 0 <= i < |seen| :: seen[i].url in interceptedUrls
  }

  class ThirdPartyURLLoaderInterceptor {
    const interceptedUrls: set<Url>
    const hintNames: seq<string>
    var requestCountSeen: nat
    var clientHintsCountSeen: nat
    var visitedUrls: set<Url>
    var uniqueRequestCountSeen: nat
    var clientHintsCountSeenOnUniqueRequest: nat
    ghost var seen: seq<Request>

    /** The counters are those of all requests so far to intercepted urls. */
    ghost predicate Valid()
      reads this
    {
      && AreIntercepted(seen, interceptedUrls)
      && visitedUrls == Urls(seen) && uniqueRequestCountSeen == |visitedUrls|
      && requestCountSeen == |seen| && clientHintsCountSeen == AllHints(seen, hintNames)
      && clientHintsCountSeenOnUniqueRequest == FirstVisitHints(seen, hintNames)
    }

    constructor (interceptedUrls: set<Url>, hintNames: seq<string>)
      ensures Valid() && seen == [] && this.interceptedUrls == interceptedUrls && this.hintNames == hintNames
    {
      this.interceptedUrls := interceptedUrls;
      this.hintNames := hintNames;
      requestCountSeen, clientHintsCountSeen := 0, 0;
      visitedUrls := {};
      uniqueRequestCountSeen, clientHintsCountSeenOnUniqueRequest := 0, 0;
      seen := [];
    }

    method InterceptURLRequest(r: Request)
      requires Valid()
      modifies this
      ensures Valid()
      ensures seen == if r.url in interceptedUrls then old(seen) + [r] else old(seen)
      ensures r.url !in interceptedUrls ==> unchanged(this)
      ensures r.url in interceptedUrls ==> requestCountSeen == old(requestCountSeen) + 1
      ensures r.url in interceptedUrls ==> clientHintsCountSeen == old(clientHintsCountSeen) + HintsOf(r, hintNames)
      ensures r.url in interceptedUrls ==>
                uniqueRequestCountSeen == old(uniqueRequestCountSeen) + if IsNew(old(seen), r.url) then 1 else 0
      ensures r.url in interceptedUrls ==>
                clientHintsCountSeenOnUniqueRequest == old(clientHintsCountSeenOnUniqueRequest)
                    + if IsNew(old(seen), r.url) then HintsOf(r, hintNames) else 0
    {
      if r.url !in interceptedUrls {
        return;
      }
      VisitedOneMore(seen, interceptedUrls, r);
      HintsOneMore(seen, r, hintNames);
      NewIff(seen, r.url);
      OneMoreVisited(visitedUrls, r.url);
      Count(r);
      seen := seen + [r];
    }

    method Count(r: Request)
      requires uniqueRequestCountSeen == |visitedUrls|
      modifies this`visitedUrls, this`requestCountSeen, this`uniqueRequestCountSeen, this`clientHintsCountSeen,
               this`clientHintsCountSeenOnUniqueRequest
      ensures visitedUrls == old(visitedUrls) + {r.url} && uniqueRequestCountSeen == |visitedUrls|
      ensures requestCountSeen == old(requestCountSeen) + 1
      ensures clientHintsCountSeen == old(clientHintsCountSeen) + HintsOf(r, hintNames)
      ensures clientHintsCountSeenOnUniqueRequest ==
              old(clientHintsCountSeenOnUniqueRequest) + if r.url !in old(visitedUrls) then HintsOf(r, hintNames) else 0
    {
      var urlHasNotVisited := Visit(r.url);
      CountHintsOf(r, urlHasNotVisited);
    }

    method Visit(url: Url) returns (urlHasNotVisited: bool)
      requires uniqueRequestCountSeen == |visitedUrls|
      modifies this`visitedUrls, this`requestCountSeen, this`uniqueRequestCountSeen
      ensures urlHasNotVisited <==> url !in old(visitedUrls)
      ensures visitedUrls == old(visitedUrls) + {url} && uniqueRequestCountSeen == |visitedUrls|
      ensures requestCountSeen == old(requestCountSeen) + 1
    {
      OneMoreVisited(visitedUrls, url);
      urlHasNotVisited := url !in visitedUrls;
      visitedUrls := visitedUrls + {url};
      requestCountSeen := requestCountSeen + 1;
      if urlHasNotVisited {
        uniqueRequestCountSeen := uniqueRequestCountSeen + 1;
      }
    }

    method CountHintsOf(r: Request, urlHasNotVisited: bool)
      modifies this`clientHintsCountSeen, this`clientHintsCountSeenOnUniqueRequest
      ensures clientHintsCountSeen == old(clientHintsCountSeen) + HintsOf(r, hintNames)
      ensures clientHintsCountSeenOnUniqueRequest ==
              old(clientHintsCountSeenOnUniqueRequest) + if urlHasNotVisited then HintsOf(r, hintNames) else 0
    {
      var n := CountHints(r);
      clientHintsCountSeen := clientHintsCountSeen + n;
      if urlHasNotVisited {
        clientHintsCountSeenOnUniqueRequest := clientHintsCountSeenOnUniqueRequest + n;
      }
    }

    method CountHints(r: Request) returns (n: nat)
      ensures n == HintsOf(r, hintNames)
    {
      n := 0;
      for i := 0 to |hintNames|
        invariant n == HintsOf(r, hintNames[..i])
      {
        HintsUpTo(r, hintNames, i);
        if hintNames[i] in r.headers {
          n := n + 1;
        }
      }
      assert hintNames[..|hintNames|] == hintNames;
    }
  }

  lemma HintsUpTo(r: Request, hints: seq<string>, i: nat)
    requires i < |hints|
    ensures HintsOf(r, hints[..i + 1]) == HintsOf(r, hints[..i]) + if hints[i] in r.headers then 1 else 0
  {
    assert hints[..i + 1][..i] == hints[..i];
  }

  /** A name that is listed twice counts twice. */
  lemma {:induction false} HintsAreCounted(r: Request, hints: seq<string>)
    ensures HintsOf(r, hints) == |set i: nat | i < |hints| && hints[i] in r.headers|
  {
    var places := set i: nat | i < |hints| && hints[i] in r.headers;
    if hints == [] {
      assert places == {};
    } else {
      var last := |hints| - 1;
      HintsAreCounted(r, hints[..last]);
      var before := set i: nat | i < |hints[..last]| && hints[..last][i] in r.headers;
      assert places == if hints[last] in r.headers then before + {last} else before;
    }
  }

  lemma OneMoreVisited(visited: set<Url>, url: Url)
    ensures |visited + {url}| == |visited| + if url !in visited then 1 else 0
  {
    if url in visited { assert visited + {url} == visited; }
  }

  lemma NewIff(seen: seq<Request>, url: Url)
    ensures url !in Urls(seen) <==> IsNew(seen, url)
  {
  }

  ghost predicate IsNew(seen: seq<Request>, url: Url) {
    forall x | x in seen :: x.url != url
  }

  lemma VisitedOneMore(seen: seq<Request>, interceptedUrls: set<Url>, r: Request)
    ensures Urls(seen + [r]) == Urls(seen) + {r.url}
    ensures AreIntercepted(seen, interceptedUrls) && r.url in interceptedUrls ==>
        AreIntercepted(seen + [r], interceptedUrls)
  {
    var all := seen + [r];
    forall u
      ensures u in Urls(all) <==> u in Urls(seen) || u == r.url
    {
      if u in Urls(seen) {
        var q :| q in seen && q.url == u;
        assert q in all;
      }
      assert r in all;
    }
  }

  lemma HintsOneMore(seen: seq<Request>, r: Request, hints: seq<string>)
    ensures AllHints(seen + [r], hints) == AllHints(seen, hints) + HintsOf(r, hints)
    ensures FirstVisitHints(seen + [r], hints) ==
            FirstVisitHints(seen, hints) + if r.url !in Urls(seen) then HintsOf(r, hints) else 0
  {
    var all := seen + [r];
    assert all[..|seen|] == seen;
    assert IsFirstVisit(all, |seen|) <==> r.url !in Urls(seen);
  }

  /** Hints of first visits are among all. */
  lemma {:induction false} FirstVisitsAreFewer(seen: seq<Request>, hints: seq<string>)
    ensures FirstVisitHints(seen, hints) <= AllHints(seen, hints)
  {
    if seen != [] { FirstVisitsAreFewer(seen[..|seen| - 1], hints); }
  }

  // ----- Waiting -----

  /** The urls not yet installed, in order. */
  function NotIn(urls: seq<Url>, installed: set<Url>): seq<Url> {
    if urls == [] then []
    else (if urls[0] in installed then [] else [urls[0]]) + NotIn(urls[1..], installed)
  }

  class SubscriptionInstalledWaiter {
    var awaitedSubscriptions: seq<Url>
    var quit: bool
    ghost var original: seq<Url>
    ghost var installed: set<Url>

    /** What is awaited is what was asked for and has not been installed since; the loop is left
        exactly when something has been installed and nothing is missing. */
    ghost predicate Valid()
      reads this
    {
      && awaitedSubscriptions == NotIn(original, installed)
      && (quit <==> installed != {} && forall u | u in original :: u in installed)
    }

    constructor WaitUntilSubscriptionsInstalled(subscriptions: seq<Url>)
      ensures Valid() && original == subscriptions && installed == {}
    {
      awaitedSubscriptions := subscriptions;
      original := subscriptions;
      quit := false;
      installed := {};
      new;
      NothingInstalled(subscriptions);
    }

    method OnSubscriptionInstalled(url: Url)
      requires Valid()
      modifies this
      ensures Valid() && installed == old(installed) + {url} && original == old(original)
      ensures quit <==> forall u | u in original :: u in installed
      ensures forall u :: u in awaitedSubscriptions <==> u in original && u !in installed
    {
      NotInMore(original, installed, url);
      EmptyIffAllInstalled(original, installed + {url});
      awaitedSubscriptions := Remove(awaitedSubscriptions, url);
      installed := installed + {url};
      if awaitedSubscriptions == [] {
        quit := true;
      }
      AwaitedIff(original, installed);
    }

    method Remove(urls: seq<Url>, url: Url) returns (left: seq<Url>)
      ensures left == NotIn(urls, {url})
    {
      left := [];
      ghost var all := NotIn(urls, {url});
      for i := 0 to |urls|
        invariant left + NotIn(urls[i..], {url}) == all
      {
        NotInFrom(urls, i, {url});
        if urls[i] != url {
          left := left + [urls[i]];
        }
      }
    }
  }

  lemma NotInFrom(urls: seq<Url>, i: nat, installed: set<Url>)
    requires i < |urls|
    ensures NotIn(urls[i..], installed) ==
        (if urls[i] in installed then [] else [urls[i]]) + NotIn(urls[i + 1..], installed)
  {
    assert urls[i..][1..] == urls[i + 1..];
  }

  lemma {:induction false} NothingInstalled(urls: seq<Url>)
    ensures NotIn(urls, {}) == urls
  {
    if urls != [] {
      NothingInstalled(urls[1..]);
      assert urls == [urls[0]] + urls[1..];
    }
  }

  lemma {:induction false} AwaitedIff(urls: seq<Url>, installed: set<Url>)
    ensures forall u :: u in NotIn(urls, installed) <==> u in urls && u !in installed
  {
    if urls != [] {
      AwaitedIff(urls[1..], installed);
      assert urls == [urls[0]] + urls[1..];
    }
  }

  lemma {:induction false} NotInMore(urls: seq<Url>, installed: set<Url>, url: Url)
    ensures NotIn(NotIn(urls, installed), {url}) == NotIn(urls, installed + {url})
  {
    if urls != [] {
      var rest := NotIn(urls[1..], installed);
      NotInMore(urls[1..], installed, url);
      assert ([urls[0]] + rest)[1..] == rest && [] + rest == rest;
    }
  }

  lemma {:induction false} EmptyIffAllInstalled(urls: seq<Url>, installed: set<Url>)
    ensures NotIn(urls, installed) == [] <==> forall u | u in urls :: u in installed
  {
    if urls != [] {
      EmptyIffAllInstalled(urls[1..], installed);
      assert urls == [urls[0]] + urls[1..];
    }
  }
}
