# Ad blocking: a verified model

This project models the ad-blocking engine of the eyeo Chromium SDK, the browser code that puts it
in the way of requests, and the program that compares it with a reference implementation. It proves
properties of them for all inputs and all runs. `dafny verify dfyconfig.toml` checks everything.

- **Matching and the filter index** (`PatternMatcher`, `Anchors`, `PatternForms`, `Keywords`,
  `FilterIndex`, `IndexSoundness`, `FilterMeaning`). The meaning of a filter pattern is defined by
  itself (`Denotes`, `Means`); the recursive, depth-limited matcher is proved to compute it, up to an
  exact condition. The forms of patterns in use, text, separators, wildcards and anchors, are
  answered in terms of the url's text alone. Filters are filed under one keyword; what the lookup
  finds is stated exactly for every index, and where that is what a scan over all filters finds.
- **The comparison with the reference** (`Canonical`, `Comparison`). Canonical texts of stylesheets
  and selectors, stored rows, the split into tasks, and the counters under every interleaving.
- **Interception** (`WebSockets`, `Wiring`, `LoaderFactories`, `InterceptedRequests`). Web sockets
  parked while a verdict is awaited, the pipes and the ownership of the url loader proxies, and the
  life of a request inside such a proxy. Factories, handshake clients, pipe ends and callbacks that
  run once are linear resources.
- **The services of a profile** (`KeyedServices`, `ControllerSetup`). Services built on demand along
  declared dependencies, the configuration the telemetry service relies on, and how that
  configuration is set up from switches and preferences.
- **Smaller loops** (`Abnf`, `AllowedPorts`, `TestObservers`).

## What the proofs found in the code

Each of these is stated by the member named.

- A host anchor tries only the leftmost match: `||ad` does not match http://xad.ad/
  (`PatternMatcher.FirstOccurrenceHidesTheHost`). `AnswerIsMeaning` gives the exact condition.
- A host-anchored match inside the scheme breaks the assertion about the scheme, exactly as
  `PatternMatcher.SchemeCutIff` says; `||ttp` on http://a/ does (`PatternMatcher.SchemeCutExample`).
  The matcher's model then answers `SchemeCut`, and the lookup fails.
- A final bar is an end anchor unless it stands behind a wildcard or another bar
  (`Anchors.FinalBarAnchorsIff`, `Anchors.BarBehindWildcardExample`). The comment in the source
  calls it an anchor.
- Patterns nested deeper than 50 never match (`PatternMatcher.DeepPattern`).
- A case-sensitive filter whose keyword is bad only in lower case, and a filter whose keyword stands
  behind its end anchor, are missed for urls they accept (`IndexSoundness.UpperCaseKeyHidesFilter`,
  `IndexSoundness.KeyBehindEndAnchorHidesFilter`); `IndexSoundness.FoundIff` is the exact condition.
- The filter without a pattern is added to the results twice by a search for all
  (`FilterIndex.FindFiltersForKeyword`).
- The texts of selector lists with spaces are not one-to-one (`Canonical.SelectorsWithSpaces`);
  `Canonical.SameSelectorTextIff` says when two lists have the same.
- A row with a negative id is skipped by every task unless its id is a multiple of their number
  (`Comparison.CoveredIffNonNegative`); line numbers are positive, so none is stored.
- A redirect can be overtaken by what its target sends next, for only responses are held back
  (`InterceptedRequests.InOrderIff`, `InterceptedRequests.OvertakenRedirect`).
- Telemetry asked for before the controller fails its assertion
  (`KeyedServices.TelemetryFindsItsConfigurationIff`); the declared edge prevents that only for
  services created with the profile.
- The switches that disable ad blocking and Acceptable Ads are applied before old preferences are
  migrated, which can undo them; and what a switch disabled stays disabled at the next start without
  it (`ControllerSetup.EnabledIff`, `ControllerSetup.AcceptableAdsDespiteSwitchIff`,
  `ControllerSetup.NextStartChangesNothing`).

## How the model stands to the code

- Strings are sequences of ASCII characters; a url is a scheme, a host, a port and a path.
- The hash is any function into unsigned 32-bit integers. Verdicts, selectors, regular expressions,
  the conditions of a filter besides its pattern, and Chrome's own decisions are parameters.
- Callbacks of an implementation are functions of the request. A mismatch callback is atomic, as the
  lock makes it. Urls are assumed to survive printing and parsing.
- The key under which proxies' holders are kept is the address of a local variable, hence any value.
- A request of a url loader proxy is `live` until its factory deletes it; its callbacks are bound
  weakly. Verdicts may be anything, though the code asks for none for documents and dead frames.
- Logs are not part of the model; a web socket that is let through directly is also logged as
  blocked (lines 289-308 of `adblock_content_browser_client.cc`).
- The check on the text skipped before a host anchor's match is an assertion in the code; here the
  lookup that trips it yields no results at all.
- The base classes of keyed services are not part of this repository. They are taken to build a
  service for the context the factory redirects to unless there is one, and to create a profile's
  services in an order that respects the declared edges.
- `base::StringToInt` and `net::IsPortValid` are not part of this repository either: a decimal int
  with at most one sign, and 0 to 65535.

## Model

| member | source | states |
|---|---|---|
| `PatternMatcher.DoesPatternMatchUrl` | components/adblock/core/subscription/pattern_matcher.cc:223-255 | The matcher answers for every pattern and url what `Answers` says: no at once where the nesting limit cuts it off, otherwise the meaning of the pattern at the beginning, at the leftmost place behind `\|\|`, or anywhere |
| `PatternMatcher.MatchHostAnchored` | components/adblock/core/subscription/pattern_matcher.cc:231-245 | Behind `\|\|` only the leftmost match is tried as a start of the host, which `StartOfHostMeaning` tells; if there is none the answer is no |
| `PatternMatcher.NextTokenBeginsInput` | components/adblock/core/subscription/pattern_matcher.cc:120-163 | For a pattern whose nesting is within the limit: true exactly if the rest of the pattern denotes the input from its beginning |
| `PatternMatcher.FindNextTokenInInput` | components/adblock/core/subscription/pattern_matcher.cc:167-219 | Finds the characters before the leftmost place where the rest of the pattern matches, and none exactly if there is no such place |
| `PatternMatcher.FindSeparator` | components/adblock/core/subscription/pattern_matcher.cc:179-201 | The same for a pattern beginning with a separator, which also matches the end of the input |
| `PatternMatcher.FindText` | components/adblock/core/subscription/pattern_matcher.cc:202-217 | The same for a pattern beginning with text: no occurrence of the text is skipped, overlapping ones included |
| `PatternMatcher.StartOfHostMeaning` | components/adblock/core/subscription/pattern_matcher.cc:53-64 | For every valid url and position: the skipped characters are a valid start of the host exactly if the position is at or before the beginning of the host, at its end, or behind one of its dots |
| `PatternMatcher.AnswerIsMeaning` | components/adblock/core/subscription/pattern_matcher.cc:223-255 | The answer is yes exactly if the pattern means the url, is not nested too deeply, and, host-anchored, has its leftmost match at a start of the host |
| `PatternMatcher.AnswerIsUnique` | components/adblock/core/subscription/pattern_matcher.cc:223-255 | `Answers` leaves one answer only, so it determines the matcher |
| `PatternMatcher.TokenDenotes` | components/adblock/core/subscription/pattern_matcher.cc:71-104 | What each kind of token means: a wildcard that the rest matches somewhere, a separator that it matches behind one or at the end, a lone bar not searched for that the end is reached, any other that it stands there and the rest behind it |
| `PatternMatcher.LevelsBound` | components/adblock/core/subscription/pattern_matcher.cc:120-176 | The nesting of a pattern is at most its length and two |
| `PatternMatcher.ShortPatternsAreNotCutOff` | components/adblock/core/subscription/pattern_matcher.cc:32 | No pattern of at most 48 characters is cut off |
| `PatternMatcher.DeepPattern` | components/adblock/core/subscription/pattern_matcher.cc:123-125 | The pattern of n times a letter and a separator is answered by its meaning below 25 repetitions and no from there on, for every url |
| `Anchors.FinalBarAnchorsIff` | components/adblock/core/subscription/pattern_matcher.cc:149-153 | For every pattern: a final bar demands just that the pattern reaches the end, for all texts, exactly if it stands behind neither a wildcard nor another bar, or if the pattern is over before |
| `Anchors.FinalBarAnswer` | components/adblock/core/subscription/pattern_matcher.cc:149-153 | With such a bar a searched pattern is answered yes exactly for the urls it matches up to their end |
| `Anchors.BarBehindText` | components/adblock/core/subscription/pattern_matcher.cc:149-153 | Behind any text a bar demands the end; behind text and a wildcard it is looked for itself |
| `Anchors.BarBehindWildcardAnswer` | components/adblock/core/subscription/pattern_matcher.cc:202-217 | Text of any length, a wildcard and a bar are answered yes exactly for urls with a bar behind the text: as an end anchor it is lost |
| `Anchors.BarBehindWildcardExample` | components/adblock/core/subscription/pattern_matcher.cc:202-217 | `a*\|` is answered no for http://a/, which the pattern without the bar matches up to its end |
| `Anchors.EndAnchorEndsPattern` | components/adblock/core/subscription/pattern_matcher.cc:149-153 | Whatever follows an end anchor matches nothing: the pattern means that what stands before the anchor matches up to the end |
| `Anchors.PatternIsOverAtEndAnchor` | components/adblock/core/subscription/pattern_matcher.cc:149-153 | For every pattern what stands behind an end anchor makes no difference |
| `PatternMatcher.FirstOccurrenceHidesTheHost` | components/adblock/core/subscription/pattern_matcher.cc:241-245 | A host-anchored text that occurs first inside a label is not matched, though the host begins with a later occurrence |
| `PatternMatcher.HiddenHostExample` | components/adblock/core/subscription/pattern_matcher.cc:241-245 | An input for which that happens exists: `\|\|ad` on http://xad.ad/ |
| `PatternMatcher.SchemeCutIff` | components/adblock/core/subscription/pattern_matcher.cc:53-57 | The assertion that the skipped text begins with the scheme fails exactly if the pattern is host-anchored, not too deep, and its leftmost match skips less than the scheme |
| `PatternMatcher.TextCutsSchemeIff` | components/adblock/core/subscription/pattern_matcher.cc:53-57 | For host-anchored text it fails exactly if the text first occurs inside the scheme |
| `PatternMatcher.SchemeCutExample` | components/adblock/core/subscription/pattern_matcher.cc:53-57 | It fails for `\|\|ttp` on http://a/ |
| `PatternForms.TextAnswer` | components/adblock/core/subscription/pattern_matcher.cc:247-254 | Text alone is answered yes exactly for urls it occurs in, at any length |
| `PatternForms.LeadingWildcardAnswer` | components/adblock/core/subscription/pattern_matcher.cc:232-250 | A wildcard before it makes no difference, nor a host anchor before the wildcard |
| `PatternForms.SeparatorAnswer` | components/adblock/core/subscription/pattern_matcher.cc:34-39 | `text^` is answered yes exactly if the text stands before the end or before a character that is no letter, no digit and none of _ - . % |
| `PatternForms.LeadingSeparatorAnswer` | components/adblock/core/subscription/pattern_matcher.cc:179-201 | `^text` is answered yes exactly if the text stands behind such a character |
| `PatternForms.WildcardAnswer` | components/adblock/core/subscription/pattern_matcher.cc:144-148 | `text*text` is answered yes exactly if the second text occurs somewhere behind the first |
| `PatternForms.AnchoredTextAnswer` | components/adblock/core/subscription/pattern_matcher.cc:149-163 | `\|text` is answered yes exactly for urls that begin with it, `text\|` for those that end with it, `\|text\|` for that url alone |
| `PatternForms.HostAnchorAnswer` | components/adblock/core/subscription/pattern_matcher.cc:53-64 | `\|\|text` is answered by where the text first occurs: yes before the host, at its end and behind each of its dots, no elsewhere and if it does not occur; inside the scheme the check fails |
| `PatternForms.DomainAnswer` | components/adblock/core/subscription/pattern_matcher.cc:231-245 | The same for `\|\|text^` and the first place where a separator follows the text |
| `PatternForms.SeparatorBehindHostAnchorAnswer` | components/adblock/core/subscription/pattern_matcher.cc:179-201 | A separator searched for behind a host anchor belongs to the skipped text |
| `PatternForms.SubdomainIsMatched` | components/adblock/core/subscription/pattern_matcher.cc:41-52 | Host-anchored text whose first occurrence is at the host or behind one of its dots is answered yes |
| `PatternForms.DomainIsMatched` | components/adblock/core/subscription/pattern_matcher.cc:41-64 | A filter for a domain is answered yes for the domain and its subdomains with any port and path, if the name does not stand separated before |
| `Keywords.UrlKeywordExtractor.GetNextKeyword` | components/adblock/core/subscription/url_keyword_extractor.cc:37-50 | Yields the next good keyword of the url and leaves the rest; at the end none is left |
| `Keywords.UrlKeywordExtractor.constructor` | components/adblock/core/subscription/url_keyword_extractor.cc:52-64 | Starts with all good keywords of the url, in order |
| `Keywords.UrlKeywordsAreWords` | components/adblock/core/subscription/url_keyword_extractor.cc:37-64 | The keywords of a url are exactly its maximal runs of letters, digits and percent signs that have two characters and are none of http, https, com and js |
| `Keywords.UrlKeywordsAreGood` | components/adblock/core/subscription/url_keyword_extractor.cc:48 | Only such words are among a url's keywords |
| `Keywords.SeparatorsDoNotMatter` | components/adblock/core/subscription/url_keyword_extractor.cc:52-64 | Which separators stand between words makes no difference, so that replacing them by nulls keeps the keywords |
| `Keywords.FilterKeywordExtractor.GetNextKeyword` | components/adblock/core/converter/serializer/filter_keyword_extractor.cc:29-57 | Yields, in lower case, the next stretch of word characters enclosed by characters that are neither word characters nor wildcards, and skips none that is good |
| `FilterIndex.FindCandidateKeyword` | components/adblock/core/converter/serializer/flatbuffer_serializer.cc:326-344 | The key of a pattern is one of its keywords: one with a smallest bucket, among those a longest one; empty exactly if the pattern has none |
| `FilterIndex.Serializer.AddUrlFilterToIndex` | components/adblock/core/converter/serializer/flatbuffer_serializer.cc:224-231 | A filter goes behind those stored under its key, which is one of its keywords that is stored least often so far, among those a longest one; no other bucket changes |
| `FilterIndex.Serialize` | components/adblock/core/converter/serializer/flatbuffer_serializer.cc:224-231 | Every filter is stored once under such a key, and nothing else is in the index |
| `FilterIndex.BucketIsFiled` | components/adblock/core/converter/serializer/flatbuffer_serializer.cc:224-231 | A bucket holds the filters of its key in the order they were stored, as often as they were |
| `FilterIndex.FindFiltersForKeyword` | components/adblock/core/subscription/installed_subscription_impl.cc:360-414 | Appends the accepted filters of the bucket in its order, one without a pattern twice, or only the first of them; fails exactly if the check on the skipped text fails for a filter that is tried |
| `FilterIndex.DoesFilterMatch` | components/adblock/core/subscription/installed_subscription_impl.cc:391-412 | True exactly for accepted filters, matched case sensitively or on the lower-case url, as `FilterMeaning.TextFilterAccepts` spells out; fails exactly if the check on the skipped text does |
| `FilterIndex.FindInternal` | components/adblock/core/subscription/installed_subscription_impl.cc:323-358 | Tries the filters of the buckets of the keywords of the url, then those of the bucket without keyword, in order: yields all that they offer or, with the first-only strategy, just the first, and fails exactly if the check fails for a filter it tries. With all wanted it finds exactly the accepted filters in these buckets; an empty answer means there is none |
| `IndexSoundness.KeywordIsInMatch` | components/adblock/core/converter/serializer/filter_keyword_extractor.cc:29-57 | Wherever a pattern matches, the keyword taken from it is a whole word of the text, if no end anchor stands before it |
| `IndexSoundness.KeywordIsInUrl` | components/adblock/core/converter/serializer/filter_keyword_extractor.cc:29-57 | The same for a pattern with its anchors on a url |
| `IndexSoundness.FoundIff` | components/adblock/core/subscription/installed_subscription_impl.cc:344-357 | For every index: a filter is found exactly if it accepts the query and is stored without a key or under one that is a word of the lower-case url and no bad keyword |
| `IndexSoundness.VisitedIffKeyIsGood` | components/adblock/core/subscription/installed_subscription_impl.cc:344-357 | For an accepted filter whose key comes from the part of the pattern that is matched, the bucket is looked up exactly if the key is empty or no bad keyword once in lower case |
| `IndexSoundness.KeysWithoutCaseAreGood` | components/adblock/core/converter/serializer/filter_keyword_extractor.cc:54-56 | A filter that ignores case never gets a bad key |
| `IndexSoundness.LookupEqualsScan` | components/adblock/core/subscription/installed_subscription_impl.cc:323-358 | Where every filter is stored under such a key the lookup finds exactly what a scan over all filters finds |
| `IndexSoundness.FindAllIn` | components/adblock/core/subscription/installed_subscription_impl.cc:323-358 | For any filters and query: storing and then looking up gives exactly those that accept the query and are reachable in the index built; it fails exactly if the check on the skipped text fails for a reachable one |
| `IndexSoundness.MissedIff` | components/adblock/core/subscription/installed_subscription_impl.cc:344-357 | A filter alone in the index is missed exactly if it accepts the query and its key is a bad keyword or no word of the url |
| `IndexSoundness.UpperCaseKeyHidesFilter` | components/adblock/core/converter/serializer/filter_keyword_extractor.cc:54-56 | Any filter whose key is a bad keyword once in lower case is missed for exactly the queries it accepts, that is for all of them; only case-sensitive filters have such keys |
| `IndexSoundness.UpperCaseKeyExample` | components/adblock/core/converter/serializer/filter_keyword_extractor.cc:54-56 | Such a filter, index and query exist |
| `IndexSoundness.KeyBehindEndAnchorHidesFilter` | components/adblock/core/converter/serializer/filter_keyword_extractor.cc:41-54 | Any pattern with a keyword behind an end anchor: what it accepts does not depend on the keyword, and stored under it the filter is missed for exactly the urls it accepts that do not have the keyword |
| `IndexSoundness.KeyBehindEndAnchorExample` | components/adblock/core/converter/serializer/filter_keyword_extractor.cc:41-54 | Such a filter, index and query exist |
| `FilterIndex.RegexIff` | components/adblock/core/common/regex_filter_pattern.cc:25-32 | A pattern is a regular expression exactly if it is something not empty between two slashes |
| `FilterMeaning.CaseMakesNoDifference` | components/adblock/core/subscription/installed_subscription_impl.cc:402-412 | A filter that ignores case accepts alike all urls that differ in letter case only |
| `FilterMeaning.TextFilterAccepts` | components/adblock/core/subscription/installed_subscription_impl.cc:391-412 | A filter of text alone accepts exactly the viable urls with the text in them: letter for letter, or in any case |
| `FilterMeaning.RegexFilterAccepts` | components/adblock/core/subscription/installed_subscription_impl.cc:393-401 | A regular expression accepts what is viable and what the engine matches |
| `FilterMeaning.StoredAsOften` | components/adblock/core/converter/serializer/flatbuffer_serializer.cc:224-231 | Every bucket holds each filter as often as it was stored under that key |
| `FilterMeaning.FirstFoundIsEarliest` | components/adblock/core/subscription/installed_subscription_impl.cc:344-357 | With the first-only strategy the one found is the first that accepts in the bucket of the earliest keyword of the url that has one, the bucket without keyword coming last |
| `FilterMeaning.DomainFilterIsFoundIff` | components/adblock/core/subscription/installed_subscription_impl.cc:323-358 | Under whatever key an index stores a filter for a domain, a lookup finds it for exactly the urls it accepts |
| `FilterMeaning.DomainFilterIsFound` | components/adblock/core/subscription/installed_subscription_impl.cc:323-358 | So it is found for the domain and its subdomains, in any letter case, with any port and path, if the name does not stand separated before |
| `Canonical.ComputeStylesheetHash` | components/adblock_comparison/libadblockplus_reference_database.cc:63-75 | An empty stylesheet gives -1, any other the hash of its canonical text |
| `Canonical.ComputeSelectorsHash` | components/adblock_comparison/libadblockplus_reference_database.cc:51-56 | No selectors give -1, others the hash of the sorted selectors joined |
| `Canonical.Sort` | components/adblock_comparison/libadblockplus_reference_database.cc:54 | The result is sorted and a rearrangement |
| `Canonical.EraseEqualNeighbours` | components/adblock_comparison/libadblockplus_reference_database.cc:73 | The sorted text pieces once each |
| `Canonical.PiecesAreStretches` | components/adblock_comparison/libadblockplus_reference_database.cc:69-70 | The pieces are exactly the stretches between neighbouring commas, spaces and newlines, empty ones included |
| `Canonical.SplitOfJoin` | components/adblock_comparison/libadblockplus_reference_database.cc:69-74 | Joining pieces with spaces and splitting gives them back |
| `Canonical.SortedListingIsUnique` | components/adblock_comparison/libadblockplus_reference_database.cc:72-73 | A set has one strictly sorted listing |
| `Canonical.SameTextIffSamePieces` | components/adblock_comparison/libadblockplus_reference_database.cc:63-75 | Two stylesheets have the same text before hashing exactly if they have the same set of pieces |
| `Canonical.CanonicalTextIs` | components/adblock_comparison/libadblockplus_reference_database.cc:69-74 | The text is the strictly sorted listing of the pieces, joined with spaces |
| `Canonical.StylesheetText` | components/adblock_comparison/verify_flatbuffer_adblocking.cc:147-153 | For non-empty selector lists the built stylesheets have the same canonical text exactly if the pieces of the selectors are the same, apart from those of the declaration; so order and repetition of the selectors do not matter |
| `Canonical.PiecesOfStylesheet` | components/adblock_comparison/verify_flatbuffer_adblocking.cc:150-153 | The pieces of the built stylesheet are those of its selectors and of the declaration; the empty one between comma and space is always there |
| `Canonical.OnlyNoSelectorsHaveNoHash` | components/adblock_comparison/verify_flatbuffer_adblocking.cc:147-153 | Exactly an empty list of selectors gives an empty stylesheet and no hash |
| `Canonical.SameSelectorTextIff` | components/adblock_comparison/libadblockplus_reference_database.cc:51-56 | Two non-empty selector lists have the same text exactly if their sorted selectors, one behind the other, have the same words between single spaces |
| `Canonical.SameTextIfSameSelectors` | components/adblock_comparison/libadblockplus_reference_database.cc:51-56 | The same selectors in any order give the same text, and, no selector having a space, only the same do |
| `Canonical.SelectorsWithSpaces` | components/adblock_comparison/libadblockplus_reference_database.cc:51-56 | Selectors with spaces: different lists can give the same text |
| `Comparison.TestRequestReader.GetNextRequest` | components/adblock_comparison/test_request_reader.cc:89-106 | Yields the next request with the next number; a malformed line ends the reading like the end of the file |
| `Comparison.ReferenceDatabase.Store` | components/adblock_comparison/libadblockplus_reference_database.cc:111-143 | One request is stored in a row of its own, with the reference verdict and, for a subdocument, three hashes; nothing is stored exactly for content types above the last real one |
| `Comparison.ReferenceDatabase.StoreInputs` | components/adblock_comparison/libadblockplus_reference_database.cc:99-145 | The table holds the rows of the requests read, in order, with increasing ids; every request with a real content type has one |
| `Comparison.RequestsAreLines` | components/adblock_comparison/test_request_reader.cc:89-106 | The requests are the lines before the first malformed one, numbered in order |
| `Comparison.EveryRequestIsStoredOnce` | components/adblock_comparison/libadblockplus_reference_database.cc:99-145 | Each line read whose content type is at most 32768 has exactly one row, with its number, its fields, its verdict and its hashes; any other has none |
| `Comparison.Verifier.OnMismatchFound` | components/adblock_comparison/verify_flatbuffer_adblocking.cc:178-184 | One more mismatch of the type is counted |
| `Comparison.Verifier.VerifyMismatches` | components/adblock_comparison/verify_flatbuffer_adblocking.cc:186-196 | The exit value is 0 exactly if nothing was reported |
| `Comparison.Verifier.CompareRow` | components/adblock_comparison/libadblockplus_reference_database.cc:180-215 | Reports exactly the mismatches of the row |
| `Comparison.Verifier.CompareElemhide` | components/adblock_comparison/libadblockplus_reference_database.cc:192-207 | Reports a mismatch exactly for each of the two hashes that differs |
| `Comparison.Verifier.CompareWithStatement` | components/adblock_comparison/libadblockplus_reference_database.cc:174-220 | One pass reports the mismatches of all its rows |
| `Comparison.Verifier.PostTasks` | components/adblock_comparison/verify_flatbuffer_adblocking.cc:199-204 | Task k of n gets the rows whose id has remainder k |
| `Comparison.Verifier.RunPosted` | components/adblock_comparison/verify_flatbuffer_adblocking.cc:198-207 | Whichever task reports next, all that was pending has been counted at the end |
| `Comparison.Verifier.RunTest` | components/adblock_comparison/verify_flatbuffer_adblocking.cc:198-207 | The parallel run counts what one pass over the covered rows counts, and exits with 0 exactly if that has no mismatch |
| `Comparison.PostedTotal` | components/adblock_comparison/libadblockplus_reference_database.cc:153-156 | The tasks partition the rows: together they have to report what one pass over them does |
| `Comparison.EveryInterleavingCountsAlike` | components/adblock_comparison/verify_flatbuffer_adblocking.cc:178-207 | In every interleaving of the tasks that runs to its end the counters are those of one pass over all rows with non-negative ids, and empty exactly if every row agrees |
| `Comparison.CoveredIffNonNegative` | components/adblock_comparison/libadblockplus_reference_database.cc:153-156 | A row is selected by some task exactly if its id is not negative or a multiple of the number of tasks |
| `Comparison.StoredRowsAreCovered` | components/adblock_comparison/libadblockplus_reference_database.cc:99-159 | Rows stored from an input have positive ids, so every one is selected by some task |
| `Comparison.StoredThenCompared` | components/adblock_comparison/verify_flatbuffer_adblocking.cc:178-207 | From the lines of an input to the counters: in every interleaving they are those of one pass over what was stored, and empty exactly if every row of it agrees |
| `Comparison.SameImplementationAgrees` | components/adblock_comparison/libadblockplus_reference_database.cc:99-220 | Storing any input with an implementation and comparing it with the same one reports nothing, for any number of tasks |
| `Comparison.VerdictMismatch` | components/adblock_comparison/libadblockplus_reference_database.cc:189-191 | A verdict mismatch is reported, once, exactly if the verdicts differ |
| `Comparison.CssMismatch` | components/adblock_comparison/libadblockplus_reference_database.cc:192-202 | A stylesheet mismatch is reported, once, exactly for subdocuments whose stylesheet hashes differ |
| `Comparison.SelectorsMismatch` | components/adblock_comparison/libadblockplus_reference_database.cc:203-207 | The same for selectors; of snippets none is reported |
| `Comparison.CssMismatchMeansDifference` | components/adblock_comparison/libadblockplus_reference_database.cc:63-75 | A stylesheet mismatch means that the pieces differ or just one stylesheet is empty, and without a collision of the hash every such difference is one |
| `Comparison.SelectorsMismatchMeansDifference` | components/adblock_comparison/libadblockplus_reference_database.cc:51-56 | A selector mismatch means that the words of the sorted selectors differ or just one list is empty, hence more than another order, and without a collision of the hash every such difference is one |
| `WebSockets.NextKeepsInv` | chrome/browser/adblock/adblock_content_browser_client.cc:209-309 | Every step keeps: each issued factory is parked or used up, never both nor twice; outcomes are about their own request |
| `WebSockets.ConsumedAtMostOnce` | chrome/browser/adblock/adblock_content_browser_client.cc:228-309 | In every run no factory and no handshake client is used up twice, or used up while parked |
| `WebSockets.ForwardedOnlyIfLetThrough` | chrome/browser/adblock/adblock_content_browser_client.cc:219-309 | In every run a forwarded request was intercepted by Chrome for a frame none of whose profile's configurations was enabled, or its verdict was not to block and came while its frame and the client were alive |
| `WebSockets.LetThroughIsForwardedOnce` | chrome/browser/adblock/adblock_content_browser_client.cc:265-309 | In every run a completed classification gives one outcome for good: forwarded exactly if let through, to Chrome exactly if that intercepts, else directly with the original url and a user-agent header exactly if one was supplied |
| `WebSockets.ParkedIsFiltered` | chrome/browser/adblock/adblock_content_browser_client.cc:226-263 | In every run a parked request came for that frame while it lived and its profile had an enabled configuration |
| `WebSockets.ArrivalIsParkedIff` | chrome/browser/adblock/adblock_content_browser_client.cc:56-73 | A request that arrives is parked exactly if its frame lives and its profile has some enabled configuration; else it goes to Chrome at once |
| `WebSockets.TakesRequestIff` | chrome/browser/adblock/adblock_content_browser_client.cc:209-217 | The client takes a request exactly if its frame is so filtered or Chrome intercepts it |
| `WebSockets.ParkedAsLastConfigured` | chrome/browser/adblock/adblock_content_browser_client.cc:56-73 | In every run what decides is whether the last change of the configurations of the frame's profile left one enabled |
| `WebSockets.DroppedOnceGone` | chrome/browser/adblock/adblock_content_browser_client.cc:265-287 | In every run a request whose frame died, or whose client went, before its classification ended is dropped, whatever the verdict |
| `WebSockets.HistoryGrows` | chrome/browser/adblock/adblock_content_browser_client.cc:265-309 | What happened to a request is never undone |
| `WebSockets.NothingIsLost` | chrome/browser/adblock/adblock_content_browser_client.cc:219-309 | When nothing is parked every issued request has had exactly one outcome |
| `WebSockets.CompletionsCommute` | chrome/browser/adblock/adblock_content_browser_client.cc:265-309 | The order in which two verdicts arrive changes nothing but the order of the two outcomes |
| `Wiring.SplicedExtends` | chrome/browser/adblock/adblock_content_browser_client.cc:360-369 | A spliced proxy is passed by exactly the messages that arrived at the receiving end taken over; they now arrive at the one handed back |
| `Wiring.ExtendedPaths` | chrome/browser/adblock/adblock_content_browser_client.cc:334-371 | Message by message: one that arrived there passes what was added behind what it passed before, any other what it passed before |
| `Wiring.ExtendsTwice` | chrome/browser/adblock/adblock_content_browser_client.cc:334-371 | Two splices one behind the other extend the path by both proxies in their order |
| `Wiring.PathIsSimple` | chrome/browser/adblock/adblock_content_browser_client.cc:334-371 | No message passes a proxy twice |
| `Wiring.CloneLeadsAlike` | components/adblock/content/browser/adblock_url_loader_factory.cc:648-651 | A cloned pipe leads where the others into that proxy lead, and all others as before |
| `Wiring.UnusedProxyIsOnNoPath` | components/adblock/content/browser/adblock_url_loader_factory.cc:674-677 | A proxy nothing leads into can go without changing any path |
| `Wiring.GoneIsOnNoPath` | chrome/browser/adblock/adblock_content_browser_client.cc:136-140 | No message passes a proxy that is gone, and the pipes into it are closed |
| `LoaderFactories.Browser.GetOrCreateHolder` | chrome/browser/adblock/adblock_content_browser_client.cc:89-95 | Whatever the key, a holder found there is of this profile, and a new one never takes the place of one that lives |
| `LoaderFactories.Browser.StartProxying` | chrome/browser/adblock/adblock_content_browser_client.cc:82-133 | One new proxy between the two ends, owned by a holder of the profile; nothing else changes |
| `LoaderFactories.Browser.RemoveProxy` | chrome/browser/adblock/adblock_content_browser_client.cc:136-140 | Erases and deletes its argument only; that it is there is required, as asserted |
| `LoaderFactories.Browser.MaybeDestroySelf` | components/adblock/content/browser/adblock_url_loader_factory.cc:674-677 | A factory without clients and requests removes itself from its holder, where it is found, and nothing else changes, no path either; a busy one stays |
| `LoaderFactories.Browser.OnProxyBindingError` | components/adblock/content/browser/adblock_url_loader_factory.cc:663-665 | The pipe is closed; the factory goes exactly if that was its last client and it has no request, and nothing else changes |
| `LoaderFactories.Browser.OnTargetFactoryError` | components/adblock/content/browser/adblock_url_loader_factory.cc:657-661 | Target and clients are closed; the factory goes exactly if it has no request, and nothing else changes |
| `LoaderFactories.Browser.RemoveRequest` | components/adblock/content/browser/adblock_url_loader_factory.cc:667-672 | The request is erased; the factory goes exactly if that was its last and it has no client, and nothing else changes |
| `LoaderFactories.Browser.CreateLoaderAndStart` | components/adblock/content/browser/adblock_url_loader_factory.cc:636-646 | One more request of that factory |
| `LoaderFactories.Browser.Clone` | components/adblock/content/browser/adblock_url_loader_factory.cc:648-651 | One more pipe into the proxy |
| `LoaderFactories.Browser.DestroyHolder` | chrome/browser/adblock/adblock_content_browser_client.cc:76-81 | A holder goes with all its proxies and their ends, and no others |
| `LoaderFactories.Browser.WillCreateURLLoaderFactory` | chrome/browser/adblock/adblock_content_browser_client.cc:311-371 | What arrived at the receiving end passed in now passes Chrome's proxy, if it splices one, and then the ad blocker's, if it intercepts, and arrives at the end handed back; everything else goes its way; true is returned exactly if Chrome's result is true or the ad blocker intercepts, hence, where that result tells whether Chrome spliced, exactly if there is a proxy |
| `LoaderFactories.HeldPath` | chrome/browser/adblock/adblock_content_browser_client.cc:334-371 | The path from the pipe itself consists of just those proxies |
| `LoaderFactories.InExactlyOneHolder` | chrome/browser/adblock/adblock_content_browser_client.cc:142-147 | A living proxy is in exactly one holder |
| `InterceptedRequests.InProgressRequest.BeginStart` | components/adblock/content/browser/adblock_url_loader_factory.cc:522-586 | The history stays a run; the request goes on now exactly if not rewritten, with a target and exempt, is classified exactly if with a target and neither, and the client has been sent at most the internal redirect |
| `InterceptedRequests.InProgressRequest.RequestClassified` | components/adblock/content/browser/adblock_url_loader_factory.cc:588-608 | The history stays a run; the request goes on, for the first time, exactly if it has a target and is not blocked; blocked it is deleted once, and the error is all the client ever got |
| `InterceptedRequests.InProgressRequest.OnReceive` | components/adblock/content/browser/adblock_url_loader_factory.cc:280-306 | The history stays a run; a message has reached the client exactly if it is no redirect and, being a response, exempt; else it waits for its verdict |
| `InterceptedRequests.InProgressRequest.HeadersClassified` | components/adblock/content/browser/adblock_url_loader_factory.cc:308-329 | The history stays a run; the held response, never passed on before, has been exactly if not blocked; blocked the request is deleted, once, with the error last |
| `InterceptedRequests.InProgressRequest.RedirectClassified` | components/adblock/content/browser/adblock_url_loader_factory.cc:479-494 | The history stays a run; the redirect, never passed on before, has been exactly if there is a target and it is not blocked |
| `InterceptedRequests.InProgressRequest.OnClientDisconnected` | components/adblock/content/browser/adblock_url_loader_factory.cc:518-520 | The history stays a run; the error is the last and only one sent, and the request is deleted, once |
| `InterceptedRequests.InProgressRequest.OnBindingClosed` | components/adblock/content/browser/adblock_url_loader_factory.cc:239-244 | The history stays a run; the request lives on exactly if this was the first of the two bindings, and is deleted once |
| `InterceptedRequests.NextKeepsInv` | components/adblock/content/browser/adblock_url_loader_factory.cc:219-608 | Every step keeps: passed on at most once, deleted at most once, no message sent twice, errors last |
| `InterceptedRequests.ForwardedOnlyIfAllowed` | components/adblock/content/browser/adblock_url_loader_factory.cc:522-608 | In every run a request is passed on at most once, and only if it is exempt or its verdict was not to block |
| `InterceptedRequests.PassedOnlyIfAllowed` | components/adblock/content/browser/adblock_url_loader_factory.cc:280-329 | In every run a response reaches the client only if exempt or not blocked by its headers, a redirect only if not blocked |
| `InterceptedRequests.BlockedIsTheEnd` | components/adblock/content/browser/adblock_url_loader_factory.cc:331-335 | In every run a verdict to block is followed by the error and nothing else; the request blocked was never passed on, nor is what was classified |
| `InterceptedRequests.AllowedRequestIsPassedOn` | components/adblock/content/browser/adblock_url_loader_factory.cc:522-608 | In every run a request let through has been passed on just once in every later state |
| `InterceptedRequests.AllowedMessageIsPassedOn` | components/adblock/content/browser/adblock_url_loader_factory.cc:280-329 | In every run a message let through, at once or by its verdict, is in every later state among those passed to the client, at one place only |
| `InterceptedRequests.ToldForAReason` | components/adblock/content/browser/adblock_url_loader_factory.cc:331-335 | In every run an internal redirect is to the rewritten url, the error of a block follows a verdict to block, that of an abort the disconnection of the client |
| `InterceptedRequests.AskedWithRightUrl` | components/adblock/content/browser/adblock_url_loader_factory.cc:470-477 | In every run each classification is asked for with the right url: the request's own, the redirect's own, and for response headers that of the last redirect before |
| `InterceptedRequests.AwaitedIsAsked` | components/adblock/content/browser/adblock_url_loader_factory.cc:337-401 | In every run a verdict is awaited only where one was asked for |
| `InterceptedRequests.PassedAndRemovedOnce` | components/adblock/content/browser/adblock_url_loader_factory.cc:219-608 | In every run no message is passed on twice and the request is deleted at most once |
| `InterceptedRequests.InOrderIff` | components/adblock/content/browser/adblock_url_loader_factory.cc:470-494 | In every run messages reach the client in their order exactly if none is passed on while an earlier redirect is being classified that is let through later |
| `InterceptedRequests.WaitingKeepsOrder` | components/adblock/content/browser/adblock_url_loader_factory.cc:470-494 | With a target that waits for the answer to its redirect the order is kept |
| `InterceptedRequests.OvertakenRedirect` | components/adblock/content/browser/adblock_url_loader_factory.cc:470-494 | A run in which a redirect is overtaken |
| `KeyedServices.ServiceManager.GetServiceForBrowserContext` | chrome/browser/adblock/subscription_service_factory.cc:172-176 | The invariant is kept and the service is there afterwards, for an incognito context that of the original profile; one that was there changes nothing; only what it reaches along declared edges has been built with it; for telemetry the assertion held exactly if the controller or telemetry was there |
| `KeyedServices.ServiceManager.BuildServiceInstanceFor` | chrome/browser/adblock/adblock_controller_factory.cc:60-88 | Entered in the log the service keeps the invariant and comes behind all it asked for; the controller has installed one configuration, enabled as set up; the telemetry assertion held exactly if the controller was there |
| `KeyedServices.ServiceManager.GetAdblockFilteringConfiguration` | chrome/browser/adblock/adblock_telemetry_service_factory.cc:55-66 | Builds the subscription service if need be; found exactly if a configuration of that name is installed, hence exactly if the controller has been built |
| `KeyedServices.ServiceManager.InstallFilteringConfiguration` | components/adblock/core/subscription/subscription_service_impl.cc:65-79 | One configuration more for this profile only; every configuration still has a maintainer exactly while enabled, and with it its metadata; the invariant is kept for any other name |
| `KeyedServices.ServiceManager.OnEnabledStateChanged` | components/adblock/core/subscription/subscription_service_impl.cc:109-129 | The invariant is kept, so configurations have maintainers exactly while enabled; just this one changes, and enabled it finds its metadata |
| `KeyedServices.ServiceManager.CreateBrowserContextServices` | chrome/browser/adblock/adblock_telemetry_service_factory.cc:126-129 | The controller and telemetry, if in the order, are there afterwards and nothing else but what they reach has been built; in an order that respects the declared edges no assertion has failed |
| `KeyedServices.GetKeepsInv` | chrome/browser/adblock/adblock_controller_factory.cc:60-93 | Whatever service is asked for is built, once; only services it reaches along declared edges are built with it |
| `KeyedServices.ControllerInstallsItsConfiguration` | chrome/browser/adblock/adblock_controller_factory.cc:60-88 | Building the controller installs one more configuration, enabled as set up, for its profile only; enabled, its maintainer finds the persistent metadata |
| `KeyedServices.TelemetryFindsItsConfigurationIff` | chrome/browser/adblock/adblock_telemetry_service_factory.cc:55-66 | The assertion of the telemetry builder holds exactly if the profile's controller was built before, or telemetry itself |
| `KeyedServices.TelemetryFirstFails` | chrome/browser/adblock/adblock_telemetry_service_factory.cc:91-103 | Telemetry asked for on demand first fails it |
| `KeyedServices.EagerCreationIsSound` | chrome/browser/adblock/adblock_telemetry_service_factory.cc:80-87 | In every order of construction that respects the declared edges no assertion fails |
| `KeyedServices.EveryUseIsDeclared` | chrome/browser/adblock/subscription_service_factory.cc:184-189 | Whatever is built for a service precedes it in every order that respects the declared edges |
| `KeyedServices.RespectsIff` | chrome/browser/adblock/subscription_service_factory.cc:184-189 | The declared edges one by one: an order respects them exactly if each service comes behind the one named for it |
| `KeyedServices.EveryRunBuildsOnce` | chrome/browser/adblock/subscription_service_factory.cc:191-201 | In every run nothing is built twice for a profile; "adblock" is installed once if the controller has been built and not otherwise; maintainers match; incognito contexts share the services |
| `ControllerSetup.BuildServiceInstanceFor` | chrome/browser/adblock/adblock_controller_factory.cc:60-88 | The configuration that is installed, and stored: switches, then first run, then migration, applied to the stored one; enabled exactly if the old preference says so, or, there being none, it was not stored as disabled and the switch is not given; no old preference is left |
| `ControllerSetup.PersistentFilteringConfiguration.SetEnabled` | components/adblock/core/configuration/persistent_filtering_configuration.cc:131-137 | The state is changed and stored |
| `ControllerSetup.PersistentFilteringConfiguration.AddFilterList` | components/adblock/core/configuration/persistent_filtering_configuration.cc:145-150 | A list is added unless it is there, and stored |
| `ControllerSetup.PersistentFilteringConfiguration.RemoveFilterList` | components/adblock/core/configuration/persistent_filtering_configuration.cc:152-157 | The first occurrence of the list is removed, and that is stored |
| `ControllerSetup.AdblockController.RunFirstRunLogic` | components/adblock/core/adblock_controller_impl.cc:238-259 | On the first run the lists to subscribe to and the recommended ones are added, and it is the first no more |
| `ControllerSetup.AdblockController.InstallLanguageBasedRecommendedSubscriptions` | components/adblock/core/adblock_controller_impl.cc:303-333 | The lists for the language, or, there being none, the default one if known and not to be ignored, are in the configuration afterwards besides those before, and no others |
| `ControllerSetup.AdblockController.MigrateLegacyPrefs` | components/adblock/core/adblock_controller_impl.cc:261-301 | All old preferences are applied and cleared |
| `ControllerSetup.MigrateItemsFromList` | components/adblock/core/adblock_controller_impl.cc:59-73 | The strings of the list, in order |
| `ControllerSetup.EnabledIff` | chrome/browser/adblock/adblock_controller_factory.cc:70-81 | The configuration ends up enabled exactly if the old preference enables it, or, there being none, it was enabled and the switch is not given |
| `ControllerSetup.DomainsAndFiltersAreKept` | components/adblock/core/adblock_controller_impl.cc:288-300 | Allowed domains and custom filters are those before, in place, and the strings of the old preferences |
| `ControllerSetup.MigratedAreStrings` | components/adblock/core/adblock_controller_impl.cc:59-73 | What is migrated of a list is its strings |
| `ControllerSetup.FirstRunListsIff` | components/adblock/core/adblock_controller_impl.cc:243-254 | A list belongs to the first run exactly if a known subscription says so, but Acceptable Ads not against the switch |
| `ControllerSetup.LanguageListsIff` | components/adblock/core/adblock_controller_impl.cc:303-317 | A list is recommended for the language exactly if a known subscription of it says so |
| `ControllerSetup.RecommendedListsIff` | components/adblock/core/adblock_controller_impl.cc:303-333 | A list is recommended exactly if it is for the language, or is the default one, there is none for the language, and a known subscription does not have it ignored |
| `ControllerSetup.DisabledBySwitchIff` | chrome/browser/adblock/adblock_controller_factory.cc:70-81 | With the switch to disable ad blocking the configuration ends up disabled exactly if the old preference does not enable it |
| `ControllerSetup.AcceptableAdsDespiteSwitchIff` | chrome/browser/adblock/adblock_controller_factory.cc:66-81 | With the switch to disable Acceptable Ads their list ends up there exactly if migrated or enabled by an old preference; or, none saying anything, recommended for the language on the first run or listed more than once before; or, forbidden by one, listed more than twice |
| `ControllerSetup.OtherListsAreKept` | chrome/browser/adblock/adblock_controller_factory.cc:60-88 | Every other list is there as often as before, or once if it was not and was migrated or belongs to the first run |
| `ControllerSetup.FilterListsIff` | chrome/browser/adblock/adblock_controller_factory.cc:60-88 | A list other than Acceptable Ads is in the configuration exactly if it was stored, is an entry of the two old preferences, or, on the first run, is to be subscribed to or recommended |
| `ControllerSetup.NextStartChangesNothing` | chrome/browser/adblock/adblock_controller_factory.cc:60-88 | Read anew at the next start without switches the configuration is the same, what a switch disabled included |
| `Abnf.IsSimilarToDoubleABNF` | chrome/browser/client_hints/client_hints_browsertest.cc:197-224 | Accepts exactly 1*DIGIT [ "." 1*DIGIT ] |
| `Abnf.IsSimilarToIntABNF` | chrome/browser/client_hints/client_hints_browsertest.cc:227-236 | Accepts exactly 1*DIGIT |
| `Abnf.IntegersAreDoublesWithoutPeriod` | chrome/browser/client_hints/client_hints_browsertest.cc:195-237 | The second language is the part of the first without a period |
| `AllowedPorts.ApplyExplicitlyAllowedPortSwitch` | chrome/browser/prefs/chrome_command_line_pref_store.cc:190-211 | The list holds the ports of the pieces between commas |
| `AllowedPorts.ListedIff` | chrome/browser/prefs/chrome_command_line_pref_store.cc:200-206 | A port is listed exactly if some piece, trimmed, stands for it |
| `AllowedPorts.ListedInOrder` | chrome/browser/prefs/chrome_command_line_pref_store.cc:200-206 | The list is in the order of the pieces |
| `AllowedPorts.RoundTrip` | chrome/browser/prefs/chrome_command_line_pref_store.cc:190-211 | Any list of ports printed in decimal with commas is read back |
| `AllowedPorts.PaddedPiece` | chrome/browser/prefs/chrome_command_line_pref_store.cc:200-206 | Blanks around a piece make no difference |
| `AllowedPorts.NumberIsPort` | chrome/browser/prefs/chrome_command_line_pref_store.cc:200-206 | A number stands for the port it is, with or without a plus sign; one above 65535 or below zero for none |
| `AllowedPorts.OtherCharactersAreNoPort` | chrome/browser/prefs/chrome_command_line_pref_store.cc:200-206 | A piece with any other character in it stands for none |
| `TestObservers.ThirdPartyURLLoaderInterceptor.InterceptURLRequest` | chrome/browser/client_hints/client_hints_browsertest.cc:154-180 | The counters grow by what an intercepted request brings, those of first visits exactly if no request to the url was seen before, and stay those of all requests seen; a request to another url changes nothing |
| `TestObservers.FirstVisitsAreFewer` | chrome/browser/client_hints/client_hints_browsertest.cc:169-178 | The hints of first visits are among all hints |
| `TestObservers.HintsAreCounted` | chrome/browser/client_hints/client_hints_browsertest.cc:160-168 | The hints of a request are as many as listed names it has headers for |
| `TestObservers.SubscriptionInstalledWaiter.OnSubscriptionInstalled` | chrome/browser/adblock/adblock_filtering_configurations_browsertest.cc:60-66 | What is awaited is what was asked for and not installed since, in order; quit exactly when something was installed and nothing is missing |

## Left out

- Comparison of snippets: compiled out in the source; no mismatch of that type is ever reported.
- The run over given lines (`CompareImplementationAgainstSpecificRequests`, `CheckLines`): it depends on how SQL converts a string.
- The classifier, the conversion of filter lists, downloads, updates and the telemetry client: verdicts and selectors are inputs.
- Element hiding, content security policy and site key lookups of the installed subscription.
- Popup blocking: settled by reading one branch.
- The enforcement levels of tracked preferences, the allowed trace categories and the handler that alternates client hints: each is settled by reading one branch or table.
- The loader used for debugging urls, a compile-time option.
- Urls with credentials, and of schemes without a host; characters beyond ASCII.
- The width of counters and line numbers, which are unbounded here.
- The database, files, threads, logs, clocks and preferences' storage as such.
- Extensions' requests are told apart by a flag, not by parsing their origin.
- Canonical.Sort: the source calls the library's sort; the model inserts one element after the other, and only its result is used.
- WebSockets.NextKeepsInv: the client changes nothing of its own here, so the steps are functions on values.
- InterceptedRequests.NextKeepsInv: that a factory deletes a request of its own is the precondition of LoaderFactories.Browser.RemoveRequest; the two models are not composed.
- KeyedServices.EagerCreationIsSound: which services are created with a profile is fixed to the controller and telemetry, as in the factories shown.
