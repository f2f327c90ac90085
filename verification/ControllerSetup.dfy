/** How the controller's builder sets up a profile's own filtering configuration
    (chrome/browser/adblock/adblock_controller_factory.cc 60-88): command line switches, the first
    run and the migration of old preferences
    (components/adblock/core/adblock_controller_impl.cc 59-82 and 238-333), on a configuration kept
    in preferences (components/adblock/core/configuration/persistent_filtering_configuration.cc). */
module ControllerSetup {
  import opened Text

  /** A value in a list of preferences, which need not be a string. */
  datatype Value = Str(s: string) | NotStr

  /** A configuration as stored; any key may be missing. */
  datatype Raw = Raw(enabled: Option<bool>, filterLists: Option<seq<Value>>, domains: Option<seq<Value>>,
      filters: Option<seq<Value>>)

  datatype Settings = Settings(enabled: bool, filterLists: seq<Value>, domains: seq<Value>, filters: seq<Value>)

  datatype FirstRunBehavior = Subscribe | SubscribeIfLocaleMatch | Ignore

  datatype KnownSubscription = KnownSubscription(url: string, firstRun: FirstRunBehavior, languages: seq<string>)

  /** What the builder finds besides preferences. */
  datatype Environment = Environment(disableAdblock: bool, disableAcceptableAds: bool, language: string,
                                     known: seq<KnownSubscription>, acceptableAdsUrl: string, defaultUrl: string)

  /** The old preferences; none where the user has no setting. */
  datatype LegacyPrefs = LegacyPrefs(installFirstStart: bool, acceptableAds: Option<bool>, enabled: Option<bool>,
                                     customSubscriptions: Option<seq<Value>>, subscriptions: Option<seq<Value>>,
                                     domains: Option<seq<Value>>, filters: Option<seq<Value>>)

  // ----- The configuration -----

  function ListOf(list: Option<seq<Value>>): seq<Value> {
    if list.Some? then list.value else []
  }

  function WithDefaults(raw: Raw): Settings {
    Settings(if raw.enabled.Some? then raw.enabled.value else true, ListOf(raw.filterLists), ListOf(raw.domains),
        ListOf(raw.filters))
  }

  function Stored(settings: Settings): Raw {
    Raw(Some(settings.enabled), Some(settings.filterLists), Some(settings.domains), Some(settings.filters))
  }

  /** A value is listed at most once. */
  function AppendTo(list: seq<Value>, v: Value): seq<Value> {
    if v in list then list else list + [v]
  }

  function RemoveFrom(list: seq<Value>, v: Value): seq<Value> {
    if list == [] then []
    else if list[0] == v then list[1..]
    else [list[0]] + RemoveFrom(list[1..], v)
  }

  function AppendAll(list: seq<Value>, vs: seq<Value>): seq<Value>
    decreases |vs|
  {
    if vs == [] then list else AppendAll(AppendTo(list, vs[0]), vs[1..])
  }

  class PersistentFilteringConfiguration {
    var dictionary: Settings
    var stored: Raw

    /** The stored configuration, read anew, is this one. */
    ghost predicate Valid()
      reads this
    {
      WithDefaults(stored) == dictionary
    }

    constructor (stored: Raw)
      ensures Valid() && this.stored == stored && dictionary == WithDefaults(stored)
    {
      this.stored := stored;
      dictionary := WithDefaults(stored);
    }

    method PersistToPrefs()
      modifies this`stored
      ensures Valid()
    {
      stored := Stored(dictionary);
    }

    method SetEnabled(enabled: bool)
      requires Valid()
      modifies this
      ensures Valid() && dictionary == old(dictionary).(enabled := enabled)
    {
      if dictionary.enabled == enabled {
        return;
      }
      dictionary := dictionary.(enabled := enabled);
      PersistToPrefs();
    }

    method AddFilterList(url: string)
      requires Valid()
      modifies this
      ensures Valid() && dictionary == old(dictionary).(filterLists := AppendTo(old(dictionary.filterLists), Str(url)))
    {
      if Str(url) !in dictionary.filterLists {
        dictionary := dictionary.(filterLists := dictionary.filterLists + [Str(url)]);
        PersistToPrefs();
      }
    }

    method RemoveFilterList(url: string)
      requires Valid()
      modifies this
      ensures Valid() && dictionary ==
          old(dictionary).(filterLists := RemoveFrom(old(dictionary.filterLists), Str(url)))
    {
      var list := dictionary.filterLists;
      var i := 0;
      while i < |list| && list[i] != Str(url)
        invariant 0 <= i <= |list|
        invariant Str(url) !in list[..i]
      {
        i := i + 1;
      }
      RemoveFromAt(list, i, Str(url));
      if i < |list| {
        dictionary := dictionary.(filterLists := list[..i] + list[i + 1..]);
        PersistToPrefs();
      }
    }

    method AddAllowedDomain(domain: string)
      requires Valid()
      modifies this
      ensures Valid() && dictionary == old(dictionary).(domains := AppendTo(old(dictionary.domains), Str(domain)))
    {
      if Str(domain) !in dictionary.domains {
        dictionary := dictionary.(domains := dictionary.domains + [Str(domain)]);
        PersistToPrefs();
      }
    }

    method AddCustomFilter(filter: string)
      requires Valid()
      modifies this
      ensures Valid() && dictionary == old(dictionary).(filters := AppendTo(old(dictionary.filters), Str(filter)))
    {
      if Str(filter) !in dictionary.filters {
        dictionary := dictionary.(filters := dictionary.filters + [Str(filter)]);
        PersistToPrefs();
      }
    }
  }

  /** The first occurrence is taken out. */
  lemma {:induction false} RemoveFromAt(list: seq<Value>, i: nat, v: Value)
    requires i <= |list| && v !in list[..i] && (i < |list| ==> list[i] == v)
    ensures RemoveFrom(list, v) == if i < |list| then list[..i] + list[i + 1..] else list
  {
    if i > 0 {
      CutFirst(list, i, v);
      RemoveFromAt(list[1..], i - 1, v);
      if i < |list| { CutBehindFirst(list, i); }
    }
  }

  lemma CutFirst(list: seq<Value>, i: nat, v: Value)
    requires 0 < i <= |list| && v !in list[..i]
    ensures list[0] != v && v !in list[1..][..i - 1] && list == [list[0]] + list[1..]
  {
    assert list[..i] == [list[0]] + list[1..][..i - 1];
  }

  lemma CutBehindFirst(list: seq<Value>, i: nat)
    requires 0 < i < |list|
    ensures [list[0]] + (list[1..][..i - 1] + list[1..][i..]) == list[..i] + list[i + 1..]
  {
  }

  // ----- What is to be set up -----

  function Strings(list: seq<Value>): seq<Value> {
    if list == [] then [] else (if list[0].Str? then [list[0]] else []) + Strings(list[1..])
  }

  /** The entries an old list preference brings. */
  function Migrated(list: Option<seq<Value>>): seq<Value> {
    Strings(ListOf(list))
  }

  predicate IsFirstRunList(k: KnownSubscription, env: Environment) {
    k.firstRun == Subscribe && !(k.url == env.acceptableAdsUrl && env.disableAcceptableAds)
  }

  function FirstRunLists(known: seq<KnownSubscription>, env: Environment): seq<Value> {
    if known == [] then []
    else (if IsFirstRunList(known[0], env) then [Str(known[0].url)] else []) + FirstRunLists(known[1..], env)
  }

  predicate IsForLanguage(k: KnownSubscription, language: string) {
    k.firstRun == SubscribeIfLocaleMatch && language in k.languages
  }

  function LanguageLists(known: seq<KnownSubscription>, language: string): seq<Value> {
    if known == [] then []
    else (if IsForLanguage(known[0], language) then [Str(known[0].url)] else []) + LanguageLists(known[1..], language)
  }

  predicate IsDefaultKnown(known: seq<KnownSubscription>, defaultUrl: string) {
    exists k | k in known :: k.url == defaultUrl && k.firstRun != Ignore
  }

  /** Those for the language, or else the default one. */
  function RecommendedLists(env: Environment): seq<Value> {
    var lists := LanguageLists(env.known, env.language);
    if lists == [] && IsDefaultKnown(env.known, env.defaultUrl) then [Str(env.defaultUrl)] else lists
  }

  function AfterSwitches(s: Settings, env: Environment): Settings {
    var s := if env.disableAcceptableAds then s.(filterLists := RemoveFrom(s.filterLists, Str(env.acceptableAdsUrl)))
        else s;
    if env.disableAdblock then s.(enabled := false) else s
  }

  function AfterFirstRun(s: Settings, env: Environment, isFirstRun: bool): Settings {
    if isFirstRun then
      s.(filterLists := AppendAll(AppendAll(s.filterLists, FirstRunLists(env.known, env)), RecommendedLists(env)))
    else s
  }

  function AfterAcceptableAds(s: Settings, env: Environment, acceptableAds: Option<bool>): Settings {
    if acceptableAds.None? then s
    else if acceptableAds.value then s.(filterLists := AppendTo(s.filterLists, Str(env.acceptableAdsUrl)))
    else s.(filterLists := RemoveFrom(s.filterLists, Str(env.acceptableAdsUrl)))
  }

  function AfterMigration(s: Settings, env: Environment, prefs: LegacyPrefs): Settings {
    var s1 := AfterAcceptableAds(s, env, prefs.acceptableAds);
    Settings(if prefs.enabled.Some? then prefs.enabled.value else s1.enabled,
             AppendAll(AppendAll(s1.filterLists, Migrated(prefs.customSubscriptions)), Migrated(prefs.subscriptions)),
             AppendAll(s1.domains, Migrated(prefs.domains)),
             AppendAll(s1.filters, Migrated(prefs.filters)))
  }

  function SetUp(s: Settings, env: Environment, prefs: LegacyPrefs): Settings {
    AfterMigration(AfterFirstRun(AfterSwitches(s, env), env, prefs.installFirstStart), env, prefs)
  }

  /** Nothing is left to migrate. */
  const MIGRATED_PREFS := LegacyPrefs(false, None, None, None, None, None, None)

  // ----- The builder -----

  class PrefService {
    var legacy: LegacyPrefs

    constructor (legacy: LegacyPrefs)
      ensures this.legacy == legacy
    {
      this.legacy := legacy;
    }
  }

  class AdblockController {
    const configuration: PersistentFilteringConfiguration
    const env: Environment

    constructor (configuration: PersistentFilteringConfiguration, env: Environment)
      ensures this.configuration == configuration && this.env == env
    {
      this.configuration := configuration;
      this.env := env;
    }

    method InstallAll(urls: seq<Value>)
      requires configuration.Valid() && forall u | u in urls :: u.Str?
      modifies configuration
      ensures configuration.Valid()
      ensures configuration.dictionary ==
          old(configuration.dictionary).(filterLists := AppendAll(old(configuration.dictionary.filterLists), urls))
    {
      for i := 0 to |urls|
        invariant configuration.Valid()
        invariant configuration.dictionary.(filterLists := AppendAll(configuration.dictionary.filterLists, urls[i..]))
               == old(configuration.dictionary).(filterLists :=
                    AppendAll(old(configuration.dictionary.filterLists), urls))
      {
        assert urls[i..][0] == urls[i] && urls[i..][1..] == urls[i + 1..];
        configuration.AddFilterList(urls[i].s);
      }
    }

    method RunFirstRunLogic(prefs: PrefService)
      requires configuration.Valid()
      modifies configuration, prefs
      ensures configuration.Valid()
      ensures configuration.dictionary ==
          AfterFirstRun(old(configuration.dictionary), env, old(prefs.legacy.installFirstStart))
      ensures prefs.legacy == old(prefs.legacy).(installFirstStart := false)
    {
      if prefs.legacy.installFirstStart {
        ghost var target := AppendAll(configuration.dictionary.filterLists, FirstRunLists(env.known, env));
        for i := 0 to |env.known|
          invariant configuration.Valid() && prefs.legacy == old(prefs.legacy)
          invariant AppendAll(configuration.dictionary.filterLists, FirstRunLists(env.known[i..], env)) == target
          invariant configuration.dictionary ==
              old(configuration.dictionary).(filterLists := configuration.dictionary.filterLists)
        {
          var cur := env.known[i];
          assert env.known[i..][0] == cur && env.known[i..][1..] == env.known[i + 1..];
          AppendAllOfFirst(configuration.dictionary.filterLists, Str(cur.url), FirstRunLists(env.known[i + 1..], env));
          if cur.firstRun == Subscribe && !(cur.url == env.acceptableAdsUrl && env.disableAcceptableAds) {
            configuration.AddFilterList(cur.url);
          }
        }
        InstallLanguageBasedRecommendedSubscriptions();
        prefs.legacy := prefs.legacy.(installFirstStart := false);
      }
    }

    method InstallLanguageBasedRecommendedSubscriptions()
      requires configuration.Valid()
      modifies configuration
      ensures configuration.Valid()
      ensures configuration.dictionary ==
          old(configuration.dictionary).(filterLists :=
            AppendAll(old(configuration.dictionary.filterLists), RecommendedLists(env)))
      ensures forall url :: Str(url) in configuration.dictionary.filterLists <==>
                Str(url) in old(configuration.dictionary.filterLists) || IsRecommended(env, url)
    {
      RecommendedAdded(configuration.dictionary.filterLists, env);
      var installed := false;
      ghost var lists := LanguageLists(env.known, env.language);
      ghost var target := AppendAll(configuration.dictionary.filterLists, lists);
      for i := 0 to |env.known|
        invariant configuration.Valid()
        invariant AppendAll(configuration.dictionary.filterLists, LanguageLists(env.known[i..], env.language)) == target
        invariant configuration.dictionary ==
            old(configuration.dictionary).(filterLists := configuration.dictionary.filterLists)
        invariant !installed ==> LanguageLists(env.known[i..], env.language) == lists
        invariant !installed ==> configuration.dictionary == old(configuration.dictionary)
        invariant installed ==> lists != []
      {
        var subscription := env.known[i];
        assert env.known[i..][0] == subscription && env.known[i..][1..] == env.known[i + 1..];
        AppendAllOfFirst(configuration.dictionary.filterLists, Str(subscription.url),
            LanguageLists(env.known[i + 1..], env.language));
        if IsForLanguage(subscription, env.language) {
          installed := true;
          configuration.AddFilterList(subscription.url);
        }
      }
      if installed {
        return;
      }
      AppendAllOfFirst(configuration.dictionary.filterLists, Str(env.defaultUrl), []);
      if IsDefaultKnown(env.known, env.defaultUrl) {
        configuration.AddFilterList(env.defaultUrl);
      }
    }

    method MigrateLegacyPrefs(prefs: PrefService)
      requires configuration.Valid()
      modifies configuration, prefs
      ensures configuration.Valid()
      ensures configuration.dictionary == AfterMigration(old(configuration.dictionary), env, old(prefs.legacy))
      ensures prefs.legacy == MIGRATED_PREFS.(installFirstStart := old(prefs.legacy.installFirstStart))
    {
      var legacy := prefs.legacy;
      if legacy.acceptableAds.Some? {
        if legacy.acceptableAds.value {
          configuration.AddFilterList(env.acceptableAdsUrl);
        } else {
          configuration.RemoveFilterList(env.acceptableAdsUrl);
        }
      }
      if legacy.enabled.Some? {
        configuration.SetEnabled(legacy.enabled.value);
      }
      var lists := MigrateItemsFromList(legacy.customSubscriptions);
      InstallAll(lists);
      lists := MigrateItemsFromList(legacy.subscriptions);
      InstallAll(lists);
      var domains := MigrateItemsFromList(legacy.domains);
      AddDomains(domains);
      var filters := MigrateItemsFromList(legacy.filters);
      AddFilters(filters);
      prefs.legacy := MIGRATED_PREFS.(installFirstStart := legacy.installFirstStart);
    }

    method AddDomains(domains: seq<Value>)
      requires configuration.Valid() && forall u | u in domains :: u.Str?
      modifies configuration
      ensures configuration.Valid()
      ensures configuration.dictionary ==
          old(configuration.dictionary).(domains := AppendAll(old(configuration.dictionary.domains), domains))
    {
      for i := 0 to |domains|
        invariant configuration.Valid()
        invariant configuration.dictionary.(domains := AppendAll(configuration.dictionary.domains, domains[i..]))
               == old(configuration.dictionary).(domains := AppendAll(old(configuration.dictionary.domains), domains))
      {
        assert domains[i..][0] == domains[i] && domains[i..][1..] == domains[i + 1..];
        configuration.AddAllowedDomain(domains[i].s);
      }
    }

    method AddFilters(filters: seq<Value>)
      requires configuration.Valid() && forall u | u in filters :: u.Str?
      modifies configuration
      ensures configuration.Valid()
      ensures configuration.dictionary ==
          old(configuration.dictionary).(filters := AppendAll(old(configuration.dictionary.filters), filters))
    {
      for i := 0 to |filters|
        invariant configuration.Valid()
        invariant configuration.dictionary.(filters := AppendAll(configuration.dictionary.filters, filters[i..]))
               == old(configuration.dictionary).(filters := AppendAll(old(configuration.dictionary.filters), filters))
      {
        assert filters[i..][0] == filters[i] && filters[i..][1..] == filters[i + 1..];
        configuration.AddCustomFilter(filters[i].s);
      }
    }
  }

  method MigrateItemsFromList(list: Option<seq<Value>>) returns (results: seq<Value>)
    ensures results == Migrated(list) && forall v | v in results :: v.Str?
  {
    results := [];
    if list.Some? {
      ghost var all := Migrated(list);
      for i := 0 to |list.value|
        invariant results + Strings(list.value[i..]) == all
      {
        StringsFrom(results, list.value, i);
        if list.value[i].Str? {
          results := results + [list.value[i]];
        }
      }
    }
    StringsAreStrings(ListOf(list));
  }

  lemma StringsFrom(results: seq<Value>, list: seq<Value>, i: nat)
    requires i < |list|
    ensures results + Strings(list[i..]) ==
        (if list[i].Str? then results + [list[i]] else results) + Strings(list[i + 1..])
  {
    assert list[i..][1..] == list[i + 1..];
  }

  lemma {:induction false} StringsAreStrings(list: seq<Value>)
    ensures forall v | v in Strings(list) :: v.Str?
  {
    if list != [] { StringsAreStrings(list[1..]); }
  }

  /** Builds the controller of a profile; its configuration is then ready to be installed. */
  method BuildServiceInstanceFor(stored: Raw, prefs: PrefService, env: Environment)
    returns (controller: AdblockController)
    modifies prefs
    ensures fresh(controller.configuration) && controller.configuration.Valid()
    ensures controller.configuration.dictionary == SetUp(WithDefaults(stored), env, old(prefs.legacy))
    ensures WithDefaults(controller.configuration.stored) == controller.configuration.dictionary
    ensures controller.configuration.dictionary.enabled <==>
              || old(prefs.legacy.enabled) == Some(true)
              || (old(prefs.legacy.enabled).None? && stored.enabled != Some(false) && !env.disableAdblock)
    ensures prefs.legacy == LegacyPrefs(false, None, None, None, None, None, None)
  {
    var configuration := new PersistentFilteringConfiguration(stored);
    if env.disableAcceptableAds {
      configuration.RemoveFilterList(env.acceptableAdsUrl);
    }
    if env.disableAdblock {
      configuration.SetEnabled(false);
    }
    controller := new AdblockController(configuration, env);
    controller.RunFirstRunLogic(prefs);
    controller.MigrateLegacyPrefs(prefs);
  }

  lemma AppendAllOfFirst(list: seq<Value>, v: Value, rest: seq<Value>)
    ensures AppendAll(list, [v] + rest) == AppendAll(AppendTo(list, v), rest)
    ensures AppendAll(list, [] + rest) == AppendAll(list, rest)
  {
    assert ([v] + rest)[1..] == rest && [] + rest == rest;
  }

  // ----- What the setup comes to -----

  /** The configuration ends up enabled exactly if the old preference enables it, or, there being
      none, it was enabled and the switch is not given. */
  lemma EnabledIff(s: Settings, env: Environment, prefs: LegacyPrefs)
    ensures SetUp(s, env, prefs).enabled <==>
              prefs.enabled == Some(true) || (prefs.enabled.None? && s.enabled && !env.disableAdblock)
  {
  }

  /** With the switch to disable ad blocking the configuration ends up disabled exactly if the old
      preference does not enable it, for that is migrated after the switch has been applied. */
  lemma DisabledBySwitchIff(s: Settings, env: Environment, prefs: LegacyPrefs)
    requires env.disableAdblock
    ensures !SetUp(s, env, prefs).enabled <==> prefs.enabled != Some(true)
  {
    EnabledIff(s, env, prefs);
  }

  lemma SwitchesKeepRest(s: Settings, env: Environment)
    ensures AfterSwitches(s, env).domains == s.domains && AfterSwitches(s, env).filters == s.filters
  {
  }

  lemma FirstRunKeepsRest(s: Settings, env: Environment, isFirstRun: bool)
    ensures AfterFirstRun(s, env, isFirstRun).domains == s.domains
        && AfterFirstRun(s, env, isFirstRun).filters == s.filters
  {
  }

  lemma RestMigrated(s: Settings, env: Environment, prefs: LegacyPrefs, v: Value)
    ensures v in AfterMigration(s, env, prefs).domains <==> v in s.domains || IsMigratedFrom(prefs.domains, v)
    ensures v in AfterMigration(s, env, prefs).filters <==> v in s.filters || IsMigratedFrom(prefs.filters, v)
    ensures s.domains <= AfterMigration(s, env, prefs).domains && s.filters <= AfterMigration(s, env, prefs).filters
  {
    InAppendAll(s.domains, Migrated(prefs.domains), v);
    InAppendAll(s.filters, Migrated(prefs.filters), v);
    MigratedIff(prefs.domains, v);
    MigratedIff(prefs.filters, v);
    AppendAllExtends(s.domains, Migrated(prefs.domains));
    AppendAllExtends(s.filters, Migrated(prefs.filters));
  }

  /** What is listed stays where it is. */
  lemma {:induction false} AppendAllExtends(list: seq<Value>, vs: seq<Value>)
    ensures list <= AppendAll(list, vs)
    decreases |vs|
  {
    if vs != [] { AppendAllExtends(AppendTo(list, vs[0]), vs[1..]); }
  }

  /** Allowed domains and custom filters are those before, in place, and the strings migrated. */
  lemma DomainsAndFiltersAreKept(s: Settings, env: Environment, prefs: LegacyPrefs, v: Value)
    ensures v in SetUp(s, env, prefs).domains <==> v in s.domains || IsMigratedFrom(prefs.domains, v)
    ensures v in SetUp(s, env, prefs).filters <==> v in s.filters || IsMigratedFrom(prefs.filters, v)
    ensures s.domains <= SetUp(s, env, prefs).domains && s.filters <= SetUp(s, env, prefs).filters
  {
    SwitchesKeepRest(s, env);
    FirstRunKeepsRest(AfterSwitches(s, env), env, prefs.installFirstStart);
    RestMigrated(AfterFirstRun(AfterSwitches(s, env), env, prefs.installFirstStart), env, prefs, v);
  }

  lemma {:induction false} MigratedAreStrings(list: seq<Value>, v: Value)
    ensures v in Strings(list) <==> v in list && v.Str?
  {
    if list != [] {
      MigratedAreStrings(list[1..], v);
      assert list == [list[0]] + list[1..];
    }
  }

  /** The lists of the first run: those to subscribe to, but not Acceptable Ads against the switch. */
  lemma {:induction false} FirstRunListsIff(known: seq<KnownSubscription>, env: Environment, url: string)
    ensures Str(url) in FirstRunLists(known, env) <==>
              (exists k :: k in known && k.url == url && k.firstRun == Subscribe)
              && !(url == env.acceptableAdsUrl && env.disableAcceptableAds)
  {
    if known != [] {
      FirstRunListsIff(known[1..], env, url);
      assert known == [known[0]] + known[1..];
    }
  }

  lemma {:induction false} LanguageListsIff(known: seq<KnownSubscription>, language: string, url: string)
    ensures Str(url) in LanguageLists(known, language) <==>
              exists k :: k in known && k.url == url && k.firstRun == SubscribeIfLocaleMatch && language in k.languages
  {
    if known != [] {
      LanguageListsIff(known[1..], language, url);
      assert known == [known[0]] + known[1..];
    }
  }

  // ----- What is asked for, in terms of the preferences and the known subscriptions -----

  /** A list to subscribe to anyway, but not Acceptable Ads against the switch. */
  ghost predicate IsSubscribed(env: Environment, url: string) {
    && (exists k :: k in env.known && k.url == url && k.firstRun == Subscribe)
    && !(url == env.acceptableAdsUrl && env.disableAcceptableAds)
  }

  ghost predicate HasListForLanguage(env: Environment, url: string) {
    exists k :: k in env.known && k.url == url && k.firstRun == SubscribeIfLocaleMatch && env.language in k.languages
  }

  /** A list for the language; the default one if there is none for it and it is not to be ignored. */
  ghost predicate IsRecommended(env: Environment, url: string) {
    || HasListForLanguage(env, url)
    || (url == env.defaultUrl && (forall other :: !HasListForLanguage(env, other))
        && exists k :: k in env.known && k.url == url && k.firstRun != Ignore)
  }

  lemma RecommendedListsIff(env: Environment, url: string)
    ensures Str(url) in RecommendedLists(env) <==> IsRecommended(env, url)
  {
    var lists := LanguageLists(env.known, env.language);
    forall other
      ensures Str(other) in lists <==> HasListForLanguage(env, other)
    {
      LanguageListsIff(env.known, env.language, other);
    }
    ListsAreStrings(env);
    if lists != [] { assert HasListForLanguage(env, lists[0].s); }
  }

  lemma RecommendedAdded(lists: seq<Value>, env: Environment)
    ensures forall url :: Str(url) in AppendAll(lists, RecommendedLists(env)) <==>
              Str(url) in lists || IsRecommended(env, url)
  {
    forall url
      ensures Str(url) in AppendAll(lists, RecommendedLists(env)) <==> Str(url) in lists || IsRecommended(env, url)
    {
      InAppendAll(lists, RecommendedLists(env), Str(url));
      RecommendedListsIff(env, url);
    }
  }

  lemma ListsAreStrings(env: Environment)
    ensures forall v | v in FirstRunLists(env.known, env) || v in LanguageLists(env.known, env.language) :: v.Str?
  {
    KnownAreStrings(env.known, env);
  }

  lemma {:induction false} KnownAreStrings(known: seq<KnownSubscription>, env: Environment)
    ensures forall v | v in FirstRunLists(known, env) || v in LanguageLists(known, env.language) :: v.Str?
  {
    if known != [] { KnownAreStrings(known[1..], env); }
  }

  /** An entry of an old list preference that is a string. */
  ghost predicate IsMigratedFrom(list: Option<seq<Value>>, v: Value) {
    list.Some? && v in list.value && v.Str?
  }

  lemma MigratedIff(list: Option<seq<Value>>, v: Value)
    ensures v in Migrated(list) <==> IsMigratedFrom(list, v)
  {
    MigratedAreStrings(ListOf(list), v);
  }

  lemma {:induction false} InAppendAll(list: seq<Value>, vs: seq<Value>, v: Value)
    ensures v in AppendAll(list, vs) <==> v in list || v in vs
    decreases |vs|
  {
    if vs != [] {
      InAppendAll(AppendTo(list, vs[0]), vs[1..], v);
    }
  }

  /** How often a value is listed. Stored lists are read as they are, repetitions included. */
  function Times(list: seq<Value>, v: Value): nat {
    if list == [] then 0 else (if list[0] == v then 1 else 0) + Times(list[1..], v)
  }

  lemma {:induction false} ListedIffTimes(list: seq<Value>, v: Value)
    ensures v in list <==> 0 < Times(list, v)
  {
    if list != [] {
      ListedIffTimes(list[1..], v);
      assert list == [list[0]] + list[1..];
    }
  }

  lemma {:induction false} TimesOneMore(list: seq<Value>, x: Value, v: Value)
    ensures Times(list + [x], v) == Times(list, v) + if x == v then 1 else 0
  {
    if list == [] {
      assert list + [x] == [x] && [x][1..] == [];
    } else {
      assert (list + [x])[0] == list[0] && (list + [x])[1..] == list[1..] + [x];
      TimesOneMore(list[1..], x, v);
    }
  }

  /** One occurrence goes, of several the others stay. */
  lemma {:induction false} TimesOfRemoved(list: seq<Value>, x: Value, v: Value)
    ensures Times(RemoveFrom(list, x), v) == if v == x && 0 < Times(list, v) then Times(list, v) - 1 else Times(list, v)
  {
    if list != [] && list[0] != x {
      var rest := RemoveFrom(list[1..], x);
      TimesOfRemoved(list[1..], x, v);
      assert ([list[0]] + rest)[1..] == rest;
    }
  }

  /** A value that is not listed is, once, after adding it; no other count changes. */
  lemma {:induction false} TimesOfAppended(list: seq<Value>, vs: seq<Value>, v: Value)
    ensures Times(AppendAll(list, vs), v) == Kept(Times(list, v), v in vs)
    decreases |vs|
  {
    if vs != [] {
      TimesOfAppended(AppendTo(list, vs[0]), vs[1..], v);
      TimesOneMore(list, vs[0], v);
      ListedIffTimes(list, v);
    }
  }

  function Kept(times: nat, added: bool): nat {
    if times == 0 && added then 1 else times
  }

  lemma TimesOfBoth(list: seq<Value>, a: seq<Value>, b: seq<Value>, v: Value)
    ensures Times(AppendAll(AppendAll(list, a), b), v) == Kept(Times(list, v), v in a || v in b)
  {
    TimesOfAppended(list, a, v);
    TimesOfAppended(AppendAll(list, a), b, v);
  }

  lemma SwitchedLists(s: Settings, env: Environment, v: Value)
    ensures var times := Times(s.filterLists, v);
            Times(AfterSwitches(s, env).filterLists, v) ==
            if env.disableAcceptableAds && v == Str(env.acceptableAdsUrl) && 0 < times then times - 1 else times
  {
    TimesOfRemoved(s.filterLists, Str(env.acceptableAdsUrl), v);
  }

  /** A list the first run installs. */
  ghost predicate IsOfFirstRun(env: Environment, isFirstRun: bool, v: Value) {
    isFirstRun && v.Str? && (IsSubscribed(env, v.s) || IsRecommended(env, v.s))
  }

  lemma OfFirstRunIff(env: Environment, v: Value)
    ensures v in FirstRunLists(env.known, env) || v in RecommendedLists(env) <==> IsOfFirstRun(env, true, v)
  {
    ListsAreStrings(env);
    if v.Str? {
      FirstRunListsIff(env.known, env, v.s);
      RecommendedListsIff(env, v.s);
    }
  }

  lemma FirstRunListsAdded(s: Settings, env: Environment, isFirstRun: bool, v: Value)
    ensures Times(AfterFirstRun(s, env, isFirstRun).filterLists, v) ==
        Kept(Times(s.filterLists, v), IsOfFirstRun(env, isFirstRun, v))
  {
    TimesOfBoth(s.filterLists, FirstRunLists(env.known, env), RecommendedLists(env), v);
    OfFirstRunIff(env, v);
  }

  ghost predicate IsMigrated(prefs: LegacyPrefs, v: Value) {
    IsMigratedFrom(prefs.customSubscriptions, v) || IsMigratedFrom(prefs.subscriptions, v)
  }

  lemma ListsMigrated(s: Settings, env: Environment, prefs: LegacyPrefs, v: Value)
    ensures Times(AfterMigration(s, env, prefs).filterLists, v) ==
            Kept(Times(AfterAcceptableAds(s, env, prefs.acceptableAds).filterLists, v), IsMigrated(prefs, v))
  {
    TimesOfBoth(AfterAcceptableAds(s, env, prefs.acceptableAds).filterLists, Migrated(prefs.customSubscriptions),
                Migrated(prefs.subscriptions), v);
    MigratedIff(prefs.customSubscriptions, v);
    MigratedIff(prefs.subscriptions, v);
  }

  lemma AcceptableAdsSet(s: Settings, env: Environment, acceptableAds: Option<bool>, v: Value)
    ensures var times := Times(s.filterLists, v);
            Times(AfterAcceptableAds(s, env, acceptableAds).filterLists, v) ==
            if v != Str(env.acceptableAdsUrl) || acceptableAds.None? then times
            else if acceptableAds.value then Kept(times, true)
            else if 0 < times then times - 1 else 0
  {
    var aa := Str(env.acceptableAdsUrl);
    TimesOfRemoved(s.filterLists, aa, v);
    TimesOneMore(s.filterLists, aa, v);
    ListedIffTimes(s.filterLists, aa);
  }

  /** With the switch to disable Acceptable Ads their list ends up in the configuration exactly if
      an old preference asks for it; or, none saying anything, if the first run recommends it for the
      language or it was listed more than once; or, one forbidding it, if it was listed more than
      twice, for the switch and the preference take out one occurrence each. */
  lemma AcceptableAdsDespiteSwitchIff(s: Settings, env: Environment, prefs: LegacyPrefs)
    requires env.disableAcceptableAds
    ensures var aa := Str(env.acceptableAdsUrl);
            aa in SetUp(s, env, prefs).filterLists <==>
              || IsMigrated(prefs, aa) || prefs.acceptableAds == Some(true)
              || (prefs.acceptableAds.None? &&
                  (2 <= Times(s.filterLists, aa)
                   || (prefs.installFirstStart && IsRecommended(env, env.acceptableAdsUrl))))
              || (prefs.acceptableAds == Some(false) && 3 <= Times(s.filterLists, aa))
  {
    var aa := Str(env.acceptableAdsUrl);
    TimesOfSetUp(s, env, prefs, aa);
    ListedIffTimes(SetUp(s, env, prefs).filterLists, aa);
  }

  lemma TimesOfSetUp(s: Settings, env: Environment, prefs: LegacyPrefs, v: Value)
    ensures var s1 := AfterSwitches(s, env);
            var s2 := AfterFirstRun(s1, env, prefs.installFirstStart);
            && Times(s2.filterLists, v) == Kept(Times(s1.filterLists, v), IsOfFirstRun(env, prefs.installFirstStart, v))
            && Times(SetUp(s, env, prefs).filterLists, v) ==
               Kept(Times(AfterAcceptableAds(s2, env, prefs.acceptableAds).filterLists, v), IsMigrated(prefs, v))
    ensures var s1, times := AfterSwitches(s, env), Times(s.filterLists, v);
            Times(s1.filterLists, v) ==
            if env.disableAcceptableAds && v == Str(env.acceptableAdsUrl) && 0 < times then times - 1 else times
    ensures var s2 := AfterFirstRun(AfterSwitches(s, env), env, prefs.installFirstStart);
            var times := Times(s2.filterLists, v);
            Times(AfterAcceptableAds(s2, env, prefs.acceptableAds).filterLists, v) ==
            if v != Str(env.acceptableAdsUrl) || prefs.acceptableAds.None? then times
            else if prefs.acceptableAds.value then Kept(times, true)
            else if 0 < times then times - 1 else 0
  {
    var s1 := AfterSwitches(s, env);
    var s2 := AfterFirstRun(s1, env, prefs.installFirstStart);
    SwitchedLists(s, env, v);
    FirstRunListsAdded(s1, env, prefs.installFirstStart, v);
    AcceptableAdsSet(s2, env, prefs.acceptableAds, v);
    ListsMigrated(s2, env, prefs, v);
  }

  /** Every other list is in the configuration as often as before, or once if it was not and was
      migrated or belongs to the first run. */
  lemma OtherListsAreKept(s: Settings, env: Environment, prefs: LegacyPrefs, v: Value)
    requires v != Str(env.acceptableAdsUrl)
    ensures Times(SetUp(s, env, prefs).filterLists, v) ==
            Kept(Times(s.filterLists, v), IsMigrated(prefs, v) || IsOfFirstRun(env, prefs.installFirstStart, v))
  {
    TimesOfSetUp(s, env, prefs, v);
  }

  /** So of a configuration read from preferences, where a missing list is empty, just these lists
      are in it afterwards. */
  lemma FilterListsIff(stored: Raw, env: Environment, prefs: LegacyPrefs, url: string)
    requires url != env.acceptableAdsUrl
    ensures Str(url) in SetUp(WithDefaults(stored), env, prefs).filterLists <==>
              || (stored.filterLists.Some? && Str(url) in stored.filterLists.value)
              || IsMigratedFrom(prefs.customSubscriptions, Str(url)) || IsMigratedFrom(prefs.subscriptions, Str(url))
              || (prefs.installFirstStart && (IsSubscribed(env, url) || IsRecommended(env, url)))
  {
    var s := WithDefaults(stored);
    OtherListsAreKept(s, env, prefs, Str(url));
    ListedIffTimes(SetUp(s, env, prefs).filterLists, Str(url));
    ListedIffTimes(s.filterLists, Str(url));
  }

  /** The next start without switches finds what this one left, a switch that disabled ad blocking
      included, and changes nothing. */
  lemma NextStartChangesNothing(s: Settings, env: Environment, prefs: LegacyPrefs, next: Environment)
    requires !next.disableAdblock && !next.disableAcceptableAds
    ensures var left := SetUp(s, env, prefs);
            WithDefaults(Stored(left)) == left && SetUp(left, next, MIGRATED_PREFS) == left
  {
  }
}
