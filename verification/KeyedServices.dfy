/** The services of a profile, built on demand or with the profile (the factories under
    chrome/browser/adblock), and the filtering configurations they install
    (components/adblock/core/subscription/subscription_service_impl.cc). */
module KeyedServices {
  type Profile = int

  datatype BrowserContext = BrowserContext(profile: Profile, offTheRecord: bool)

  datatype Service = PersistentMetadata | SubscriptionService | Controller | Telemetry | SitekeyStorage
    | ClassificationRunner | ElementHider | CspInjector | SessionStats

  /** An installed configuration; it has a maintainer or none. */
  datatype Configuration = Configuration(name: string, enabled: bool, maintained: bool)

  const ADBLOCK := "adblock"

  /** The services built, in order; the configurations installed in the subscription service of each
      profile; whether all assertions have held; and whether a profile's own configuration starts
      enabled. */
  datatype World = World(log: seq<(Service, Profile)>, installed: map<Profile, seq<Configuration>>, sound: bool,
                         startsEnabled: Profile -> bool)

  // ----- Dependencies -----

  /** The edges the factories declare. */
  function DependsOn(s: Service): set<Service> {
    match s
    case SubscriptionService => {PersistentMetadata}
    case Controller => {SubscriptionService}
    case Telemetry => {Controller}
    case ClassificationRunner => {SitekeyStorage}
    case ElementHider => {SubscriptionService}
    case CspInjector => {SubscriptionService}
    case SessionStats => {ClassificationRunner}
    case _ => {}
  }

  /** The services a builder asks for. */
  function Needs(s: Service): set<Service> {
    match s
    case Controller => {SubscriptionService}
    case Telemetry => {SubscriptionService, Controller}
    case ClassificationRunner => {SitekeyStorage}
    case ElementHider => {SubscriptionService}
    case CspInjector => {SubscriptionService}
    case SessionStats => {ClassificationRunner}
    case _ => {}
  }

  /** The height in the graph of declared edges. */
  function Rank(s: Service): nat {
    match s
    case PersistentMetadata => 0
    case SitekeyStorage => 0
    case SubscriptionService => 1
    case ClassificationRunner => 1
    case Controller => 2
    case ElementHider => 2
    case CspInjector => 2
    case SessionStats => 2
    case Telemetry => 3
  }

  predicate IsCreatedWithBrowserContext(s: Service) {
    s == Controller || s == Telemetry
  }

  /** All factories redirect to the original profile. */
  function BrowserContextToUse(context: BrowserContext): BrowserContext {
    context.(offTheRecord := false)
  }

  // ----- Building -----

  predicate Has(w: World, s: Service, p: Profile) {
    (s, p) in w.log
  }

  function Logged(w: World, s: Service, p: Profile): World {
    w.(log := w.log + [(s, p)])
  }

  function Installed(w: World, p: Profile): seq<Configuration> {
    if p in w.installed then w.installed[p] else []
  }

  predicate IsInstalled(w: World, p: Profile, name: string) {
    exists c | c in Installed(w, p) :: c.name == name
  }

  function Get(w: World, s: Service, p: Profile): World
    decreases Rank(s), 1
  {
    if Has(w, s, p) then w else Build(w, s, p)
  }

  function Build(w: World, s: Service, p: Profile): World
    decreases Rank(s), 0
  {
    match s
    case PersistentMetadata => Logged(w, s, p)
    case SitekeyStorage => Logged(w, s, p)
    case SubscriptionService => Logged(w.(installed := w.installed[p := []]), s, p)
    case ClassificationRunner => Logged(Get(w, SitekeyStorage, p), s, p)
    case ElementHider => Logged(Get(w, SubscriptionService, p), s, p)
    case CspInjector => Logged(Get(w, SubscriptionService, p), s, p)
    case SessionStats => Logged(Get(w, ClassificationRunner, p), s, p)
    case Controller =>
      Logged(Install(Get(w, SubscriptionService, p), p, ADBLOCK, w.startsEnabled(p)), s, p)
    case Telemetry =>
      Logged(Get(LookedUp(Get(w, SubscriptionService, p), p), Controller, p), s, p)
  }

  /** The telemetry builder looks its configuration up and asserts that it is there. */
  function LookedUp(w: World, p: Profile): World {
    w.(sound := w.sound && IsInstalled(w, p, ADBLOCK))
  }

  /** Only an enabled configuration gets a maintainer, which needs the persistent metadata. */
  function Install(w: World, p: Profile, name: string, enabled: bool): World
    decreases 1, 0
  {
    var w' := if enabled then Get(w, PersistentMetadata, p) else w;
    w'.(installed := w'.installed[p := Installed(w', p) + [Configuration(name, enabled, enabled)]])
  }

  class ServiceManager {
    var log: seq<(Service, Profile)>
    var installed: map<Profile, seq<Configuration>>
    var sound: bool
    const startsEnabled: Profile -> bool

    ghost function State(): World
      reads this
    {
      World(log, installed, sound, startsEnabled)
    }

    ghost predicate Valid()
      reads this
    {
      Inv(State())
    }

    constructor (startsEnabled: Profile -> bool)
      ensures Valid() && State() == World([], map[], true, startsEnabled)
    {
      log := [];
      installed := map[];
      sound := true;
      this.startsEnabled := startsEnabled;
      new;
      EmptyIsInv(State());
    }

    /** The service is there afterwards, built at most once and with it only what it reaches; an
        incognito context gets that of its original profile. For telemetry the assertion has held
        if the controller or telemetry itself was there before. */
    method GetServiceForBrowserContext(s: Service, context: BrowserContext)
      requires Valid()
      modifies this
      ensures Valid() && Has(State(), s, context.profile) && Grows(old(State()), State(), s, context.profile)
      ensures old(Has(State(), s, context.profile)) ==> State() == old(State())
      ensures NeedsAreThere(State(), s, context.profile)
      ensures s == Telemetry ==>
                (sound <==> old(sound) && (old(Has(State(), Controller, context.profile))
                                           || old(Has(State(), Telemetry, context.profile))))
      ensures State() == Get(old(State()), s, context.profile)
      decreases Rank(s), 4
    {
      ghost var before := State();
      var p := BrowserContextToUse(context).profile;
      if (s, p) !in log {
        BuildServiceInstanceFor(s, BrowserContextToUse(context));
        log := log + [(s, p)];
      }
      GetKeepsInv(before, s, p);
      NeedsOfBuilt(State(), s, p);
    }

    /** The service itself, not yet entered among those built; entered, it comes behind all it asked
        for. Only the controller installs a configuration, and just its own. */
    method BuildServiceInstanceFor(s: Service, context: BrowserContext)
      requires Valid() && !Has(State(), s, context.profile)
      modifies this
      ensures Inv(Logged(State(), s, context.profile))
      ensures Grows(old(State()), Logged(State(), s, context.profile), s, context.profile)
      ensures forall n | n in Needs(s) :: Has(State(), n, context.profile)
      ensures s == Telemetry ==> (sound <==> old(sound) && old(Has(State(), Controller, context.profile)))
      ensures s == Controller ==>
                var enabled := startsEnabled(context.profile);
                Installed(State(), context.profile) ==
                    old(Installed(State(), context.profile)) + [Configuration("adblock", enabled, enabled)]
      ensures Logged(State(), s, context.profile) == Build(old(State()), s, context.profile)
      decreases Rank(s), 3
    {
      ghost var before := State();
      match s {
        case Controller => BuildController(context);
        case Telemetry => BuildTelemetry(context);
        case _ => BuildOther(s, context);
      }
      BuildMeans(before, s, context.profile);
      NeedsAreBuilt(before, s, context.profile, State());
    }

    method BuildOther(s: Service, context: BrowserContext)
      requires Valid() && !Has(State(), s, context.profile) && s != Controller && s != Telemetry
      modifies this
      ensures Logged(State(), s, context.profile) == Build(old(State()), s, context.profile)
      decreases Rank(s), 2
    {
      match s
      case PersistentMetadata =>
      case SitekeyStorage =>
      case SubscriptionService => installed := installed[context.profile := []];
      case ClassificationRunner => GetServiceForBrowserContext(SitekeyStorage, context);
      case ElementHider => GetServiceForBrowserContext(SubscriptionService, context);
      case CspInjector => GetServiceForBrowserContext(SubscriptionService, context);
      case SessionStats => GetServiceForBrowserContext(ClassificationRunner, context);
    }

    method BuildController(context: BrowserContext)
      requires Valid() && !Has(State(), Controller, context.profile)
      modifies this
      ensures Logged(State(), Controller, context.profile) == Build(old(State()), Controller, context.profile)
      decreases 2, 2
    {
      GetServiceForBrowserContext(SubscriptionService, context);
      InstallFilteringConfiguration(context, ADBLOCK, startsEnabled(context.profile));
    }

    method BuildTelemetry(context: BrowserContext)
      requires Valid() && !Has(State(), Telemetry, context.profile)
      modifies this
      ensures Logged(State(), Telemetry, context.profile) == Build(old(State()), Telemetry, context.profile)
      decreases 3, 2
    {
      var found := GetAdblockFilteringConfiguration(context);
      SoundIsApart(State(), sound && found);
      sound := sound && found;
      GetServiceForBrowserContext(Controller, context);
    }

    /** Found exactly if the controller has been built. */
    method GetAdblockFilteringConfiguration(context: BrowserContext) returns (found: bool)
      requires Valid()
      modifies this
      ensures Valid() && State() == Get(old(State()), SubscriptionService, context.profile)
      ensures found <==> IsInstalled(State(), context.profile, ADBLOCK)
      ensures found <==> Has(State(), Controller, context.profile)
      decreases 1, 5
    {
      GetServiceForBrowserContext(SubscriptionService, context);
      InstalledIffController(State(), context.profile);
      var configurations := if context.profile in installed then installed[context.profile] else [];
      var i := 0;
      while i < |configurations| && configurations[i].name != ADBLOCK
        invariant 0 <= i <= |configurations|
        invariant forall j | 0 <= j < i :: configurations[j].name != ADBLOCK
      {
        i := i + 1;
      }
      return i < |configurations|;
    }

    /** One configuration more, for this profile only; enabled, it has a maintainer, and that its
        metadata. Everything stays in order but for the count of configurations named "adblock". */
    method InstallFilteringConfiguration(context: BrowserContext, name: string, enabled: bool)
      requires Valid() && Has(State(), SubscriptionService, context.profile)
      modifies this
      ensures LogOk(log) && ConfigurationsOk(State()) && (name != ADBLOCK ==> Valid())
      ensures enabled ==> Has(State(), PersistentMetadata, context.profile)
      ensures Installed(State(), context.profile) ==
          old(Installed(State(), context.profile)) + [Configuration(name, enabled, enabled)]
      ensures forall q | q != context.profile :: Installed(State(), q) == old(Installed(State(), q))
      ensures State() == Install(old(State()), context.profile, name, enabled)
      decreases 1, 0
    {
      ghost var was := State();
      var maintained := false;
      if enabled {
        GetServiceForBrowserContext(PersistentMetadata, context);
        maintained := true;
      }
      var p := context.profile;
      var before := if p in installed then installed[p] else [];
      installed := installed[p := before + [Configuration(name, enabled, maintained)]];
      InstallMeans(was, p, name, enabled);
    }

    /** A configuration that is enabled gets a maintainer, which finds its metadata, and one that is
        disabled loses it; no other changes. */
    method OnEnabledStateChanged(context: BrowserContext, k: nat, enabled: bool)
      requires Valid() && k < |Installed(State(), context.profile)|
      modifies this
      ensures Valid() && (enabled ==> Has(State(), PersistentMetadata, context.profile))
      ensures var c := old(Installed(State(), context.profile)[k]);
              Installed(State(), context.profile) ==
                  old(Installed(State(), context.profile))[k := Configuration(c.name, enabled, enabled)]
      ensures forall q | q != context.profile :: Installed(State(), q) == old(Installed(State(), q))
      ensures State() == Toggle(old(State()), context.profile, k, enabled)
    {
      var p := context.profile;
      var name := installed[p][k].name;
      ToggleKeepsInv(State(), p, k, enabled);
      GetKeepsInv(State(), PersistentMetadata, p);
      if enabled {
        MetadataKeepsConfigurations(State(), p);
        GetServiceForBrowserContext(PersistentMetadata, context);
        installed := installed[p := installed[p][k := Configuration(name, true, true)]];
      } else {
        installed := installed[p := installed[p][k := Configuration(name, false, false)]];
      }
    }

    /** The services created with a profile, in the given order of construction: all are there
        afterwards, and in an order that respects the declared edges no assertion fails. */
    method CreateBrowserContextServices(order: seq<Service>, context: BrowserContext)
      requires Valid()
      modifies this
      ensures Valid() && (old(sound) && Respects(order) ==> sound)
      ensures forall s | s in order && (s == Controller || s == Telemetry) :: Has(State(), s, context.profile)
      ensures forall s, q | Has(State(), s, q) && !old(Has(State(), s, q)) ::
                q == context.profile && s in {Controller, Telemetry, SubscriptionService, PersistentMetadata}
      ensures State() == CreateAll(old(State()), order, context.profile)
    {
      ghost var before := State();
      for i := 0 to |order|
        invariant Valid()
        invariant CreateAll(State(), order[i..], context.profile) == CreateAll(before, order, context.profile)
      {
        assert order[i..][0] == order[i] && order[i..][1..] == order[i + 1..];
        if IsCreatedWithBrowserContext(order[i]) {
          GetServiceForBrowserContext(order[i], context);
        }
      }
      CreatedAreBuilt(before, order, context.profile);
      OnlyReachedAreBuilt(before, order, context.profile);
      if before.sound && Respects(order) { EagerCreationIsSound(before, order, context.profile); }
    }
  }

  lemma InstalledIffController(w: World, p: Profile)
    requires Inv(w)
    ensures IsInstalled(w, p, ADBLOCK) <==> Has(w, Controller, p)
  {
    NamedIffPresent(Installed(w, p), ADBLOCK);
    assert Named(Installed(w, p), ADBLOCK) == if Has(w, Controller, p) then 1 else 0;
  }

  lemma BuildMeans(w: World, s: Service, p: Profile)
    requires Inv(w) && !Has(w, s, p)
    ensures var w' := Build(w, s, p); Inv(w') && Grows(w, w', s, p)
    ensures s == Telemetry ==> (Build(w, s, p).sound <==> w.sound && Has(w, Controller, p))
    ensures s == Controller ==>
              var enabled := w.startsEnabled(p);
              Installed(Build(w, s, p), p) == Installed(w, p) + [Configuration(ADBLOCK, enabled, enabled)]
  {
    BuildKeepsInv(w, s, p);
    if s == Telemetry { BuildTelemetryKeepsInv(w, p); }
    if s == Controller { ControllerInstallsItsConfiguration(w, p, p); }
  }

  /** What is asked for is in the log before the service itself is entered. */
  lemma NeedsAreBuilt(w: World, s: Service, p: Profile, built: World)
    requires Logged(built, s, p) == Build(w, s, p) && Inv(Build(w, s, p))
    ensures forall n | n in Needs(s) :: Has(built, n, p)
  {
    var log := Logged(built, s, p).log;
    assert NeedsComeFirst(log, |built.log|) && log[..|built.log|] == built.log;
  }

  lemma InstallMeans(w: World, p: Profile, name: string, enabled: bool)
    requires Inv(w) && Has(w, SubscriptionService, p)
    ensures var w' := Install(w, p, name, enabled);
            && LogOk(w'.log) && ConfigurationsOk(w') && (name != ADBLOCK ==> Inv(w'))
            && (enabled ==> Has(w', PersistentMetadata, p))
            && Installed(w', p) == Installed(w, p) + [Configuration(name, enabled, enabled)]
            && forall q | q != p :: Installed(w', q) == Installed(w, q)
  {
    GetKeepsInv(w, PersistentMetadata, p);
    MetadataKeepsConfigurations(w, p);
    var w1 := if enabled then Get(w, PersistentMetadata, p) else w;
    PrefixHas(w, w1, SubscriptionService, p);
    InstalledIsOk(w1, p, name, enabled);
    if name != ADBLOCK { OtherNameKeepsInv(w1, p, Configuration(name, enabled, enabled)); }
  }

  lemma OtherNameKeepsInv(w: World, p: Profile, c: Configuration)
    requires Inv(w) && c.name != ADBLOCK
    ensures AdblockOk(w.(installed := w.installed[p := Installed(w, p) + [c]]))
  {
    var w' := w.(installed := w.installed[p := Installed(w, p) + [c]]);
    forall q: Profile
      ensures Named(Installed(w', q), ADBLOCK) == if Has(w', Controller, q) then 1 else 0
    {
      assert Named(Installed(w, q), ADBLOCK) == if Has(w, Controller, q) then 1 else 0;
      if q == p { NamedOneMore(Installed(w, p), c, ADBLOCK); }
    }
  }

  lemma {:induction false} CreateAllGrows(w: World, order: seq<Service>, p: Profile)
    requires Inv(w)
    ensures Inv(CreateAll(w, order, p)) && w.log <= CreateAll(w, order, p).log
    decreases |order|
  {
    if order != [] {
      GetKeepsInv(w, order[0], p);
      CreateAllGrows(if IsCreatedWithBrowserContext(order[0]) then Get(w, order[0], p) else w, order[1..], p);
    }
  }

  lemma {:induction false} CreatedAreBuilt(w: World, order: seq<Service>, p: Profile)
    requires Inv(w)
    ensures forall s | s in order && IsCreatedWithBrowserContext(s) :: Has(CreateAll(w, order, p), s, p)
    decreases |order|
  {
    if order != [] {
      var first := order[0];
      var w' := if IsCreatedWithBrowserContext(first) then Get(w, first, p) else w;
      GetKeepsInv(w, first, p);
      CreatedAreBuilt(w', order[1..], p);
      CreateAllGrows(w', order[1..], p);
      if IsCreatedWithBrowserContext(first) { PrefixHas(w', CreateAll(w', order[1..], p), first, p); }
      assert order == [first] + order[1..];
    }
  }

  /** Nothing else is built along with them. */
  lemma {:induction false} OnlyReachedAreBuilt(w: World, order: seq<Service>, p: Profile)
    requires Inv(w)
    ensures forall s, q | Has(CreateAll(w, order, p), s, q) && !Has(w, s, q) ::
              q == p && s in {Controller, Telemetry, SubscriptionService, PersistentMetadata}
    decreases |order|
  {
    if order != [] {
      GetKeepsInv(w, order[0], p);
      OnlyReachedAreBuilt(if IsCreatedWithBrowserContext(order[0]) then Get(w, order[0], p) else w, order[1..], p);
    }
  }

  /** Whatever a service relies on is there with it. */
  ghost predicate NeedsAreThere(w: World, s: Service, p: Profile) {
    && (s in {Controller, Telemetry, ElementHider, CspInjector} ==> Has(w, SubscriptionService, p))
    && (s == Telemetry ==> Has(w, Controller, p))
    && (s in {ClassificationRunner, SessionStats} ==> Has(w, SitekeyStorage, p))
    && (s == SessionStats ==> Has(w, ClassificationRunner, p))
  }

  lemma NeedsOfBuilt(w: World, s: Service, p: Profile)
    requires Inv(w) && Has(w, s, p)
    ensures NeedsAreThere(w, s, p)
  {
    NeedIsThere(w, s, p);
    if s == SessionStats { NeedIsThere(w, ClassificationRunner, p); }
  }

  lemma NeedIsThere(w: World, s: Service, p: Profile)
    requires Inv(w) && Has(w, s, p)
    ensures forall n | n in Needs(s) :: Has(w, n, p)
  {
    var i :| 0 <= i < |w.log| && w.log[i] == (s, p);
    assert NeedsComeFirst(w.log, i);
  }

  function CreateAll(w: World, order: seq<Service>, p: Profile): World
    decreases |order|
  {
    if order == [] then w
    else CreateAll(if IsCreatedWithBrowserContext(order[0]) then Get(w, order[0], p) else w, order[1..], p)
  }

  lemma MetadataKeepsConfigurations(w: World, p: Profile)
    ensures Get(w, PersistentMetadata, p).installed == w.installed
  {
  }

  /** The maintained state of an installed configuration follows its enabled state. */
  function Toggle(w: World, p: Profile, k: nat, enabled: bool): World
    requires k < |Installed(w, p)|
  {
    MetadataKeepsConfigurations(w, p);
    var w' := if enabled then Get(w, PersistentMetadata, p) else w;
    w'.(installed := w'.installed[p := w'.installed[p][k := Configuration(w'.installed[p][k].name, enabled, enabled)]])
  }

  // ----- What every step keeps -----

  /** What a service reaches along the declared edges. */
  function Reaches(s: Service): set<Service> {
    match s
    case PersistentMetadata => {s}
    case SitekeyStorage => {s}
    case SubscriptionService => {s, PersistentMetadata}
    case ClassificationRunner => {s, SitekeyStorage}
    case Controller => {s, SubscriptionService, PersistentMetadata}
    case Telemetry => {s, Controller, SubscriptionService, PersistentMetadata}
    case ElementHider => {s, SubscriptionService, PersistentMetadata}
    case CspInjector => {s, SubscriptionService, PersistentMetadata}
    case SessionStats => {s, ClassificationRunner, SitekeyStorage}
  }

  lemma ReachesIsClosure(s: Service, t: Service)
    ensures t in Reaches(s) <==> t == s || exists d | d in DependsOn(s) :: t in Reaches(d)
    ensures forall d | d in DependsOn(s) :: Rank(d) < Rank(s)
  {
  }

  /** Nothing is built twice, and everything after what its builder asks for. */
  ghost predicate LogOk(log: seq<(Service, Profile)>) {
    && (forall i, j | 0 <= i < j < |log| :: log[i] != log[j])
    && (forall i | 0 <= i < |log| :: NeedsComeFirst(log, i))
  }

  ghost predicate NeedsComeFirst(log: seq<(Service, Profile)>, i: nat)
    requires i < |log|
  {
    forall n | n in Needs(log[i].0) :: (n, log[i].1) in log[..i]
  }

  function Named(configurations: seq<Configuration>, name: string): nat {
    if configurations == [] then 0
    else
      var last := |configurations| - 1;
      Named(configurations[..last], name) + if configurations[last].name == name then 1 else 0
  }

  /** A profile has its own configuration once if its controller is built, and otherwise not. */
  ghost predicate AdblockOk(w: World) {
    forall p: Profile :: Named(Installed(w, p), ADBLOCK) == if Has(w, Controller, p) then 1 else 0
  }

  ghost predicate ConfigurationsOk(w: World) {
    && (forall p | p in w.installed :: Has(w, SubscriptionService, p))
    && (forall p, c | p in w.installed && c in w.installed[p] ::
          c.maintained == c.enabled && (c.maintained ==> Has(w, PersistentMetadata, p)))
  }

  ghost predicate Inv(w: World) {
    LogOk(w.log) && AdblockOk(w) && ConfigurationsOk(w)
  }

  /** Only services that `s` reaches may have been built, and only for that profile. */
  ghost predicate Grows(w: World, w': World, s: Service, p: Profile) {
    && w.log <= w'.log && w'.startsEnabled == w.startsEnabled
    && (forall t, q | Has(w', t, q) :: Has(w, t, q) || (q == p && t in Reaches(s)))
    && (s != Telemetry ==> w'.sound == w.sound)
  }

  lemma PrefixHas(w: World, w': World, s: Service, p: Profile)
    requires w.log <= w'.log && Has(w, s, p)
    ensures Has(w', s, p)
  {
    var i :| 0 <= i < |w.log| && w.log[i] == (s, p);
    assert w'.log[i] == (s, p);
  }

  lemma LoggedKeepsLog(log: seq<(Service, Profile)>, s: Service, p: Profile)
    requires LogOk(log) && (s, p) !in log && forall n | n in Needs(s) :: (n, p) in log
    ensures LogOk(log + [(s, p)])
  {
    var log' := log + [(s, p)];
    forall i | 0 <= i < |log'|
      ensures NeedsComeFirst(log', i)
    {
      if i < |log| {
        assert NeedsComeFirst(log, i) && log'[..i] == log[..i];
      } else {
        assert log'[..i] == log;
      }
    }
  }

  lemma NamedOneMore(configurations: seq<Configuration>, c: Configuration, name: string)
    ensures Named(configurations + [c], name) == Named(configurations, name) + if c.name == name then 1 else 0
  {
    assert (configurations + [c])[..|configurations|] == configurations;
  }

  /** Entering a service that installs nothing. */
  lemma LoggedKeepsInv(w: World, s: Service, p: Profile)
    requires Inv(w) && !Has(w, s, p) && s != Controller && forall n | n in Needs(s) :: Has(w, n, p)
    ensures Inv(Logged(w, s, p)) && Grows(w, Logged(w, s, p), s, p) && Has(Logged(w, s, p), s, p)
  {
    LoggedKeepsLog(w.log, s, p);
    var w' := Logged(w, s, p);
    assert forall t, q :: Has(w', t, q) <==> Has(w, t, q) || (t == s && q == p);
  }

  lemma GrowsTwice(w: World, w1: World, w2: World, s: Service, t: Service, p: Profile)
    requires Grows(w, w1, s, p) && Grows(w1, w2, t, p) && Reaches(s) <= Reaches(t)
    requires s == Telemetry ==> t == Telemetry
    ensures Grows(w, w2, t, p)
  {
  }

  lemma SubscriptionServiceKeepsInv(w: World, p: Profile)
    requires Inv(w) && !Has(w, SubscriptionService, p)
    ensures var w' := Logged(w.(installed := w.installed[p := []]), SubscriptionService, p);
            Inv(w') && Grows(w, w', SubscriptionService, p) && Has(w', SubscriptionService, p)
  {
    LoggedKeepsLog(w.log, SubscriptionService, p);
    var w' := Logged(w.(installed := w.installed[p := []]), SubscriptionService, p);
    assert forall t, q :: Has(w', t, q) <==> Has(w, t, q) || (t == SubscriptionService && q == p);
    assert p !in w.installed;
    forall q: Profile
      ensures Named(Installed(w', q), ADBLOCK) == if Has(w', Controller, q) then 1 else 0
    {
      assert Named(Installed(w, q), ADBLOCK) == if Has(w, Controller, q) then 1 else 0;
    }
  }

  function WithConfiguration(w: World, p: Profile, name: string, enabled: bool): World {
    w.(installed := w.installed[p := Installed(w, p) + [Configuration(name, enabled, enabled)]])
  }

  lemma InstalledIsOk(w: World, p: Profile, name: string, enabled: bool)
    requires ConfigurationsOk(w) && Has(w, SubscriptionService, p) && (enabled ==> Has(w, PersistentMetadata, p))
    ensures ConfigurationsOk(WithConfiguration(w, p, name, enabled))
  {
    var w' := WithConfiguration(w, p, name, enabled);
    assert forall t, q :: Has(w', t, q) <==> Has(w, t, q);
    forall q, c | q in w'.installed && c in w'.installed[q]
      ensures c.maintained == c.enabled && (c.maintained ==> Has(w', PersistentMetadata, q))
    {
      if q == p && c !in Installed(w, p) { assert c == Configuration(name, enabled, enabled); }
    }
  }

  /** Building the controller installs the profile's own configuration, once. */
  lemma ControllerKeepsInv(w: World, p: Profile, enabled: bool)
    requires Inv(w) && !Has(w, Controller, p) && Has(w, SubscriptionService, p)
    requires enabled ==> Has(w, PersistentMetadata, p)
    ensures var w' := Logged(WithConfiguration(w, p, ADBLOCK, enabled), Controller, p);
            Inv(w') && Grows(w, w', Controller, p) && Has(w', Controller, p)
  {
    LoggedKeepsLog(w.log, Controller, p);
    InstalledIsOk(w, p, ADBLOCK, enabled);
    var w1 := WithConfiguration(w, p, ADBLOCK, enabled);
    var w' := Logged(w1, Controller, p);
    assert forall t, q :: Has(w', t, q) <==> Has(w1, t, q) || (t == Controller && q == p);
    forall q: Profile
      ensures Named(Installed(w', q), ADBLOCK) == if Has(w', Controller, q) then 1 else 0
    {
      assert Named(Installed(w, q), ADBLOCK) == if Has(w, Controller, q) then 1 else 0;
      if q == p { NamedOneMore(Installed(w, p), Configuration(ADBLOCK, enabled, enabled), ADBLOCK); }
    }
  }

  /** Building a service whose builder asks for one other and installs nothing. */
  lemma OneNeedKeepsInv(w: World, w1: World, n: Service, s: Service, p: Profile)
    requires Inv(w1) && Grows(w, w1, n, p) && Has(w1, n, p) && !Has(w, s, p)
    requires Needs(s) == {n} && s !in Reaches(n) && Reaches(n) <= Reaches(s) && s != Controller && n != Telemetry
    ensures var w' := Logged(w1, s, p); Inv(w') && Grows(w, w', s, p) && Has(w', s, p)
  {
    LoggedKeepsInv(w1, s, p);
    GrowsTwice(w, w1, Logged(w1, s, p), n, s, p);
  }

  /** Whatever service is asked for: it is built, with what it needs, at most once; a profile's own
      configuration is installed exactly when its controller is built; maintainers match. */
  lemma {:induction false} GetKeepsInv(w: World, s: Service, p: Profile)
    requires Inv(w)
    ensures var w' := Get(w, s, p); Inv(w') && Grows(w, w', s, p) && Has(w', s, p)
    decreases Rank(s), 2
  {
    if !Has(w, s, p) { BuildKeepsInv(w, s, p); }
  }

  lemma {:induction false} BuildKeepsInv(w: World, s: Service, p: Profile)
    requires Inv(w) && !Has(w, s, p)
    ensures var w' := Build(w, s, p); Inv(w') && Grows(w, w', s, p) && Has(w', s, p)
    decreases Rank(s), 1
  {
    match s
    case PersistentMetadata => LoggedKeepsInv(w, s, p);
    case SitekeyStorage => LoggedKeepsInv(w, s, p);
    case SubscriptionService => SubscriptionServiceKeepsInv(w, p);
    case ClassificationRunner =>
      GetKeepsInv(w, SitekeyStorage, p);
      OneNeedKeepsInv(w, Get(w, SitekeyStorage, p), SitekeyStorage, s, p);
    case ElementHider =>
      GetKeepsInv(w, SubscriptionService, p);
      OneNeedKeepsInv(w, Get(w, SubscriptionService, p), SubscriptionService, s, p);
    case CspInjector =>
      GetKeepsInv(w, SubscriptionService, p);
      OneNeedKeepsInv(w, Get(w, SubscriptionService, p), SubscriptionService, s, p);
    case SessionStats =>
      GetKeepsInv(w, ClassificationRunner, p);
      OneNeedKeepsInv(w, Get(w, ClassificationRunner, p), ClassificationRunner, s, p);
    case Controller => BuildControllerKeepsInv(w, p);
    case Telemetry => BuildTelemetryKeepsInv(w, p);
  }

  lemma BuildControllerKeepsInv(w: World, p: Profile)
    requires Inv(w) && !Has(w, Controller, p)
    ensures var w' := Build(w, Controller, p); Inv(w') && Grows(w, w', Controller, p) && Has(w', Controller, p)
    decreases 2, 0
  {
    GetKeepsInv(w, SubscriptionService, p);
    var w1 := Get(w, SubscriptionService, p);
    var enabled := w.startsEnabled(p);
    GetKeepsInv(w1, PersistentMetadata, p);
    var w2 := if enabled then Get(w1, PersistentMetadata, p) else w1;
    PrefixHas(w1, w2, SubscriptionService, p);
    assert Grows(w, w1, SubscriptionService, p) && Grows(w1, w2, PersistentMetadata, p);
    ControllerKeepsInv(w2, p, enabled);
    var w3 := Logged(WithConfiguration(w2, p, ADBLOCK, enabled), Controller, p);
    GrowsTwice(w1, w2, w3, PersistentMetadata, Controller, p);
    GrowsTwice(w, w1, w3, SubscriptionService, Controller, p);
    BuildsController(w, w1, w2, w3, p);
  }

  lemma BuildsController(w: World, w1: World, w2: World, w3: World, p: Profile)
    requires w1 == Get(w, SubscriptionService, p)
    requires w2 == if w.startsEnabled(p) then Get(w1, PersistentMetadata, p) else w1
    requires w3 == Logged(WithConfiguration(w2, p, ADBLOCK, w.startsEnabled(p)), Controller, p)
    ensures w3 == Build(w, Controller, p)
  {
    assert WithConfiguration(w2, p, ADBLOCK, w.startsEnabled(p)) == Install(w1, p, ADBLOCK, w.startsEnabled(p));
  }

  lemma BuildTelemetryKeepsInv(w: World, p: Profile)
    requires Inv(w) && !Has(w, Telemetry, p)
    ensures var w' := Build(w, Telemetry, p); Inv(w') && Grows(w, w', Telemetry, p) && Has(w', Telemetry, p)
    ensures Build(w, Telemetry, p).sound <==> w.sound && Has(w, Controller, p)
    decreases 3, 0
  {
    GetKeepsInv(w, SubscriptionService, p);
    var w1 := Get(w, SubscriptionService, p);
    var w2 := LookedUp(w1, p);
    LookedUpIsSoundIff(w, w1, p);
    GetKeepsInv(w2, Controller, p);
    var w3 := Get(w2, Controller, p);
    TelemetryKeepsInv(w, w1, w2, w3, p);
    assert Build(w, Telemetry, p) == Logged(w3, Telemetry, p);
  }

  lemma LookedUpIsSoundIff(w: World, w1: World, p: Profile)
    requires Inv(w1) && Grows(w, w1, SubscriptionService, p)
    ensures Inv(LookedUp(w1, p))
    ensures LookedUp(w1, p).sound <==> w.sound && Has(w, Controller, p)
  {
    NamedIffPresent(Installed(w1, p), ADBLOCK);
    assert Named(Installed(w1, p), ADBLOCK) == if Has(w1, Controller, p) then 1 else 0;
    if Has(w, Controller, p) { PrefixHas(w, w1, Controller, p); }
    SoundIsApart(w1, LookedUp(w1, p).sound);
  }

  lemma TelemetryKeepsInv(w: World, w1: World, w2: World, w3: World, p: Profile)
    requires !Has(w, Telemetry, p) && Grows(w, w1, SubscriptionService, p) && Has(w1, SubscriptionService, p)
    requires w2 == w1.(sound := w2.sound) && Inv(w3) && Grows(w2, w3, Controller, p) && Has(w3, Controller, p)
    ensures var w' := Logged(w3, Telemetry, p); Inv(w') && Grows(w, w', Telemetry, p) && Has(w', Telemetry, p)
  {
    assert forall t, q :: Has(w2, t, q) <==> Has(w1, t, q);
    PrefixHas(w2, w3, SubscriptionService, p);
    LoggedKeepsInv(w3, Telemetry, p);
    GrowsTwice(w2, w3, Logged(w3, Telemetry, p), Controller, Telemetry, p);
  }

  lemma SoundIsApart(w: World, sound: bool)
    requires Inv(w)
    ensures Inv(w.(sound := sound))
  {
    var w' := w.(sound := sound);
    assert forall t, q :: Has(w', t, q) <==> Has(w, t, q);
    assert forall q :: Installed(w', q) == Installed(w, q);
  }

  lemma {:induction false} NamedIffPresent(configurations: seq<Configuration>, name: string)
    ensures Named(configurations, name) > 0 <==> exists c | c in configurations :: c.name == name
  {
    if configurations != [] {
      var last := |configurations| - 1;
      NamedIffPresent(configurations[..last], name);
      assert configurations == configurations[..last] + [configurations[last]];
    }
  }

  lemma SubscriptionServiceKeepsConfigurations(w: World, p: Profile, q: Profile)
    requires Inv(w)
    ensures Installed(Get(w, SubscriptionService, p), q) == Installed(w, q)
  {
    assert !Has(w, SubscriptionService, p) ==> p !in w.installed;
  }

  /** Building the controller installs one more configuration, enabled as it starts, and for no other
      profile; the metadata its maintainer needs are there. */
  lemma ControllerInstallsItsConfiguration(w: World, p: Profile, q: Profile)
    requires Inv(w) && !Has(w, Controller, p)
    ensures var w', enabled := Get(w, Controller, p), w.startsEnabled(p);
            && Installed(w', q) == Installed(w, q) + (if q == p then [Configuration(ADBLOCK, enabled, enabled)] else [])
            && (enabled ==> Has(w', PersistentMetadata, p))
  {
    var enabled := w.startsEnabled(p);
    var w1 := Get(w, SubscriptionService, p);
    var w2 := if enabled then Get(w1, PersistentMetadata, p) else w1;
    var w3 := Logged(WithConfiguration(w2, p, ADBLOCK, enabled), Controller, p);
    SubscriptionServiceKeepsConfigurations(w, p, q);
    MetadataKeepsConfigurations(w1, p);
    BuildsController(w, w1, w2, w3, p);
    GetKeepsInv(w, SubscriptionService, p);
    GetKeepsInv(w1, PersistentMetadata, p);
    if enabled { PrefixHas(w2, w3, PersistentMetadata, p); }
  }

  // ----- The assertion of the telemetry builder -----

  /** The assertion holds exactly if the controller was built before, or telemetry itself. */
  lemma TelemetryFindsItsConfigurationIff(w: World, p: Profile)
    requires Inv(w)
    ensures Get(w, Telemetry, p).sound <==> w.sound && (Has(w, Controller, p) || Has(w, Telemetry, p))
  {
    if !Has(w, Telemetry, p) { BuildTelemetryKeepsInv(w, p); }
  }

  /** Telemetry asked for on demand, before anything else of its profile, fails it. */
  lemma TelemetryFirstFails(startsEnabled: Profile -> bool, p: Profile)
    ensures !Get(World([], map[], true, startsEnabled), Telemetry, p).sound
  {
    EmptyIsInv(World([], map[], true, startsEnabled));
    TelemetryFindsItsConfigurationIff(World([], map[], true, startsEnabled), p);
  }

  lemma EmptyIsInv(w: World)
    requires w.log == [] && w.installed == map[]
    ensures Inv(w)
  {
  }

  /** An order of construction in which every service comes after those it declares to depend on. */
  ghost predicate Respects(order: seq<Service>) {
    forall i, d | 0 <= i < |order| && d in DependsOn(order[i]) :: d in order[..i]
  }

  /** Telemetry is preceded by the controller, or this is built already. */
  ghost predicate ControllerFirst(w: World, order: seq<Service>, p: Profile) {
    Has(w, Controller, p) || forall i | 0 <= i < |order| && order[i] == Telemetry :: Controller in order[..i]
  }

  lemma {:induction false} ControllerFirstIsSound(w: World, order: seq<Service>, p: Profile)
    requires Inv(w) && w.sound && ControllerFirst(w, order, p)
    ensures Inv(CreateAll(w, order, p)) && CreateAll(w, order, p).sound
    decreases |order|
  {
    if order != [] {
      var s := order[0];
      var w' := if IsCreatedWithBrowserContext(s) then Get(w, s, p) else w;
      FirstIsSound(w, order, p);
      ControllerFirstIsSound(w', order[1..], p);
    }
  }

  lemma FirstIsSound(w: World, order: seq<Service>, p: Profile)
    requires Inv(w) && w.sound && order != [] && ControllerFirst(w, order, p)
    ensures var w' := if IsCreatedWithBrowserContext(order[0]) then Get(w, order[0], p) else w;
            Inv(w') && w'.sound && ControllerFirst(w', order[1..], p)
  {
    var s := order[0];
    GetKeepsInv(w, s, p);
    TelemetryFindsItsConfigurationIff(w, p);
    if Has(w, Controller, p) {
      PrefixHas(w, Get(w, s, p), Controller, p);
    } else if s != Controller {
      assert s != Telemetry;
      ControllerFirstInRest(w, order, p);
    }
  }

  lemma ControllerFirstInRest(w: World, order: seq<Service>, p: Profile)
    requires order != [] && ControllerFirst(w, order, p) && !Has(w, Controller, p) && order[0] != Controller
    ensures ControllerFirst(w, order[1..], p)
  {
    forall i | 0 <= i < |order[1..]| && order[1..][i] == Telemetry
      ensures Controller in order[1..][..i]
    {
      assert Controller in order[..i + 1] && order[..i + 1] == [order[0]] + order[1..][..i];
    }
  }

  /** In every order of construction that respects the declared edges, from every state reached
      without a failed assertion, the services of a new profile are created without one. */
  lemma EagerCreationIsSound(w: World, order: seq<Service>, p: Profile)
    requires Inv(w) && w.sound && Respects(order)
    ensures CreateAll(w, order, p).sound
  {
    forall i | 0 <= i < |order| && order[i] == Telemetry
      ensures Controller in order[..i]
    {
      assert Controller in DependsOn(order[i]);
    }
    ControllerFirstIsSound(w, order, p);
  }

  // ----- Every use is declared -----

  /** `t` stands before position `i`. */
  ghost predicate ComesBefore(order: seq<Service>, i: nat, t: Service)
    requires i <= |order|
  {
    t in order[..i]
  }

  /** The edges as declared, one by one. */
  lemma RespectsIff(order: seq<Service>)
    ensures Respects(order) <==>
              forall i: nat | i < |order| ::
                && (order[i] == SubscriptionService ==> ComesBefore(order, i, PersistentMetadata))
                && (order[i] in {Controller, ElementHider, CspInjector} ==> ComesBefore(order, i, SubscriptionService))
                && (order[i] == Telemetry ==> ComesBefore(order, i, Controller))
                && (order[i] == ClassificationRunner ==> ComesBefore(order, i, SitekeyStorage))
                && (order[i] == SessionStats ==> ComesBefore(order, i, ClassificationRunner))
  {
    if Respects(order) {
      forall i: nat, d | i < |order| && d in DependsOn(order[i])
        ensures ComesBefore(order, i, d)
      {
      }
    }
  }

  /** In an order that respects the declared edges everything a service reaches comes before it. */
  lemma {:induction false} ReachedComesFirst(order: seq<Service>, i: nat, t: Service)
    requires Respects(order) && i < |order| && t in Reaches(order[i]) && t != order[i]
    ensures t in order[..i]
    decreases i
  {
    ReachesIsClosure(order[i], t);
    var d :| d in DependsOn(order[i]) && t in Reaches(d);
    assert d in order[..i];
    var j :| 0 <= j < i && order[j] == d;
    if t != d { ReachedComesFirst(order, j, t); }
  }

  /** Whatever building a service builds comes before it in every order that respects the declared
      edges: destroyed in the reverse of it, nothing goes before those that asked for it. */
  lemma EveryUseIsDeclared(w: World, order: seq<Service>, i: nat, p: Profile, t: Service, q: Profile)
    requires Inv(w) && Respects(order) && i < |order|
    requires Has(Get(w, order[i], p), t, q) && !Has(w, t, q) && t != order[i]
    ensures q == p && t in order[..i]
  {
    GetKeepsInv(w, order[i], p);
    ReachedComesFirst(order, i, t);
  }

  // ----- Runs -----

  datatype Operation =
    | Request(service: Service, context: BrowserContext)
    | Create(order: seq<Service>, context: BrowserContext)
    | Switch(p: Profile, k: nat, enabled: bool)

  /** Requests come for any service and context, a profile's services are created in an order that
      respects the edges, and installed configurations are enabled and disabled. */
  ghost predicate IsPossible(w: World, o: Operation) {
    match o
    case Request(_, _) => true
    case Create(order, _) => Respects(order)
    case Switch(p, k, _) => k < |Installed(w, p)|
  }

  ghost function Done(w: World, o: Operation): World
    requires IsPossible(w, o)
  {
    match o
    case Request(s, context) => Get(w, s, BrowserContextToUse(context).profile)
    case Create(order, context) => CreateAll(w, order, BrowserContextToUse(context).profile)
    case Switch(p, k, enabled) => Toggle(w, p, k, enabled)
  }

  ghost predicate IsRun(worlds: seq<World>, operations: seq<Operation>) {
    && |worlds| == |operations| + 1
    && worlds[0].log == [] && worlds[0].installed == map[]
    && forall i | 0 <= i < |operations| ::
        IsPossible(worlds[i], operations[i]) && worlds[i + 1] == Done(worlds[i], operations[i])
  }

  lemma {:induction false} NamedOfUpdated(a: seq<Configuration>, k: nat, c: Configuration, name: string)
    requires k < |a| && c.name == a[k].name
    ensures Named(a[k := c], name) == Named(a, name)
  {
    var last := |a| - 1;
    if k < last {
      NamedOfUpdated(a[..last], k, c, name);
      assert a[k := c][..last] == a[..last][k := c];
    } else {
      assert a[k := c][..last] == a[..last];
    }
  }

  lemma SwitchedKeepsInv(w: World, p: Profile, k: nat, c: Configuration)
    requires Inv(w) && p in w.installed && k < |w.installed[p]| && c.name == w.installed[p][k].name
    requires c.maintained == c.enabled && (c.maintained ==> Has(w, PersistentMetadata, p))
    ensures Inv(w.(installed := w.installed[p := w.installed[p][k := c]]))
  {
    var w' := w.(installed := w.installed[p := w.installed[p][k := c]]);
    assert forall t, q :: Has(w', t, q) <==> Has(w, t, q);
    NamedOfUpdated(w.installed[p], k, c, ADBLOCK);
    forall q: Profile
      ensures Named(Installed(w', q), ADBLOCK) == if Has(w', Controller, q) then 1 else 0
    {
      assert Named(Installed(w, q), ADBLOCK) == if Has(w, Controller, q) then 1 else 0;
    }
  }

  lemma ToggleKeepsInv(w: World, p: Profile, k: nat, enabled: bool)
    requires Inv(w) && k < |Installed(w, p)|
    ensures Inv(Toggle(w, p, k, enabled))
  {
    GetKeepsInv(w, PersistentMetadata, p);
    MetadataKeepsConfigurations(w, p);
    var w' := if enabled then Get(w, PersistentMetadata, p) else w;
    SwitchedKeepsInv(w', p, k, Configuration(w'.installed[p][k].name, enabled, enabled));
  }

  lemma {:induction false} RunKeepsInv(worlds: seq<World>, operations: seq<Operation>, k: nat)
    requires IsRun(worlds, operations) && k < |worlds|
    ensures Inv(worlds[k])
  {
    if k == 0 {
      EmptyIsInv(worlds[0]);
    } else {
      RunKeepsInv(worlds, operations, k - 1);
      var w := worlds[k - 1];
      match operations[k - 1]
      case Request(s, context) => GetKeepsInv(w, s, context.profile);
      case Create(order, context) => CreateAllGrows(w, order, context.profile);
      case Switch(p, i, enabled) => ToggleKeepsInv(w, p, i, enabled);
    }
  }

  /** In every run: no service is built twice for a profile, each after what its builder asks for;
      the profile's own configuration is installed once if its controller has been built and not
      otherwise; configurations have a maintainer exactly while enabled. Requests for an incognito
      context are answered with the services of its original profile. */
  lemma EveryRunBuildsOnce(worlds: seq<World>, operations: seq<Operation>, k: nat, p: Profile)
    requires IsRun(worlds, operations) && k < |worlds|
    ensures var w := worlds[k];
            && (forall i, j | 0 <= i < j < |w.log| :: w.log[i] != w.log[j])
            && (forall i, n | 0 <= i < |w.log| && n in Needs(w.log[i].0) :: (n, w.log[i].1) in w.log[..i])
            && Named(Installed(w, p), "adblock") == (if Has(w, Controller, p) then 1 else 0)
            && (forall c | c in Installed(w, p) ::
                  c.maintained == c.enabled && (c.maintained ==> Has(w, PersistentMetadata, p)))
            && forall s | Has(w, s, p) :: NeedsAreThere(w, s, p)
    ensures forall s ::
              Done(worlds[k], Request(s, BrowserContext(p, true))) ==
              Done(worlds[k], Request(s, BrowserContext(p, false)))
  {
    RunKeepsInv(worlds, operations, k);
    var w := worlds[k];
    forall i, n | 0 <= i < |w.log| && n in Needs(w.log[i].0)
      ensures (n, w.log[i].1) in w.log[..i]
    {
      assert NeedsComeFirst(w.log, i);
    }
    forall s | Has(w, s, p)
      ensures NeedsAreThere(w, s, p)
    {
      NeedsOfBuilt(w, s, p);
    }
  }
}
