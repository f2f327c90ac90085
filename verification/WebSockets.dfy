/** The path of a web socket through
    chrome/browser/adblock/adblock_content_browser_client.cc: the request is parked while its
    classification runs, and meanwhile frames, the filtering state and the client may change.
    Factories and handshake clients are numbered; every request brings fresh ones. */
module WebSockets {
  import opened Text

  type FrameId = int
  type Profile = int

  datatype FilterMatchResult = Disabled | BlockRule | AllowRule | NoRule

  datatype Request = Request(factory: nat, url: string, siteForCookies: string, userAgent: Option<string>,
                             handshakeClient: nat)

  datatype Header = Header(name: string, value: string)

  /** What became of a request. */
  datatype Outcome =
    | ToChrome(frame: Option<FrameId>, request: Request)
    | Opened(factory: nat, url: string, headers: seq<Header>, handshakeClient: nat)
    | Dropped(request: Request)

  /** The arguments a classification's callback is bound to. */
  datatype Check = Check(frame: FrameId, request: Request)

  /** The frames alive, with their profiles; whether each installed configuration of a profile is
      enabled; the running classifications by factory; and two histories. */
  datatype State = State(clientAlive: bool, frames: map<FrameId, Option<Profile>>,
      configurations: map<Profile, seq<bool>>,
                         checks: map<nat, Check>, outcomes: seq<Outcome>, issued: map<nat, Request>)

  /** A request arrives, for no frame or a living one; a classification ends, or is abandoned; the
      environment changes. Whether Chrome intercepts web sockets is up to Chrome each time. */
  datatype Event =
    | Connect(frame: Option<FrameId>, request: Request, chromeIntercepts: bool)
    | Complete(factory: nat, result: FilterMatchResult, chromeIntercepts: bool)
    | Abandon(factory: nat)
    | FrameCreated(id: FrameId, owner: Option<Profile>)
    | FrameDied(id: FrameId)
    | Configured(profile: Profile, enabled: seq<bool>)
    | ClientDestroyed

  // ----- The code -----

  predicate IsFilteringNeeded(s: State, frame: Option<FrameId>) {
    && frame.Some? && frame.value in s.frames
    && var profile := s.frames[frame.value];
       profile.Some? && profile.value in s.configurations && true in s.configurations[profile.value]
  }

  predicate WillInterceptWebSocket(s: State, frame: Option<FrameId>, chromeIntercepts: bool) {
    IsFilteringNeeded(s, frame) || chromeIntercepts
  }

  function CreateWebSocket(s: State, frame: Option<FrameId>, r: Request, chromeIntercepts: bool): State
    requires WillInterceptWebSocket(s, frame, chromeIntercepts)
  {
    var s := s.(issued := s.issued[r.factory := r]);
    if IsFilteringNeeded(s, frame) then
      CreateWebSocketInternal(s, frame.value, r)
    else
      assert chromeIntercepts;
      s.(outcomes := s.outcomes + [ToChrome(frame, r)])
  }

  function CreateWebSocketInternal(s: State, frame: FrameId, r: Request): State {
    if frame !in s.frames then s.(outcomes := s.outcomes + [Dropped(r)])
    else s.(checks := s.checks[r.factory := Check(frame, r)])
  }

  function OnWebSocketFilterCheckCompleted(s: State, check: Check, result: FilterMatchResult,
      chromeIntercepts: bool): Outcome {
    var r := check.request;
    if check.frame !in s.frames then Dropped(r)
    else if result != BlockRule then
      if chromeIntercepts then ToChrome(Some(check.frame), r)
      else
        var headers := if r.userAgent.Some? then [Header("User-Agent", r.userAgent.value)] else [];
        Opened(r.factory, r.url, headers, r.handshakeClient)
    else Dropped(r)
  }

  /** The callback is bound to a weak reference to the client: it does nothing once that is gone. */
  function RunCallback(s: State, check: Check, result: FilterMatchResult, chromeIntercepts: bool): Outcome {
    if s.clientAlive then OnWebSocketFilterCheckCompleted(s, check, result, chromeIntercepts)
        else Dropped(check.request)
  }

  // ----- What is filtered -----

  /** The frame is alive and belongs to a profile with an enabled configuration. */
  ghost predicate AdblockIsOn(s: State, frame: Option<FrameId>) {
    exists id: FrameId, p: Profile, n: nat :: IsOnBy(s, frame, id, p, n)
  }

  ghost predicate IsOnBy(s: State, frame: Option<FrameId>, id: FrameId, p: Profile, n: nat) {
    && frame == Some(id) && id in s.frames && s.frames[id] == Some(p)
    && p in s.configurations && n < |s.configurations[p]| && s.configurations[p][n]
  }

  lemma FilteringIsNeededIff(s: State, frame: Option<FrameId>)
    ensures IsFilteringNeeded(s, frame) <==> AdblockIsOn(s, frame)
  {
    if IsFilteringNeeded(s, frame) {
      var p := s.frames[frame.value].value;
      var n :| 0 <= n < |s.configurations[p]| && s.configurations[p][n];
      assert IsOnBy(s, frame, frame.value, p, n);
    }
  }

  /** A request of such a frame is parked, any other goes to Chrome at once. */
  lemma ArrivalIsParkedIff(s: State, frame: Option<FrameId>, r: Request, chromeIntercepts: bool)
    requires IsEnabled(s, Connect(frame, r, chromeIntercepts))
    ensures AdblockIsOn(s, frame) || chromeIntercepts
    ensures var s' := Next(s, Connect(frame, r, chromeIntercepts));
            if AdblockIsOn(s, frame) then
              s'.checks == s.checks[r.factory := Check(frame.value, r)] && s'.outcomes == s.outcomes
            else s'.checks == s.checks && s'.outcomes == s.outcomes + [ToChrome(frame, r)]
  {
    FilteringIsNeededIff(s, frame);
  }

  /** The client takes a new request for a living frame, or for none, exactly if the frame is to be
      filtered or Chrome intercepts it. */
  lemma TakesRequestIff(s: State, frame: Option<FrameId>, r: Request, chromeIntercepts: bool)
    requires s.clientAlive && (frame.Some? ==> frame.value in s.frames)
    requires forall f | f in s.issued :: f != r.factory && s.issued[f].handshakeClient != r.handshakeClient
    ensures IsEnabled(s, Connect(frame, r, chromeIntercepts)) <==> AdblockIsOn(s, frame) || chromeIntercepts
  {
    FilteringIsNeededIff(s, frame);
  }

  // ----- Runs -----

  ghost predicate IsEnabled(s: State, e: Event) {
    match e
    case Connect(frame, r, chromeIntercepts) =>
      && s.clientAlive && (frame.Some? ==> frame.value in s.frames)
      && WillInterceptWebSocket(s, frame, chromeIntercepts)
      && r.factory !in s.issued && forall f | f in s.issued :: s.issued[f].handshakeClient != r.handshakeClient
    case Complete(factory, _, _) => factory in s.checks
    case Abandon(factory) => factory in s.checks
    case FrameCreated(id, _) => id !in s.frames
    case _ => true
  }

  function Settled(s: State, factory: nat, o: Outcome): State {
    s.(checks := s.checks - {factory}, outcomes := s.outcomes + [o])
  }

  ghost function Next(s: State, e: Event): State
    requires IsEnabled(s, e)
  {
    match e
    case Connect(frame, r, chromeIntercepts) => CreateWebSocket(s, frame, r, chromeIntercepts)
    case Complete(factory, result, chromeIntercepts) =>
      Settled(s, factory, RunCallback(s, s.checks[factory], result, chromeIntercepts))
    case Abandon(factory) => Settled(s, factory, Dropped(s.checks[factory].request))
    case FrameCreated(id, profile) => s.(frames := s.frames[id := profile])
    case FrameDied(id) => s.(frames := s.frames - {id})
    case Configured(profile, enabled) => s.(configurations := s.configurations[profile := enabled])
    case ClientDestroyed => s.(clientAlive := false)
  }

  datatype Run = Run(states: seq<State>, events: seq<Event>)

  ghost predicate IsStep(run: Run, k: nat)
    requires |run.states| == |run.events| + 1
  {
    k < |run.events| ==>
      IsEnabled(run.states[k], run.events[k]) && run.states[k + 1] == Next(run.states[k], run.events[k])
  }

  ghost predicate IsRun(run: Run) {
    && |run.states| == |run.events| + 1
    && run.states[0].issued == map[] && run.states[0].checks == map[] && run.states[0].outcomes == []
    && forall k: nat :: IsStep(run, k)
  }

  // ----- What every step keeps -----

  function FactoryOf(o: Outcome): nat {
    match o
    case ToChrome(_, r) => r.factory
    case Opened(factory, _, _, _) => factory
    case Dropped(r) => r.factory
  }

  function HandshakeClientOf(o: Outcome): nat {
    match o
    case ToChrome(_, r) => r.handshakeClient
    case Opened(_, _, _, handshakeClient) => handshakeClient
    case Dropped(r) => r.handshakeClient
  }

  /** How often a factory has been used up. */
  function Uses(outcomes: seq<Outcome>, factory: nat): nat {
    if outcomes == [] then 0
    else
      var last := |outcomes| - 1;
      Uses(outcomes[..last], factory) + if FactoryOf(outcomes[last]) == factory then 1 else 0
  }

  /** Every issued factory is parked or used up, but never both and never twice. */
  ghost predicate Balanced(s: State) {
    forall f: nat :: Uses(s.outcomes, f) + (if f in s.checks then 1 else 0) == if f in s.issued then 1 else 0
  }

  /** What happened to the request is about that request: a direct connection has its url, and a
      header exactly if a user agent was supplied. */
  predicate Fits(o: Outcome, r: Request) {
    match o
    case ToChrome(_, r') => r' == r
    case Dropped(r') => r' == r
    case Opened(factory, url, headers, handshakeClient) =>
      && factory == r.factory && url == r.url && handshakeClient == r.handshakeClient
      && (r.userAgent.None? <==> headers == [])
      && (r.userAgent.Some? ==> headers == [Header("User-Agent", r.userAgent.value)])
  }

  ghost predicate Faithful(s: State) {
    && (forall o | o in s.outcomes :: FactoryOf(o) in s.issued && Fits(o, s.issued[FactoryOf(o)]))
    && (forall f | f in s.checks :: f in s.issued && s.checks[f].request == s.issued[f])
  }

  /** Requests are numbered by their factories and share no handshake client. */
  ghost predicate Linear(s: State) {
    && (forall f | f in s.issued :: s.issued[f].factory == f)
    && (forall f, g | f in s.issued && g in s.issued && f != g ::
          s.issued[f].handshakeClient != s.issued[g].handshakeClient)
  }

  ghost predicate Inv(s: State) {
    Balanced(s) && Faithful(s) && Linear(s)
  }

  lemma UsesOfOneMore(outcomes: seq<Outcome>, o: Outcome, f: nat)
    ensures Uses(outcomes + [o], f) == Uses(outcomes, f) + if FactoryOf(o) == f then 1 else 0
  {
    assert (outcomes + [o])[..|outcomes|] == outcomes;
  }

  lemma BalancedOneMore(s: State, s': State, o: Outcome)
    requires Balanced(s) && s'.outcomes == s.outcomes + [o]
    requires var f := FactoryOf(o);
             || (f in s.checks && s'.checks == s.checks - {f} && s'.issued == s.issued)
             || (f !in s.issued && s'.checks == s.checks && s'.issued.Keys == s.issued.Keys + {f})
    ensures Balanced(s')
  {
    forall f: nat
      ensures Uses(s'.outcomes, f) + (if f in s'.checks then 1 else 0) == if f in s'.issued then 1 else 0
    {
      UsesOfOneMore(s.outcomes, o, f);
      assert f in s'.issued <==> f in s'.issued.Keys;
      assert Uses(s.outcomes, f) + (if f in s.checks then 1 else 0) == if f in s.issued then 1 else 0;
    }
  }

  /** A new request, and where it goes: parked, or at once to Chrome. */
  lemma IssuedKeepsLinear(s: State, r: Request)
    requires Inv(s) && r.factory !in s.issued && forall f | f in s.issued ::
        s.issued[f].handshakeClient != r.handshakeClient
    ensures r.factory !in s.checks && Linear(s.(issued := s.issued[r.factory := r]))
  {
  }

  lemma ParkingKeepsInv(s: State, frame: FrameId, r: Request)
    requires Inv(s) && r.factory !in s.issued && forall f | f in s.issued ::
        s.issued[f].handshakeClient != r.handshakeClient
    ensures Inv(s.(issued := s.issued[r.factory := r], checks := s.checks[r.factory := Check(frame, r)]))
  {
    IssuedKeepsLinear(s, r);
    assert Uses(s.outcomes, r.factory) == 0;
  }

  lemma PassingKeepsInv(s: State, frame: Option<FrameId>, r: Request)
    requires Inv(s) && r.factory !in s.issued && forall f | f in s.issued ::
        s.issued[f].handshakeClient != r.handshakeClient
    ensures Inv(s.(issued := s.issued[r.factory := r], outcomes := s.outcomes + [ToChrome(frame, r)]))
  {
    IssuedKeepsLinear(s, r);
    BalancedOneMore(s, s.(issued := s.issued[r.factory := r], outcomes := s.outcomes + [ToChrome(frame, r)]),
        ToChrome(frame, r));
  }

  lemma ConnectKeepsInv(s: State, frame: Option<FrameId>, r: Request, chromeIntercepts: bool)
    requires Inv(s) && IsEnabled(s, Connect(frame, r, chromeIntercepts))
    ensures Inv(CreateWebSocket(s, frame, r, chromeIntercepts))
  {
    if IsFilteringNeeded(s, frame) {
      ParkingKeepsInv(s, frame.value, r);
    } else {
      PassingKeepsInv(s, frame, r);
    }
  }

  lemma SettlingKeepsInv(s: State, f: nat, o: Outcome)
    requires Inv(s) && f in s.checks && FactoryOf(o) == f && Fits(o, s.checks[f].request)
    ensures Inv(Settled(s, f, o))
  {
    BalancedOneMore(s, Settled(s, f, o), o);
  }

  lemma NextKeepsInv(s: State, e: Event)
    requires Inv(s) && IsEnabled(s, e)
    ensures Inv(Next(s, e))
  {
    match e
    case Connect(frame, r, chromeIntercepts) => ConnectKeepsInv(s, frame, r, chromeIntercepts);
    case Complete(f, result, chromeIntercepts) =>
      SettlingKeepsInv(s, f, RunCallback(s, s.checks[f], result, chromeIntercepts));
    case Abandon(f) => SettlingKeepsInv(s, f, Dropped(s.checks[f].request));
    case _ =>
  }

  lemma {:induction false} RunKeepsInv(run: Run, k: nat)
    requires IsRun(run) && k < |run.states|
    ensures Inv(run.states[k])
  {
    if k > 0 {
      RunKeepsInv(run, k - 1);
      assert IsStep(run, k - 1);
      NextKeepsInv(run.states[k - 1], run.events[k - 1]);
    }
  }

  // ----- Safety over whole runs -----

  lemma {:induction false} UsedAt(outcomes: seq<Outcome>, i: nat)
    requires i < |outcomes|
    ensures Uses(outcomes, FactoryOf(outcomes[i])) >= 1
  {
    var last := |outcomes| - 1;
    if i < last { UsedAt(outcomes[..last], i); }
  }

  lemma {:induction false} UsedTwice(outcomes: seq<Outcome>, i: nat, j: nat)
    requires i < j < |outcomes| && FactoryOf(outcomes[i]) == FactoryOf(outcomes[j])
    ensures Uses(outcomes, FactoryOf(outcomes[i])) >= 2
  {
    var last := |outcomes| - 1;
    if j < last { UsedTwice(outcomes[..last], i, j); } else { UsedAt(outcomes[..last], i); }
  }

  /** In every run no factory and no handshake client is used up twice, or used up while a
      classification still holds it. */
  lemma ConsumedAtMostOnce(run: Run, k: nat, i: nat, j: nat)
    requires IsRun(run) && k < |run.states| && i < j < |run.states[k].outcomes|
    ensures var outcomes := run.states[k].outcomes;
            && FactoryOf(outcomes[i]) != FactoryOf(outcomes[j])
            && HandshakeClientOf(outcomes[i]) != HandshakeClientOf(outcomes[j])
            && FactoryOf(outcomes[i]) !in run.states[k].checks
  {
    RunKeepsInv(run, k);
    var s := run.states[k];
    var f := FactoryOf(s.outcomes[i]);
    assert f in s.issued;
    UsedAt(s.outcomes, i);
    assert Uses(s.outcomes, f) + (if f in s.checks then 1 else 0) == 1;
    if FactoryOf(s.outcomes[j]) == f { UsedTwice(s.outcomes, i, j); }
    HandshakeClientOfFitting(s.outcomes[i], s.issued[f]);
    HandshakeClientOfFitting(s.outcomes[j], s.issued[FactoryOf(s.outcomes[j])]);
  }

  lemma HandshakeClientOfFitting(o: Outcome, r: Request)
    requires Fits(o, r)
    ensures HandshakeClientOf(o) == r.handshakeClient
  {
  }

  lemma StepExtendsHistory(run: Run, k: nat)
    requires IsRun(run) && k < |run.events|
    ensures run.states[k].outcomes <= run.states[k + 1].outcomes
    ensures |run.states[k + 1].outcomes| <= |run.states[k].outcomes| + 1
  {
    assert IsStep(run, k);
  }

  /** What has happened to a request stays what has happened to it. */
  lemma {:induction false} HistoryGrows(run: Run, k: nat, m: nat)
    requires IsRun(run) && k <= m < |run.states|
    ensures run.states[k].outcomes <= run.states[m].outcomes
    decreases m
  {
    if k < m {
      HistoryGrows(run, k, m - 1);
      StepExtendsHistory(run, m - 1);
    }
  }

  /** The step of a run in which an outcome came about. */
  lemma {:induction false} CauseOf(run: Run, m: nat, i: nat) returns (k: nat)
    requires IsRun(run) && m < |run.states| && i < |run.states[m].outcomes|
    ensures k < m && |run.states[k].outcomes| == i && i < |run.states[k + 1].outcomes|
    ensures run.states[k + 1].outcomes == run.states[k].outcomes + [run.states[m].outcomes[i]]
    decreases m
  {
    StepExtendsHistory(run, m - 1);
    if i < |run.states[m - 1].outcomes| {
      k := CauseOf(run, m - 1, i);
    } else {
      k := m - 1;
    }
  }

  /** A classification's end that lets the request through. */
  predicate LetsThrough(s: State, frame: FrameId, result: FilterMatchResult) {
    s.clientAlive && frame in s.frames && result != BlockRule
  }

  /** In every run: if a request was forwarded, then either Chrome intercepted it on arrival while
      no filtering was needed, or its classification ended with another verdict than to block,
      while its frame and the client were alive. */
  lemma ForwardedOnlyIfLetThrough(run: Run, m: nat, i: nat) returns (k: nat)
    requires IsRun(run) && m < |run.states| && i < |run.states[m].outcomes| && !run.states[m].outcomes[i].Dropped?
    ensures var o := run.states[m].outcomes[i];
            && k < m && run.states[k + 1].outcomes == run.states[k].outcomes + [o]
            && (match run.events[k]
                case Connect(frame, r, chromeIntercepts) =>
                  !AdblockIsOn(run.states[k], frame) && chromeIntercepts && o == ToChrome(frame, r)
                case Complete(f, result, chromeIntercepts) =>
                  && f == FactoryOf(o) && f in run.states[k].checks
                  && LetsThrough(run.states[k], run.states[k].checks[f].frame, result)
                  && (o.ToChrome? <==> chromeIntercepts)
                case _ => false)
  {
    k := CauseOf(run, m, i);
    assert IsStep(run, k);
    RunKeepsInv(run, k);
    assert run.states[k + 1].outcomes[|run.states[k].outcomes|] == run.states[m].outcomes[i];
    if run.events[k].Connect? { FilteringIsNeededIff(run.states[k], run.events[k].frame); }
  }

  /** In every run: a classification that ends is the only thing that happens to its request, which
      is forwarded exactly if the verdict lets it through, and then with its own url and headers. */
  lemma LetThroughIsForwardedOnce(run: Run, k: nat, m: nat, f: nat, result: FilterMatchResult, chromeIntercepts: bool)
    returns (o: Outcome)
    requires IsRun(run) && k < m < |run.states| && run.events[k] == Complete(f, result, chromeIntercepts)
    ensures f in run.states[k].checks && f in run.states[m].issued
    ensures o in run.states[m].outcomes && Uses(run.states[m].outcomes, f) == 1 && FactoryOf(o) == f
    ensures Fits(o, run.states[m].issued[f]) && run.states[k].checks[f].request == run.states[m].issued[f]
    ensures !o.Dropped? <==> LetsThrough(run.states[k], run.states[k].checks[f].frame, result)
    ensures !o.Dropped? ==> (o.ToChrome? <==> chromeIntercepts)
    ensures o.ToChrome? ==> o.frame == Some(run.states[k].checks[f].frame)
    ensures o.Opened? ==>
              var r := run.states[m].issued[f];
              o == Opened(f, r.url, if r.userAgent.Some? then [Header("User-Agent", r.userAgent.value)] else [],
                          r.handshakeClient)
  {
    assert IsStep(run, k);
    RunKeepsInv(run, k);
    RunKeepsInv(run, m);
    var s := run.states[k];
    o := RunCallback(s, s.checks[f], result, chromeIntercepts);
    HistoryGrows(run, k + 1, m);
    var i := |s.outcomes|;
    assert run.states[m].outcomes[i] == o;
    UsedAt(run.states[m].outcomes, i);
    IssuedStays(run, k, m, f);
  }

  lemma {:induction false} IssuedStays(run: Run, k: nat, m: nat, f: nat)
    requires IsRun(run) && k <= m < |run.states| && f in run.states[k].issued
    ensures f in run.states[m].issued && run.states[m].issued[f] == run.states[k].issued[f]
    decreases m
  {
    if k < m {
      IssuedStays(run, k, m - 1, f);
      assert IsStep(run, m - 1);
    }
  }

  lemma ParkedAnew(s: State, e: Event, f: nat)
    requires IsEnabled(s, e) && f in Next(s, e).checks && f !in s.checks
    ensures e.Connect? && AdblockIsOn(s, e.frame) && Next(s, e).checks[f] == Check(e.frame.value, e.request)
  {
    if e.Connect? { FilteringIsNeededIff(s, e.frame); }
  }

  lemma StillParked(s: State, e: Event, f: nat)
    requires Inv(s) && IsEnabled(s, e) && f in Next(s, e).checks && f in s.checks
    ensures Next(s, e).checks[f] == s.checks[f]
  {
  }

  /** A classification is waited for on behalf of the frame the request came for, and only while
      filtering was needed for that frame. */
  lemma {:induction false} ParkedIsFiltered(run: Run, m: nat, f: nat) returns (k: nat)
    requires IsRun(run) && m < |run.states| && f in run.states[m].checks
    ensures k < m && run.events[k].Connect? && run.events[k].request == run.states[m].checks[f].request
    ensures run.events[k].frame == Some(run.states[m].checks[f].frame)
    ensures AdblockIsOn(run.states[k], run.events[k].frame)
    decreases m
  {
    assert IsStep(run, m - 1);
    if f in run.states[m - 1].checks {
      RunKeepsInv(run, m - 1);
      StillParked(run.states[m - 1], run.events[m - 1], f);
      k := ParkedIsFiltered(run, m - 1, f);
    } else {
      ParkedAnew(run.states[m - 1], run.events[m - 1], f);
      k := m - 1;
    }
  }

  // ----- What changes meanwhile -----

  lemma {:induction false} FrameStays(run: Run, j: nat, k: nat, id: FrameId, owner: Option<Profile>)
    requires IsRun(run) && j < k < |run.states| && run.events[j] == FrameCreated(id, owner)
    requires forall m | j < m < k :: run.events[m] != FrameDied(id)
    ensures id in run.states[k].frames && run.states[k].frames[id] == owner
    decreases k
  {
    assert IsStep(run, k - 1);
    if j < k - 1 { FrameStays(run, j, k - 1, id, owner); }
  }

  lemma {:induction false} FrameStaysDead(run: Run, j: nat, k: nat, id: FrameId)
    requires IsRun(run) && j < k < |run.states| && run.events[j] == FrameDied(id)
    requires forall m | j < m < k :: !(run.events[m].FrameCreated? && run.events[m].id == id)
    ensures id !in run.states[k].frames
    decreases k
  {
    assert IsStep(run, k - 1);
    if j < k - 1 { FrameStaysDead(run, j, k - 1, id); }
  }

  lemma {:induction false} ClientStaysGone(run: Run, j: nat, k: nat)
    requires IsRun(run) && j < k < |run.states| && run.events[j] == ClientDestroyed
    ensures !run.states[k].clientAlive
    decreases k
  {
    assert IsStep(run, k - 1);
    if j < k - 1 { ClientStaysGone(run, j, k - 1); }
  }

  lemma {:induction false} ConfigurationStays(run: Run, j: nat, k: nat, p: Profile, enabled: seq<bool>)
    requires IsRun(run) && j < k < |run.states| && run.events[j] == Configured(p, enabled)
    requires forall m | j < m < k :: !(run.events[m].Configured? && run.events[m].profile == p)
    ensures p in run.states[k].configurations && run.states[k].configurations[p] == enabled
    decreases k
  {
    assert IsStep(run, k - 1);
    if j < k - 1 { ConfigurationStays(run, j, k - 1, p, enabled); }
  }

  /** In every run: a request that arrives for a frame created for a profile is parked exactly if the
      profile was last configured with an enabled configuration. */
  lemma ParkedAsLastConfigured(run: Run, i: nat, j: nat, k: nat, id: FrameId, p: Profile, enabled: seq<bool>,
                               r: Request, chromeIntercepts: bool)
    requires IsRun(run) && i < k && j < k < |run.events| && run.events[i] == FrameCreated(id, Some(p))
    requires run.events[j] == Configured(p, enabled) && run.events[k] == Connect(Some(id), r, chromeIntercepts)
    requires forall m | i < m < k :: run.events[m] != FrameDied(id)
    requires forall m | j < m < k :: !(run.events[m].Configured? && run.events[m].profile == p)
    ensures r.factory in run.states[k + 1].checks <==> exists n :: 0 <= n < |enabled| && enabled[n]
    ensures r.factory !in run.states[k + 1].checks ==>
              run.states[k + 1].outcomes == run.states[k].outcomes + [ToChrome(Some(id), r)]
  {
    FrameStays(run, i, k, id, Some(p));
    ConfigurationStays(run, j, k, p, enabled);
    assert IsStep(run, k);
    RunKeepsInv(run, k);
    ArrivalIsParkedIff(run.states[k], Some(id), r, chromeIntercepts);
    if n :| 0 <= n < |enabled| && enabled[n] { assert IsOnBy(run.states[k], Some(id), id, p, n); }
  }

  /** In every run: a classification that ends when its frame has died, or the client has gone,
      leaves its request dropped, whatever the verdict. */
  lemma DroppedOnceGone(run: Run, j: nat, k: nat, f: nat, result: FilterMatchResult, chromeIntercepts: bool)
    requires IsRun(run) && j < k < |run.events| && run.events[k] == Complete(f, result, chromeIntercepts)
    requires f in run.states[k].checks
    requires
      || run.events[j] == ClientDestroyed
      || (run.events[j] == FrameDied(run.states[k].checks[f].frame)
          && forall m | j < m < k ::
               !(run.events[m].FrameCreated? && run.events[m].id == run.states[k].checks[f].frame))
    ensures run.states[k + 1].outcomes == run.states[k].outcomes + [Dropped(run.states[k].checks[f].request)]
  {
    assert IsStep(run, k);
    if run.events[j] == ClientDestroyed {
      ClientStaysGone(run, j, k);
    } else {
      FrameStaysDead(run, j, k, run.states[k].checks[f].frame);
    }
  }

  /** When nothing is parked any more every issued request has had exactly one outcome. */
  lemma NothingIsLost(run: Run, m: nat, f: nat)
    requires IsRun(run) && m < |run.states| && run.states[m].checks == map[]
    ensures Uses(run.states[m].outcomes, f) == if f in run.states[m].issued then 1 else 0
  {
    RunKeepsInv(run, m);
  }

  /** The order in which two verdicts arrive makes no difference to either request. */
  lemma CompletionsCommute(s: State, f: nat, r: FilterMatchResult, c: bool, g: nat, r': FilterMatchResult, c': bool)
    returns (a: Outcome, b: Outcome)
    requires f != g && f in s.checks && g in s.checks
    ensures IsEnabled(Next(s, Complete(f, r, c)), Complete(g, r', c'))
    ensures IsEnabled(Next(s, Complete(g, r', c')), Complete(f, r, c))
    ensures var s1 := Next(Next(s, Complete(f, r, c)), Complete(g, r', c'));
            var s2 := Next(Next(s, Complete(g, r', c')), Complete(f, r, c));
            && s1.outcomes == s.outcomes + [a, b] && s2.outcomes == s.outcomes + [b, a]
            && s1 == s2.(outcomes := s1.outcomes)
  {
    a := RunCallback(s, s.checks[f], r, c);
    b := RunCallback(s, s.checks[g], r', c');
    assert s.checks - {f} - {g} == s.checks - {g} - {f};
  }
}
