/** The url loader factory proxies: who owns them, what they are wired to, and how they end
    (chrome/browser/adblock/adblock_content_browser_client.cc 75-148 and 311-371,
    components/adblock/content/browser/adblock_url_loader_factory.cc 610-686). */
module LoaderFactories {
  import opened Text
  import opened Wiring

  type Profile = int
  type HolderId = nat

  /** The address used as the key of a profile's user data: that of a local variable, hence any. */
  type Key = int

  /** An AdblockContextData. */
  datatype Holder = Holder(profile: Profile, key: Key, proxies: set<nat>)

  /** An AdblockURLLoaderFactory; the callback is bound weakly to a holder and can be run once. */
  datatype Factory = Factory(receivers: set<Pipe>, requests: set<int>, onDisconnect: Option<HolderId>)

  datatype FactoryType = DocumentSubResource | Navigation | OtherType

  predicate IsBusy(f: Factory) {
    f.receivers != {} || f.requests != {}
  }

  /** The holder of every factory is the one its callback is bound to, and holders hold only
      factories that live. */
  ghost predicate Owned(holders: map<HolderId, Holder>, factories: map<nat, Factory>) {
    && (forall x | x in factories :: IsHeld(holders, factories[x], x))
    && (forall h, x | h in holders && x in holders[h].proxies :: x in factories && factories[x].onDisconnect == Some(h))
  }

  ghost predicate IsHeld(holders: map<HolderId, Holder>, f: Factory, x: nat) {
    f.onDisconnect.Some? && f.onDisconnect.value in holders && x in holders[f.onDisconnect.value].proxies
  }

  /** A factory has the receiving ends that are with it; one that is gone has no ends. */
  ghost predicate Attached(pipes: Pipes, factories: map<nat, Factory>) {
    && IsWiring(pipes)
    && (forall x | x in factories :: x < |pipes.proxies| && pipes.proxies[x].kind == Adblock)
    && (forall x, p: Pipe | x in factories :: p in factories[x].receivers <==> IsInto(pipes, p, x))
    && (forall x: nat, p: Pipe | IsInto(pipes, p, x) && pipes.proxies[x].kind == Adblock :: x in factories)
    && (forall x | 0 <= x < |pipes.proxies| && pipes.proxies[x].kind == Adblock && x !in factories ::
          pipes.proxies[x].target.None?)
  }

  predicate IsKind(pipes: Pipes, x: nat, kind: Kind) {
    x < |pipes.proxies| && pipes.proxies[x].kind == kind
  }

  predicate IsInto(pipes: Pipes, p: Pipe, x: nat) {
    p < |pipes.receivers| && pipes.receivers[p] == Into(x) && x < |pipes.proxies|
  }

  /** Every holder is kept under its profile and key, and nothing else is. */
  ghost predicate Stored(holders: map<HolderId, Holder>, userData: map<(Profile, Key), HolderId>) {
    && (forall h | h in holders :: (holders[h].profile, holders[h].key) in userData
                                   && userData[(holders[h].profile, holders[h].key)] == h)
    && (forall k | k in userData ::
        userData[k] in holders && k == (holders[userData[k]].profile, holders[userData[k]].key))
  }

  function WithLeft(holders: map<HolderId, Holder>, h: HolderId, left: set<nat>): map<HolderId, Holder>
    requires h in holders
  {
    holders[h := holders[h].(proxies := left)]
  }

  /** A holder for the profile under the key, unless it is one already. */
  function WithHolder(holders: map<HolderId, Holder>, h: HolderId, profile: Profile,
      key: Key): (r: map<HolderId, Holder>)
    ensures h in r
  {
    if h in holders then holders else holders[h := Holder(profile, key, {})]
  }

  function WithHeld(holders: map<HolderId, Holder>, h: HolderId, x: nat): map<HolderId, Holder>
    requires h in holders
  {
    holders[h := holders[h].(proxies := holders[h].proxies + {x})]
  }

  lemma LeftTwice(holders: map<HolderId, Holder>, h: HolderId, left: set<nat>, left': set<nat>)
    requires h in holders
    ensures WithLeft(WithLeft(holders, h, left), h, left') == WithLeft(holders, h, left')
  {
  }

  lemma HeldLives(holders: map<HolderId, Holder>, factories: map<nat, Factory>, pipes: Pipes, h: HolderId, x: nat)
    requires Owned(holders, factories) && Attached(pipes, factories) && h in holders && x in holders[h].proxies
    ensures x in factories && x < |pipes.proxies|
  {
  }

  function WithoutHeld(holders: map<HolderId, Holder>, h: HolderId, x: nat): map<HolderId, Holder>
    requires h in holders
  {
    holders[h := holders[h].(proxies := holders[h].proxies - {x})]
  }

  /** A factory with this state stays if it is busy and is otherwise gone: from its holder, from the
      factories, and with its ends from the pipes. Nothing else differs. */
  ghost predicate GoneUnlessBusy(x: nat, f: Factory,
                                 factories: map<nat, Factory>, holders: map<HolderId, Holder>, pipes: Pipes,
                                 factories': map<nat, Factory>, holders': map<HolderId, Holder>, pipes': Pipes)
  {
    if IsBusy(f) then factories' == factories[x := f] && holders' == holders && pipes' == pipes
    else
      && x < |pipes.proxies| && IsHeld(holders, f, x)
      && factories' == factories - {x} && holders' == WithoutHeld(holders, f.onDisconnect.value, x)
      && pipes' == WithoutProxy(pipes, x)
  }

  ghost predicate OthersBusy(factories: map<nat, Factory>, x: nat) {
    forall y | y in factories && y != x :: IsBusy(factories[y])
  }

  lemma GoneAlike(x: nat, f: Factory, factories: map<nat, Factory>)
    ensures factories[x := f][x := f] == factories[x := f] && factories[x := f] - {x} == factories - {x}
  {
  }

  class Browser {
    var pipes: Pipes
    var holders: map<HolderId, Holder>
    var userData: map<(Profile, Key), HolderId>
    var factories: map<nat, Factory>
    var nextHolder: HolderId

    ghost predicate Consistent()
      reads this
    {
      && Owned(holders, factories) && Attached(pipes, factories) && Stored(holders, userData)
      && forall h | h in holders :: h < nextHolder
    }

    /** Besides, every living factory still has a client or a request. */
    ghost predicate Valid()
      reads this
    {
      Consistent() && forall x | x in factories :: IsBusy(factories[x])
    }

    constructor ()
      ensures Valid() && pipes == Pipes([], []) && factories == map[]
    {
      pipes := Pipes([], []);
      holders := map[];
      userData := map[];
      factories := map[];
      nextHolder := 0;
    }

    /** A client makes a pipe and passes its receiving end on. */
    method NewPipe() returns (p: Pipe)
      requires Consistent()
      modifies this`pipes
      ensures Consistent() && (old(Valid()) ==> Valid())
      ensures p == |old(pipes).receivers| && pipes == WithNewPipe(old(pipes))
    {
      NewPipeIsAttached(pipes, factories);
      p := |pipes.receivers|;
      pipes := WithNewPipe(pipes);
    }

    /** The holder kept under the key, or a new one: a holder that lives is never overwritten. */
    method GetOrCreateHolder(profile: Profile, key: Key) returns (self: HolderId)
      requires Valid()
      modifies this`holders, this`userData, this`nextHolder
      ensures Valid()
      ensures holders == WithHolder(old(holders), self, profile, key)
          && userData == old(userData)[(profile, key) := self]
      ensures holders[self].profile == profile && holders[self].key == key
      ensures self !in old(holders) <==> (profile, key) !in old(userData)
    {
      if (profile, key) in userData {
        self := userData[(profile, key)];
      } else {
        self := nextHolder;
        nextHolder := nextHolder + 1;
        holders := holders[self := Holder(profile, key, {})];
        userData := userData[(profile, key) := self];
      }
    }

    /** A new proxy between the given ends, owned by a holder for the profile. */
    method StartProxying(profile: Profile, key: Key, receiver: Pipe, target: Pipe)
      returns (x: nat, self: HolderId)
      requires Valid()
      requires receiver < |pipes.receivers| && pipes.receivers[receiver] == Held
      requires target < |pipes.receivers| && target != receiver && pipes.receivers[target] == Held
      requires IsWiring(WithProxy(pipes, receiver, Adblock, target))
      modifies this
      ensures Valid()
      ensures x == |old(pipes).proxies| && pipes == WithProxy(old(pipes), receiver, Adblock, target)
      ensures x !in old(factories) && factories == old(factories)[x := Factory({receiver}, {}, Some(self))]
      ensures holders == WithHeld(WithHolder(old(holders), self, profile, key), self, x)
      ensures holders[self].profile == profile && holders[self].key == key
    {
      self := GetOrCreateHolder(profile, key);
      x := EmplaceProxy(self, receiver, target);
    }

    /** The proxy takes over both ends, and the holder takes over the proxy. */
    method EmplaceProxy(self: HolderId, receiver: Pipe, target: Pipe) returns (x: nat)
      requires Valid() && self in holders && receiver < |pipes.receivers| && pipes.receivers[receiver] == Held
      requires IsWiring(WithProxy(pipes, receiver, Adblock, target))
      modifies this`pipes, this`factories, this`holders
      ensures Valid()
      ensures x == |old(pipes).proxies| && pipes == WithProxy(old(pipes), receiver, Adblock, target)
      ensures x !in old(factories) && factories == old(factories)[x := Factory({receiver}, {}, Some(self))]
      ensures holders == WithHeld(old(holders), self, x)
    {
      x := |pipes.proxies|;
      NewFactoryIsAttached(pipes, factories, receiver, target, Some(self));
      NewFactoryIsOwned(holders, factories, self, x, {receiver});
      pipes := WithProxy(pipes, receiver, Adblock, target);
      factories := factories[x := Factory({receiver}, {}, Some(self))];
      holders := holders[self := holders[self].(proxies := holders[self].proxies + {x})];
    }

    /** Erases a proxy from its holder and thereby deletes it. That it is found there is demanded. */
    method RemoveProxy(self: HolderId, x: nat)
      requires self in holders && x in holders[self].proxies && x < |pipes.proxies|
      modifies this
      ensures holders == WithoutHeld(old(holders), self, x)
      ensures factories == old(factories) - {x} && pipes == WithoutProxy(old(pipes), x)
      ensures userData == old(userData) && nextHolder == old(nextHolder)
    {
      assert x in holders[self].proxies;
      holders := holders[self := holders[self].(proxies := holders[self].proxies - {x})];
      factories := factories - {x};
      pipes := WithoutProxy(pipes, x);
    }

    /** A factory without clients and requests runs its callback, which finds and deletes just this
        factory; no message goes another way than before. */
    method MaybeDestroySelf(x: nat)
      requires Consistent() && x in factories
      requires OthersBusy(factories, x)
      modifies this
      ensures Valid()
      ensures GoneUnlessBusy(x, old(factories[x]), old(factories), old(holders), old(pipes), factories, holders, pipes)
      ensures userData == old(userData) && holders.Keys == old(holders).Keys
      ensures SameWays(old(pipes), pipes)
    {
      if factories[x].receivers == {} && factories[x].requests == {} {
        RunOnDisconnect(x);
      } else {
        SameWaysAsBefore(pipes);
      }
    }

    /** Runs the factory's callback, which can be run but once. */
    method RunOnDisconnect(x: nat)
      requires Consistent() && x in factories && OthersBusy(factories, x) && !IsBusy(factories[x])
      modifies this
      ensures Valid() && SameWays(old(pipes), pipes) && userData == old(userData)
      ensures old(IsHeld(holders, factories[x], x)) && x < |old(pipes).proxies|
      ensures holders == WithoutHeld(old(holders), old(factories[x].onDisconnect.value), x)
      ensures factories == old(factories) - {x} && pipes == WithoutProxy(old(pipes), x)
    {
      var self := factories[x].onDisconnect;
      factories := factories[x := factories[x].(onDisconnect := None)];
      assert old(IsHeld(holders, factories[x], x));
      RemovalKeepsOwned(holders, old(factories), x, self.value);
      UnusedProxyGoes(pipes, old(factories), x);
      // Bound to a weak pointer: nothing happens if the holder is gone.
      if self.value in holders {
        RemoveProxy(self.value, x);
      }
      assert factories == old(factories) - {x};
    }

    method CloseReceiver(x: nat, p: Pipe)
      requires Valid() && x in factories && p in factories[x].receivers
      modifies this`pipes, this`factories
      ensures Consistent() && OthersBusy(factories, x) && p < |old(pipes).receivers|
      ensures pipes == WithClosed(old(pipes), p)
      ensures factories == old(factories)[x := old(factories[x]).(receivers := old(factories[x].receivers) - {p})]
    {
      ClosingIsAttached(pipes, factories, x, p);
      SameOwners(holders, factories, x, factories[x].(receivers := factories[x].receivers - {p}));
      pipes := WithClosed(pipes, p);
      factories := factories[x := factories[x].(receivers := factories[x].receivers - {p})];
    }

    method CloseTarget(x: nat)
      requires Valid() && x in factories
      modifies this`pipes, this`factories
      ensures Consistent() && OthersBusy(factories, x) && x < |old(pipes).proxies|
      ensures pipes == WithoutProxy(old(pipes), x)
      ensures factories == old(factories)[x := old(factories[x]).(receivers := {})]
    {
      ClearingIsAttached(pipes, factories, x);
      SameOwners(holders, factories, x, factories[x].(receivers := {}));
      pipes := WithoutProxy(pipes, x);
      factories := factories[x := factories[x].(receivers := {})];
    }

    method EraseRequest(x: nat, request: int)
      requires Valid() && x in factories && request in factories[x].requests
      modifies this`factories
      ensures Consistent() && OthersBusy(factories, x)
      ensures factories == old(factories)[x := old(factories[x]).(requests := old(factories[x].requests) - {request})]
    {
      SameOwners(holders, factories, x, factories[x].(requests := factories[x].requests - {request}));
      factories := factories[x := factories[x].(requests := factories[x].requests - {request})];
    }

    /** A client has closed its pipe. */
    method OnProxyBindingError(x: nat, p: Pipe)
      requires Valid() && x in factories && p in factories[x].receivers
      modifies this
      ensures Valid()
      ensures p < |old(pipes).receivers| && userData == old(userData)
      ensures GoneUnlessBusy(x, old(factories[x]).(receivers := old(factories[x].receivers) - {p}),
                             old(factories), old(holders), WithClosed(old(pipes), p), factories, holders, pipes)
      ensures x in factories <==> old(factories[x].receivers) - {p} != {} || old(factories[x].requests) != {}
    {
      CloseReceiver(x, p);
      MaybeDestroySelf(x);
      GoneAlike(x, old(factories[x]).(receivers := old(factories[x].receivers) - {p}), old(factories));
    }

    /** The other end of the target has gone: no client is served any more. */
    method OnTargetFactoryError(x: nat)
      requires Valid() && x in factories
      modifies this
      ensures Valid()
      ensures x < |old(pipes).proxies| && userData == old(userData)
      ensures GoneUnlessBusy(x, old(factories[x]).(receivers := {}), old(factories), old(holders),
                             WithoutProxy(old(pipes), x), factories, holders, pipes)
      ensures x in factories <==> old(factories[x].requests) != {}
      ensures x in factories ==> factories[x].receivers == {}
    {
      CloseTarget(x);
      MaybeDestroySelf(x);
      GoneAlike(x, old(factories[x]).(receivers := {}), old(factories));
    }

    /** A request has ended. */
    method RemoveRequest(x: nat, request: int)
      requires Valid() && x in factories && request in factories[x].requests
      modifies this
      ensures Valid()
      ensures userData == old(userData)
      ensures GoneUnlessBusy(x, old(factories[x]).(requests := old(factories[x].requests) - {request}),
                             old(factories), old(holders), old(pipes), factories, holders, pipes)
      ensures x in factories <==> old(factories[x].receivers) != {} || old(factories[x].requests) - {request} != {}
    {
      EraseRequest(x, request);
      MaybeDestroySelf(x);
      GoneAlike(x, old(factories[x]).(requests := old(factories[x].requests) - {request}), old(factories));
    }

    /** Only a client can start a request. */
    method CreateLoaderAndStart(x: nat, request: int)
      requires Valid() && x in factories && factories[x].receivers != {}
      modifies this`factories
      ensures Valid()
      ensures factories == old(factories)[x := old(factories)[x].(requests := old(factories)[x].requests + {request})]
    {
      SameOwners(holders, factories, x, factories[x].(requests := factories[x].requests + {request}));
      factories := factories[x := factories[x].(requests := factories[x].requests + {request})];
    }

    /** Only a client can ask for a further pipe into the proxy; it leads where that client's does. */
    method Clone(x: nat) returns (p: Pipe)
      requires Valid() && x in factories && factories[x].receivers != {}
      modifies this
      ensures Valid() && p == |old(pipes).receivers| && pipes == WithClone(old(pipes), x)
      ensures factories.Keys == old(factories).Keys && p in factories[x].receivers
      ensures holders == old(holders) && userData == old(userData)
    {
      p := |pipes.receivers|;
      CloneIsAttached(pipes, factories, x);
      pipes := WithClone(pipes, x);
      SameOwners(holders, factories, x, factories[x].(receivers := factories[x].receivers + {p}));
      factories := factories[x := factories[x].(receivers := factories[x].receivers + {p})];
    }

    /** The proxies of a holder that is going go one by one. */
    method DestroyProxies(h: HolderId)
      requires Valid() && h in holders
      modifies this`pipes, this`factories, this`holders
      ensures Valid()
      ensures factories == old(factories) - old(holders[h].proxies)
          && pipes == WithoutProxies(old(pipes), old(holders[h].proxies))
      ensures holders == WithLeft(old(holders), h, {})
      decreases |holders[h].proxies|
    {
      if holders[h].proxies == {} {
        WithoutNone(pipes);
        return;
      }
      var x :| x in holders[h].proxies;
      HeldLives(holders, factories, pipes, h, x);
      LeftTwice(holders, h, holders[h].proxies - {x}, {});
      OneGoneFirst(factories, pipes, holders[h].proxies, x);
      DestroyProxy(h, x);
      DestroyProxies(h);
    }

    method DestroyProxy(h: HolderId, x: nat)
      requires Valid() && h in holders && x in holders[h].proxies
      modifies this`pipes, this`factories, this`holders
      ensures Valid() && factories == old(factories) - {x}
      ensures x < |old(pipes).proxies| && pipes == WithoutProxy(old(pipes), x)
      ensures holders == WithLeft(old(holders), h, old(holders[h].proxies) - {x})
    {
      RemovalKeepsOwned(holders, factories, x, h);
      GoneIsAttached(pipes, factories, x);
      holders := holders[h := holders[h].(proxies := holders[h].proxies - {x})];
      factories := factories - {x};
      pipes := WithoutProxy(pipes, x);
    }

    /** A profile goes, with this holder and all proxies it owns. */
    method DestroyHolder(h: HolderId)
      requires Valid() && h in holders
      modifies this
      ensures Valid()
      ensures holders == old(holders) - {h} && factories == old(factories) - old(holders[h].proxies)
      ensures pipes == WithoutProxies(old(pipes), old(holders[h].proxies))
    {
      DestroyProxies(h);
      EmptyHolderGoes(holders, factories, userData, h);
      userData := userData - {(holders[h].profile, holders[h].key)};
      holders := holders - {h};
    }

    /** Chrome's own client may splice one proxy of its own in. */
    method ChromeWillCreateURLLoaderFactory(receiver: Pipe, splices: bool) returns (handedBack: Pipe)
      requires Valid() && receiver < |pipes.receivers| && pipes.receivers[receiver] == Held
      modifies this`pipes
      ensures Valid()
      ensures handedBack < |pipes.receivers| && pipes.receivers[handedBack] == Held
      ensures splices ==> handedBack >= |old(pipes).receivers|
                          && |pipes.proxies| == |old(pipes).proxies| + 1 && IsKind(pipes, |old(pipes).proxies|, Chrome)
                          && Extends(old(pipes), pipes, receiver, [|old(pipes).proxies|], handedBack)
      ensures !splices ==> pipes == old(pipes) && handedBack == receiver
    {
      handedBack := receiver;
      if splices {
        SplicedExtends(pipes, receiver, Chrome);
        ChromeIsAttached(pipes, factories, receiver);
        handedBack := |pipes.receivers|;
        pipes := Spliced(pipes, receiver, Chrome);
      }
    }

    /** The ad blocker's proxy takes over the receiving end, and that of a new pipe is handed back. */
    method Intercept(profile: Profile, key: Key, receiver: Pipe) returns (handedBack: Pipe)
      requires Valid() && receiver < |pipes.receivers| && pipes.receivers[receiver] == Held
      modifies this
      ensures Valid()
      ensures handedBack == |old(pipes).receivers| && |pipes.receivers| == handedBack + 1
          && pipes.receivers[handedBack] == Held
      ensures var x := |old(pipes).proxies|;
              && pipes.proxies == old(pipes).proxies + [Proxy(Adblock, Some(handedBack))]
              && Extends(old(pipes), pipes, receiver, [x], handedBack)
              && x !in old(factories) && factories.Keys == old(factories).Keys + {x}
    {
      SplicedExtends(pipes, receiver, Adblock);
      handedBack := NewPipe();
      var x, self := StartProxying(profile, key, receiver, handedBack);
    }

    /** Chrome's proxy comes first, then that of the ad blocker: whatever arrived at the receiving
        end passed in now passes just those and arrives at the end handed back, and all else goes
        its way as before. */
    method WillCreateURLLoaderFactory(frame: Option<Profile>, filteringNeeded: bool, factoryType: FactoryType,
                                      fromExtension: bool, forced: bool, key: Key, receiver: Pipe,
                                      chromeSplices: bool, chromeResult: bool)
      returns (used: bool, handedBack: Pipe, ghost added: seq<nat>)
      requires Valid() && receiver < |pipes.receivers| && pipes.receivers[receiver] == Held
      modifies this
      ensures Valid() && handedBack < |pipes.receivers| && pipes.receivers[handedBack] == Held
      ensures Extends(old(pipes), pipes, receiver, added, handedBack)
      ensures var intercepts := (forced || !fromExtension) && frame.Some? && filteringNeeded
                  && (factoryType == DocumentSubResource || factoryType == Navigation);
              var chrome := |old(pipes).proxies|;
              var adblock := chrome + if chromeSplices then 1 else 0;
              && added == (if chromeSplices then [chrome] else []) + (if intercepts then [adblock] else [])
              && factories.Keys == old(factories).Keys + (if intercepts then {adblock} else {})
              && (chromeSplices ==> IsKind(pipes, chrome, Chrome)) && (intercepts ==> IsKind(pipes, adblock, Adblock))
              && (used <==> chromeResult || intercepts)
      ensures chromeResult == chromeSplices ==> (used <==> added != [])
    {
      NothingSpliced(pipes, receiver);
      var useChromeProxy := chromeResult;
      handedBack := ChromeWillCreateURLLoaderFactory(receiver, chromeSplices);
      added := if chromeSplices then [|old(pipes).proxies|] else [];
      if !forced && fromExtension {
        return useChromeProxy, handedBack, added;
      }
      var useAdblockProxy := (factoryType == DocumentSubResource || factoryType == Navigation) && frame.Some?
          && filteringNeeded;
      if useAdblockProxy {
        ghost var mid, proxiedReceiver := pipes, handedBack;
        handedBack := Intercept(frame.value, key, handedBack);
        ghost var x := |mid.proxies|;
        ExtendsTwice(old(pipes), mid, pipes, receiver, added, proxiedReceiver, [x], handedBack);
        added := added + [x];
      }
      return useAdblockProxy || useChromeProxy, handedBack, added;
    }
  }

  // ----- What the steps keep -----

  /** Every pipe leads where it led. */
  ghost predicate SameWays(w: Pipes, w': Pipes) {
    && IsWiring(w) && IsWiring(w') && |w.receivers| == |w'.receivers|
    && forall q: Pipe | q < |w.receivers| :: Path(w', q) == Path(w, q) && Last(w', q) == Last(w, q)
  }

  lemma SameWaysAsBefore(w: Pipes)
    requires IsWiring(w)
    ensures SameWays(w, w)
  {
  }

  /** So what is sent into the pipe itself passes the proxies added, and those only. */
  lemma HeldPath(w: Pipes, w': Pipes, p: Pipe, added: seq<nat>, end: Pipe)
    requires Extends(w, w', p, added, end) && p < |w.receivers| && w.receivers[p] == Held
    ensures Path(w', p) == added && Last(w', p) == end
  {
    assert Leads(w, w', p, added, end, p);
  }

  lemma NewPipeIsAttached(pipes: Pipes, factories: map<nat, Factory>)
    requires Attached(pipes, factories)
    ensures Attached(WithNewPipe(pipes), factories)
  {
    var w' := WithNewPipe(pipes);
    forall x | 0 <= x < |w'.proxies|
      ensures TargetIsLater(w', x)
    {
      assert TargetIsLater(pipes, x);
    }
    assert forall x, p: Pipe :: IsInto(w', p, x) <==> IsInto(pipes, p, x);
  }

  lemma NewFactoryIsAttached(pipes: Pipes, factories: map<nat, Factory>, receiver: Pipe, target: Pipe,
      owner: Option<HolderId>)
    requires Attached(pipes, factories) && receiver < |pipes.receivers| && pipes.receivers[receiver] == Held
    requires IsWiring(WithProxy(pipes, receiver, Adblock, target))
    ensures |pipes.proxies| !in factories
    ensures Attached(WithProxy(pipes, receiver, Adblock, target),
        factories[|pipes.proxies| := Factory({receiver}, {}, owner)])
  {
    var w' := WithProxy(pipes, receiver, Adblock, target);
    var n := |pipes.proxies|;
    assert forall x, p: Pipe :: IsInto(w', p, x) <==> IsInto(pipes, p, x) || (x == n && p == receiver);
  }

  lemma ChromeIsAttached(pipes: Pipes, factories: map<nat, Factory>, receiver: Pipe)
    requires Attached(pipes, factories) && receiver < |pipes.receivers| && pipes.receivers[receiver] == Held
    ensures Attached(Spliced(pipes, receiver, Chrome), factories)
  {
    SplicedIsWiring(pipes, receiver, Chrome);
    var w' := Spliced(pipes, receiver, Chrome);
    var n := |pipes.proxies|;
    assert forall x, p: Pipe :: IsInto(w', p, x) <==> IsInto(pipes, p, x) || (x == n && p == receiver);
  }

  lemma CloneIsAttached(pipes: Pipes, factories: map<nat, Factory>, x: nat)
    requires Attached(pipes, factories) && x in factories
    ensures var p := |pipes.receivers|;
            Attached(WithClone(pipes, x), factories[x := factories[x].(receivers := factories[x].receivers + {p})])
  {
    CloneIsWiring(pipes, x);
    var w' := WithClone(pipes, x);
    assert forall y, q: Pipe :: IsInto(w', q, y) <==> IsInto(pipes, q, y) || (y == x && q == |pipes.receivers|);
  }

  lemma ClosingIsAttached(pipes: Pipes, factories: map<nat, Factory>, x: nat, p: Pipe)
    requires Attached(pipes, factories) && x in factories && p in factories[x].receivers
    ensures p < |pipes.receivers|
    ensures Attached(WithClosed(pipes, p), factories[x := factories[x].(receivers := factories[x].receivers - {p})])
  {
    assert IsInto(pipes, p, x);
    var w' := WithClosed(pipes, p);
    FewerEndsAreWiring(pipes, w');
    assert forall y, q: Pipe :: IsInto(w', q, y) <==> IsInto(pipes, q, y) && q != p;
  }

  lemma WithoutProxyEnds(pipes: Pipes, x: nat)
    requires IsWiring(pipes) && x < |pipes.proxies|
    ensures IsWiring(WithoutProxy(pipes, x))
    ensures forall y, q: Pipe :: IsInto(WithoutProxy(pipes, x), q, y) <==> IsInto(pipes, q, y) && y != x
  {
    FewerEndsAreWiring(pipes, WithoutProxy(pipes, x));
  }

  lemma ClearingIsAttached(pipes: Pipes, factories: map<nat, Factory>, x: nat)
    requires Attached(pipes, factories) && x in factories
    ensures Attached(WithoutProxy(pipes, x), factories[x := factories[x].(receivers := {})])
  {
    WithoutProxyEnds(pipes, x);
  }

  lemma GoneIsAttached(pipes: Pipes, factories: map<nat, Factory>, x: nat)
    requires Attached(pipes, factories) && x in factories
    ensures Attached(WithoutProxy(pipes, x), factories - {x})
  {
    WithoutProxyEnds(pipes, x);
  }

  lemma UnusedProxyGoes(pipes: Pipes, factories: map<nat, Factory>, x: nat)
    requires Attached(pipes, factories) && x in factories && factories[x].receivers == {}
    ensures Attached(WithoutProxy(pipes, x), factories - {x}) && SameWays(pipes, WithoutProxy(pipes, x))
  {
    GoneIsAttached(pipes, factories, x);
    forall q: Pipe | q < |pipes.receivers|
      ensures pipes.receivers[q] != Into(x)
    {
      assert q !in factories[x].receivers;
      assert !IsInto(pipes, q, x);
    }
    forall q: Pipe | q < |pipes.receivers|
      ensures Path(WithoutProxy(pipes, x), q) == Path(pipes, q) && Last(WithoutProxy(pipes, x), q) == Last(pipes, q)
    {
      UnusedProxyIsOnNoPath(pipes, x, q);
    }
  }

  /** A living proxy is in exactly one holder's set. */
  lemma InExactlyOneHolder(holders: map<HolderId, Holder>, factories: map<nat, Factory>, x: nat) returns (h: HolderId)
    requires Owned(holders, factories) && x in factories
    ensures h in holders && x in holders[h].proxies
    ensures forall g | g in holders :: x in holders[g].proxies <==> g == h
  {
    assert IsHeld(holders, factories[x], x);
    h := factories[x].onDisconnect.value;
  }

  lemma NewFactoryIsOwned(holders: map<HolderId, Holder>, factories: map<nat, Factory>, h: HolderId, x: nat,
      receivers: set<Pipe>)
    requires Owned(holders, factories) && h in holders && x !in factories
    ensures Owned(WithHeld(holders, h, x), factories[x := Factory(receivers, {}, Some(h))])
  {
    var holders' := WithHeld(holders, h, x);
    forall y | y in factories
      ensures IsHeld(holders', factories[y], y)
    {
      assert IsHeld(holders, factories[y], y);
    }
  }

  lemma SameOwners(holders: map<HolderId, Holder>, factories: map<nat, Factory>, x: nat, f: Factory)
    requires Owned(holders, factories) && x in factories && f.onDisconnect == factories[x].onDisconnect
    ensures Owned(holders, factories[x := f])
  {
    assert IsHeld(holders, factories[x], x);
    forall y | y in factories && y != x
      ensures IsHeld(holders, factories[x := f][y], y)
    {
      assert IsHeld(holders, factories[y], y);
    }
  }

  lemma OneGoneFirst(factories: map<nat, Factory>, pipes: Pipes, all: set<nat>, x: nat)
    requires x in all && x < |pipes.proxies|
    ensures factories - {x} - (all - {x}) == factories - all
    ensures WithoutProxies(WithoutProxy(pipes, x), all - {x}) == WithoutProxies(pipes, all)
  {
    WithoutOneFirst(pipes, all, x);
  }

  lemma EmptyHolderGoes(holders: map<HolderId, Holder>, factories: map<nat, Factory>,
      userData: map<(Profile, Key), HolderId>, h: HolderId)
    requires Owned(holders, factories) && Stored(holders, userData) && h in holders && holders[h].proxies == {}
    ensures Owned(holders - {h}, factories) && Stored(holders - {h}, userData - {(holders[h].profile, holders[h].key)})
  {
    forall x | x in factories
      ensures IsHeld(holders - {h}, factories[x], x)
    {
      assert IsHeld(holders, factories[x], x);
    }
  }

  lemma RemovalKeepsOwned(holders: map<HolderId, Holder>, factories: map<nat, Factory>, x: nat, h: HolderId)
    requires Owned(holders, factories) && x in factories && factories[x].onDisconnect == Some(h)
    ensures h in holders && x in holders[h].proxies
    ensures Owned(WithoutHeld(holders, h, x), factories - {x})
  {
    assert IsHeld(holders, factories[x], x);
    var holders' := WithoutHeld(holders, h, x);
    forall y | y in factories - {x}
      ensures IsHeld(holders', factories[y], y)
    {
      assert IsHeld(holders, factories[y], y);
    }
  }
}
