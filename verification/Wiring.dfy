/** How the pipes of url loader factories are wired through proxies
    (chrome/browser/adblock/adblock_content_browser_client.cc 325-371). Pipes and proxies are
    numbered in the order they are made. */
module Wiring {
  import opened Text

  type Pipe = nat

  /** Who has the receiving end of a pipe: whoever it was handed to, a proxy, or nobody any more. */
  datatype End = Held | Into(proxy: nat) | Closed

  datatype Kind = Chrome | Adblock

  /** A proxy passes on what it receives to its target, while it has one. */
  datatype Proxy = Proxy(kind: Kind, target: Option<Pipe>)

  datatype Pipes = Pipes(receivers: seq<End>, proxies: seq<Proxy>)

  /** Every receiving end is with a proxy that exists; every target is a pipe, of one proxy only,
      and leads to a proxy made later, if to any. */
  ghost predicate IsWiring(w: Pipes) {
    && (forall p | 0 <= p < |w.receivers| :: w.receivers[p].Into? ==> w.receivers[p].proxy < |w.proxies|)
    && (forall x | 0 <= x < |w.proxies| :: TargetIsLater(w, x))
    && (forall x, y | 0 <= x < y < |w.proxies| :: w.proxies[x].target.Some? ==>
        w.proxies[x].target != w.proxies[y].target)
  }

  ghost predicate TargetIsLater(w: Pipes, x: nat)
    requires x < |w.proxies|
  {
    var target := w.proxies[x].target;
    target.Some? ==>
      && target.value < |w.receivers|
      && (w.receivers[target.value].Into? ==> x < w.receivers[target.value].proxy)
  }

  ghost function Rank(w: Pipes, p: Pipe): nat
    requires IsWiring(w) && p < |w.receivers|
  {
    if w.receivers[p].Into? then |w.proxies| - w.receivers[p].proxy else 0
  }

  /** Whether the pipe's receiving end is with a proxy that passes on. */
  predicate PassesOn(w: Pipes, p: Pipe)
    requires p < |w.receivers|
  {
    w.receivers[p].Into? && w.receivers[p].proxy < |w.proxies| && w.proxies[w.receivers[p].proxy].target.Some?
  }

  function NextPipe(w: Pipes, p: Pipe): Pipe
    requires p < |w.receivers| && PassesOn(w, p)
  {
    w.proxies[w.receivers[p].proxy].target.value
  }

  /** The proxies a message sent into the pipe passes through. */
  ghost function Path(w: Pipes, p: Pipe): seq<nat>
    requires IsWiring(w) && p < |w.receivers|
    decreases Rank(w, p)
  {
    if !PassesOn(w, p) then []
    else
      assert TargetIsLater(w, w.receivers[p].proxy);
      [w.receivers[p].proxy] + Path(w, NextPipe(w, p))
  }

  /** The pipe at whose receiving end the message arrives. */
  ghost function Last(w: Pipes, p: Pipe): (last: Pipe)
    requires IsWiring(w) && p < |w.receivers|
    ensures last < |w.receivers| && !PassesOn(w, last)
    decreases Rank(w, p)
  {
    if !PassesOn(w, p) then p
    else
      assert TargetIsLater(w, w.receivers[p].proxy);
      Last(w, NextPipe(w, p))
  }

  /** No message passes the same proxy twice: proxies are passed in the order they were made. */
  lemma {:induction false} PathIsSimple(w: Pipes, p: Pipe, i: nat, j: nat)
    requires IsWiring(w) && p < |w.receivers| && i < j < |Path(w, p)|
    ensures Path(w, p)[i] < Path(w, p)[j]
    decreases Rank(w, p)
  {
    assert TargetIsLater(w, w.receivers[p].proxy);
    var next := NextPipe(w, p);
    if i > 0 {
      PathIsSimple(w, next, i - 1, j - 1);
    } else {
      if j > 1 { PathIsSimple(w, next, 0, j - 1); }
    }
  }

  // ----- Splicing a proxy in -----

  /** A new pipe, its receiving end held by whoever made it. */
  function WithNewPipe(w: Pipes): Pipes {
    w.(receivers := w.receivers + [Held])
  }

  /** A new proxy takes over the receiving end of a pipe and passes on to another. */
  function WithProxy(w: Pipes, p: Pipe, kind: Kind, target: Pipe): Pipes
    requires p < |w.receivers|
  {
    Pipes(w.receivers[p := Into(|w.proxies|)], w.proxies + [Proxy(kind, Some(target))])
  }

  /** A new proxy between a pipe and a new one. */
  function Spliced(w: Pipes, p: Pipe, kind: Kind): Pipes
    requires p < |w.receivers|
  {
    WithProxy(WithNewPipe(w), p, kind, |w.receivers|)
  }

  /** Every message that arrived at `p` now passes the proxies `added` and arrives at `end`; all
      others go as before. */
  ghost predicate Extends(w: Pipes, w': Pipes, p: Pipe, added: seq<nat>, end: Pipe) {
    && IsWiring(w) && IsWiring(w') && |w.receivers| <= |w'.receivers|
    && forall q: Pipe | q < |w.receivers| :: Leads(w, w', p, added, end, q)
  }

  ghost predicate Leads(w: Pipes, w': Pipes, p: Pipe, added: seq<nat>, end: Pipe, q: Pipe)
    requires IsWiring(w) && IsWiring(w') && q < |w.receivers| <= |w'.receivers|
  {
    if Last(w, q) == p then Path(w', q) == Path(w, q) + added && Last(w', q) == end
    else Path(w', q) == Path(w, q) && Last(w', q) == Last(w, q)
  }

  /** Message by message: one that arrived at `p` passes what was added behind what it passed before,
      and any other passes what it passed before. */
  lemma ExtendedPaths(w: Pipes, w': Pipes, p: Pipe, added: seq<nat>, end: Pipe, q: Pipe)
    requires Extends(w, w', p, added, end) && q < |w.receivers|
    ensures Path(w', q) == Path(w, q) + (if Last(w, q) == p then added else [])
    ensures Last(w', q) == if Last(w, q) == p then end else Last(w, q)
  {
    assert Leads(w, w', p, added, end, q);
    assert Path(w, q) + [] == Path(w, q);
  }

  lemma SplicedIsWiring(w: Pipes, p: Pipe, kind: Kind)
    requires IsWiring(w) && p < |w.receivers| && w.receivers[p] == Held
    ensures IsWiring(Spliced(w, p, kind))
  {
    var w' := Spliced(w, p, kind);
    forall x | 0 <= x < |w'.proxies|
      ensures TargetIsLater(w', x)
    {
      if x < |w.proxies| { assert TargetIsLater(w, x); }
    }
    forall x, y | 0 <= x < y < |w'.proxies| && w'.proxies[x].target.Some?
      ensures w'.proxies[x].target != w'.proxies[y].target
    {
      assert TargetIsLater(w, x);
    }
  }

  lemma {:induction false} SplicedLeads(w: Pipes, p: Pipe, kind: Kind, q: Pipe)
    requires IsWiring(w) && p < |w.receivers| && w.receivers[p] == Held && q < |w.receivers|
    requires IsWiring(Spliced(w, p, kind))
    ensures Leads(w, Spliced(w, p, kind), p, [|w.proxies|], |w.receivers|, q)
    decreases Rank(w, q)
  {
    var w' := Spliced(w, p, kind);
    if q == p {
      assert PassesOn(w', p) && NextPipe(w', p) == |w.receivers| && !PassesOn(w', |w.receivers|);
      assert TargetIsLater(w', |w.proxies|);
    } else if PassesOn(w, q) {
      assert TargetIsLater(w, w.receivers[q].proxy) && TargetIsLater(w', w.receivers[q].proxy);
      assert PassesOn(w', q) && NextPipe(w', q) == NextPipe(w, q);
      SplicedLeads(w, p, kind, NextPipe(w, q));
    }
  }

  lemma SplicedExtends(w: Pipes, p: Pipe, kind: Kind)
    requires IsWiring(w) && p < |w.receivers| && w.receivers[p] == Held
    ensures Extends(w, Spliced(w, p, kind), p, [|w.proxies|], |w.receivers|)
  {
    SplicedIsWiring(w, p, kind);
    forall q: Pipe | q < |w.receivers|
      ensures Leads(w, Spliced(w, p, kind), p, [|w.proxies|], |w.receivers|, q)
    {
      SplicedLeads(w, p, kind, q);
    }
  }

  lemma NothingSpliced(w: Pipes, p: Pipe)
    requires IsWiring(w)
    ensures Extends(w, w, p, [], p)
  {
  }

  lemma ExtendsTwice(w: Pipes, w1: Pipes, w2: Pipes, p: Pipe, added: seq<nat>, mid: Pipe, added': seq<nat>, end: Pipe)
    requires Extends(w, w1, p, added, mid) && Extends(w1, w2, mid, added', end)
    requires p < |w.receivers| && (mid == p || mid >= |w.receivers|)
    requires mid == p ==> added == []
    ensures Extends(w, w2, p, added + added', end)
  {
    forall q: Pipe | q < |w.receivers|
      ensures Leads(w, w2, p, added + added', end, q)
    {
      assert Leads(w, w1, p, added, mid, q) && Leads(w1, w2, mid, added', end, q);
      assert Path(w, q) + added + added' == Path(w, q) + (added + added');
    }
  }

  // ----- Taking proxies and pipes away -----

  /** The pipe's receiving end is closed. */
  function WithClosed(w: Pipes, p: Pipe): Pipes
    requires p < |w.receivers|
  {
    w.(receivers := w.receivers[p := Closed])
  }

  function EndWithout(end: End, x: nat): End {
    if end == Into(x) then Closed else end
  }

  /** All receiving ends of the proxy are closed. */
  function WithReceiversCleared(w: Pipes, x: nat): Pipes {
    w.(receivers := seq(|w.receivers|, p requires 0 <= p < |w.receivers| => EndWithout(w.receivers[p], x)))
  }

  function WithoutTarget(w: Pipes, x: nat): Pipes
    requires x < |w.proxies|
  {
    w.(proxies := w.proxies[x := w.proxies[x].(target := None)])
  }

  /** One more pipe into a proxy. */
  function WithClone(w: Pipes, x: nat): Pipes {
    w.(receivers := w.receivers + [Into(x)])
  }

  /** The proxy is gone, and with it its ends. */
  function WithoutProxy(w: Pipes, x: nat): Pipes
    requires x < |w.proxies|
  {
    WithoutTarget(WithReceiversCleared(w, x), x)
  }

  function EndWithoutAll(end: End, gone: set<nat>): End {
    if end.Into? && end.proxy in gone then Closed else end
  }

  function ProxyWithoutAll(w: Pipes, x: nat, gone: set<nat>): Proxy
    requires x < |w.proxies|
  {
    if x in gone then w.proxies[x].(target := None) else w.proxies[x]
  }

  /** Several proxies are gone. */
  function WithoutProxies(w: Pipes, gone: set<nat>): Pipes {
    Pipes(seq(|w.receivers|, p requires 0 <= p < |w.receivers| => EndWithoutAll(w.receivers[p], gone)),
          seq(|w.proxies|, x requires 0 <= x < |w.proxies| => ProxyWithoutAll(w, x, gone)))
  }

  lemma WithoutOneFirst(w: Pipes, all: set<nat>, x: nat)
    requires x in all && x < |w.proxies|
    ensures WithoutProxies(WithoutProxy(w, x), all - {x}) == WithoutProxies(w, all)
  {
    var a, b := WithoutProxies(WithoutProxy(w, x), all - {x}), WithoutProxies(w, all);
    assert a.receivers == b.receivers;
    assert a.proxies == b.proxies;
  }

  lemma WithoutNone(w: Pipes)
    ensures WithoutProxies(w, {}) == w
  {
    assert WithoutProxies(w, {}).receivers == w.receivers && WithoutProxies(w, {}).proxies == w.proxies;
  }

  lemma FewerEndsAreWiring(w: Pipes, w': Pipes)
    requires IsWiring(w) && |w'.receivers| == |w.receivers| && |w'.proxies| == |w.proxies|
    requires forall p | 0 <= p < |w.receivers| :: w'.receivers[p] == w.receivers[p] || w'.receivers[p] == Closed
    requires forall x | 0 <= x < |w.proxies| ::
        w'.proxies[x].target == w.proxies[x].target || w'.proxies[x].target.None?
    ensures IsWiring(w')
  {
    forall x | 0 <= x < |w'.proxies|
      ensures TargetIsLater(w', x)
    {
      assert TargetIsLater(w, x);
    }
  }

  lemma CloneIsWiring(w: Pipes, x: nat)
    requires IsWiring(w) && x < |w.proxies|
    ensures IsWiring(WithClone(w, x))
  {
    forall y | 0 <= y < |w.proxies|
      ensures TargetIsLater(WithClone(w, x), y)
    {
      assert TargetIsLater(w, y);
    }
  }

  /** A clone leads where the proxy's other pipes lead. */
  lemma {:induction false} CloneLeadsAlike(w: Pipes, x: nat, q: Pipe)
    requires IsWiring(w) && x < |w.proxies| && q < |w.receivers|
    requires IsWiring(WithClone(w, x))
    ensures Path(WithClone(w, x), q) == Path(w, q) && Last(WithClone(w, x), q) == Last(w, q)
    ensures w.receivers[q] == Into(x) && w.proxies[x].target.Some? ==>
              Path(WithClone(w, x), |w.receivers|) == Path(w, q) && Last(WithClone(w, x), |w.receivers|) == Last(w, q)
    decreases Rank(w, q)
  {
    var w' := WithClone(w, x);
    assert PassesOn(w', q) <==> PassesOn(w, q);
    if PassesOn(w, q) {
      assert TargetIsLater(w, w.receivers[q].proxy) && TargetIsLater(w', w.receivers[q].proxy);
      CloneLeadsAlike(w, x, NextPipe(w, q));
    }
  }

  /** A proxy that nothing leads into any more can go without any message going another way. */
  lemma {:induction false} UnusedProxyIsOnNoPath(w: Pipes, x: nat, q: Pipe)
    requires IsWiring(w) && x < |w.proxies| && q < |w.receivers| && Into(x) !in w.receivers
    requires IsWiring(WithoutProxy(w, x))
    ensures Path(WithoutProxy(w, x), q) == Path(w, q) && Last(WithoutProxy(w, x), q) == Last(w, q)
    ensures x !in Path(w, q)
    decreases Rank(w, q)
  {
    var w' := WithoutProxy(w, x);
    assert w'.receivers[q] == w.receivers[q] != Into(x);
    if PassesOn(w, q) {
      assert TargetIsLater(w, w.receivers[q].proxy) && TargetIsLater(w', w.receivers[q].proxy);
      UnusedProxyIsOnNoPath(w, x, NextPipe(w, q));
    }
  }

  /** No message passes a proxy that is gone, whatever led into it before. */
  lemma {:induction false} GoneIsOnNoPath(w: Pipes, x: nat, q: Pipe)
    requires IsWiring(w) && x < |w.proxies| && q < |w.receivers| && IsWiring(WithoutProxy(w, x))
    ensures x !in Path(WithoutProxy(w, x), q)
    ensures w.receivers[q] == Into(x) ==> WithoutProxy(w, x).receivers[q] == Closed
    decreases Rank(w, q)
  {
    var w' := WithoutProxy(w, x);
    if PassesOn(w', q) {
      assert w'.receivers[q] == w.receivers[q] && NextPipe(w', q) == NextPipe(w, q);
      assert TargetIsLater(w, w.receivers[q].proxy) && TargetIsLater(w', w.receivers[q].proxy);
      GoneIsOnNoPath(w, x, NextPipe(w, q));
    }
  }
}
