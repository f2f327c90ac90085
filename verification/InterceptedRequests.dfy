/** A request that passes through the ad blocker's proxy
    (components/adblock/content/browser/adblock_url_loader_factory.cc 110-608): its url may be
    rewritten, it is classified before it is passed on, and so are its redirects and the headers of
    its response. Classifications end later, in any order with what else happens. */
module InterceptedRequests {
  import opened Text

  type Url = string

  datatype FilterMatchResult = NoRule | BlockRule | AllowRule | Disabled

  datatype NetError = BlockedByAdministrator | Aborted

  datatype Phase = Rewriting | Checking | Started | Ended

  /** What the client is sent: an internal redirect, the target's message of that number, or the
      completion with an error. */
  datatype Sent = Redirected(url: Url) | Passed(n: nat) | Completed(error: NetError)

  /** What the target sends: a response, a redirect, or anything else. */
  datatype Message = Response | Redirect(url: Url) | Other

  /** What a classification was asked for: the request, a redirect or the headers of a response, by
      the number of the message; and with which url. */
  datatype Question = Question(subject: Subject, url: Url)

  datatype Subject = RequestItself | RedirectOf(n: nat) | HeadersOf(n: nat)

  /** The state of a request. Messages of the target are numbered as they are received; `held` is
      that of the response whose headers are being classified, while which no other is received;
      `redirects` are those being classified. The last four count and list what it has done. */
  datatype State = State(url: Url, phase: Phase, live: bool, received: nat, held: Option<nat>, redirects: set<nat>,
                         closed: nat, forwards: nat, sent: seq<Sent>, asked: seq<Question>, removals: nat)

  function Fresh(url: Url): State {
    State(url, Rewriting, true, 0, None, {}, 0, 0, [], [], 0)
  }

  // ----- The steps, on values -----

  function Asking(s: State, subject: Subject): State {
    s.(asked := s.asked + [Question(subject, s.url)])
  }

  function OnRequestError(s: State, error: NetError): State {
    Removed(s.(sent := s.sent + [Completed(error)]))
  }

  /** Its factory deletes it. */
  function Removed(s: State): State {
    s.(live := false, removals := s.removals + 1)
  }

  function Forwarded(s: State): State {
    s.(phase := Started, forwards := s.forwards + 1)
  }

  function Start(s: State, rewrite: Option<Url>, targetBound: bool, isExempt: Url -> bool): State {
    if rewrite.Some? then s.(phase := Ended, sent := s.sent + [Redirected(rewrite.value)])
    else if !targetBound then s.(phase := Ended)
    else if isExempt(s.url) then Forwarded(s)
    else Asking(s.(phase := Checking), RequestItself)
  }

  function OnRequestFilterMatchResult(s: State, targetBound: bool, result: FilterMatchResult): State {
    if !targetBound then s.(phase := Ended)
    else if result == BlockRule then OnRequestError(s, BlockedByAdministrator)
    else Forwarded(s)
  }

  function Receive(s: State, m: Message, isExempt: Url -> bool): State {
    var n := s.received;
    var s := s.(received := n + 1);
    match m
    case Other => s.(sent := s.sent + [Passed(n)])
    case Response => if isExempt(s.url) then s.(sent := s.sent + [Passed(n)])
        else Asking(s.(held := Some(n)), HeadersOf(n))
    case Redirect(url) => Asking(s.(url := url, redirects := s.redirects + {n}), RedirectOf(n))
  }

  function OnProcessHeadersResult(s: State, result: FilterMatchResult): State
    requires s.held.Some?
  {
    if result == BlockRule then OnRequestError(s, BlockedByAdministrator)
    else s.(sent := s.sent + [Passed(s.held.value)], held := None)
  }

  function OnRedirectFilterMatchResult(s: State, n: nat, targetBound: bool, result: FilterMatchResult): State {
    var s := s.(redirects := s.redirects - {n});
    if !targetBound then s
    else if result == BlockRule then OnRequestError(s, BlockedByAdministrator)
    else s.(sent := s.sent + [Passed(n)])
  }

  /** Only the second of the two closed bindings ends the request. */
  function BindingClosed(s: State): State {
    var s := s.(closed := s.closed + 1);
    if s.closed == 2 then Removed(s) else s
  }

  // ----- Runs -----

  datatype Event =
    | RewriteAnswered(rewrite: Option<Url>, targetBound: bool)
    | Classified(targetBound: bool, result: FilterMatchResult)
    | Received(m: Message)
    | HeadersProcessed(result: FilterMatchResult)
    | RedirectAnswered(n: nat, targetBound: bool, result: FilterMatchResult)
    | ClientDisconnected
    | OneBindingClosed

  /** Callbacks are bound weakly: nothing happens to a request that has been deleted. The target's
      messages are not read while a response is held. */
  predicate IsEnabled(s: State, e: Event) {
    s.live &&
    match e
    case RewriteAnswered(_, _) => s.phase == Rewriting
    case Classified(_, _) => s.phase == Checking
    case Received(_) => s.phase == Started && s.held.None?
    case HeadersProcessed(_) => s.held.Some?
    case RedirectAnswered(n, _, _) => n in s.redirects
    case ClientDisconnected => true
    case OneBindingClosed => s.closed < 2
  }

  function Next(s: State, e: Event, isExempt: Url -> bool): State
    requires IsEnabled(s, e)
  {
    match e
    case RewriteAnswered(rewrite, targetBound) => Start(s, rewrite, targetBound, isExempt)
    case Classified(targetBound, result) => OnRequestFilterMatchResult(s, targetBound, result)
    case Received(m) => Receive(s, m, isExempt)
    case HeadersProcessed(result) => OnProcessHeadersResult(s, result)
    case RedirectAnswered(n, targetBound, result) => OnRedirectFilterMatchResult(s, n, targetBound, result)
    case ClientDisconnected => OnRequestError(s, Aborted)
    case OneBindingClosed => BindingClosed(s)
  }

  datatype Run = Run(states: seq<State>, events: seq<Event>, isExempt: Url -> bool)

  ghost predicate IsStep(run: Run, k: nat)
    requires |run.states| == |run.events| + 1
  {
    k < |run.events| ==>
      IsEnabled(run.states[k], run.events[k]) && run.states[k + 1] == Next(run.states[k], run.events[k], run.isExempt)
  }

  ghost predicate IsRun(run: Run) {
    && |run.states| == |run.events| + 1
    && run.states[0] == Fresh(run.states[0].url)
    && forall k: nat :: IsStep(run, k)
  }

  function LastState(run: Run): State
    requires |run.states| == |run.events| + 1
  {
    run.states[|run.events|]
  }

  /** One step more. */
  function Extended(run: Run, e: Event): Run
    requires |run.states| == |run.events| + 1 && IsEnabled(LastState(run), e)
  {
    Run(run.states + [Next(LastState(run), e, run.isExempt)], run.events + [e], run.isExempt)
  }

  lemma ExtendedIsRun(run: Run, e: Event)
    requires IsRun(run) && IsEnabled(LastState(run), e)
    ensures IsRun(Extended(run, e)) && LastState(Extended(run, e)) == Next(LastState(run), e, run.isExempt)
  {
    var run' := Extended(run, e);
    forall k: nat
      ensures IsStep(run', k)
    {
      assert IsStep(run, k);
    }
  }

  // ----- What every step keeps -----

  ghost predicate Inv(s: State) {
    && s.forwards == (if s.phase == Started then 1 else 0)
    && s.removals == (if s.live then 0 else 1)
    && (s.phase != Started ==> s.received == 0 && s.held.None? && s.redirects == {})
    && (s.live ==> s.closed < 2)
    && (s.held.Some? ==> s.held.value + 1 == s.received)
    && (forall n | n in s.redirects :: n < s.received)
    && (forall i | 0 <= i < |s.sent| && s.sent[i].Passed? :: s.sent[i].n < s.received)
    && (s.held.Some? ==> Passed(s.held.value) !in s.sent && s.held.value !in s.redirects)
    && (forall n | n in s.redirects :: Passed(n) !in s.sent)
    && (forall i, j | 0 <= i < j < |s.sent| && s.sent[i].Passed? :: s.sent[i] != s.sent[j])
    && (forall i | 0 <= i < |s.sent| && s.sent[i].Completed? :: i == |s.sent| - 1 && !s.live)
  }

  lemma NextKeepsInv(s: State, e: Event, isExempt: Url -> bool)
    requires Inv(s) && IsEnabled(s, e)
    ensures Inv(Next(s, e, isExempt))
  {
    match e
    case Received(m) => ReceivingKeepsInv(s, m, isExempt);
    case HeadersProcessed(result) => HeadersKeepInv(s, result);
    case RedirectAnswered(n, targetBound, result) => RedirectKeepsInv(s, n, targetBound, result);
    case _ =>
  }

  lemma ReceivingKeepsInv(s: State, m: Message, isExempt: Url -> bool)
    requires Inv(s) && s.live && s.phase == Started && s.held.None?
    ensures Inv(Receive(s, m, isExempt))
  {
  }

  lemma HeadersKeepInv(s: State, result: FilterMatchResult)
    requires Inv(s) && s.live && s.held.Some?
    ensures Inv(OnProcessHeadersResult(s, result))
  {
  }

  lemma RedirectKeepsInv(s: State, n: nat, targetBound: bool, result: FilterMatchResult)
    requires Inv(s) && s.live && n in s.redirects
    ensures Inv(OnRedirectFilterMatchResult(s, n, targetBound, result))
  {
  }

  lemma {:induction false} RunKeepsInv(run: Run, k: nat)
    requires IsRun(run) && k < |run.states|
    ensures Inv(run.states[k])
  {
    if k > 0 {
      RunKeepsInv(run, k - 1);
      assert IsStep(run, k - 1);
      NextKeepsInv(run.states[k - 1], run.events[k - 1], run.isExempt);
    }
  }

  lemma {:induction false} SentGrows(run: Run, k: nat, m: nat)
    requires IsRun(run) && k <= m < |run.states|
    ensures run.states[k].sent <= run.states[m].sent
    ensures run.states[k].forwards <= run.states[m].forwards
    ensures !run.states[k].live ==> m == k
    decreases m
  {
    if k < m {
      SentGrows(run, k, m - 1);
      assert IsStep(run, m - 1);
    }
  }

  // ----- Safety over whole runs -----

  /** In every run the request is passed on at most once, and only if it was not rewritten, the
      target was there, and its url is exempt or was classified otherwise than to block. */
  lemma {:induction false} ForwardedOnlyIfAllowed(run: Run, m: nat) returns (k: nat)
    requires IsRun(run) && m < |run.states| && run.states[m].forwards != 0
    ensures run.states[m].forwards == 1 && k < m && run.states[k].forwards == 0
    ensures match run.events[k]
            case RewriteAnswered(rewrite, targetBound) => rewrite.None? && targetBound
                && run.isExempt(run.states[k].url)
            case Classified(targetBound, result) => targetBound && result != BlockRule
            case _ => false
    decreases m
  {
    RunKeepsInv(run, m);
    RunKeepsInv(run, m - 1);
    assert IsStep(run, m - 1);
    if run.states[m - 1].forwards != 0 {
      k := ForwardedOnlyIfAllowed(run, m - 1);
    } else {
      k := m - 1;
    }
  }

  /** The step of a run in which something was sent to the client. */
  lemma {:induction false} CauseOf(run: Run, m: nat, i: nat) returns (k: nat)
    requires IsRun(run) && m < |run.states| && i < |run.states[m].sent|
    ensures k < m && run.states[k + 1].sent == run.states[k].sent + [run.states[m].sent[i]] && |run.states[k].sent| == i
    decreases m
  {
    assert IsStep(run, m - 1);
    if i < |run.states[m - 1].sent| {
      k := CauseOf(run, m - 1, i);
    } else {
      k := m - 1;
    }
  }

  /** In every run: a response is passed to the client only if its url is exempt or its headers were
      not classified to block, and a redirect only if it was not; everything else as it comes. */
  lemma PassedOnlyIfAllowed(run: Run, m: nat, i: nat) returns (k: nat)
    requires IsRun(run) && m < |run.states| && i < |run.states[m].sent| && run.states[m].sent[i].Passed?
    ensures var n := run.states[m].sent[i].n;
            && k < m && run.states[k + 1].sent == run.states[k].sent + [Passed(n)]
            && match run.events[k]
               case Received(m) => n == run.states[k].received
                   && (m.Other? || (m.Response? && run.isExempt(run.states[k].url)))
               case HeadersProcessed(result) => run.states[k].held == Some(n) && result != BlockRule
               case RedirectAnswered(n', targetBound, result) => n' == n && n in run.states[k].redirects && targetBound
                   && result != BlockRule
               case _ => false
  {
    k := CauseOf(run, m, i);
    assert IsStep(run, k);
    assert run.states[k + 1].sent[i] == run.states[m].sent[i];
  }

  /** A step that lets the request through. */
  predicate LetsRequestThrough(s: State, e: Event, isExempt: Url -> bool) {
    match e
    case RewriteAnswered(rewrite, targetBound) => rewrite.None? && targetBound && isExempt(s.url)
    case Classified(targetBound, result) => targetBound && result != BlockRule
    case _ => false
  }

  /** In every run: a request let through has been passed on, once, in every later state. */
  lemma AllowedRequestIsPassedOn(run: Run, k: nat, m: nat)
    requires IsRun(run) && k < m < |run.states| && LetsRequestThrough(run.states[k], run.events[k], run.isExempt)
    ensures run.states[m].forwards == 1
  {
    RunKeepsInv(run, k);
    RunKeepsInv(run, m);
    assert IsStep(run, k);
    SentGrows(run, k + 1, m);
  }

  /** A step that lets message `n` through. */
  predicate LetsMessageThrough(s: State, e: Event, isExempt: Url -> bool, n: nat) {
    match e
    case Received(m) => n == s.received && (m.Other? || (m.Response? && isExempt(s.url)))
    case HeadersProcessed(result) => s.held == Some(n) && result != BlockRule
    case RedirectAnswered(n', targetBound, result) => n' == n && targetBound && result != BlockRule
    case _ => false
  }

  /** In every run: a message let through has been passed to the client in every later state, and at
      one place only. */
  lemma AllowedMessageIsPassedOn(run: Run, k: nat, m: nat, n: nat) returns (i: nat)
    requires IsRun(run) && k < m < |run.states| && LetsMessageThrough(run.states[k], run.events[k], run.isExempt, n)
    ensures i < |run.states[m].sent| && run.states[m].sent[i] == Passed(n)
    ensures forall j | 0 <= j < |run.states[m].sent| && j != i :: run.states[m].sent[j] != Passed(n)
  {
    RunKeepsInv(run, m);
    assert IsStep(run, k);
    SentGrows(run, k + 1, m);
    i := |run.states[k].sent|;
    assert run.states[k + 1].sent[i] == Passed(n);
  }

  /** In every run: an internal redirect is to the url the request was rewritten to, the error of a
      block follows a verdict to block, and that of an abort the disconnection of the client. */
  lemma ToldForAReason(run: Run, m: nat, i: nat) returns (k: nat)
    requires IsRun(run) && m < |run.states| && i < |run.states[m].sent| && !run.states[m].sent[i].Passed?
    ensures k < m && run.states[k + 1].sent == run.states[k].sent + [run.states[m].sent[i]]
    ensures match run.states[m].sent[i]
            case Redirected(url) =>
              run.events[k].RewriteAnswered? && run.events[k].rewrite == Some(url) && run.states[k + 1].forwards == 0
            case Completed(error) => if error == Aborted then run.events[k].ClientDisconnected?
                else Blocks(run.events[k])
            case Passed(_) => true
  {
    k := CauseOf(run, m, i);
    RunKeepsInv(run, k);
    assert IsStep(run, k);
    assert run.states[k + 1].sent[i] == run.states[m].sent[i];
  }

  /** The url of the last redirect received, or of the request itself. */
  function CurrentUrl(events: seq<Event>, url: Url): Url {
    if events == [] then url
    else
      var last := |events| - 1;
      if events[last].Received? && events[last].m.Redirect? then events[last].m.url else CurrentUrl(events[..last], url)
  }

  lemma {:induction false} UrlIsCurrent(run: Run, m: nat)
    requires IsRun(run) && m < |run.states|
    ensures run.states[m].url == CurrentUrl(run.events[..m], run.states[0].url)
  {
    if m > 0 {
      UrlIsCurrent(run, m - 1);
      assert IsStep(run, m - 1);
      assert run.events[..m][..m - 1] == run.events[..m - 1];
    }
  }

  /** The step of a run in which a question was asked. */
  lemma {:induction false} AskedIn(run: Run, m: nat, i: nat) returns (k: nat)
    requires IsRun(run) && m < |run.states| && i < |run.states[m].asked|
    ensures k < m && run.states[k + 1].asked == run.states[k].asked + [run.states[m].asked[i]]
    decreases m
  {
    assert IsStep(run, m - 1);
    if i < |run.states[m - 1].asked| {
      k := AskedIn(run, m - 1, i);
    } else {
      k := m - 1;
    }
  }

  /** In every run each classification is asked for with the right url: the request's own, the
      redirect's own, and for the headers of a response that of the last redirect before it. */
  lemma AskedWithRightUrl(run: Run, m: nat, i: nat) returns (k: nat)
    requires IsRun(run) && m < |run.states| && i < |run.states[m].asked|
    ensures k < m && run.states[k + 1].asked == run.states[k].asked + [run.states[m].asked[i]]
    ensures var q := run.states[m].asked[i];
            match q.subject
            case RequestItself => run.events[k].RewriteAnswered? && q.url == run.states[0].url
            case RedirectOf(n) => run.events[k] == Received(Redirect(q.url)) && run.states[k].received == n
            case HeadersOf(n) =>
              && run.events[k] == Received(Response) && run.states[k].received == n
              && q.url == CurrentUrl(run.events[..k], run.states[0].url)
  {
    k := AskedIn(run, m, i);
    assert IsStep(run, k);
    UrlIsCurrent(run, k);
    RunKeepsInv(run, k);
    NoRedirectYet(run, k);
    assert run.states[k + 1].asked[|run.states[k].asked|] == run.states[m].asked[i];
  }

  lemma {:induction false} NoRedirectYet(run: Run, m: nat)
    requires IsRun(run) && m < |run.states|
    ensures run.states[m].phase == Rewriting ==> run.states[m].url == run.states[0].url
  {
    if m > 0 {
      assert IsStep(run, m - 1);
      NoRedirectYet(run, m - 1);
      RunKeepsInv(run, m - 1);
    }
  }

  ghost predicate IsAsked(s: State, subject: Subject) {
    exists q :: q in s.asked && q.subject == subject
  }

  ghost predicate PendingAreAsked(s: State) {
    && (s.phase == Checking ==> IsAsked(s, RequestItself))
    && (s.held.Some? ==> IsAsked(s, HeadersOf(s.held.value)))
    && (forall n | n in s.redirects :: IsAsked(s, RedirectOf(n)))
  }

  lemma AskedStays(s: State, s': State, subject: Subject)
    requires s.asked <= s'.asked && IsAsked(s, subject)
    ensures IsAsked(s', subject)
  {
    var q :| q in s.asked && q.subject == subject;
    assert q in s'.asked;
  }

  lemma AskingAsks(s: State, subject: Subject)
    ensures IsAsked(Asking(s, subject), subject)
  {
    assert Question(subject, s.url) in Asking(s, subject).asked;
  }

  lemma NextKeepsPendingAsked(s: State, e: Event, isExempt: Url -> bool)
    requires PendingAreAsked(s) && IsEnabled(s, e)
    ensures PendingAreAsked(Next(s, e, isExempt))
  {
    var s' := Next(s, e, isExempt);
    AskingAsks(s.(phase := Checking), RequestItself);
    AskingAsks(s.(received := s.received + 1, held := Some(s.received)), HeadersOf(s.received));
    if e.Received? && e.m.Redirect? {
      AskingAsks(s.(received := s.received + 1, url := e.m.url, redirects := s.redirects + {s.received}),
          RedirectOf(s.received));
    }
    if s.phase == Checking { AskedStays(s, s', RequestItself); }
    if s.held.Some? { AskedStays(s, s', HeadersOf(s.held.value)); }
    forall n | n in s.redirects
      ensures IsAsked(s', RedirectOf(n))
    {
      AskedStays(s, s', RedirectOf(n));
    }
  }

  /** In every run a verdict is only awaited that was asked for. */
  lemma {:induction false} AwaitedIsAsked(run: Run, m: nat)
    requires IsRun(run) && m < |run.states|
    ensures PendingAreAsked(run.states[m])
  {
    if m > 0 {
      AwaitedIsAsked(run, m - 1);
      assert IsStep(run, m - 1);
      NextKeepsPendingAsked(run.states[m - 1], run.events[m - 1], run.isExempt);
    }
  }

  /** A verdict to block, on the request, its redirect or its response. */
  predicate Blocks(e: Event) {
    match e
    case Classified(targetBound, result) => targetBound && result == BlockRule
    case HeadersProcessed(result) => result == BlockRule
    case RedirectAnswered(_, targetBound, result) => targetBound && result == BlockRule
    case _ => false
  }

  /** In every run a verdict to block is the end: the client gets the error, once and last, what was
      held is never passed on, and the factory is told to delete the request, once. */
  lemma BlockedIsTheEnd(run: Run, k: nat)
    requires IsRun(run) && k < |run.events| && Blocks(run.events[k])
    ensures k + 1 == |run.events| && run.states[k + 1].sent == run.states[k].sent + [Completed(BlockedByAdministrator)]
    ensures run.states[k + 1].removals == 1
    ensures run.events[k].Classified? ==> run.states[k + 1].forwards == 0
    ensures run.events[k].HeadersProcessed? ==>
        run.states[k].held.Some? && Passed(run.states[k].held.value) !in run.states[k + 1].sent
    ensures run.events[k].RedirectAnswered? ==> Passed(run.events[k].n) !in run.states[k + 1].sent
  {
    RunKeepsInv(run, k);
    RunKeepsInv(run, k + 1);
    assert IsStep(run, k);
    SentGrows(run, k + 1, |run.events|);
  }

  /** In every run no message is passed on twice, and the factory is told to delete the request at
      most once, after which nothing is sent any more. */
  lemma PassedAndRemovedOnce(run: Run, m: nat, i: nat, j: nat)
    requires IsRun(run) && m < |run.states|
    ensures i < j < |run.states[m].sent| && run.states[m].sent[i].Passed? ==>
        run.states[m].sent[i] != run.states[m].sent[j]
    ensures run.states[m].removals <= 1
    ensures run.states[m].removals == 1 ==> m == |run.events|
  {
    RunKeepsInv(run, m);
    SentGrows(run, m, |run.events|);
  }

  // ----- The order of messages -----

  ghost predicate InOrder(sent: seq<Sent>) {
    forall i, j | 0 <= i < j < |sent| && sent[i].Passed? && sent[j].Passed? :: sent[i].n < sent[j].n
  }

  /** All messages passed on so far were received before the given one. */
  ghost predicate AllBefore(sent: seq<Sent>, n: nat) {
    forall i | 0 <= i < |sent| && sent[i].Passed? :: sent[i].n < n
  }

  lemma InOrderOneMore(sent: seq<Sent>, x: Sent)
    ensures InOrder(sent + [x]) <==> InOrder(sent) && (x.Passed? ==> AllBefore(sent, x.n))
  {
    var all := sent + [x];
    if InOrder(all) {
      assert forall i | 0 <= i < |sent| :: sent[i] == all[i];
      assert all[|sent|] == x;
    }
  }

  /** A redirect is let through when a later message has been passed on already. */
  ghost predicate Overtaken(s: State, e: Event) {
    e.RedirectAnswered? && e.targetBound && e.result != BlockRule && !AllBefore(s.sent, e.n)
  }

  lemma NextKeepsOrderIff(s: State, e: Event, isExempt: Url -> bool)
    requires Inv(s) && IsEnabled(s, e)
    ensures InOrder(Next(s, e, isExempt).sent) <==> InOrder(s.sent) && !Overtaken(s, e)
  {
    var s' := Next(s, e, isExempt);
    if s'.sent != s.sent {
      var x := s'.sent[|s.sent|];
      assert s'.sent == s.sent + [x];
      InOrderOneMore(s.sent, x);
    }
  }

  lemma {:induction false} InOrderUnlessOvertaken(run: Run, m: nat)
    requires IsRun(run) && m < |run.states|
    ensures InOrder(run.states[m].sent) <==> forall k | 0 <= k < m :: !Overtaken(run.states[k], run.events[k])
    decreases m
  {
    if m > 0 {
      InOrderUnlessOvertaken(run, m - 1);
      RunKeepsInv(run, m - 1);
      assert IsStep(run, m - 1);
      NextKeepsOrderIff(run.states[m - 1], run.events[m - 1], run.isExempt);
    }
  }

  /** A redirect being classified has been so ever since it was received. */
  lemma {:induction false} PendingSinceReceived(run: Run, j: nat, k: nat, n: nat)
    requires IsRun(run) && j <= k < |run.states| && n in run.states[k].redirects && n < run.states[j].received
    ensures n in run.states[j].redirects
    decreases k
  {
    if j < k {
      assert IsStep(run, k - 1);
      ReceivedGrows(run, j, k - 1);
      PendingSinceReceived(run, j, k - 1, n);
    }
  }

  lemma {:induction false} ReceivedGrows(run: Run, j: nat, k: nat)
    requires IsRun(run) && j <= k < |run.states|
    ensures run.states[j].received <= run.states[k].received
    decreases k
  {
    if j < k {
      assert IsStep(run, k - 1);
      ReceivedGrows(run, j, k - 1);
    }
  }

  /** At step `j` a message is passed on while an earlier redirect is being classified, and at the
      later step `k` that redirect is let through. */
  ghost predicate PassesBy(run: Run, j: nat, k: nat)
    requires |run.states| == |run.events| + 1
  {
    && j < k < |run.events| && run.events[k].RedirectAnswered? && run.events[k].targetBound
        && run.events[k].result != BlockRule
    && run.events[k].n in run.states[j].redirects
    && PassesLater(run.states[j], run.states[j + 1], run.events[k].n)
  }

  ghost predicate PassesLater(s: State, s': State, n: nat) {
    exists n': nat :: n < n' && s'.sent == s.sent + [Passed(n')]
  }

  lemma OvertakenIsPassedBy(run: Run, k: nat) returns (j: nat)
    requires IsRun(run) && k < |run.events| && Overtaken(run.states[k], run.events[k])
    ensures PassesBy(run, j, k)
  {
    var s, n := run.states[k], run.events[k].n;
    var i :| 0 <= i < |s.sent| && s.sent[i].Passed? && !(s.sent[i].n < n);
    assert IsStep(run, k);
    RunKeepsInv(run, k);
    assert s.sent[i] != Passed(n);
    j := CauseOf(run, k, i);
    RunKeepsInv(run, j + 1);
    assert run.states[j + 1].sent[i] == s.sent[i];
    assert IsStep(run, j);
    if n < run.states[j].received {
      PendingSinceReceived(run, j, k, n);
    }
  }

  lemma PassedByIsOvertaken(run: Run, j: nat, k: nat)
    requires IsRun(run) && PassesBy(run, j, k)
    ensures Overtaken(run.states[k], run.events[k])
  {
    var n := run.events[k].n;
    var n': nat :| n < n' && run.states[j + 1].sent == run.states[j].sent + [Passed(n')];
    SentGrows(run, j + 1, k);
    var i := |run.states[j].sent|;
    assert run.states[j + 1].sent[i] == Passed(n');
    assert run.states[k].sent[i] == Passed(n');
  }

  /** In every run the client gets the target's messages in the order the target sent them exactly
      if none is passed on while an earlier redirect is being classified that is let through later:
      the messages behind a redirect are not held back, as those behind a response are. */
  lemma InOrderIff(run: Run, m: nat)
    requires IsRun(run) && m < |run.states|
    ensures InOrder(run.states[m].sent) <==> forall j: nat, k: nat | k < m :: !PassesBy(run, j, k)
  {
    InOrderUnlessOvertaken(run, m);
    if k: nat :| k < m && Overtaken(run.states[k], run.events[k]) {
      var j := OvertakenIsPassedBy(run, k);
    }
    forall j: nat, k: nat | k < m && PassesBy(run, j, k)
      ensures Overtaken(run.states[k], run.events[k])
    {
      PassedByIsOvertaken(run, j, k);
    }
  }

  /** A target that waits until its redirect is answered. */
  ghost predicate TargetWaits(run: Run)
    requires |run.states| == |run.events| + 1
  {
    forall k | 0 <= k < |run.events| && run.events[k].Received? :: run.states[k].redirects == {}
  }

  lemma {:induction false} LastRedirectOnly(run: Run, m: nat)
    requires IsRun(run) && m < |run.states| && TargetWaits(run)
    ensures forall n | n in run.states[m].redirects :: n + 1 == run.states[m].received
  {
    if m > 0 {
      LastRedirectOnly(run, m - 1);
      assert IsStep(run, m - 1);
    }
  }

  /** With a target that waits the order is kept. */
  lemma WaitingKeepsOrder(run: Run, m: nat)
    requires IsRun(run) && m < |run.states| && TargetWaits(run)
    ensures InOrder(run.states[m].sent)
  {
    forall k | 0 <= k < m
      ensures !Overtaken(run.states[k], run.events[k])
    {
      assert IsStep(run, k);
      RunKeepsInv(run, k);
      LastRedirectOnly(run, k);
      var s, e := run.states[k], run.events[k];
      if e.RedirectAnswered? {
        assert forall i | 0 <= i < |s.sent| && s.sent[i].Passed? :: s.sent[i] != Passed(e.n);
      }
    }
    InOrderUnlessOvertaken(run, m);
  }

  /** A run in which a redirect is overtaken by a message behind it. */
  lemma OvertakenRedirect(url: Url, target: Url) returns (run: Run)
    ensures IsRun(run) && |run.states| == 6 && run.states[5].sent == [Passed(1), Passed(0)]
        && !InOrder(run.states[5].sent)
  {
    var isExempt := (u: Url) => false;
    var s0 := Fresh(url);
    var e0 := RewriteAnswered(None, true);
    var s1 := Next(s0, e0, isExempt);
    var e1 := Classified(true, NoRule);
    var s2 := Next(s1, e1, isExempt);
    var e2 := Received(Redirect(target));
    var s3 := Next(s2, e2, isExempt);
    var e3 := Received(Other);
    var s4 := Next(s3, e3, isExempt);
    var e4 := RedirectAnswered(0, true, NoRule);
    var s5 := Next(s4, e4, isExempt);
    run := Run([s0, s1, s2, s3, s4, s5], [e0, e1, e2, e3, e4], isExempt);
    assert run.states[5].sent[0].n > run.states[5].sent[1].n;
  }

  // ----- The code -----

  /** The history of a request is a run, and its fields are the last state of it. */
  class InProgressRequest {
    var requestUrl: Url
    var phase: Phase
    var live: bool
    var received: nat
    var held: Option<nat>
    var redirects: set<nat>
    var closed: nat
    var forwards: nat
    var sent: seq<Sent>
    var asked: seq<Question>
    var removals: nat
    const isExempt: Url -> bool
    ghost var history: Run

    ghost function Value(): State
      reads this
    {
      State(requestUrl, phase, live, received, held, redirects, closed, forwards, sent, asked, removals)
    }

    ghost predicate Valid()
      reads this
    {
      IsRun(history) && history.isExempt == isExempt && Value() == LastState(history)
    }

    /** Local urls and those of other schemes than of the web are not classified. */
    constructor (url: Url, isExempt: Url -> bool)
      ensures Valid() && history.events == [] && requestUrl == url && this.isExempt == isExempt
    {
      requestUrl := url;
      phase, live, received, held, redirects := Rewriting, true, 0, None, {};
      closed, forwards, sent, asked, removals := 0, 0, [], [], 0;
      this.isExempt := isExempt;
      history := Run([Fresh(url)], [], isExempt);
    }

    ghost method Record(e: Event)
      requires IsRun(history) && history.isExempt == isExempt && IsEnabled(LastState(history), e)
      requires Value() == Next(LastState(history), e, isExempt)
      modifies this`history
      ensures Valid() && history == Extended(old(history), e) && Inv(Value())
    {
      ExtendedIsRun(history, e);
      RunKeepsInv(history, |history.events|);
      NextKeepsInv(LastState(history), e, isExempt);
      history := Extended(history, e);
    }

    /** The client gets the error and the factory deletes the request. */
    method Fail(error: NetError)
      modifies this`sent, this`live, this`removals
      ensures Value() == OnRequestError(old(Value()), error)
    {
      sent := sent + [Completed(error)];
      live := false;
      removals := removals + 1;
    }

    method CreateLoaderAndStart()
      modifies this`phase, this`forwards
      ensures Value() == Forwarded(old(Value()))
    {
      phase := Started;
      forwards := forwards + 1;
    }

    method CheckFilterMatch(subject: Subject)
      modifies this`asked
      ensures Value() == Asking(old(Value()), subject)
    {
      asked := asked + [Question(subject, requestUrl)];
    }

    /** The request goes on at once exactly if it is not rewritten, has a target and is exempt; it is
        classified exactly if it has a target and is neither. */
    method BeginStart(rewrite: Option<Url>, targetBound: bool)
      requires Valid() && live && phase == Rewriting
      modifies this
      ensures Valid() && history == Extended(old(history), RewriteAnswered(rewrite, targetBound))
      ensures forwards == if rewrite.None? && targetBound && isExempt(requestUrl) then 1 else 0
      ensures phase == Checking <==> rewrite.None? && targetBound && !isExempt(requestUrl)
      ensures sent == (if rewrite.Some? then [Redirected(rewrite.value)] else []) && live
    {
      RunStartsSilent(history);
      if rewrite.Some? {
        phase := Ended;
        sent := sent + [Redirected(rewrite.value)];
      } else if !targetBound {
        phase := Ended;
      } else if isExempt(requestUrl) {
        CreateLoaderAndStart();
      } else {
        phase := Checking;
        CheckFilterMatch(RequestItself);
      }
      Record(RewriteAnswered(rewrite, targetBound));
    }

    /** The request goes on exactly if it has a target and is not blocked; blocked, it is deleted,
        once, and the error is the only thing the client ever got. */
    method RequestClassified(targetBound: bool, result: FilterMatchResult)
      requires Valid() && live && phase == Checking
      modifies this
      ensures Valid() && history == Extended(old(history), Classified(targetBound, result))
      ensures forwards == if targetBound && result != BlockRule then 1 else 0
      ensures live <==> !(targetBound && result == BlockRule)
      ensures removals == if live then 0 else 1
      ensures sent == if live then [] else [Completed(BlockedByAdministrator)]
    {
      NothingSentBefore(history, |history.events|);
      RunKeepsInv(history, |history.events|);
      if !targetBound {
        phase := Ended;
      } else if result == BlockRule {
        Fail(BlockedByAdministrator);
      } else {
        CreateLoaderAndStart();
      }
      Record(Classified(targetBound, result));
    }

    /** Every message is either passed on at once or, once and for all, kept for a verdict. */
    method OnReceive(m: Message)
      requires Valid() && live && phase == Started && held.None?
      modifies this
      ensures Valid() && history == Extended(old(history), Received(m)) && received == old(received) + 1
      ensures Passed(old(received)) in sent <==> m.Other? || (m.Response? && isExempt(old(requestUrl)))
      ensures held == Some(old(received)) <==> m.Response? && !isExempt(old(requestUrl))
      ensures old(received) in redirects <==> m.Redirect?
      ensures requestUrl == if m.Redirect? then m.url else old(requestUrl)
      ensures old(sent) <= sent
    {
      var n := received;
      RunKeepsInv(history, |history.events|);
      received := received + 1;
      match m {
        case Other =>
          sent := sent + [Passed(n)];
        case Response =>
          if isExempt(requestUrl) {
            sent := sent + [Passed(n)];
          } else {
            held := Some(n);
            CheckFilterMatch(HeadersOf(n));
          }
        case Redirect(url) =>
          requestUrl := url;
          redirects := redirects + {n};
          CheckFilterMatch(RedirectOf(n));
      }
      Record(Received(m));
    }

    /** The held response is passed on now, for the first time, or never. */
    method HeadersClassified(result: FilterMatchResult)
      requires Valid() && live && held.Some?
      modifies this
      ensures Valid() && history == Extended(old(history), HeadersProcessed(result))
      ensures Passed(old(held.value)) !in old(sent)
      ensures Passed(old(held.value)) in sent <==> result != BlockRule
      ensures live <==> result != BlockRule
      ensures sent == old(sent) + [if live then Passed(old(held.value)) else Completed(BlockedByAdministrator)]
      ensures removals == if live then 0 else 1
      ensures live ==> held.None?
    {
      RunKeepsInv(history, |history.events|);
      if result == BlockRule {
        Fail(BlockedByAdministrator);
      } else {
        sent := sent + [Passed(held.value)];
        held := None;
      }
      Record(HeadersProcessed(result));
    }

    /** The redirect is passed on now, for the first time, or never. */
    method RedirectClassified(n: nat, targetBound: bool, result: FilterMatchResult)
      requires Valid() && live && n in redirects
      modifies this
      ensures Valid() && history == Extended(old(history), RedirectAnswered(n, targetBound, result))
      ensures n !in redirects && Passed(n) !in old(sent)
      ensures Passed(n) in sent <==> targetBound && result != BlockRule
      ensures live <==> !(targetBound && result == BlockRule)
      ensures removals == if live then 0 else 1
      ensures old(sent) <= sent
    {
      RunKeepsInv(history, |history.events|);
      redirects := redirects - {n};
      if targetBound {
        if result == BlockRule {
          Fail(BlockedByAdministrator);
        } else {
          sent := sent + [Passed(n)];
        }
      }
      Record(RedirectAnswered(n, targetBound, result));
    }

    /** The error is the last thing sent, and the only error; the request is deleted, once. */
    method OnClientDisconnected()
      requires Valid() && live
      modifies this
      ensures Valid() && history == Extended(old(history), ClientDisconnected)
      ensures !live && removals == 1 && sent == old(sent) + [Completed(Aborted)]
      ensures forall x | x in old(sent) :: !x.Completed?
    {
      RunKeepsInv(history, |history.events|);
      Fail(Aborted);
      Record(ClientDisconnected);
    }

    /** The barrier over the disconnection of the two bindings: the second one, and only that,
        deletes the request. */
    method OnBindingClosed()
      requires Valid() && live && closed < 2
      modifies this
      ensures Valid() && history == Extended(old(history), OneBindingClosed)
      ensures live <==> closed == 1
      ensures removals == (if live then 0 else 1) && sent == old(sent)
    {
      RunKeepsInv(history, |history.events|);
      closed := closed + 1;
      if closed == 2 {
        live := false;
        removals := removals + 1;
      }
      Record(OneBindingClosed);
    }
  }

  lemma {:induction false} NothingSentBefore(run: Run, m: nat)
    requires IsRun(run) && m < |run.states| && run.states[m].live
    requires run.states[m].phase == Rewriting || run.states[m].phase == Checking
    ensures run.states[m].sent == []
    decreases m
  {
    if m > 0 {
      assert IsStep(run, m - 1);
      RunKeepsInv(run, m - 1);
      NothingSentBefore(run, m - 1);
    }
  }

  lemma RunStartsSilent(run: Run)
    requires IsRun(run) && LastState(run).live && LastState(run).phase == Rewriting
    ensures LastState(run).sent == [] && LastState(run).forwards == 0
  {
    NothingSentBefore(run, |run.events|);
    RunKeepsInv(run, |run.events|);
  }
}
