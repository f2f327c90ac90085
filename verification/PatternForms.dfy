/** What the forms of a filter pattern that users write come to, in terms of the URL's text and of
    nothing else (components/adblock/core/subscription/pattern_matcher.cc). */
module PatternForms {
  import opened Text
  import opened PatternMatcher
  import opened Anchors

  // ----- The terms of the statements -----

  ghost predicate IsPlain(t: string) {
    t != "" && '*' !in t && '^' !in t && '|' !in t
  }

  ghost predicate IsTextOf(s: string, url: Url) {
    s == url.scheme + "://" + url.host + url.port + url.path
  }

  ghost predicate StandsAt(t: string, s: string, i: nat) {
    i + |t| <= |s| && s[i..i + |t|] == t
  }

  ghost predicate Occurs(t: string, s: string) {
    exists i: nat :: StandsAt(t, s, i)
  }

  /** Neither a letter nor a digit nor one of four others. */
  ghost predicate EndsName(c: char) {
    && !('a' <= c <= 'z') && !('A' <= c <= 'Z') && !('0' <= c <= '9')
    && c != '_' && c != '-' && c != '.' && c != '%'
  }

  /** The text is over there, or goes on with a separator. */
  ghost predicate IsSeparatedAt(s: string, i: nat) {
    i == |s| || (i < |s| && EndsName(s[i]))
  }

  ghost predicate StandsSeparatedAt(t: string, s: string, i: nat) {
    StandsAt(t, s, i) && IsSeparatedAt(s, i + |t|)
  }

  ghost predicate OccursSeparated(t: string, s: string) {
    exists i: nat :: StandsSeparatedAt(t, s, i)
  }

  ghost predicate StandsBehindSeparator(t: string, s: string, i: nat) {
    i < |s| && EndsName(s[i]) && StandsAt(t, s, i + 1)
  }

  ghost predicate OccursBehindSeparator(t: string, s: string) {
    exists i: nat :: StandsBehindSeparator(t, s, i)
  }

  ghost predicate StandInTurn(t: string, u: string, s: string, i: nat, j: nat) {
    StandsAt(t, s, i) && i + |t| <= j && StandsAt(u, s, j)
  }

  ghost predicate OccurInTurn(t: string, u: string, s: string) {
    exists i: nat, j: nat :: StandInTurn(t, u, s, i, j)
  }

  /** Up to the host, at its end, or behind one of its dots. */
  ghost predicate IsHostEdge(url: Url, i: nat) {
    || i <= |url.scheme| + 3
    || i == |url.scheme| + 3 + |url.host|
    || exists a: string, b: string :: url.host == a + "." + b && i == |url.scheme| + 3 + |a| + 1
  }

  /** The answer to a host-anchored pattern whose first match leaves this much before it. */
  ghost function HostAnswer(url: Url, skipped: nat): Outcome {
    if skipped < |url.scheme| then SchemeCut else Verdict(IsHostEdge(url, skipped))
  }

  // ----- The same in the terms of the matcher -----

  lemma PlainIsText(t: string)
    requires IsPlain(t)
    ensures IsText(t)
  {
    var tokens := "*^|";
    assert forall c | c in tokens :: c == '*' || c == '^' || c == '|';
  }

  lemma StandsIff(t: string, s: string, i: nat)
    requires i <= |s|
    ensures StandsAt(t, s, i) <==> StartsWith(s[i..], t)
  {
    if i + |t| <= |s| { assert s[i..][..|t|] == s[i..i + |t|]; }
  }

  lemma SeparatorIff(c: char)
    ensures IsSeparator(c) <==> EndsName(c)
  {
    var others := "_-.%";
    assert others[0] == '_' && others[1] == '-' && others[2] == '.' && others[3] == '%';
  }

  lemma LevelsOf(p: string, t: string, tail: string)
    requires p == t + tail && IsPlain(t) && (tail == "" || !IsTextChar(tail[0]))
    ensures IsSearched(p) && FindLevels(p) == 1 + BeginLevels(tail) && BeginLevels(p) == 1 + BeginLevels(tail)
  {
    PlainIsText(t);
    TextThenLevels(p, t, tail);
    assert p[0] == t[0];
    assert IsTextChar(t[0]);
  }

  lemma TextLevels(u: string)
    requires IsPlain(u)
    ensures IsSearched(u) && BeginLevels(u) == 2 && FindLevels(u) == 2
  {
    assert u + "" == u;
    LevelsOf(u, u, "");
  }

  lemma TailLevels(u: string)
    requires IsPlain(u)
    ensures BeginLevels("|") == 1 && BeginLevels("^") == 2 && BeginLevels("*" + u) == 3 && FindLevels("^" + u) == 3
  {
    TextLevels(u);
    StarThen(u);
    var q := "^" + u;
    assert q[1..] == u && "^"[1..] == "";
  }

  lemma StarThen(u: string)
    requires IsPlain(u)
    ensures Run("*" + u, '*') == 1 && ("*" + u)[1..] == u
  {
    TextLevels(u);
  }

  lemma MatchOf(p: string, t: string, tail: string, s: string, i: nat)
    requires p == t + tail && IsPlain(t)
    ensures MatchesAt(p, s, i) <==> StandsAt(t, s, i) && Denotes(tail, s[i + |t|..], false)
  {
    if i <= |s| {
      PlainIsText(t);
      TextDenotesAll(t, tail, s[i..], true);
      StandsIff(t, s, i);
      if i + |t| <= |s| { assert s[i..][|t|..] == s[i + |t|..]; }
    }
  }

  lemma SearchedVerdict(p: string, url: Url)
    requires IsSearched(p) && FindLevels(p) <= MAX_RECURSION_DEPTH
    ensures Answers(p, url, Verdict(MatchesSomewhere(p, url.Spec())))
  {
    SearchedBody(p);
  }

  // ----- Text and separators anywhere -----

  /** Text is looked for anywhere. */
  lemma TextAnswer(t: string, url: Url, s: string)
    requires IsPlain(t) && IsTextOf(s, url)
    ensures Answers(t, url, Verdict(Occurs(t, s)))
  {
    TextLevels(t);
    SearchedVerdict(t, url);
    forall i: nat
      ensures MatchesAt(t, s, i) <==> StandsAt(t, s, i)
    {
      MatchOf(t, t, "", s, i);
    }
  }

  /** A wildcard in front makes no difference, nor does a host anchor before that. */
  lemma LeadingWildcardAnswer(t: string, url: Url, s: string)
    requires IsPlain(t) && IsTextOf(s, url)
    ensures Answers("*" + t, url, Verdict(Occurs(t, s))) && Answers("||*" + t, url, Verdict(Occurs(t, s)))
  {
    TextAnswer(t, url, s);
    TextLevels(t);
    SearchedBody(t);
    StarThen(t);
    SameBody("*" + t, t, url);
    var p := "||*" + t;
    assert p[2..] == "*" + t && p[1..][1..] == p[2..];
    SameBody(p, t, url);
  }

  lemma SameBody(p: string, t: string, url: Url)
    requires Body(p) == Body(t) && Run(p, '|') != 1 && Run(t, '|') != 1 && !IsHostAnchored(p) && !IsHostAnchored(t)
    ensures forall r :: Answers(p, url, r) <==> Answers(t, url, r)
  {
  }

  /** A separator behind text is any character that is no letter, digit or one of _ - . %, or the end. */
  lemma SeparatorAnswer(t: string, url: Url, s: string)
    requires IsPlain(t) && IsTextOf(s, url)
    ensures Answers(t + "^", url, Verdict(OccursSeparated(t, s)))
  {
    var p := t + "^";
    LevelsOf(p, t, "^");
    TailLevels(t);
    SearchedVerdict(p, url);
    forall i: nat
      ensures MatchesAt(p, s, i) <==> StandsSeparatedAt(t, s, i)
    {
      MatchOfSeparated(t, s, i);
    }
  }

  lemma MatchOfSeparated(t: string, s: string, i: nat)
    requires IsPlain(t)
    ensures MatchesAt(t + "^", s, i) <==> StandsSeparatedAt(t, s, i)
  {
    MatchOf(t + "^", t, "^", s, i);
    if i + |t| <= |s| {
      var u := s[i + |t|..];
      assert "^"[1..] == "";
      if u != "" { SeparatorIff(u[0]); }
    }
  }

  /** A separator in front of text is a character of that kind. */
  lemma LeadingSeparatorAnswer(t: string, url: Url, s: string)
    requires IsPlain(t) && IsTextOf(s, url)
    ensures Answers("^" + t, url, Verdict(OccursBehindSeparator(t, s)))
  {
    TailLevels(t);
    SearchedVerdict("^" + t, url);
    forall i: nat
      ensures MatchesAt("^" + t, s, i) <==> StandsBehindSeparator(t, s, i)
    {
      MatchBehindSeparator(t, s, i);
    }
  }

  lemma MatchBehindSeparator(t: string, s: string, i: nat)
    requires IsPlain(t)
    ensures MatchesAt("^" + t, s, i) <==> StandsBehindSeparator(t, s, i)
  {
    var p := "^" + t;
    assert p[1..] == t;
    if i < |s| {
      var u := s[i..];
      assert u[1..] == s[i + 1..];
      SeparatorIff(u[0]);
      PlainIsText(t);
      TextDenotesAll(t, "", u[1..], false);
      assert t + "" == t;
      StandsIff(t, s, i + 1);
    } else if i == |s| {
      PlainIsText(t);
      TextDenotesAll(t, "", "", false);
      assert t + "" == t;
    }
  }

  /** A wildcard between two texts skips whatever there is. */
  lemma WildcardAnswer(t: string, u: string, url: Url, s: string)
    requires IsPlain(t) && IsPlain(u) && IsTextOf(s, url)
    ensures Answers(t + "*" + u, url, Verdict(OccurInTurn(t, u, s)))
  {
    var p := t + "*" + u;
    assert p == t + ("*" + u);
    LevelsOf(p, t, "*" + u);
    TailLevels(u);
    SearchedVerdict(p, url);
    forall i: nat
      ensures MatchesAt(p, s, i) <==> exists j: nat :: StandInTurn(t, u, s, i, j)
    {
      MatchOf(p, t, "*" + u, s, i);
      if StandsAt(t, s, i) { StarThenText(t, u, s, i); }
    }
    if i: nat :| MatchesAt(p, s, i) {
      var j: nat :| StandInTurn(t, u, s, i, j);
    }
    if i: nat, j: nat :| StandInTurn(t, u, s, i, j) {
      assert MatchesAt(p, s, i);
    }
  }

  lemma StarThenText(t: string, u: string, s: string, i: nat)
    requires IsPlain(u) && StandsAt(t, s, i)
    ensures Denotes("*" + u, s[i + |t|..], false) <==> exists j: nat :: StandInTurn(t, u, s, i, j)
  {
    var k, tail := i + |t|, s[i + |t|..];
    StarThen(u);
    StarsDenote("*" + u, tail, false);
    forall d: nat | d <= |tail|
      ensures MatchesAt(u, tail, d) <==> StandInTurn(t, u, s, i, k + d)
    {
      MatchOf(u, u, "", tail, d);
      if d + |u| <= |tail| { assert tail[d..d + |u|] == s[k + d..k + d + |u|]; }
    }
    if j: nat :| StandInTurn(t, u, s, i, j) {
      assert MatchesAt(u, tail, j - k);
    }
    if d: nat :| MatchesAt(u, tail, d) {
      assert StandInTurn(t, u, s, i, k + d);
    }
  }

  // ----- The anchors of the URL's start and end -----

  /** Behind a leading bar the text has to begin the URL, before a final one it has to end it. */
  lemma AnchoredTextAnswer(t: string, url: Url, s: string)
    requires IsPlain(t) && IsTextOf(s, url)
    ensures Answers("|" + t, url, Verdict(t <= s))
    ensures Answers(t + "|", url, Verdict(|t| <= |s| && s[|s| - |t|..] == t))
    ensures Answers("|" + t + "|", url, Verdict(s == t))
  {
    StartAnswer(t, url, s);
    EndAnswer(t, url, s);
    WholeAnswer(t, url, s);
  }

  lemma AnchoredBody(p: string, q: string)
    requires p == "|" + q && q != "" && q[0] != '|'
    ensures Run(p, '|') == 1 && Body(p) == q && Levels(p) == BeginLevels(q)
  {
    assert p[1..] == q && Run(q, '|') == 0;
  }

  lemma StartAnswer(t: string, url: Url, s: string)
    requires IsPlain(t) && IsTextOf(s, url)
    ensures Answers("|" + t, url, Verdict(t <= s))
  {
    AnchoredBody("|" + t, t);
    TextLevels(t);
    PlainIsText(t);
    TextDenotesAll(t, "", s, false);
    assert t + "" == t;
  }

  lemma WholeAnswer(t: string, url: Url, s: string)
    requires IsPlain(t) && IsTextOf(s, url)
    ensures Answers("|" + t + "|", url, Verdict(s == t))
  {
    assert "|" + t + "|" == "|" + (t + "|");
    AnchoredBody("|" + t + "|", t + "|");
    LevelsOf(t + "|", t, "|");
    TailLevels(t);
    PlainIsText(t);
    BarBehindText(t, s, false);
  }

  lemma EndAnswer(t: string, url: Url, s: string)
    requires IsPlain(t) && IsTextOf(s, url)
    ensures Answers(t + "|", url, Verdict(|t| <= |s| && s[|s| - |t|..] == t))
  {
    var p := t + "|";
    LevelsOf(p, t, "|");
    TailLevels(t);
    SearchedVerdict(p, url);
    PlainIsText(t);
    forall i: nat | i <= |s|
      ensures MatchesAt(p, s, i) <==> s[i..] == t
    {
      BarBehindText(t, s[i..], true);
    }
    if |t| <= |s| && s[|s| - |t|..] == t {
      assert MatchesAt(p, s, |s| - |t|);
    }
    if i: nat :| MatchesAt(p, s, i) {
      assert |s[i..]| == |t|;
    }
  }

  // ----- The host anchor -----

  lemma HostAnchoredBody(q: string)
    requires IsSearched(q)
    ensures IsHostAnchored("||" + q) && Body("||" + q) == q && Levels("||" + q) == FindLevels(q)
  {
    TwoBars("||" + q, q);
    SearchedBody(q);
    BodyIsBehind("||" + q, q);
  }

  lemma TwoBars(p: string, q: string)
    requires p == "||" + q && IsSearched(q)
    ensures Run(p, '|') == 2 && p[2..] == q
  {
    var one := p[1..];
    assert one == "|" + q && one[1..] == q && Run(q, '|') == 0;
    assert Run(one, '|') == 1;
  }

  lemma BodyIsBehind(p: string, q: string)
    requires Run(p, '|') == 2 && p[2..] == q && IsSearched(q)
    ensures IsHostAnchored(p) && Body(p) == q && Levels(p) == FindLevels(q)
  {
    assert p[2] == q[0] && Run(q, '*') == 0;
  }

  lemma HostAnswerIs(url: Url, n: nat)
    requires n <= |url.Spec()|
    ensures HostAnswer(url, n) == HostVerdict(url, n)
  {
    HostStartIff(url, n);
  }

  /** The first match decides, wherever there is another. */
  lemma FirstMatchAnswer(q: string, url: Url, i: nat)
    requires IsSearched(q) && FindLevels(q) <= MAX_RECURSION_DEPTH && IsLeftmost(q, url.Spec(), i)
    ensures Answers("||" + q, url, HostAnswer(url, SkippedLength(q, url.Spec(), i)))
  {
    HostAnchoredBody(q);
    LeftmostAnswer("||" + q, q, url, i);
    HostAnswerIs(url, SkippedLength(q, url.Spec(), i));
  }

  lemma LeftmostAnswer(p: string, q: string, url: Url, i: nat)
    requires IsHostAnchored(p) && Body(p) == q && Levels(p) <= MAX_RECURSION_DEPTH && IsLeftmost(q, url.Spec(), i)
    ensures Answers(p, url, HostVerdict(url, SkippedLength(q, url.Spec(), i)))
  {
  }

  lemma NoMatchAnswer(q: string, url: Url)
    requires IsSearched(q) && FindLevels(q) <= MAX_RECURSION_DEPTH && !MatchesSomewhere(q, url.Spec())
    ensures Answers("||" + q, url, Verdict(false))
  {
    HostAnchoredBody(q);
  }

  /** Host-anchored text is answered by where it first occurs, if at all. */
  lemma HostAnchorAnswer(t: string, url: Url, s: string, i: nat)
    requires IsPlain(t) && IsTextOf(s, url)
    ensures !Occurs(t, s) ==> Answers("||" + t, url, Verdict(false))
    ensures StandsAt(t, s, i) && (forall k: nat | k < i :: !StandsAt(t, s, k)) ==>
              Answers("||" + t, url, HostAnswer(url, i))
  {
    TextLevels(t);
    forall k: nat
      ensures MatchesAt(t, s, k) <==> StandsAt(t, s, k)
    {
      MatchOf(t, t, "", s, k);
    }
    if !Occurs(t, s) { NoMatchAnswer(t, url); }
    if StandsAt(t, s, i) && forall k: nat | k < i :: !StandsAt(t, s, k) {
      FirstMatchAnswer(t, url, i);
      assert SkippedLength(t, s, i) == i;
    }
  }

  /** The same with a separator behind it. */
  lemma DomainAnswer(t: string, url: Url, s: string, i: nat)
    requires IsPlain(t) && IsTextOf(s, url)
    ensures !OccursSeparated(t, s) ==> Answers("||" + t + "^", url, Verdict(false))
    ensures StandsSeparatedAt(t, s, i) && (forall k: nat | k < i :: !StandsSeparatedAt(t, s, k)) ==>
              Answers("||" + t + "^", url, HostAnswer(url, i))
  {
    var q := t + "^";
    assert "||" + t + "^" == "||" + q;
    LevelsOf(q, t, "^");
    TailLevels(t);
    forall k: nat
      ensures MatchesAt(q, s, k) <==> StandsSeparatedAt(t, s, k)
    {
      MatchOfSeparated(t, s, k);
    }
    if !OccursSeparated(t, s) { NoMatchAnswer(q, url); }
    if StandsSeparatedAt(t, s, i) && forall k: nat | k < i :: !StandsSeparatedAt(t, s, k) {
      FirstMatchAnswer(q, url, i);
      assert SkippedLength(q, s, i) == i;
    }
  }

  /** A separator searched for behind a host anchor belongs to what is skipped. */
  lemma SeparatorBehindHostAnchorAnswer(t: string, url: Url, s: string, i: nat)
    requires IsPlain(t) && IsTextOf(s, url)
    ensures !OccursBehindSeparator(t, s) ==> Answers("||^" + t, url, Verdict(false))
    ensures StandsBehindSeparator(t, s, i) && (forall k: nat | k < i :: !StandsBehindSeparator(t, s, k)) ==>
              Answers("||^" + t, url, HostAnswer(url, i + 1))
  {
    var q := "^" + t;
    assert "||^" + t == "||" + q;
    TailLevels(t);
    forall k: nat
      ensures MatchesAt(q, s, k) <==> StandsBehindSeparator(t, s, k)
    {
      MatchBehindSeparator(t, s, k);
    }
    if !OccursBehindSeparator(t, s) { NoMatchAnswer(q, url); }
    if StandsBehindSeparator(t, s, i) && forall k: nat | k < i :: !StandsBehindSeparator(t, s, k) {
      FirstMatchAnswer(q, url, i);
      assert SkippedLength(q, s, i) == i + 1;
    }
  }

  /** Host-anchored text matches at the host and at a subdomain of it, if it first occurs there. */
  lemma SubdomainIsMatched(t: string, url: Url, s: string, a: string, b: string, i: nat)
    requires IsPlain(t) && IsTextOf(s, url) && StandsAt(t, s, i) && forall k: nat | k < i :: !StandsAt(t, s, k)
    requires i == |url.scheme| + 3 || (url.host == a + "." + b && i == |url.scheme| + 3 + |a| + 1)
    ensures Answers("||" + t, url, Verdict(true))
  {
    HostAnchorAnswer(t, url, s, i);
  }

  /** A domain's filter matches the URLs of the domain and of its subdomains, with any port and
      path, unless the domain's name stands separated in what precedes it. */
  lemma DomainIsMatched(d: string, a: string, url: Url, s: string, i: nat)
    requires url.Valid() && IsPlain(d) && IsTextOf(s, url)
    requires (url.host == d && i == |url.scheme| + 3) || (url.host == a + "." + d && i == |url.scheme| + 3 + |a| + 1)
    requires forall k: nat | k < i :: !StandsSeparatedAt(d, s, k)
    ensures Answers("||" + d + "^", url, Verdict(true))
  {
    DomainAnswer(d, url, s, i);
    DomainStandsSeparated(d, a, url, s, i);
  }

  lemma DomainStandsSeparated(d: string, a: string, url: Url, s: string, i: nat)
    requires url.Valid() && IsTextOf(s, url)
    requires (url.host == d && i == |url.scheme| + 3) || (url.host == a + "." + d && i == |url.scheme| + 3 + |a| + 1)
    ensures StandsSeparatedAt(d, s, i)
  {
    var tail := url.port + url.path;
    assert s == url.scheme + "://" + url.host + tail;
    if url.host == d && i == |url.scheme| + 3 {
      StandsBetween(d, url.scheme + "://", tail, s);
    } else {
      assert url.scheme + "://" + (a + "." + d) == (url.scheme + "://" + a + ".") + d;
      StandsBetween(d, url.scheme + "://" + a + ".", tail, s);
    }
  }

  lemma StandsBetween(d: string, head: string, tail: string, s: string)
    requires s == head + d + tail && tail != "" && (tail[0] == ':' || tail[0] == '/')
    ensures StandsSeparatedAt(d, s, |head|)
  {
    assert s[|head|..|head| + |d|] == d && s[|head| + |d|] == tail[0];
  }
}
