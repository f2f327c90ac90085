/** Matching of a URL against a filter pattern: components/adblock/core/subscription/pattern_matcher.cc.

    The source walks the pattern token by token with two mutually recursive procedures, gives
    up below recursion depth 50, and retries every position after a wildcard. `Denotes` says,
    one pattern character at a time and without tokens, loops or depth, what a pattern means;
    the methods are proved equal to it up to an exact bound on the number of levels. */
module PatternMatcher {
  import opened Text

  const MAX_RECURSION_DEPTH := 50

  predicate IsSeparator(c: char) {
    !IsAlphaNumeric(c) && c !in "_-.%"
  }

  /** A standard URL without credentials, as its canonical text splits up. */
  datatype Url = Url(scheme: string, host: string, port: string, path: string) {
    function Spec(): string {
      scheme + "://" + host + port + path
    }

    /** What the URL parser guarantees of the parts. */
    predicate Valid() {
      && scheme != ""
      && host != "" && host[0] != ':' && '/' !in host
      && (port != "" ==> port[0] == ':') && '/' !in port && '.' !in port
      && path != "" && path[0] == '/'
    }

    /** Where the host begins and ends in the text. */
    function HostBegin(): nat {
      |scheme| + 3
    }

    function HostEnd(): nat {
      HostBegin() + |host|
    }
  }

  /** Number of leading characters of `p` equal to `c`. */
  function Run(p: string, c: char): (n: nat)
    ensures n <= |p|
    ensures forall i :: 0 <= i < n ==> p[i] == c
    ensures n < |p| ==> p[n] != c
  {
    if p != "" && p[0] == c then 1 + Run(p[1..], c) else 0
  }

  // ----- What a pattern means -----

  /** Whether `p` matches a prefix of `s`. `afterStar` says that a wildcard was just read: a lone
      bar there is looked for as text, whereas anywhere else it demands the end of the input and
      ends the pattern. Two or more bars in a row are text. */
  ghost predicate Denotes(p: string, s: string, afterStar: bool)
    decreases |p|
  {
    if p == "" then true
    else if p[0] == '*' then
      exists k: nat | k <= |s| :: Denotes(p[1..], s[k..], true)
    else if p[0] == '^' then
      if s == "" then Denotes(p[1..], s, false)
      else IsSeparator(s[0]) && Denotes(p[1..], s[1..], false)
    else if p[0] == '|' then
      var n := Run(p, '|');
      if n == 1 && !afterStar then s == ""
      else StartsWith(s, p[..n]) && Denotes(p[n..], s[n..], false)
    else s != "" && s[0] == p[0] && Denotes(p[1..], s[1..], false)
  }

  /** Whether `p`, read as if a wildcard stood before it, matches `s` from position `j` on. */
  ghost predicate MatchesAt(p: string, s: string, j: nat) {
    j <= |s| && Denotes(p, s[j..], true)
  }

  ghost predicate MatchesSomewhere(p: string, s: string) {
    exists j: nat :: MatchesAt(p, s, j)
  }

  ghost predicate NoMatchBefore(p: string, s: string, j: nat) {
    forall i: nat | i < j :: !MatchesAt(p, s, i)
  }

  ghost predicate IsLeftmost(p: string, s: string, j: nat) {
    MatchesAt(p, s, j) && NoMatchBefore(p, s, j)
  }

  // ----- The tokenizer -----

  predicate IsTextChar(c: char) {
    c !in "*^|"
  }

  function TextRun(p: string): (n: nat)
    ensures n <= |p|
    ensures forall i :: 0 <= i < n ==> IsTextChar(p[i])
    ensures n < |p| ==> !IsTextChar(p[n])
  {
    if p != "" && IsTextChar(p[0]) then 1 + TextRun(p[1..]) else 0
  }

  /** How many characters of `p` the next token consumes. */
  function TokenLength(p: string): (n: nat)
    ensures n <= |p|
    ensures p != "" ==> 0 < n
  {
    if p == "" then 0
    else if p[0] == '*' then Run(p, '*')
    else if p[0] == '^' then 1
    else if p[0] == '|' then Run(p, '|')
    else TextRun(p)
  }

  /** The next token and the pattern left after it. Wildcards in a row are one token. */
  function NextToken(p: string): (r: (string, string)) {
    var n := TokenLength(p);
    (if p != "" && p[0] == '*' then "*" else p[..n], p[n..])
  }

  /** The nested calls a successful match of `p` makes from the procedure that matches at the
      current position, and from the one that searches for the next token. */
  function BeginLevels(p: string): (n: nat)
    ensures 1 <= n
    decreases |p|, 0
  {
    if p == "" then 1
    else
      var rest := p[TokenLength(p)..];
      if p[0] == '*' then 1 + FindLevels(rest)
      else if p[0] == '|' && TokenLength(p) == 1 then 1
      else 1 + BeginLevels(rest)
  }

  function FindLevels(p: string): (n: nat)
    ensures 2 <= n
    decreases |p|, 1
  {
    1 + BeginLevels(p[TokenLength(p)..])
  }

  // ----- Lemmas about tokens -----

  lemma StartsWithTail(s: string, t: string, tail: string)
    requires s != "" && t == [s[0]] + tail
    ensures StartsWith(s, t) <==> StartsWith(s[1..], tail)
  {
    if StartsWith(s[1..], tail) {
      assert s[1..|t|] == s[1..][..|tail|];
      assert s[..|t|] == [s[0]] + s[1..|t|];
    }
    if StartsWith(s, t) { assert s[1..][..|tail|] == s[..|t|][1..]; }
  }

  lemma {:induction false} TextDenotes(p: string, n: nat, s: string, afterStar: bool)
    requires n <= |p| && (forall i :: 0 <= i < n ==> IsTextChar(p[i]))
    requires 0 < n
    ensures Denotes(p, s, afterStar) <==> StartsWith(s, p[..n]) && Denotes(p[n..], s[n..], false)
    decreases n
  {
    assert IsTextChar(p[0]);
    if n == 1 {
      if s != "" { assert s[..1] == [s[0]]; }
      assert p[..1] == [p[0]];
    } else if s != "" && s[0] == p[0] {
      TextDenotes(p[1..], n - 1, s[1..], false);
      assert p[1..][n - 1..] == p[n..];
      assert s[1..][..|s| - 1] == s[1..];
      if n <= |s| {
        assert s[1..][n - 1..] == s[n..];
        assert s[..n] == [s[0]] + s[1..][..n - 1];
      }
      assert p[..n] == [p[0]] + p[1..][..n - 1];
      StartsWithTail(s, p[..n], p[1..][..n - 1]);
    } else if s != "" {
      StartsWithFirst(s, p[..n]);
      assert p[..n][0] == p[0];
    }
  }

  lemma StartsWithFirst(s: string, t: string)
    requires s != "" && t != "" && s[0] != t[0]
    ensures !StartsWith(s, t)
  {
    if |t| <= |s| { assert s[..|t|][0] == s[0]; }
  }

  lemma {:induction false} StarsDenote(p: string, s: string, afterStar: bool)
    requires p != "" && p[0] == '*'
    ensures Denotes(p, s, afterStar) <==> MatchesSomewhere(p[Run(p, '*')..], s)
    decreases |p|
  {
    var n := Run(p, '*');
    var q := p[1..];
    if q != "" && q[0] == '*' {
      assert Run(q, '*') == n - 1 && q[n - 1..] == p[n..];
      forall k: nat | k <= |s|
        ensures Denotes(q, s[k..], true) <==> MatchesSomewhere(p[n..], s[k..])
      {
        StarsDenote(q, s[k..], true);
      }
      if Denotes(p, s, afterStar) {
        var k: nat :| k <= |s| && Denotes(q, s[k..], true);
        var j: nat :| MatchesAt(p[n..], s[k..], j);
        assert s[k..][j..] == s[k + j..];
        assert MatchesAt(p[n..], s, k + j);
      }
      if MatchesSomewhere(p[n..], s) {
        assert s[0..] == s;
        assert Denotes(q, s[0..], true);
      }
    } else {
      assert n == 1;
      if Denotes(p, s, afterStar) {
        var k: nat :| k <= |s| && Denotes(q, s[k..], true);
        assert MatchesAt(p[n..], s, k);
      }
      if MatchesSomewhere(p[n..], s) {
        var j: nat :| MatchesAt(p[n..], s, j);
        assert Denotes(q, s[j..], true);
      }
    }
  }

  /** A token that is searched for as text: anything but a wildcard, a separator and the end. */
  lemma {:induction false} TextTokenDenotes(p: string, s: string, afterStar: bool)
    requires p != "" && p[0] != '*' && p[0] != '^'
    requires p[0] == '|' ==> afterStar || 1 < Run(p, '|')
    ensures var n := TokenLength(p);
            Denotes(p, s, afterStar) <==> StartsWith(s, p[..n]) && Denotes(p[n..], s[n..], false)
  {
    if p[0] != '|' { TextDenotes(p, TextRun(p), s, afterStar); }
  }

  /** What each of the tokens means: a wildcard that the rest matches somewhere, a separator that it
      matches behind one or at the end, a lone bar that the end is reached, and text that the rest
      matches behind it. */
  lemma {:induction false} TokenDenotes(p: string, s: string, afterStar: bool)
    requires p != ""
    ensures var (token, rest) := NextToken(p);
            Denotes(p, s, afterStar) <==>
              if token == "*" then MatchesSomewhere(rest, s)
              else if token == "^" then
                if s == "" then Denotes(rest, "", false) else IsSeparator(s[0]) && Denotes(rest, s[1..], false)
              else if token == "|" && !afterStar then s == ""
              else StartsWith(s, token) && Denotes(rest, s[|token|..], false)
  {
    var (token, rest) := NextToken(p);
    assert token[0] == p[0];
    if p[0] == '*' {
      StarsDenote(p, s, afterStar);
    } else if p[0] != '^' && !(p[0] == '|' && Run(p, '|') == 1 && !afterStar) {
      TextTokenDenotes(p, s, afterStar);
    }
  }

  // ----- The matching procedures -----

  /** Position of the first occurrence of `text` in `s` at or after `from`. */
  function Find(s: string, text: string, from: nat): (r: Option<nat>)
    ensures IsNextOccurrence(s, text, from, r)
    decreases |s| - from
  {
    if |s| < from then None
    else if StartsWith(s[from..], text) then Some(from)
    else Find(s, text, from + 1)
  }

  /** How many characters are skipped to reach a match at `j`: a separator that is searched for
      counts as skipped itself. */
  function SkippedLength(p: string, s: string, j: nat): (n: nat)
    requires j <= |s|
    ensures j <= n <= |s|
  {
    if p != "" && p[0] == '^' && j < |s| then j + 1 else j
  }

  method NextTokenBeginsInput(input: string, pattern: string, depth: nat) returns (b: bool)
    ensures b <==> Denotes(pattern, input, false) && depth + BeginLevels(pattern) <= MAX_RECURSION_DEPTH
    decreases |pattern|, 0
  {
    var recursionDepth := depth + 1;
    if recursionDepth > MAX_RECURSION_DEPTH {
      return false;
    }
    var (token, rest) := NextToken(pattern);
    if token == "" {
      return true;
    }
    if token == "^" {
      if input != "" {
        if !IsSeparator(input[0]) {
          return false;
        }
        b := NextTokenBeginsInput(input[1..], rest, recursionDepth);
        return;
      }
      b := NextTokenBeginsInput("", rest, recursionDepth);
    } else if token == "*" {
      StarsDenote(pattern, input, false);
      var skipped := FindNextTokenInInput(input, rest, recursionDepth);
      b := skipped.Some?;
    } else if token == "|" {
      b := input == "";
    } else {
      TextTokenDenotes(pattern, input, false);
      if !StartsWith(input, token) {
        return false;
      }
      b := NextTokenBeginsInput(input[|token|..], rest, recursionDepth);
    }
  }

  /** Searches for the next token, skipping any number of characters; yields what was skipped. */
  method FindNextTokenInInput(input: string, pattern: string, depth: nat) returns (skipped: Option<string>)
    requires pattern != "" ==> pattern[0] != '*'
    ensures skipped.Some? <==> MatchesSomewhere(pattern, input) && depth + FindLevels(pattern) <= MAX_RECURSION_DEPTH
    ensures skipped.Some? ==> exists j: nat :: IsLeftmost(pattern, input, j) &&
                                               skipped.value == input[..SkippedLength(pattern, input, j)]
    decreases |pattern|, 3
  {
    var recursionDepth := depth + 1;
    if recursionDepth > MAX_RECURSION_DEPTH {
      return None;
    }
    if pattern != "" && pattern[0] == '^' {
      skipped := FindSeparator(input, pattern, recursionDepth);
    } else {
      var (token, rest) := NextToken(pattern);
      skipped := FindText(input, pattern, token, rest, recursionDepth);
    }
  }

  method FindSeparator(input: string, pattern: string, depth: nat) returns (skipped: Option<string>)
    requires pattern != "" && pattern[0] == '^'
    ensures skipped.Some? <==>
              MatchesSomewhere(pattern, input) && depth + BeginLevels(pattern[1..]) <= MAX_RECURSION_DEPTH
    ensures skipped.Some? ==> exists j: nat :: IsLeftmost(pattern, input, j) &&
                                               skipped.value == input[..SkippedLength(pattern, input, j)]
    decreases |pattern| - 1, 1
  {
    var rest := NextToken(pattern).1;
    var i := 0;
    while i < |input|
      invariant 0 <= i <= |input|
      invariant depth + BeginLevels(rest) <= MAX_RECURSION_DEPTH ==>
                  NoMatchBefore(pattern, input, i)
    {
      SearchedSeparator(pattern, input, i);
      if IsSeparator(input[i]) {
        var matched := NextTokenBeginsInput(input[i + 1..], rest, depth);
        if matched {
          assert IsLeftmost(pattern, input, i);
          return Some(input[..i + 1]);
        }
      }
      i := i + 1;
    }
    SearchedSeparator(pattern, input, |input|);
    var atEnd := NextTokenBeginsInput("", rest, depth);
    if atEnd {
      assert IsLeftmost(pattern, input, |input|);
      return Some(input[..|input|]);
    }
    return None;
  }

  /** Searches for the occurrences of a token of text until the rest of the pattern follows one. */
  method FindText(input: string, ghost pattern: string, token: string, rest: string, depth: nat)
    returns (skipped: Option<string>)
    requires pattern != "" ==> pattern[0] != '*' && pattern[0] != '^'
    requires (token, rest) == NextToken(pattern)
    ensures skipped.Some? <==> MatchesSomewhere(pattern, input) && depth + BeginLevels(rest) <= MAX_RECURSION_DEPTH
    ensures skipped.Some? ==> exists j: nat :: IsLeftmost(pattern, input, j) && skipped.value == input[..j]
    decreases |rest|, 2
  {
    var matchPos := Find(input, token, 0);
    ghost var from: nat := 0;
    ghost var enough := depth + BeginLevels(rest) <= MAX_RECURSION_DEPTH;
    while matchPos.Some?
      invariant from <= |input| + 1
      invariant IsNextOccurrence(input, token, from, matchPos)
      invariant enough ==> NoMatchBefore(pattern, input, from)
      decreases |input| + 1 - from
    {
      var pos := matchPos.value;
      NoMatchInGap(pattern, input, from, matchPos);
      var matched := TokenThenRest(input, pattern, token, rest, pos, depth);
      if matched {
        return Some(input[..pos]);
      }
      from := pos + 1;
      matchPos := Find(input, token, pos + 1);
    }
    NoMatchInGap(pattern, input, from, matchPos);
    return None;
  }

  /** Whether the rest of the pattern follows the occurrence of the token at `pos`. */
  method TokenThenRest(input: string, ghost pattern: string, token: string, rest: string, pos: nat, depth: nat)
    returns (b: bool)
    requires pattern != "" ==> pattern[0] != '*' && pattern[0] != '^'
    requires (token, rest) == NextToken(pattern)
    requires pos <= |input| && StartsWith(input[pos..], token)
    ensures b <==> MatchesAt(pattern, input, pos) && depth + BeginLevels(rest) <= MAX_RECURSION_DEPTH
    decreases |rest|, 1
  {
    if pattern != "" { TextTokenDenotes(pattern, input[pos..], true); }
    assert input[pos..][|token|..] == input[pos + |token|..];
    b := NextTokenBeginsInput(input[pos + |token|..], rest, depth);
  }

  ghost predicate IsNextOccurrence(s: string, text: string, from: nat, r: Option<nat>) {
    && (r.Some? ==> from <= r.value <= |s| && StartsWith(s[r.value..], text))
    && forall i: nat | from <= i <= |s| && (r.Some? ==> i < r.value) :: !StartsWith(s[i..], text)
  }

  lemma NoMatchInGap(p: string, s: string, from: nat, next: Option<nat>)
    requires p != "" ==> p[0] != '*' && p[0] != '^'
    requires IsNextOccurrence(s, p[..TokenLength(p)], from, next)
    requires next.None? ==> from <= |s| + 1
    ensures NoMatchBefore(p, s, from) && next.Some? ==> NoMatchBefore(p, s, next.value)
    ensures NoMatchBefore(p, s, from) && next.None? ==> !MatchesSomewhere(p, s)
  {
    forall i: nat | from <= i <= |s| && (next.Some? ==> i < next.value)
      ensures !MatchesAt(p, s, i)
    {
      if p != "" { TextTokenDenotes(p, s[i..], true); }
    }
  }

  lemma SearchedSeparator(p: string, s: string, i: nat)
    requires p != "" && p[0] == '^' && i <= |s|
    ensures i < |s| ==> (MatchesAt(p, s, i) <==> IsSeparator(s[i]) && Denotes(p[1..], s[i + 1..], false))
    ensures i == |s| ==> (MatchesAt(p, s, i) <==> Denotes(p[1..], "", false))
  {
    if i < |s| {
      assert s[i..][0] == s[i] && s[i..][1..] == s[i + 1..];
    } else {
      assert s[i..] == "";
    }
  }

  // ----- The host anchor -----

  function TrimColonsAndSlashes(s: string): (r: string)
    ensures r == "" || r[0] !in ":/"
  {
    if s != "" && s[0] in ":/" then TrimColonsAndSlashes(s[1..]) else s
  }

  /** Whether the skipped text `candidate` ends where a host, or one of its subdomains, starts. */
  predicate IsValidStartOfHost(candidate: string, url: Url)
    requires |url.scheme| <= |candidate|
  {
    var trimmed := TrimColonsAndSlashes(candidate[|url.scheme|..]);
    trimmed == "" || trimmed == url.host || (EndsWith(trimmed, ".") && '/' !in trimmed)
  }

  /** The positions the host anchor accepts, told from the parts of the URL: up to the host, at its
      end, and behind its dots. */
  predicate IsHostStart(url: Url, j: nat) {
    var spec := url.Spec();
    j <= |spec| &&
    (j <= url.HostBegin() || j == url.HostEnd() || (j <= url.HostEnd() && spec[j - 1] == '.'))
  }

  lemma HostStartIff(url: Url, j: nat)
    requires j <= |url.Spec()|
    ensures IsHostStart(url, j) <==>
              || j <= |url.scheme| + 3 || j == |url.scheme| + 3 + |url.host|
              || exists a: string, b: string :: url.host == a + "." + b && j == |url.scheme| + 3 + |a| + 1
  {
    var s, host, begin := url.Spec(), url.host, |url.scheme| + 3;
    if begin < j <= begin + |host| {
      assert s[j - 1] == host[j - 1 - begin];
      if host[j - 1 - begin] == '.' {
        assert host == host[..j - 1 - begin] + "." + host[j - begin..];
      }
    }
  }

  lemma ValidStartIff(url: Url, j: nat)
    requires url.Valid() && |url.scheme| <= j <= |url.Spec()|
    ensures IsValidStartOfHost(url.Spec()[..j], url) <==> IsHostStart(url, j)
  {
    var spec := url.Spec();
    if j <= url.HostBegin() {
      SlashesOf(url, j);
    } else {
      var x := spec[url.HostBegin()..j];
      BehindSlashes(url, j, x);
      assert x[|x| - 1] == spec[j - 1];
      BehindHostBegin(url, x);
    }
  }

  lemma SlashesOf(url: Url, j: nat)
    requires |url.scheme| <= j <= url.HostBegin()
    ensures TrimColonsAndSlashes(url.Spec()[..j][|url.scheme|..]) == ""
  {
    var rest := url.Spec()[..j][|url.scheme|..];
    assert rest == "://"[..j - |url.scheme|];
    TrimmedAway(rest, "");
    assert rest + "" == rest;
  }

  lemma BehindSlashes(url: Url, j: nat, x: string)
    requires url.Valid() && url.HostBegin() < j <= |url.Spec()| && x == url.Spec()[url.HostBegin()..j]
    ensures TrimColonsAndSlashes(url.Spec()[..j][|url.scheme|..]) == x
    ensures x == (url.host + url.port + url.path)[..|x|] && |x| <= |url.host + url.port + url.path|
  {
    var spec, after := url.Spec(), url.host + url.port + url.path;
    assert spec == (url.scheme + "://") + after;
    assert spec[..j][|url.scheme|..] == "://" + x && x[0] == url.host[0];
    TrimmedAway("://", x);
  }

  /** A valid start of the host ends before it, at its end, or behind one of its dots. */
  lemma StartOfHostMeaning(url: Url, j: nat)
    requires url.Valid() && |url.scheme| <= j <= |url.Spec()|
    ensures IsValidStartOfHost(url.Spec()[..j], url) <==> IsHostStart(url, j)
    ensures IsHostStart(url, j) <==>
              || j <= |url.scheme| + 3 || j == |url.scheme| + 3 + |url.host|
              || exists a: string, b: string :: url.host == a + "." + b && j == |url.scheme| + 3 + |a| + 1
  {
    ValidStartIff(url, j);
    HostStartIff(url, j);
  }

  /** What follows the slashes ends where a host starts if it is the host or ends in a dot in it. */
  lemma BehindHostBegin(url: Url, x: string)
    requires url.Valid() && x != "" && |x| <= |url.host + url.port + url.path|
        && x == (url.host + url.port + url.path)[..|x|]
    ensures x == url.host || (EndsWith(x, ".") && '/' !in x) <==>
              |x| == |url.host| || (|x| <= |url.host| && x[|x| - 1] == '.')
  {
    assert x[|x| - 1..] == [x[|x| - 1]];
    if |x| <= |url.host| {
      assert x == url.host[..|x|];
    } else if |url.host| + |url.port| < |x| {
      assert x[|url.host| + |url.port|] == '/';
    } else {
      assert x[|x| - 1] == url.port[|x| - 1 - |url.host|];
    }
  }

  lemma {:induction false} TrimmedAway(s: string, x: string)
    requires (forall c | c in s :: c in ":/") && (x == "" || x[0] !in ":/")
    ensures TrimColonsAndSlashes(s + x) == x
  {
    if s == "" {
      assert s + x == x;
    } else {
      TrimmedAway(s[1..], x);
      assert (s + x)[1..] == s[1..] + x;
    }
  }

  // ----- The whole question -----

  datatype Outcome =
    | Verdict(matched: bool)
    | SchemeCut // the skipped text is shorter than the scheme that is cut off it: a failed check

  predicate IsHostAnchored(p: string) {
    Run(p, '|') == 2 && !(2 < |p| && p[2] == '*')
  }

  /** The part of `p` that is matched: without its leading anchor and without leading wildcards,
      unless the anchor is the one of the URL's start. */
  function Body(p: string): string {
    var n := Run(p, '|');
    if n == 1 then p[1..]
    else
      var q := if n == 2 then p[2..] else p;
      q[Run(q, '*')..]
  }

  function Levels(p: string): nat {
    if Run(p, '|') == 1 then BeginLevels(Body(p)) else FindLevels(Body(p))
  }

  /** What the pattern means. */
  ghost predicate Means(p: string, url: Url) {
    var s := url.Spec();
    if Run(p, '|') == 1 then Denotes(Body(p), s, false)
    else if IsHostAnchored(p) then
      exists j: nat :: MatchesAt(Body(p), s, j) && IsHostStart(url, SkippedLength(Body(p), s, j))
    else MatchesSomewhere(Body(p), s)
  }

  function HostVerdict(url: Url, skipped: nat): Outcome {
    if skipped < |url.scheme| then SchemeCut else Verdict(IsHostStart(url, skipped))
  }

  /** What the code answers: it gives up on deep patterns and tries a host anchor only on the
      leftmost match. */
  ghost predicate Answers(p: string, url: Url, r: Outcome) {
    var s := url.Spec();
    if MAX_RECURSION_DEPTH < Levels(p) then r == Verdict(false)
    else if IsHostAnchored(p) && MatchesSomewhere(Body(p), s) then
      exists j: nat :: IsLeftmost(Body(p), s, j) && r == HostVerdict(url, SkippedLength(Body(p), s, j))
    else r == Verdict(Means(p, url))
  }

  method DoesPatternMatchUrl(filterPattern: string, url: Url) returns (r: Outcome)
    requires url.Valid()
    ensures Answers(filterPattern, url, r)
  {
    var input := url.Spec();
    var (firstToken, rest) := NextToken(filterPattern);
    FirstToken(filterPattern);
    if firstToken == "|" {
      var b := NextTokenBeginsInput(input, rest, 0);
      r := Verdict(b);
    } else if firstToken == "||" {
      var (wildcardToken, afterWildcard) := NextToken(rest);
      if wildcardToken == "*" {
        var skipped := FindNextTokenInInput(input, afterWildcard, 0);
        r := Verdict(skipped.Some?);
      } else {
        r := MatchHostAnchored(rest, url, filterPattern);
      }
    } else if firstToken == "*" {
      var skipped := FindNextTokenInInput(input, rest, 0);
      r := Verdict(skipped.Some?);
    } else {
      var skipped := FindNextTokenInInput(input, filterPattern, 0);
      r := Verdict(skipped.Some?);
    }
  }

  method MatchHostAnchored(rest: string, url: Url, ghost filterPattern: string) returns (r: Outcome)
    requires url.Valid() && IsHostAnchored(filterPattern) && rest == Body(filterPattern)
    ensures Answers(filterPattern, url, r)
  {
    var skipped := FindNextTokenInInput(url.Spec(), rest, 0);
    if skipped.None? {
      return Verdict(false);
    }
    if |skipped.value| < |url.scheme| {
      return SchemeCut;
    }
    ValidStartIff(url, |skipped.value|);
    return Verdict(IsValidStartOfHost(skipped.value, url));
  }

  /** How the first tokens of a pattern tell its anchor. */
  lemma FirstToken(p: string)
    ensures NextToken(p).0 == "|" <==> Run(p, '|') == 1
    ensures NextToken(p).0 == "||" <==> Run(p, '|') == 2
    ensures Run(p, '|') == 1 ==> Body(p) == NextToken(p).1
    ensures Run(p, '|') == 2 ==> (IsHostAnchored(p) <==> NextToken(NextToken(p).1).0 != "*")
    ensures Run(p, '|') == 2 ==>
              Body(p) == if IsHostAnchored(p) then NextToken(p).1 else NextToken(NextToken(p).1).1
    ensures Run(p, '|') !in {1, 2} ==> Body(p) == if NextToken(p).0 == "*" then NextToken(p).1 else p
    ensures Body(p) != "" && Run(p, '|') != 1 ==> Body(p)[0] != '*'
  {
    var (token, rest) := NextToken(p);
    assert token != "" ==> token[0] == p[0];
    if p != "" && p[0] == '|' {
      assert Run(p, '*') == 0;
    }
    if rest != "" && rest[0] != '*' {
      assert Run(rest, '*') == 0;
    }
    var token' := NextToken(rest).0;
    assert token' != "" ==> token'[0] == rest[0];
  }

  // ----- Answer against meaning -----

  lemma {:induction false} LeftmostExists(p: string, s: string, k: nat) returns (j: nat)
    requires MatchesAt(p, s, k)
    ensures IsLeftmost(p, s, j)
    decreases k
  {
    if i: nat :| i < k && MatchesAt(p, s, i) {
      j := LeftmostExists(p, s, i);
    } else {
      j := k;
    }
  }

  /** The leftmost match, if there is one, lies behind the scheme and at the start of a host. */
  ghost predicate LeftmostIsHostStart(p: string, url: Url) {
    forall j: nat | IsLeftmost(Body(p), url.Spec(), j) ::
      HostVerdict(url, SkippedLength(Body(p), url.Spec(), j)) == Verdict(true)
  }

  /** A positive answer is always right, and a pattern that means the URL gets it exactly if it
      is not too deep and, under a host anchor, its leftmost match is at a host start. */
  lemma AnswerIsMeaning(p: string, url: Url)
    ensures Answers(p, url, Verdict(true)) <==>
              && Means(p, url)
              && Levels(p) <= MAX_RECURSION_DEPTH
              && (IsHostAnchored(p) ==> LeftmostIsHostStart(p, url))
  {
    var s := url.Spec();
    if IsHostAnchored(p) && MatchesSomewhere(Body(p), s) {
      var k: nat :| MatchesAt(Body(p), s, k);
      var j := LeftmostExists(Body(p), s, k);
      forall i: nat | IsLeftmost(Body(p), s, i)
        ensures i == j
      {
        assert !(i < j) && !(j < i);
      }
    }
  }

  /** There is one answer for a pattern and a URL. */
  lemma AnswerIsUnique(p: string, url: Url, r: Outcome, other: Outcome)
    requires Answers(p, url, r) && Answers(p, url, other)
    ensures r == other
  {
    forall i: nat, j: nat | IsLeftmost(Body(p), url.Spec(), i) && IsLeftmost(Body(p), url.Spec(), j)
      ensures i == j
    {
      assert !(i < j) && !(j < i);
    }
  }

  /** A pattern of at most 48 characters is never cut off. */
  lemma {:induction false} LevelsBound(p: string)
    ensures BeginLevels(p) <= |p| + 2 && FindLevels(p) <= |p| + 2
    decreases |p|
  {
    if p != "" {
      LevelsBound(p[TokenLength(p)..]);
    }
  }

  lemma ShortPatternsAreNotCutOff(p: string)
    requires |p| <= 48
    ensures Levels(p) <= MAX_RECURSION_DEPTH
  {
    LevelsBound(Body(p));
  }

  function Repeat(s: string, n: nat): string {
    if n == 0 then "" else s + Repeat(s, n - 1)
  }

  lemma {:induction false} DeepLevels(n: nat)
    ensures BeginLevels(Repeat("a^", n)) == 2 * n + 1
  {
    if n != 0 {
      var p := Repeat("a^", n);
      var rest := Repeat("a^", n - 1);
      assert p == "a^" + rest;
      assert p[1..] == "^" + rest && p[1..][0] == '^' && TextRun(p[1..]) == 0;
      assert TextRun(p) == 1;
      assert p[1..][1..] == rest;
      DeepLevels(n - 1);
    }
  }

  /** The pattern a^a^...a^ is cut off from 25 repetitions on, whatever the URL, and answered by
      its meaning below that. */
  lemma DeepPattern(n: nat, url: Url, r: Outcome)
    requires Answers(Repeat("a^", n), url, r)
    ensures r == Verdict(n < 25 && Means(Repeat("a^", n), url))
  {
    var p := Repeat("a^", n);
    DeepLevels(n);
    if n != 0 {
      assert p[0] == 'a' && Run(p, '|') == 0 && Run(p, '*') == 0;
      assert p[0..] == p;
    }
  }

  predicate IsText(t: string) {
    t != "" && forall i :: 0 <= i < |t| ==> IsTextChar(t[i])
  }

  /** Text, whatever comes behind it, is one token and one level more. */
  lemma TextThenLevels(p: string, t: string, tail: string)
    requires p == t + tail && IsText(t) && (tail == "" || !IsTextChar(tail[0]))
    ensures TokenLength(p) == |t| && p[|t|..] == tail
    ensures FindLevels(p) == 1 + BeginLevels(tail) && BeginLevels(p) == 1 + BeginLevels(tail)
  {
    assert forall i :: 0 <= i < |t| ==> p[i] == t[i];
    assert tail != "" ==> p[|t|] == tail[0];
    assert TextRun(p) == |t|;
  }

  lemma TextLevels(t: string)
    requires IsText(t)
    ensures FindLevels(t) == 2
  {
    assert t + "" == t;
    TextThenLevels(t, t, "");
  }

  /** A host anchor before plain text: the text is looked for as it stands. */
  lemma HostAnchoredText(t: string, s: string, j: nat)
    requires IsText(t) && j <= |s|
    ensures IsHostAnchored("||" + t) && Body("||" + t) == t
    ensures MatchesAt(t, s, j) <==> StartsWith(s[j..], t)
  {
    var p := "||" + t;
    assert p[1..] == "|" + t && p[1..][1..] == t;
    assert Run(t, '|') == 0 && Run(t, '*') == 0 && p[2..] == t;
    TextDenotes(t, |t|, s[j..], true);
    assert t[..|t|] == t && t[|t|..] == "";
  }

  /** `t` occurs in `s` at `j` and not before. */
  predicate FirstOccurs(t: string, s: string, j: nat) {
    j <= |s| && StartsWith(s[j..], t) && forall i: nat | i < j :: !StartsWith(s[i..], t)
  }

  lemma LeftmostText(t: string, s: string, j: nat)
    requires IsText(t) && FirstOccurs(t, s, j)
    ensures IsLeftmost(t, s, j)
  {
    forall i: nat | i <= j
      ensures MatchesAt(t, s, i) <==> i == j
    {
      HostAnchoredText(t, s, i);
    }
  }

  /** A first occurrence, at `i`, that is not at a host start hides a later one, at `j`, that is. */
  lemma FirstOccurrenceHidesTheHost(t: string, url: Url, i: nat, j: nat)
    requires IsText(t)
    requires FirstOccurs(t, url.Spec(), i) && |url.scheme| <= i && !IsHostStart(url, i)
    requires j <= |url.Spec()| && StartsWith(url.Spec()[j..], t) && IsHostStart(url, j)
    ensures Means("||" + t, url) && Answers("||" + t, url, Verdict(false))
  {
    HostAnchoredText(t, url.Spec(), j);
    LeftmostText(t, url.Spec(), i);
    TextLevels(t);
    assert SkippedLength(t, url.Spec(), i) == i && SkippedLength(t, url.Spec(), j) == j;
  }

  lemma FirstOccursByLetter(t: string, s: string, j: nat)
    requires t != "" && j + |t| <= |s| && s[j..j + |t|] == t
    requires forall i: nat | i < j :: s[i] != t[0]
    ensures FirstOccurs(t, s, j)
  {
    assert s[j..][..|t|] == s[j..j + |t|];
    forall i: nat | i < j
      ensures !StartsWith(s[i..], t)
    {
      assert s[i..][..|t|][0] == s[i];
    }
  }

  lemma HiddenHostWitness() returns (t: string, url: Url)
    ensures IsText(t) && url.Valid()
    ensures FirstOccurs(t, url.Spec(), 8) && !IsHostStart(url, 8) && |url.scheme| <= 8
    ensures 11 <= |url.Spec()| && StartsWith(url.Spec()[11..], t) && IsHostStart(url, 11)
  {
    t, url := "ad", Url("http", "xad.ad", "", "/");
    assert url.Valid() && IsText(t);
    var s := url.Spec();
    assert s == "http://xad.ad/";
    assert s[8..10] == t && s[11..13] == t && s[11..][..2] == s[11..13];
    FirstOccursByLetter(t, s, 8);
  }

  /** Such a URL exists: the pattern ||ad misses http://xad.ad/. */
  lemma HiddenHostExample()
    ensures exists t, url: Url :: url.Valid() && Means("||" + t, url) && Answers("||" + t, url, Verdict(false))
  {
    var t, url := HiddenHostWitness();
    FirstOccurrenceHidesTheHost(t, url, 8, 11);
  }

  // ----- The check on the skipped text -----

  /** The host anchor's leftmost match skips less than the scheme. */
  ghost predicate CutsScheme(p: string, url: Url) {
    && Levels(p) <= MAX_RECURSION_DEPTH && IsHostAnchored(p)
    && exists j: nat :: IsLeftmost(Body(p), url.Spec(), j) && SkippedLength(Body(p), url.Spec(), j) < |url.scheme|
  }

  /** The check that the skipped text begins with the scheme fails exactly then. */
  lemma SchemeCutIff(p: string, url: Url)
    ensures Answers(p, url, SchemeCut) <==> CutsScheme(p, url)
  {
  }

  /** With a host anchor before plain text it fails exactly if the text first occurs inside the
      scheme, be it with its first letter only. */
  lemma TextCutsSchemeIff(t: string, url: Url)
    requires IsText(t)
    ensures Answers("||" + t, url, SchemeCut) <==> exists i: nat :: i < |url.scheme| && FirstOccurs(t, url.Spec(), i)
  {
    HostAnchoredText(t, url.Spec(), 0);
    TextLevels(t);
    SchemeCutIff("||" + t, url);
    CutsSchemeIff("||" + t, t, url);
  }

  lemma CutsSchemeIff(p: string, t: string, url: Url)
    requires IsText(t) && Levels(p) <= MAX_RECURSION_DEPTH && IsHostAnchored(p) && Body(p) == t
    ensures CutsScheme(p, url) <==> exists i: nat :: i < |url.scheme| && FirstOccurs(t, url.Spec(), i)
  {
    var s := url.Spec();
    if i: nat :| i < |url.scheme| && FirstOccurs(t, s, i) {
      LeftmostText(t, s, i);
      assert SkippedLength(t, s, i) == i;
    }
    if j: nat :| IsLeftmost(t, s, j) && SkippedLength(t, s, j) < |url.scheme| {
      LeftmostOccurs(t, s, j);
    }
  }

  lemma LeftmostOccurs(t: string, s: string, j: nat)
    requires IsText(t) && IsLeftmost(t, s, j)
    ensures FirstOccurs(t, s, j)
  {
    forall i: nat | i <= j
      ensures StartsWith(s[i..], t) <==> MatchesAt(t, s, i)
    {
      HostAnchoredText(t, s, i);
    }
  }

  lemma SchemeCutWitness() returns (t: string, url: Url)
    ensures t == "ttp" && url == Url("http", "a", "", "/")
    ensures IsText(t) && url.Valid() && FirstOccurs(t, url.Spec(), 1)
  {
    t, url := "ttp", Url("http", "a", "", "/");
    var s := url.Spec();
    assert s == "http://a/" && s[1..4] == t;
    FirstOccursByLetter(t, s, 1);
  }

  /** The pattern ||ttp fails it for http://a/. */
  lemma SchemeCutExample() returns (t: string, url: Url)
    ensures t == "ttp" && url == Url("http", "a", "", "/")
    ensures url.Valid() && Answers("||" + t, url, SchemeCut)
  {
    t, url := SchemeCutWitness();
    TextCutsSchemeIff(t, url);
  }
}
