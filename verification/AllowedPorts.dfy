/** The list of explicitly allowed ports
    (chrome/browser/prefs/chrome_command_line_pref_store.cc 190-211). */
module AllowedPorts {
  import opened Text

  predicate IsWhitespace(c: char) {
    c == ' ' || ('\t' <= c <= '\r')
  }

  // ----- Splitting and trimming -----

  function SplitAt(s: string, separator: char): (pieces: seq<string>)
    ensures |pieces| >= 1
  {
    if s == "" then [""]
    else
      var rest := SplitAt(s[1..], separator);
      if s[0] == separator then [""] + rest else [[s[0]] + rest[0]] + rest[1..]
  }

  function JoinWith(pieces: seq<string>, separator: char): string {
    if pieces == [] then ""
    else if |pieces| == 1 then pieces[0]
    else pieces[0] + [separator] + JoinWith(pieces[1..], separator)
  }

  function TrimLeft(s: string): string {
    if s != "" && IsWhitespace(s[0]) then TrimLeft(s[1..]) else s
  }

  function TrimRight(s: string): string {
    if s != "" && IsWhitespace(s[|s| - 1]) then TrimRight(s[..|s| - 1]) else s
  }

  function Trimmed(s: string): string {
    TrimRight(TrimLeft(s))
  }

  // ----- Numbers -----

  const INT_MAX := 0x7fff_ffff

  function DigitValue(c: char): nat
    requires IsDigit(c)
  {
    c as int - '0' as int
  }

  /** The value of a string of digits, none if there is another character or it is too large. */
  function DigitsValue(s: string, max: nat): Option<nat> {
    if s == "" then Some(0)
    else
      var last := |s| - 1;
      var before := DigitsValue(s[..last], max);
      if before.None? || !IsDigit(s[last]) || before.value * 10 + DigitValue(s[last]) > max then None
      else Some(before.value * 10 + DigitValue(s[last]))
  }

  /** A decimal int with at most a sign before its digits. */
  function StringToInt(s: string): Option<int> {
    if s == "" then None
    else if s[0] == '-' then
      var value := DigitsValue(s[1..], INT_MAX + 1);
      if |s| > 1 && value.Some? then Some(0 - value.value) else None
    else
      var digits := if s[0] == '+' then s[1..] else s;
      var value := DigitsValue(digits, INT_MAX);
      if digits != "" && value.Some? then Some(value.value) else None
  }

  predicate IsPortValid(port: int) {
    0 <= port <= 65535
  }

  function Decimal(n: nat): (s: string)
    ensures s != "" && forall k | 0 <= k < |s| :: IsDigit(s[k])
  {
    var last := [('0' as int + n % 10) as char];
    if n < 10 then last else Decimal(n / 10) + last
  }

  // ----- The list -----

  /** The port a piece stands for, if any. */
  function PortOf(piece: string): Option<int> {
    var port := StringToInt(Trimmed(piece));
    if port.Some? && IsPortValid(port.value) then port else None
  }

  function PortsOf(pieces: seq<string>): seq<int> {
    if pieces == [] then []
    else PortsFor(pieces[0]) + PortsOf(pieces[1..])
  }

  function PortsFor(piece: string): seq<int> {
    if PortOf(piece).Some? then [PortOf(piece).value] else []
  }

  method ApplyExplicitlyAllowedPortSwitch(switchValue: string) returns (integerList: seq<int>)
    ensures integerList == PortsOf(SplitAt(switchValue, ','))
  {
    integerList := [];
    // Nothing is split into no pieces, which makes no difference to an empty one.
    var split := if switchValue == "" then [] else SplitAt(switchValue, ',');
    EmptySwitch();
    ghost var all := PortsOf(split);
    for i := 0 to |split|
      invariant integerList + PortsOf(split[i..]) == all
    {
      PortsFrom(integerList, split, i);
      var port := StringToInt(Trimmed(split[i]));
      if port.None? {
        continue;
      }
      if !IsPortValid(port.value) {
        continue;
      }
      integerList := integerList + [port.value];
    }
  }

  lemma EmptySwitch()
    ensures PortsOf(SplitAt("", ',')) == []
  {
    assert PortsOf([""][1..]) == [];
  }

  lemma PortsFrom(list: seq<int>, pieces: seq<string>, i: nat)
    requires i < |pieces|
    ensures var port := PortOf(pieces[i]);
            list + PortsOf(pieces[i..]) == (if port.Some? then list + [port.value] else list) + PortsOf(pieces[i + 1..])
  {
    var ports, rest := PortsFor(pieces[i]), PortsOf(pieces[i + 1..]);
    assert pieces[i..][1..] == pieces[i + 1..];
    assert list + (ports + rest) == (list + ports) + rest && list + [] == list;
  }

  type Port = p: nat | p <= 65535

  function Printed(ports: seq<Port>): seq<string> {
    if ports == [] then [] else [Decimal(ports[0])] + Printed(ports[1..])
  }

  // ----- What the list contains -----

  /** A port is in the list exactly if some piece between commas, trimmed, stands for it; and the
      list is in the order of the pieces. */
  lemma {:induction false} ListedIff(pieces: seq<string>, port: int)
    ensures port in PortsOf(pieces) <==> exists i :: 0 <= i < |pieces| && PortOf(pieces[i]) == Some(port)
  {
    if pieces != [] {
      ListedIff(pieces[1..], port);
      if i :| 0 <= i < |pieces[1..]| && PortOf(pieces[1..][i]) == Some(port) {
        assert PortOf(pieces[i + 1]) == Some(port);
      }
      if i :| 0 <= i < |pieces| && PortOf(pieces[i]) == Some(port) {
        assert i > 0 ==> PortOf(pieces[1..][i - 1]) == Some(port);
      }
    }
  }

  lemma {:induction false} ListedInOrder(a: seq<string>, b: seq<string>)
    ensures PortsOf(a + b) == PortsOf(a) + PortsOf(b)
  {
    if a == [] {
      assert a + b == b;
    } else {
      assert (a + b)[0] == a[0] && (a + b)[1..] == a[1..] + b;
      ListedInOrder(a[1..], b);
    }
  }

  /** Splitting a joined list gives its pieces back. */
  lemma {:induction false} SplitOfJoined(pieces: seq<string>, separator: char)
    requires pieces != [] && forall p | p in pieces :: separator !in p
    ensures SplitAt(JoinWith(pieces, separator), separator) == pieces
  {
    if |pieces| == 1 {
      SplitOfPiece(pieces[0], separator);
      assert pieces == [pieces[0]];
    } else {
      var rest := pieces[1..];
      SplitOfJoined(rest, separator);
      SplitOfFirst(pieces[0], separator, JoinWith(rest, separator));
      assert pieces[0] + [separator] + JoinWith(rest, separator) ==
          pieces[0] + ([separator] + JoinWith(rest, separator));
      assert pieces == [pieces[0]] + rest;
    }
  }

  lemma {:induction false} SplitOfPiece(p: string, separator: char)
    requires separator !in p
    ensures SplitAt(p, separator) == [p]
  {
    if p != "" {
      SplitOfPiece(p[1..], separator);
      assert p == [p[0]] + p[1..];
    }
  }

  lemma {:induction false} SplitOfFirst(p: string, separator: char, s: string)
    requires separator !in p
    ensures SplitAt(p + ([separator] + s), separator) == [p] + SplitAt(s, separator)
  {
    var whole := p + ([separator] + s);
    if p == "" {
      assert whole == [separator] + s && whole[1..] == s;
    } else {
      assert whole[0] == p[0] && whole[1..] == p[1..] + ([separator] + s);
      SplitOfFirst(p[1..], separator, s);
      assert p == [p[0]] + p[1..];
    }
  }

  lemma {:induction false} ValueOfDecimal(n: nat, max: nat)
    requires n <= max
    ensures DigitsValue(Decimal(n), max) == Some(n)
  {
    var s := Decimal(n);
    var last := |s| - 1;
    if n < 10 {
      assert s[..last] == "";
    } else {
      ValueOfDecimal(n / 10, max);
      assert s[..last] == Decimal(n / 10);
    }
    assert DigitValue(s[last]) == n % 10;
  }

  /** The decimal form of a port stands for it. */
  lemma PortOfDecimal(port: Port)
    ensures PortOf(Decimal(port)) == Some(port)
  {
    var s := Decimal(port);
    assert IsDigit(s[0]) && IsDigit(s[|s| - 1]);
    ValueOfDecimal(port, INT_MAX);
  }

  /** A space, or a tab, newline, vertical tab, form feed or carriage return. */
  ghost predicate IsBlankChar(c: char) {
    c == ' ' || c == '\t' || c == '\n' || c as int == 11 || c as int == 12 || c == '\r'
  }

  ghost predicate IsBlank(s: string) {
    forall i | 0 <= i < |s| :: IsBlankChar(s[i])
  }

  lemma BlankIff(c: char)
    ensures IsBlankChar(c) <==> IsWhitespace(c)
  {
  }

  lemma {:induction false} LeftTrimmed(a: string, s: string)
    requires IsBlank(a) && (s == "" || !IsBlankChar(s[0]))
    ensures TrimLeft(a + s) == s
  {
    if a == "" {
      assert a + s == s;
      if s != "" { BlankIff(s[0]); }
    } else {
      BlankIff(a[0]);
      assert (a + s)[1..] == a[1..] + s;
      LeftTrimmed(a[1..], s);
    }
  }

  lemma {:induction false} RightTrimmed(s: string, b: string)
    requires IsBlank(b) && (s == "" || !IsBlankChar(s[|s| - 1]))
    ensures TrimRight(s + b) == s
  {
    if b == "" {
      assert s + b == s;
      if s != "" { BlankIff(s[|s| - 1]); }
    } else {
      var last := |b| - 1;
      RightTrimmed(s, b[..last]);
      assert s + b == (s + b[..last]) + [b[last]];
      TrimRightStep(s + b, s + b[..last], b[last]);
    }
  }

  lemma TrimRightStep(s: string, head: string, c: char)
    requires s == head + [c] && IsBlankChar(c)
    ensures TrimRight(s) == TrimRight(head)
  {
    BlankIff(c);
    assert s[..|s| - 1] == head;
  }

  /** Blanks around a piece make no difference. */
  lemma PaddedPiece(a: string, s: string, b: string)
    requires IsBlank(a) && IsBlank(b) && s != "" && !IsBlankChar(s[0]) && !IsBlankChar(s[|s| - 1])
    ensures PortOf(a + s + b) == PortOf(s)
  {
    assert a + s + b == a + (s + b) && (s + b)[0] == s[0];
    LeftTrimmed(a, s + b);
    RightTrimmed(s, b);
    assert "" + s == s && s + "" == s;
    LeftTrimmed("", s);
    RightTrimmed(s, "");
  }

  lemma NotBlank(s: string)
    requires s != "" && (IsDigit(s[0]) || s[0] == '+' || s[0] == '-') && IsDigit(s[|s| - 1])
    ensures Trimmed(s) == s
  {
    assert "" + s == s && s + "" == s;
    LeftTrimmed("", s);
    RightTrimmed(s, "");
  }

  /** A number stands for the port it is, if it is one; a sign is no obstacle. */
  lemma NumberIsPort(n: nat)
    requires n < 0x8000_0000
    ensures PortOf(Decimal(n)) == if n <= 65535 then Some(n) else None
    ensures PortOf("+" + Decimal(n)) == if n <= 65535 then Some(n) else None
    ensures PortOf("-" + Decimal(n)) == if n == 0 then Some(0) else None
  {
    var s := Decimal(n);
    assert IsDigit(s[0]) && IsDigit(s[|s| - 1]);
    NotBlank(s);
    NotBlank("+" + s);
    NotBlank("-" + s);
    ValueOfDecimal(n, INT_MAX);
    ValueOfDecimal(n, INT_MAX + 1);
    assert ("+" + s)[1..] == s && ("-" + s)[1..] == s;
  }

  lemma {:induction false} NoValue(s: string, i: nat, max: nat)
    requires i < |s| && !('0' <= s[i] <= '9')
    ensures DigitsValue(s, max).None?
  {
    var last := |s| - 1;
    if i < last { NoValue(s[..last], i, max); }
  }

  /** Anything else in it makes a piece no port. */
  lemma OtherCharactersAreNoPort(piece: string, i: nat)
    requires i < |Trimmed(piece)| && !('0' <= Trimmed(piece)[i] <= '9')
    requires i == 0 ==> Trimmed(piece)[0] != '+' && Trimmed(piece)[0] != '-'
    ensures PortOf(piece).None?
  {
    var s := Trimmed(piece);
    if s[0] == '-' {
      NoValue(s[1..], i - 1, INT_MAX + 1);
    } else if s[0] == '+' {
      NoValue(s[1..], i - 1, INT_MAX);
    } else {
      NoValue(s, i, INT_MAX);
    }
  }

  lemma {:induction false} PortsOfPrinted(ports: seq<Port>)
    ensures PortsOf(Printed(ports)) == ports && |Printed(ports)| == |ports|
    ensures forall p | p in Printed(ports) :: ',' !in p
  {
    if ports != [] {
      PortsOfPrinted(ports[1..]);
      PortOfDecimal(ports[0]);
      assert Printed(ports)[1..] == Printed(ports[1..]);
      assert ports == [ports[0]] + ports[1..];
    }
  }

  /** Any list of ports, printed in decimal with commas between, is read back as it was. */
  lemma RoundTrip(ports: seq<Port>)
    ensures PortsOf(SplitAt(JoinWith(Printed(ports), ','), ',')) == ports
  {
    PortsOfPrinted(ports);
    if ports == [] {
      assert SplitAt("", ',') == [""] && PortsOf([""][1..]) == [];
    } else {
      SplitOfJoined(Printed(ports), ',');
    }
  }
}
