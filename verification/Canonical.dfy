/** The text that is hashed for a stylesheet or a list of selectors, in
    components/adblock_comparison/libadblockplus_reference_database.cc, and the stylesheet that
    verify_flatbuffer_adblocking.cc builds from selectors. Two outputs count as the same if these
    texts have the same hash, so the texts have to tell apart exactly what should be told apart. */
module Canonical {
  // ----- The order of strings -----

  predicate Less(a: string, b: string) {
    b != "" && (a == "" || a[0] < b[0] || (a[0] == b[0] && Less(a[1..], b[1..])))
  }

  lemma {:induction false} LessIsTotal(a: string, b: string)
    ensures Less(a, b) || a == b || Less(b, a)
  {
    if a != "" && b != "" && a[0] == b[0] {
      LessIsTotal(a[1..], b[1..]);
      assert a == [a[0]] + a[1..] && b == [b[0]] + b[1..];
    }
  }

  lemma {:induction false} LessIsTransitive(a: string, b: string, c: string)
    requires Less(a, b) && Less(b, c)
    ensures Less(a, c)
  {
    if a != "" && a[0] == b[0] == c[0] {
      LessIsTransitive(a[1..], b[1..], c[1..]);
    }
  }

  lemma {:induction false} LessIsIrreflexive(a: string)
    ensures !Less(a, a)
  {
    if a != "" { LessIsIrreflexive(a[1..]); }
  }

  predicate AtMost(a: string, b: string) {
    a == b || Less(a, b)
  }

  predicate Sorted(v: seq<string>) {
    forall i, j :: 0 <= i < j < |v| ==> AtMost(v[i], v[j])
  }

  predicate StrictlySorted(v: seq<string>) {
    forall i, j :: 0 <= i < j < |v| ==> Less(v[i], v[j])
  }

  ghost function Elements(v: seq<string>): set<string> {
    set x | x in v
  }

  /** A set of strings has one strictly sorted listing. */
  lemma {:induction false} SortedListingIsUnique(v: seq<string>, w: seq<string>)
    requires StrictlySorted(v) && StrictlySorted(w) && Elements(v) == Elements(w)
    ensures v == w
    decreases |v|
  {
    if v == [] {
      NonEmptyHasElements(w);
    } else {
      assert v[0] in Elements(w);
      assert w != [] && w[0] in Elements(v);
      FirstIsLeast(v, w[0]);
      FirstIsLeast(w, v[0]);
      if v[0] != w[0] {
        LessIsTransitive(v[0], w[0], v[0]);
        LessIsIrreflexive(v[0]);
      }
      ElementsOfTail(v);
      ElementsOfTail(w);
      SortedListingIsUnique(v[1..], w[1..]);
    }
  }

  lemma NonEmptyHasElements(v: seq<string>)
    ensures v != [] ==> Elements(v) != {}
  {
    if v != [] { assert v[0] in Elements(v); }
  }

  lemma FirstIsLeast(v: seq<string>, x: string)
    requires StrictlySorted(v) && x in v
    ensures AtMost(v[0], x)
  {
  }

  lemma ElementsOfTail(v: seq<string>)
    requires StrictlySorted(v) && v != []
    ensures Elements(v[1..]) == Elements(v) - {v[0]}
  {
    LessIsIrreflexive(v[0]);
    assert v == [v[0]] + v[1..];
    assert forall x :: x in v <==> x == v[0] || x in v[1..];
    assert forall x | x in v[1..] :: Less(v[0], x);
  }

  /** Two sorted listings of the same strings, counted, are equal. */
  lemma {:induction false} SortedOrderIsUnique(v: seq<string>, w: seq<string>)
    requires Sorted(v) && Sorted(w) && multiset(v) == multiset(w)
    ensures v == w
    decreases |v|
  {
    assert |v| == |multiset(v)| == |multiset(w)| == |w|;
    if v != [] {
      assert v[0] in multiset(w) && w[0] in multiset(v);
      assert AtMost(v[0], w[0]) && AtMost(w[0], v[0]);
      if v[0] != w[0] {
        LessIsTransitive(v[0], w[0], v[0]);
        LessIsIrreflexive(v[0]);
      }
      assert v == [v[0]] + v[1..] && w == [w[0]] + w[1..];
      assert multiset(v[1..]) == multiset(v) - multiset{v[0]};
      assert multiset(w[1..]) == multiset(w) - multiset{w[0]};
      SortedOrderIsUnique(v[1..], w[1..]);
    }
  }

  // ----- Splitting and joining -----

  /** A comma, a space or a newline. */
  predicate Separates(c: char) {
    c in ", \n"
  }

  predicate IsPiece(w: string) {
    forall i :: 0 <= i < |w| ==> !Separates(w[i])
  }

  function FirstSplit(s: string, from: nat): (n: nat)
    requires from <= |s|
    ensures from <= n <= |s|
    ensures forall i :: from <= i < n ==> !Separates(s[i])
    ensures n < |s| ==> Separates(s[n])
    decreases |s| - from
  {
    if from < |s| && !Separates(s[from]) then FirstSplit(s, from + 1) else from
  }

  /** The pieces between the split characters, kept as they are, empty ones included. */
  function Split(s: string): (v: seq<string>)
    ensures v != []
  {
    if s == "" then [""]
    else
      var rest := Split(s[1..]);
      if s[0] == ',' || s[0] == ' ' || s[0] == '\n' then [""] + rest else [[s[0]] + rest[0]] + rest[1..]
  }

  lemma {:induction false} SplitOfPiece(w: string)
    requires IsPiece(w)
    ensures Split(w) == [w]
  {
    if w != "" {
      SplitOfPiece(w[1..]);
      assert w == [w[0]] + w[1..];
    }
  }

  /** Splitting distributes over a split character. */
  lemma {:induction false} SplitAtChar(a: string, c: char, b: string)
    requires Separates(c)
    ensures Split(a + [c] + b) == Split(a) + Split(b)
  {
    var s := a + [c] + b;
    if a == "" {
      assert s[0] == c && s[1..] == b;
    } else {
      assert s[0] == a[0] && s[1..] == a[1..] + [c] + b;
      SplitAtChar(a[1..], c, b);
    }
  }

  /** The pieces are the text before the first split character and the pieces behind it. */
  lemma SplitByFirst(s: string, n: nat)
    requires n == FirstSplit(s, 0)
    ensures IsPiece(s[..n])
    ensures n == |s| ==> Split(s) == [s]
    ensures n < |s| ==> Split(s) == [s[..n]] + Split(s[n + 1..])
  {
    if n == |s| {
      SplitOfPiece(s);
    } else {
      CutAt(s, n);
      SplitOfParts(s, s[..n], s[n], s[n + 1..]);
    }
  }

  lemma CutAt(s: string, n: nat)
    requires n < |s|
    ensures s == s[..n] + [s[n]] + s[n + 1..]
  {
  }

  lemma SplitOfParts(s: string, a: string, c: char, b: string)
    requires s == a + [c] + b && IsPiece(a) && Separates(c)
    ensures Split(s) == [a] + Split(b)
  {
    SplitAtChar(a, c, b);
    SplitOfPiece(a);
  }

  /** `w` stands in `s` from `a` to `b`, without a split character in it and with nothing else next to it. */
  predicate IsStretchOf(s: string, w: string, a: nat, b: nat) {
    && a <= b <= |s| && w == s[a..b] && IsPiece(w)
    && (a == 0 || Separates(s[a - 1])) && (b == |s| || Separates(s[b]))
  }

  ghost predicate HasStretch(s: string, w: string) {
    exists a: nat, b: nat :: IsStretchOf(s, w, a, b)
  }

  lemma {:induction false} PiecesAreStretches(s: string, w: string)
    ensures w in Split(s) <==> HasStretch(s, w)
    decreases |s|
  {
    var n := FirstSplit(s, 0);
    SplitByFirst(s, n);
    if n < |s| {
      PiecesAreStretches(s[n + 1..], w);
      StretchesBehind(s, n, w);
    } else {
      assert s[..n] == s && IsStretchOf(s, s, 0, n);
      if a: nat, b: nat :| IsStretchOf(s, w, a, b) { FirstStretchOrBehind(s, n, w, a, b); }
    }
  }

  lemma FirstStretchOrBehind(s: string, n: nat, w: string, a: nat, b: nat)
    requires n <= |s| && IsPiece(s[..n]) && (n < |s| ==> Separates(s[n])) && IsStretchOf(s, w, a, b)
    ensures (a == 0 && w == s[..n]) || n < a
  {
    assert forall i :: a <= i < b ==> s[i] == w[i - a];
    assert forall i :: 0 <= i < n ==> s[i] == s[..n][i];
  }

  /** A stretch behind the split character at `n` is one of the rest, shifted. */
  lemma ShiftedStretch(s: string, t: string, w: string, n: nat, a: nat, b: nat)
    requires n < |s| && Separates(s[n]) && t == s[n + 1..]
    ensures IsStretchOf(t, w, a, b) <==> IsStretchOf(s, w, a + n + 1, b + n + 1)
  {
    if a <= b && b + n + 1 <= |s| {
      assert t[a..b] == s[a + n + 1..b + n + 1];
    }
  }

  lemma StretchesBehind(s: string, n: nat, w: string)
    requires n < |s| && IsPiece(s[..n]) && Separates(s[n])
    ensures HasStretch(s, w) <==> w == s[..n] || HasStretch(s[n + 1..], w)
  {
    var t := s[n + 1..];
    if HasStretch(t, w) {
      var a: nat, b: nat :| IsStretchOf(t, w, a, b);
      ShiftedStretch(s, t, w, n, a, b);
    }
    if HasStretch(s, w) {
      var a: nat, b: nat :| IsStretchOf(s, w, a, b);
      FirstStretchOrBehind(s, n, w, a, b);
      if a != 0 {
        ShiftedStretch(s, t, w, n, a - n - 1, b - n - 1);
      }
    }
    if w == s[..n] {
      assert IsStretchOf(s, w, 0, n);
    }
  }

  lemma PiecesHaveNoSplitChar(s: string)
    ensures forall w | w in Split(s) :: IsPiece(w)
  {
    forall w | w in Split(s)
      ensures IsPiece(w)
    {
      PiecesAreStretches(s, w);
    }
  }

  function Join(v: seq<string>, separator: string): string {
    if v == [] then ""
    else if |v| == 1 then v[0]
    else v[0] + separator + Join(v[1..], separator)
  }

  /** Joining pieces with a space loses nothing: splitting gives them back. */
  lemma {:induction false} SplitOfJoin(v: seq<string>)
    requires v != [] && forall w | w in v :: IsPiece(w)
    ensures Split(Join(v, " ")) == v
  {
    SplitOfPiece(v[0]);
    if |v| == 1 {
      assert v == [v[0]];
    } else {
      assert v[0] + " " + Join(v[1..], " ") == v[0] + [' '] + Join(v[1..], " ");
      SplitAtChar(v[0], ' ', Join(v[1..], " "));
      assert forall w | w in v[1..] :: w in v;
      SplitOfJoin(v[1..]);
    }
  }

  // ----- Sorting -----

  function InsertInto(v: seq<string>, x: string): seq<string> {
    if v == [] then [x]
    else if AtMost(x, v[0]) then [x] + v
    else [v[0]] + InsertInto(v[1..], x)
  }

  predicate AllAtLeast(v: seq<string>, x: string) {
    forall k :: 0 <= k < |v| ==> AtMost(x, v[k])
  }

  lemma SortedHead(v: seq<string>, x: string)
    requires Sorted(v) && (v != [] ==> AtMost(x, v[0]))
    ensures AllAtLeast(v, x) && Sorted([x] + v)
  {
    forall k | 0 <= k < |v|
      ensures AtMost(x, v[k])
    {
      if Less(x, v[0]) && Less(v[0], v[k]) { LessIsTransitive(x, v[0], v[k]); }
    }
  }

  lemma {:induction false} InsertIntoSorted(v: seq<string>, x: string)
    requires Sorted(v)
    ensures Sorted(InsertInto(v, x)) && multiset(InsertInto(v, x)) == multiset(v) + multiset{x}
    decreases |v|
  {
    if v != [] {
      LessIsTotal(x, v[0]);
      assert v == [v[0]] + v[1..];
      if AtMost(x, v[0]) {
        SortedHead(v, x);
      } else {
        InsertIntoSorted(v[1..], x);
        SortedHead(InsertInto(v[1..], x), v[0]);
      }
    }
  }

  /** The strings of a list in order, as often as they are in it. */
  function SortedList(v: seq<string>): (r: seq<string>)
    ensures Sorted(r) && multiset(r) == multiset(v)
  {
    if v == [] then []
    else
      assert v == [v[0]] + v[1..];
      InsertIntoSorted(SortedList(v[1..]), v[0]);
      InsertInto(SortedList(v[1..]), v[0])
  }

  /** A sorted list without the repetitions. */
  function WithoutRepetitions(v: seq<string>): (r: seq<string>)
    requires Sorted(v)
    ensures StrictlySorted(r) && Elements(r) == Elements(v)
    ensures v != [] ==> r != [] && r[0] == v[0]
  {
    if v == [] then []
    else
      var r := WithoutRepetitions(v[1..]);
      assert Elements(v) == {v[0]} + Elements(v[1..]) by { assert v == [v[0]] + v[1..]; }
      if r != [] && r[0] == v[0] then r
      else
        assert forall k :: 0 <= k < |r| ==> Less(v[0], r[k]) by { BelowAll(v[0], r); }
        assert Elements([v[0]] + r) == {v[0]} + Elements(r);
        [v[0]] + r
  }

  lemma BelowAll(x: string, r: seq<string>)
    requires StrictlySorted(r) && (r != [] ==> Less(x, r[0]))
    ensures forall k :: 0 <= k < |r| ==> Less(x, r[k])
  {
    forall k | 0 < k < |r|
      ensures Less(x, r[k])
    {
      LessIsTransitive(x, r[0], r[k]);
    }
  }

  // ----- The text of a stylesheet -----

  /** The pieces of a stylesheet, without order and repetition. */
  ghost function PieceSet(css: string): set<string> {
    Elements(Split(css))
  }

  /** The pieces once each, in order, separated by spaces. */
  function CanonicalText(css: string): string {
    Join(WithoutRepetitions(SortedList(Split(css))), " ")
  }

  lemma SameElements(v: seq<string>, w: seq<string>)
    requires multiset(v) == multiset(w)
    ensures Elements(v) == Elements(w)
  {
    assert forall x :: x in v <==> x in multiset(v);
    assert forall x :: x in w <==> x in multiset(w);
  }

  lemma CanonicalPieces(css: string)
    ensures var v := WithoutRepetitions(SortedList(Split(css)));
            Elements(v) == PieceSet(css) && Split(CanonicalText(css)) == v
  {
    var v := WithoutRepetitions(SortedList(Split(css)));
    SameElements(SortedList(Split(css)), Split(css));
    PiecesHaveNoSplitChar(css);
    assert Split(css)[0] in Elements(v);
    forall w | w in v
      ensures IsPiece(w)
    {
      assert w in PieceSet(css);
    }
    SplitOfJoin(v);
  }

  /** Two stylesheets have the same text to hash exactly if they have the same pieces. */
  lemma SameTextIffSamePieces(css: string, css': string)
    ensures CanonicalText(css) == CanonicalText(css') <==> PieceSet(css) == PieceSet(css')
  {
    CanonicalPieces(css);
    CanonicalPieces(css');
    if PieceSet(css) == PieceSet(css') {
      SortedListingIsUnique(WithoutRepetitions(SortedList(Split(css))), WithoutRepetitions(SortedList(Split(css'))));
    }
  }

  /** It is the strictly sorted listing of the pieces, put together with spaces. */
  lemma CanonicalTextIs(css: string, v: seq<string>)
    requires StrictlySorted(v) && Elements(v) == PieceSet(css)
    ensures CanonicalText(css) == Join(v, " ")
  {
    CanonicalPieces(css);
    SortedListingIsUnique(v, WithoutRepetitions(SortedList(Split(css))));
  }

  // ----- The code -----

  /** An unsigned integer of 32 bits. */
  type Word32 = w: int | 0 <= w < 0x1_0000_0000

  type Hash = string -> Word32

  method Sort(v: seq<string>) returns (r: seq<string>)
    ensures Sorted(r) && multiset(r) == multiset(v)
  {
    r := [];
    for n := 0 to |v|
      invariant Sorted(r) && multiset(r) == multiset(v[..n])
    {
      var x := v[n];
      var i := |r|;
      while 0 < i && Less(x, r[i - 1])
        invariant 0 <= i <= |r|
        invariant forall k :: i <= k < |r| ==> Less(x, r[k])
      {
        i := i - 1;
      }
      InsertKeepsOrder(r, x, i);
      assert r == r[..i] + r[i..] && v[..n + 1] == v[..n] + [x];
      r := r[..i] + [x] + r[i..];
    }
    assert v[..|v|] == v;
  }

  lemma InsertKeepsOrder(r: seq<string>, x: string, i: nat)
    requires Sorted(r) && i <= |r|
    requires forall k :: i <= k < |r| ==> Less(x, r[k])
    requires 0 < i ==> !Less(x, r[i - 1])
    ensures Sorted(r[..i] + [x] + r[i..])
  {
    forall k | 0 <= k < i
      ensures AtMost(r[k], x)
    {
      LessIsTotal(x, r[i - 1]);
      if k < i - 1 && r[k] != r[i - 1] && r[i - 1] != x {
        LessIsTransitive(r[k], r[i - 1], x);
      }
    }
  }

  /** Keeps the first of every group of equal neighbours. */
  method EraseEqualNeighbours(v: seq<string>) returns (r: seq<string>)
    requires Sorted(v)
    ensures StrictlySorted(r) && Elements(r) == Elements(v)
  {
    r := [];
    for n := 0 to |v|
      invariant StrictlySorted(r) && Elements(r) == Elements(v[..n])
      invariant r == [] <==> n == 0
      invariant 0 < n ==> r[|r| - 1] == v[n - 1]
    {
      assert Elements(v[..n + 1]) == Elements(v[..n]) + {v[n]};
      if r == [] || r[|r| - 1] != v[n] {
        forall k | 0 <= k < |r|
          ensures Less(r[k], v[n])
        {
          assert AtMost(v[n - 1], v[n]);
          if k < |r| - 1 { LessIsTransitive(r[k], v[n - 1], v[n]); }
        }
        assert Elements(r + [v[n]]) == Elements(r) + {v[n]};
        r := r + [v[n]];
      } else {
        assert v[n] in Elements(r);
      }
    }
    assert v[..|v|] == v;
  }

  function StylesheetHash(css: string, hash: Hash): int {
    if css == "" then -1 else hash(CanonicalText(css))
  }

  method ComputeStylesheetHash(css: string, hash: Hash) returns (h: int)
    ensures h == StylesheetHash(css, hash)
  {
    if css == "" {
      return -1;
    }
    var split := Split(css);
    split := Sort(split);
    SortedOrderIsUnique(split, SortedList(Split(css)));
    split := EraseEqualNeighbours(split);
    SortedListingIsUnique(split, WithoutRepetitions(SortedList(Split(css))));
    return hash(Join(split, " "));
  }

  // ----- The text of a selector list -----

  /** All selectors, in order, separated by spaces. */
  function SelectorText(selectors: seq<string>): string {
    Join(SortedList(selectors), " ")
  }

  function SelectorsHash(selectors: seq<string>, hash: Hash): int {
    if selectors == [] then -1 else hash(SelectorText(selectors))
  }

  method ComputeSelectorsHash(selectors: seq<string>, hash: Hash) returns (h: int)
    ensures h == SelectorsHash(selectors, hash)
  {
    if selectors == [] {
      return -1;
    }
    var v := Sort(selectors);
    SortedOrderIsUnique(v, SortedList(selectors));
    return hash(Join(v, " "));
  }

  /** The words of a text, split at every single space. */
  function Words(s: string): (v: seq<string>)
    ensures v != []
  {
    if s == "" then [""]
    else
      var rest := Words(s[1..]);
      if s[0] == ' ' then [""] + rest else [[s[0]] + rest[0]] + rest[1..]
  }

  /** The words of all texts, one after the other. */
  function Flat(v: seq<string>): seq<string> {
    if v == [] then [] else Words(v[0]) + Flat(v[1..])
  }

  lemma {:induction false} WordsAtSpace(a: string, b: string)
    ensures Words(a + [' '] + b) == Words(a) + Words(b)
  {
    var s := a + [' '] + b;
    if a == "" {
      assert s[0] == ' ' && s[1..] == b;
    } else {
      assert s[0] == a[0] && s[1..] == a[1..] + [' '] + b;
      WordsAtSpace(a[1..], b);
    }
  }

  lemma {:induction false} WordsOfJoin(v: seq<string>)
    requires v != []
    ensures Words(Join(v, " ")) == Flat(v)
  {
    if |v| == 1 {
      assert Flat(v[1..]) == [];
    } else {
      assert v[0] + " " + Join(v[1..], " ") == v[0] + [' '] + Join(v[1..], " ");
      WordsAtSpace(v[0], Join(v[1..], " "));
      WordsOfJoin(v[1..]);
    }
  }

  lemma JoinWithFirst(c: char, v: seq<string>)
    requires v != []
    ensures Join([[c] + v[0]] + v[1..], " ") == [c] + Join(v, " ")
    ensures Join([""] + v, " ") == " " + Join(v, " ")
  {
    var w := [[c] + v[0]] + v[1..];
    assert w[1..] == v[1..] && ([""] + v)[1..] == v;
    assert [c] + v[0] + " " + Join(v[1..], " ") == [c] + (v[0] + " " + Join(v[1..], " "));
    assert "" + " " + Join(v, " ") == " " + Join(v, " ");
  }

  lemma {:induction false} JoinOfWords(s: string)
    ensures Join(Words(s), " ") == s
  {
    if s != "" {
      JoinOfWords(s[1..]);
      JoinWithFirst(s[0], Words(s[1..]));
      assert s == [s[0]] + s[1..];
    }
  }

  /** Two selector lists have the same text exactly if their sorted selectors, put one behind the
      other, have the same words. */
  lemma SameSelectorTextIff(a: seq<string>, b: seq<string>)
    requires a != [] && b != []
    ensures SelectorText(a) == SelectorText(b) <==> Flat(SortedList(a)) == Flat(SortedList(b))
  {
    SortedIsNotEmpty(a);
    SortedIsNotEmpty(b);
    WordsOfJoin(SortedList(a));
    WordsOfJoin(SortedList(b));
    JoinOfWords(SelectorText(a));
    JoinOfWords(SelectorText(b));
  }

  lemma SortedIsNotEmpty(v: seq<string>)
    requires v != []
    ensures SortedList(v) != []
  {
    assert v[0] in multiset(SortedList(v));
  }

  lemma {:induction false} FlatOfWords(v: seq<string>)
    requires forall w | w in v :: ' ' !in w
    ensures Flat(v) == v
  {
    if v != [] {
      OneWord(v[0]);
      FlatOfWords(v[1..]);
      assert v == [v[0]] + v[1..];
    }
  }

  lemma {:induction false} OneWord(w: string)
    requires ' ' !in w
    ensures Words(w) == [w]
  {
    if w != "" {
      OneWord(w[1..]);
      assert w == [w[0]] + w[1..];
    }
  }

  /** Selector lists with the same selectors, each as often, have the same text; the converse holds
      for selectors without spaces. */
  lemma SameTextIfSameSelectors(a: seq<string>, b: seq<string>)
    ensures multiset(a) == multiset(b) ==> SelectorText(a) == SelectorText(b)
    ensures a != [] && b != [] && (forall w | w in a + b :: ' ' !in w) && SelectorText(a) == SelectorText(b) ==>
              multiset(a) == multiset(b)
  {
    if multiset(a) == multiset(b) {
      SortedOrderIsUnique(SortedList(a), SortedList(b));
    }
    if a != [] && b != [] && forall w | w in a + b :: ' ' !in w {
      SameSelectorTextIff(a, b);
      FlatOfSorted(a, a + b);
      FlatOfSorted(b, a + b);
    }
  }

  lemma FlatOfSorted(a: seq<string>, all: seq<string>)
    requires (forall w | w in a :: w in all) && forall w | w in all :: ' ' !in w
    ensures Flat(SortedList(a)) == SortedList(a)
  {
    forall w | w in SortedList(a)
      ensures ' ' !in w
    {
      assert w in multiset(SortedList(a));
    }
    FlatOfWords(SortedList(a));
  }

  /** With spaces it fails: the selector "a b" and the selectors "a" and "b" have the same text. */
  lemma SelectorsWithSpaces(a: seq<string>, b: seq<string>)
    requires a == ["a b"] && b == ["a", "b"]
    ensures SelectorText(a) == SelectorText(b) && multiset(a) != multiset(b)
  {
    assert Join(a, " ") == "a b";
    assert b[1..] == ["b"] && Join(b, " ") == "a" + " " + "b" == "a b";
    assert Less("a", "b");
    assert Sorted(a) && Sorted(b);
    SortedOrderIsUnique(a, SortedList(a));
    SortedOrderIsUnique(b, SortedList(b));
    assert "b" in multiset(b) && "b" !in multiset(a);
  }

  // ----- The stylesheet built from selectors -----

  const PROPERTY := "{display:"
  const VALUE := "none"
  const PRIORITY := "!important;}"
  const DECLARATION := " " + PROPERTY + " " + VALUE + " " + PRIORITY + "\n"

  function Stylesheet(selectors: seq<string>): string {
    if |selectors| == 0 then "" else Join(selectors, ", ") + DECLARATION
  }

  ghost function PiecesOfAll(selectors: seq<string>): set<string> {
    set s, w | s in selectors && w in Split(s) :: w
  }

  /** The pieces every stylesheet ends with; the last of them is the empty one. */
  ghost function DeclarationPieces(): set<string> {
    {"{display:", "none", "!important;}", ""}
  }

  lemma SplitOfThree(a: string, b: string, c: string, d: string)
    requires IsPiece(a) && IsPiece(b) && IsPiece(c) && d == a + [' '] + (b + [' '] + (c + ['\n'] + ""))
    ensures Elements(Split(d)) == {a, b, c, ""}
  {
    SplitAtChar(a, ' ', b + [' '] + (c + ['\n'] + ""));
    SplitAtChar(b, ' ', c + ['\n'] + "");
    SplitAtChar(c, '\n', "");
    SplitOfPiece(a);
    SplitOfPiece(b);
    SplitOfPiece(c);
    SplitOfPiece("");
    assert Split(d) == [a, b, c, ""];
  }

  function DeclarationText(): (d: string)
    ensures DECLARATION == [' '] + d
  {
    PROPERTY + [' '] + (VALUE + [' '] + (PRIORITY + ['\n'] + ""))
  }

  lemma Declaration()
    ensures Elements(Split(DeclarationText())) == DeclarationPieces()
  {
    assert IsPiece(PROPERTY) && IsPiece(VALUE) && IsPiece(PRIORITY);
    SplitOfThree(PROPERTY, VALUE, PRIORITY, DeclarationText());
  }

  /** The selectors joined, and what follows them. */
  function Declared(selectors: seq<string>, d: string): string {
    Join(selectors, ", ") + ([' '] + d)
  }

  lemma DeclaredOne(selectors: seq<string>, d: string)
    requires |selectors| == 1
    ensures Declared(selectors, d) == selectors[0] + [' '] + d
  {
  }

  lemma DeclaredMore(selectors: seq<string>, d: string)
    requires |selectors| > 1
    ensures Declared(selectors, d) == selectors[0] + ", " + Declared(selectors[1..], d)
  {
    var first, rest, tail := selectors[0], Join(selectors[1..], ", "), [' '] + d;
    assert first + ", " + rest + tail == first + ", " + (rest + tail);
  }

  lemma {:induction false} PiecesBeforeDeclaration(selectors: seq<string>, d: string)
    requires selectors != [] && "" in Split(d)
    ensures PieceSet(Declared(selectors, d)) == PiecesOfAll(selectors) + Elements(Split(d))
    decreases |selectors|
  {
    var first := selectors[0];
    PiecesOfFirst(selectors);
    if |selectors| == 1 {
      DeclaredOne(selectors, d);
      SplitAtChar(first, ' ', d);
    } else {
      DeclaredMore(selectors, d);
      PiecesAtComma(first, Declared(selectors[1..], d));
      PiecesBeforeDeclaration(selectors[1..], d);
    }
  }

  lemma PiecesOfFirst(selectors: seq<string>)
    requires selectors != []
    ensures PiecesOfAll(selectors) == Elements(Split(selectors[0])) + PiecesOfAll(selectors[1..])
  {
    assert selectors == [selectors[0]] + selectors[1..];
  }

  lemma PiecesAtComma(a: string, b: string)
    ensures PieceSet(a + ", " + b) == PieceSet(a) + {""} + PieceSet(b)
  {
    var empty: string := "";
    assert a + ", " + b == a + [','] + (empty + [' '] + b);
    SplitAtChar(a, ',', empty + [' '] + b);
    SplitAtChar(empty, ' ', b);
    SplitOfPiece(empty);
  }

  lemma PiecesOfStylesheet(selectors: seq<string>)
    requires selectors != []
    ensures Stylesheet(selectors) != ""
    ensures PieceSet(Stylesheet(selectors)) == PiecesOfAll(selectors) + DeclarationPieces()
  {
    var d := DeclarationText();
    Declaration();
    assert "" in DeclarationPieces();
    PiecesBeforeDeclaration(selectors, d);
  }

  /** The text hashed for a built stylesheet does not depend on the order or the repetition of the
      selectors: it tells two lists apart exactly if their selectors' pieces differ, where the
      pieces every stylesheet has anyway do not count. */
  lemma StylesheetText(a: seq<string>, b: seq<string>)
    requires a != [] && b != []
    ensures CanonicalText(Stylesheet(a)) == CanonicalText(Stylesheet(b)) <==>
              PiecesOfAll(a) - DeclarationPieces() == PiecesOfAll(b) - DeclarationPieces()
    ensures Elements(a) == Elements(b) ==> CanonicalText(Stylesheet(a)) == CanonicalText(Stylesheet(b))
  {
    SameTextIffSamePieces(Stylesheet(a), Stylesheet(b));
    PiecesOfStylesheet(a);
    PiecesOfStylesheet(b);
    SameUpTo(PiecesOfAll(a), PiecesOfAll(b), DeclarationPieces());
    if Elements(a) == Elements(b) {
      SameSelectorsSamePieces(a, b);
    }
  }

  /** Just no selectors have no stylesheet and hence no hash. */
  lemma OnlyNoSelectorsHaveNoHash(selectors: seq<string>, hash: Hash)
    ensures Stylesheet(selectors) == "" <==> selectors == []
    ensures StylesheetHash(Stylesheet(selectors), hash) == -1 <==> selectors == []
  {
    if selectors != [] { PiecesOfStylesheet(selectors); }
  }

  lemma SameUpTo<T>(p: set<T>, q: set<T>, d: set<T>)
    ensures p + d == q + d <==> p - d == q - d
  {
    assert p - d == q - d ==> p + d == q + d by {
      assert p + d == (p - d) + d && q + d == (q - d) + d;
    }
    assert p + d == q + d ==> p - d == q - d by {
      assert p - d == (p + d) - d && q - d == (q + d) - d;
    }
  }

  lemma SameSelectorsSamePieces(a: seq<string>, b: seq<string>)
    requires Elements(a) == Elements(b)
    ensures PiecesOfAll(a) == PiecesOfAll(b)
  {
    assert forall s :: s in a <==> s in Elements(a);
    assert forall s :: s in b <==> s in Elements(b);
  }
}
