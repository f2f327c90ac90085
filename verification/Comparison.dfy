/** The differential test of an ad-blocking implementation: the reference results stored by
    components/adblock_comparison/libadblockplus_reference_database.cc, their comparison with a
    tested implementation, and the parallel run of it in verify_flatbuffer_adblocking.cc. */
module Comparison {
  import opened Text
  import opened Canonical

  datatype Request = Request(lineNumber: int, url: string, contentType: int, domain: string)

  datatype ElemhideResults = ElemhideResults(css: string, emuSelectors: seq<string>, snippets: string)

  /** The two callbacks of an implementation, and the hash function. */
  datatype Implementation = Implementation(blocks: Request -> bool, elemhide: Request -> ElemhideResults)

  datatype MismatchType = UrlFilterMatch | ElemhideCss | ElemhideEmuSelectors | Snippets

  const SUBDOCUMENT_CONTENT_TYPE := 32
  const LAST_CONTENT_TYPE := 32768

  datatype Row = Row(id: int, url: string, contentType: int, domain: string, shouldBlock: bool,
                     cssHash: Option<int>, selectorsHash: Option<int>, snippetsHash: Option<int>)

  /** Reading an integer from a column that holds none yields zero. */
  function ColumnInt64(column: Option<int>): int {
    if column.Some? then column.value else 0
  }

  // ----- Reading the requests -----

  /** A line of the input, or none if it is malformed. */
  type Line = Option<Request>

  /** The requests before the first malformed line, numbered from `from`. */
  function Requests(lines: seq<Line>, from: int): seq<Request> {
    if lines == [] || lines[0].None? then []
    else [lines[0].value.(lineNumber := from)] + Requests(lines[1..], from + 1)
  }

  class TestRequestReader {
    var lines: seq<Line>
    var currentLineNumber: int

    constructor Open(lines: seq<Line>)
      ensures this.lines == lines && currentLineNumber == 1
    {
      this.lines := lines;
      currentLineNumber := 1;
    }

    ghost function Remaining(): seq<Request>
      reads this
    {
      Requests(lines, currentLineNumber)
    }

    method GetNextRequest() returns (r: Option<Request>)
      modifies this
      ensures r.None? ==> old(Remaining()) == [] && currentLineNumber == old(currentLineNumber)
      ensures r.Some? ==> old(Remaining()) == [r.value] + Remaining()
      ensures r.Some? ==>
                r.value.lineNumber == old(currentLineNumber) && currentLineNumber == old(currentLineNumber) + 1
      ensures r.Some? ==> |lines| < |old(lines)|
    {
      if lines == [] {
        return None;
      }
      var line := lines[0];
      if line.None? {
        lines := lines[1..];
        return None;
      }
      lines := lines[1..];
      r := Some(line.value.(lineNumber := currentLineNumber));
      currentLineNumber := currentLineNumber + 1;
    }
  }

  // ----- Storing -----

  function SnippetsHash(snippets: string, hash: Hash): int {
    if snippets == "" then -1 else hash(snippets)
  }

  /** The row that is stored for a request. */
  function StoredRow(r: Request, reference: Implementation, hash: Hash): Row {
    var row := Row(r.lineNumber, r.url, r.contentType, r.domain, reference.blocks(r), None, None, None);
    if r.contentType == SUBDOCUMENT_CONTENT_TYPE then
      var results := reference.elemhide(r);
      row.(cssHash := Some(StylesheetHash(results.css, hash)),
           selectorsHash := Some(SelectorsHash(results.emuSelectors, hash)),
           snippetsHash := Some(SnippetsHash(results.snippets, hash)))
    else row
  }

  /** Nothing is stored for a content type that is not a real one. */
  function RowsFor(r: Request, reference: Implementation, hash: Hash): seq<Row> {
    if r.contentType > LAST_CONTENT_TYPE then [] else [StoredRow(r, reference, hash)]
  }

  function StoredRows(requests: seq<Request>, reference: Implementation, hash: Hash): seq<Row> {
    if requests == [] then []
    else RowsFor(requests[0], reference, hash) + StoredRows(requests[1..], reference, hash)
  }

  /** The row is about the request: its verdict, and hashes of the outputs for a subdocument. */
  ghost predicate IsRowOf(row: Row, r: Request, reference: Implementation, hash: Hash) {
    && row.id == r.lineNumber && row.url == r.url && row.contentType == r.contentType && row.domain == r.domain
    && row.shouldBlock == reference.blocks(r)
    && (if r.contentType != 32 then row.cssHash.None? && row.selectorsHash.None? && row.snippetsHash.None?
        else
          var results := reference.elemhide(r);
          && row.cssHash == Some(if results.css == "" then -1 else hash(CanonicalText(results.css)))
          && row.selectorsHash ==
             Some(if results.emuSelectors == [] then -1 else hash(SelectorText(results.emuSelectors)))
          && row.snippetsHash == Some(if results.snippets == "" then -1 else hash(results.snippets)))
  }

  ghost predicate HasRow(rows: seq<Row>, r: Request, reference: Implementation, hash: Hash) {
    exists row :: row in rows && IsRowOf(row, r, reference, hash)
  }

  lemma {:induction false} StoredAt(requests: seq<Request>, reference: Implementation, hash: Hash, i: nat)
      returns (j: nat)
    requires i < |requests| && requests[i].contentType <= LAST_CONTENT_TYPE
    ensures j < |StoredRows(requests, reference, hash)|
    ensures StoredRows(requests, reference, hash)[j] == StoredRow(requests[i], reference, hash)
  {
    if i == 0 {
      j := 0;
    } else {
      var j' := StoredAt(requests[1..], reference, hash, i - 1);
      j := |RowsFor(requests[0], reference, hash)| + j';
    }
  }

  lemma AllHaveRows(requests: seq<Request>, reference: Implementation, hash: Hash)
    ensures forall r | r in requests && r.contentType <= 32768 ::
              HasRow(StoredRows(requests, reference, hash), r, reference, hash)
  {
    forall r | r in requests && r.contentType <= 32768
      ensures HasRow(StoredRows(requests, reference, hash), r, reference, hash)
    {
      var i: nat :| i < |requests| && requests[i] == r;
      var j := StoredAt(requests, reference, hash, i);
      assert IsRowOf(StoredRows(requests, reference, hash)[j], r, reference, hash);
    }
  }

  class ReferenceDatabase {
    var rows: seq<Row>

    constructor ()
      ensures rows == []
    {
      rows := [];
    }

    /** Ids are a primary key. */
    method Insert(row: Row)
      requires forall r | r in rows :: r.id != row.id
      modifies this
      ensures rows == old(rows) + [row]
    {
      rows := rows + [row];
    }

    /** Stores one request, unless its content type is not a real one. */
    method Store(r: Request, reference: Implementation, hash: Hash)
      requires forall row | row in rows :: row.id != r.lineNumber
      modifies this
      ensures rows == old(rows) + RowsFor(r, reference, hash)
      ensures if r.contentType > 32768 then rows == old(rows)
              else |rows| == |old(rows)| + 1 && IsRowOf(rows[|old(rows)|], r, reference, hash)
    {
      if r.contentType > LAST_CONTENT_TYPE {
        return;
      }
      var row := Row(r.lineNumber, r.url, r.contentType, r.domain, reference.blocks(r), None, None, None);
      if r.contentType == SUBDOCUMENT_CONTENT_TYPE {
        var results := reference.elemhide(r);
        var cssHash := ComputeStylesheetHash(results.css, hash);
        var selectorsHash := ComputeSelectorsHash(results.emuSelectors, hash);
        row := row.(cssHash := Some(cssHash), selectorsHash := Some(selectorsHash),
                    snippetsHash := Some(SnippetsHash(results.snippets, hash)));
      }
      Insert(row);
    }

    method StoreInputs(reader: TestRequestReader, reference: Implementation, hash: Hash)
      modifies this, reader
      ensures rows == StoredRows(old(reader.Remaining()), reference, hash)
      ensures IdsWithin(rows, old(reader.currentLineNumber), reader.currentLineNumber)
      ensures forall r | r in old(reader.Remaining()) && r.contentType <= 32768 ::
                HasRow(rows, r, reference, hash)
    {
      rows := [];
      ghost var target := StoredRows(reader.Remaining(), reference, hash);
      AllHaveRows(reader.Remaining(), reference, hash);
      ghost var first, end := reader.currentLineNumber, reader.currentLineNumber;
      var request := reader.GetNextRequest();
      while request.Some?
        invariant target == rows + StoredRows(Unstored(request, reader.Remaining()), reference, hash)
        invariant request.Some? ==> request.value.lineNumber == end && reader.currentLineNumber == end + 1
        invariant request.None? ==> reader.currentLineNumber == end
        invariant IdsWithin(rows, first, end)
        decreases request.Some?, |reader.lines|
      {
        StoredRowsOfFirst(rows, request.value, reader.Remaining(), reference, hash);
        OneMoreRow(rows, first, request.value, reference, hash);
        Store(request.value, reference, hash);
        end := end + 1;
        request := reader.GetNextRequest();
      }
    }
  }

  /** Ids increase from row to row and lie in the range. */
  ghost predicate IdsWithin(rows: seq<Row>, from: int, to: int) {
    && from <= to
    && (forall i | 0 <= i < |rows| :: from <= rows[i].id < to)
    && (forall i, j | 0 <= i < j < |rows| :: rows[i].id < rows[j].id)
  }

  /** The request just read, if any, and those behind it. */
  function Unstored(request: Option<Request>, rest: seq<Request>): seq<Request> {
    if request.Some? then [request.value] + rest else []
  }

  lemma OneMoreRow(rows: seq<Row>, from: int, r: Request, reference: Implementation, hash: Hash)
    requires IdsWithin(rows, from, r.lineNumber)
    ensures IdsWithin(rows + RowsFor(r, reference, hash), from, r.lineNumber + 1)
  {
  }

  lemma StoredRowsOfFirst(rows: seq<Row>, r: Request, rest: seq<Request>, reference: Implementation, hash: Hash)
    ensures rows + StoredRows([r] + rest, reference, hash) ==
            (rows + RowsFor(r, reference, hash)) + StoredRows(rest, reference, hash)
  {
    assert ([r] + rest)[1..] == rest;
  }

  // ----- Comparing -----

  function RequestOf(row: Row): Request {
    Request(row.id, row.url, row.contentType, row.domain)
  }

  function Reported(differs: bool, t: MismatchType): seq<MismatchType> {
    if differs then [t] else []
  }

  /** The mismatches that are reported for a row, in order. */
  function RowMismatches(row: Row, tested: Implementation, hash: Hash): seq<MismatchType> {
    Reported(tested.blocks(RequestOf(row)) != row.shouldBlock, UrlFilterMatch) + ElemhideMismatches(row, tested, hash)
  }

  function ElemhideMismatches(row: Row, tested: Implementation, hash: Hash): seq<MismatchType> {
    if row.contentType != SUBDOCUMENT_CONTENT_TYPE then []
    else
      var results := tested.elemhide(RequestOf(row));
      Reported(StylesheetHash(results.css, hash) != ColumnInt64(row.cssHash), ElemhideCss)
      + Reported(SelectorsHash(results.emuSelectors, hash) != ColumnInt64(row.selectorsHash), ElemhideEmuSelectors)
  }

  function AllMismatches(rows: seq<Row>, tested: Implementation, hash: Hash): seq<MismatchType> {
    if rows == [] then [] else RowMismatches(rows[0], tested, hash) + AllMismatches(rows[1..], tested, hash)
  }

  /** The remainder of the database's query: that of a division truncated toward zero. */
  function SqlRemainder(a: int, n: int): int
    requires 0 < n
  {
    if 0 <= a then a % n else -((-a) % n)
  }

  /** The rows a task selects. */
  function TaskRows(rows: seq<Row>, taskId: int, taskCount: int): seq<Row>
    requires 0 < taskCount
  {
    if rows == [] then []
    else
      (if SqlRemainder(rows[0].id, taskCount) == taskId then [rows[0]] else [])
      + TaskRows(rows[1..], taskId, taskCount)
  }

  // ----- Counting -----

  /** How often each type occurs; types that do not occur have no entry. */
  ghost function CountsOf(m: multiset<MismatchType>): map<MismatchType, int> {
    map t: MismatchType | t in m :: m[t]
  }

  class Verifier {
    var mismatchesCount: map<MismatchType, int>
    ghost var reported: multiset<MismatchType>

    ghost predicate Valid()
      reads this
    {
      mismatchesCount == CountsOf(reported)
    }

    constructor ()
      ensures Valid() && reported == multiset{}
    {
      mismatchesCount := map[];
      reported := multiset{};
    }

    method OnMismatchFound(t: MismatchType)
      requires Valid()
      modifies this
      ensures Valid() && reported == old(reported) + multiset{t}
    {
      mismatchesCount := mismatchesCount[t := (if t in mismatchesCount then mismatchesCount[t] else 0) + 1];
      reported := reported + multiset{t};
    }

    method VerifyMismatches() returns (exitValue: int)
      requires Valid()
      ensures exitValue == 0 || exitValue == 1
      ensures exitValue == 0 <==> reported == multiset{}
    {
      if reported != multiset{} {
        ghost var t :| t in reported;
        assert t in mismatchesCount;
      }
      return if mismatchesCount == map[] then 0 else 1;
    }

    method CompareRow(row: Row, tested: Implementation, hash: Hash)
      requires Valid()
      modifies this
      ensures Valid() && reported == old(reported) + multiset(RowMismatches(row, tested, hash))
    {
      if tested.blocks(RequestOf(row)) != row.shouldBlock {
        OnMismatchFound(UrlFilterMatch);
      }
      assert reported == old(reported)
          + multiset(Reported(tested.blocks(RequestOf(row)) != row.shouldBlock, UrlFilterMatch));
      if row.contentType == SUBDOCUMENT_CONTENT_TYPE {
        CompareElemhide(row, tested, hash);
      }
    }

    method CompareElemhide(row: Row, tested: Implementation, hash: Hash)
      requires Valid() && row.contentType == SUBDOCUMENT_CONTENT_TYPE
      modifies this
      ensures Valid() && reported == old(reported) + multiset(ElemhideMismatches(row, tested, hash))
    {
      var results := tested.elemhide(RequestOf(row));
      var cssHash := ComputeStylesheetHash(results.css, hash);
      if cssHash != ColumnInt64(row.cssHash) {
        OnMismatchFound(ElemhideCss);
      }
      var selectorsHash := ComputeSelectorsHash(results.emuSelectors, hash);
      if selectorsHash != ColumnInt64(row.selectorsHash) {
        OnMismatchFound(ElemhideEmuSelectors);
      }
    }

    /** One task alone, or one pass over all rows. */
    method CompareWithStatement(rows: seq<Row>, tested: Implementation, hash: Hash)
      requires Valid()
      modifies this
      ensures Valid() && reported == old(reported) + multiset(AllMismatches(rows, tested, hash))
    {
      for n := 0 to |rows|
        invariant Valid() && reported == old(reported) + multiset(AllMismatches(rows[..n], tested, hash))
      {
        CompareRow(rows[n], tested, hash);
        AllMismatchesUpTo(rows, n, tested, hash);
      }
      assert rows[..|rows|] == rows;
    }

    /** The thread pool: whenever a task has a mismatch to report, any such task may be the next to
        take the lock. */
    method RunPosted(posted: seq<seq<MismatchType>>)
      requires Valid()
      modifies this
      ensures Valid() && reported == old(reported) + Pending(posted)
    {
      var tasks := posted;
      while exists i :: 0 <= i < |tasks| && tasks[i] != []
        invariant Valid() && reported + Pending(tasks) == old(reported) + Pending(posted)
        decreases |Pending(tasks)|
      {
        var i :| 0 <= i < |tasks| && tasks[i] != [];
        PendingStep(tasks, i);
        OnMismatchFound(tasks[i][0]);
        tasks := tasks[i := tasks[i][1..]];
      }
      NothingPending(tasks);
    }

    static method PostTasks(rows: seq<Row>, tested: Implementation, hash: Hash, numberOfTasks: nat)
      returns (tasks: seq<seq<MismatchType>>)
      requires 1 <= numberOfTasks
      ensures tasks == Posted(rows, tested, hash, numberOfTasks, numberOfTasks)
    {
      tasks := [];
      for taskId := 0 to numberOfTasks
        invariant tasks == Posted(rows, tested, hash, taskId, numberOfTasks)
      {
        PostedOneMore(rows, tested, hash, taskId, numberOfTasks);
        tasks := tasks + [AllMismatches(TaskRows(rows, taskId, numberOfTasks), tested, hash)];
      }
    }

    /** The parallel run: a task for every id below the number of tasks. */
    method RunTest(rows: seq<Row>, tested: Implementation, hash: Hash, numberOfTasks: nat) returns (exitValue: int)
      requires Valid() && 1 <= numberOfTasks && reported == multiset{}
      modifies this
      ensures Valid() && reported == Bag(CoveredRows(rows, numberOfTasks), tested, hash)
      ensures exitValue == 0 || exitValue == 1
      ensures exitValue == 0 <==> AllMismatches(CoveredRows(rows, numberOfTasks), tested, hash) == []
    {
      var tasks := PostTasks(rows, tested, hash, numberOfTasks);
      RunPosted(tasks);
      PostedTotal(rows, tested, hash, numberOfTasks, numberOfTasks);
      exitValue := VerifyMismatches();
      EmptyBag(CoveredRows(rows, numberOfTasks), tested, hash);
    }
  }

  lemma EmptyBag(rows: seq<Row>, tested: Implementation, hash: Hash)
    ensures Bag(rows, tested, hash) == multiset{} <==> AllMismatches(rows, tested, hash) == []
  {
    var all := AllMismatches(rows, tested, hash);
    if all != [] { assert all[0] in multiset(all); }
  }

  // ----- Interleavings of the tasks -----

  /** What the tasks still have to report. */
  ghost function Pending(tasks: seq<seq<MismatchType>>): multiset<MismatchType> {
    if tasks == [] then multiset{} else multiset(tasks[0]) + Pending(tasks[1..])
  }

  lemma {:induction false} PendingStep(tasks: seq<seq<MismatchType>>, i: nat)
    requires i < |tasks| && tasks[i] != []
    ensures Pending(tasks) == Pending(tasks[i := tasks[i][1..]]) + multiset{tasks[i][0]}
  {
    var tasks' := tasks[i := tasks[i][1..]];
    assert tasks[i] == [tasks[i][0]] + tasks[i][1..];
    if i == 0 {
      assert tasks'[1..] == tasks[1..];
    } else {
      PendingStep(tasks[1..], i - 1);
      assert tasks'[1..] == tasks[1..][i - 1 := tasks[i][1..]];
    }
  }

  lemma {:induction false} NothingPending(tasks: seq<seq<MismatchType>>)
    requires forall i :: 0 <= i < |tasks| ==> tasks[i] == []
    ensures Pending(tasks) == multiset{}
  {
    if tasks != [] { NothingPending(tasks[1..]); }
  }

  lemma {:induction false} PendingOneMore(tasks: seq<seq<MismatchType>>, t: seq<MismatchType>)
    ensures Pending(tasks + [t]) == Pending(tasks) + multiset(t)
  {
    if tasks == [] {
      assert tasks + [t] == [t];
    } else {
      assert (tasks + [t])[0] == tasks[0] && (tasks + [t])[1..] == tasks[1..] + [t];
      PendingOneMore(tasks[1..], t);
    }
  }

  /** What the first `k` of `n` tasks have to report at the start. */
  function Posted(rows: seq<Row>, tested: Implementation, hash: Hash, k: nat, n: nat): seq<seq<MismatchType>>
    requires 0 < n
  {
    seq(k, i => AllMismatches(TaskRows(rows, i, n), tested, hash))
  }

  /** The rows whose remainder is that of one of the first `k` tasks. */
  function RowsUpTo(rows: seq<Row>, k: nat, n: nat): seq<Row>
    requires 0 < n
  {
    if rows == [] then []
    else (if 0 <= SqlRemainder(rows[0].id, n) < k then [rows[0]] else []) + RowsUpTo(rows[1..], k, n)
  }

  /** The rows some task selects. */
  function CoveredRows(rows: seq<Row>, n: nat): seq<Row>
    requires 0 < n
  {
    RowsUpTo(rows, n, n)
  }

  ghost function Bag(rows: seq<Row>, tested: Implementation, hash: Hash): multiset<MismatchType> {
    multiset(AllMismatches(rows, tested, hash))
  }

  lemma BagOfFirst(pick: bool, row: Row, rest: seq<Row>, tested: Implementation, hash: Hash)
    ensures Bag((if pick then [row] else []) + rest, tested, hash) ==
            (if pick then multiset(RowMismatches(row, tested, hash)) else multiset{}) + Bag(rest, tested, hash)
  {
    if pick {
      assert ([row] + rest)[1..] == rest;
    } else {
      assert [] + rest == rest;
    }
  }

  lemma {:induction false} OneTaskMore(rows: seq<Row>, tested: Implementation, hash: Hash, k: nat, n: nat)
    requires 0 < n
    ensures Bag(RowsUpTo(rows, k + 1, n), tested, hash) ==
            Bag(RowsUpTo(rows, k, n), tested, hash) + Bag(TaskRows(rows, k, n), tested, hash)
  {
    if rows != [] {
      OneTaskMore(rows[1..], tested, hash, k, n);
      var r := SqlRemainder(rows[0].id, n);
      BagOfFirst(0 <= r < k + 1, rows[0], RowsUpTo(rows[1..], k + 1, n), tested, hash);
      BagOfFirst(0 <= r < k, rows[0], RowsUpTo(rows[1..], k, n), tested, hash);
      BagOfFirst(r == k, rows[0], TaskRows(rows[1..], k, n), tested, hash);
    }
  }

  lemma {:induction false} NoTask(rows: seq<Row>, n: nat)
    requires 0 < n
    ensures RowsUpTo(rows, 0, n) == []
  {
    if rows != [] { NoTask(rows[1..], n); }
  }

  /** The tasks partition the covered rows: together they report what one pass over these reports. */
  lemma {:induction false} PostedTotal(rows: seq<Row>, tested: Implementation, hash: Hash, k: nat, n: nat)
    requires 0 < n
    ensures Pending(Posted(rows, tested, hash, k, n)) == Bag(RowsUpTo(rows, k, n), tested, hash)
    decreases k
  {
    if k == 0 {
      NoTask(rows, n);
    } else {
      PostedTotal(rows, tested, hash, k - 1, n);
      OneTaskMore(rows, tested, hash, k - 1, n);
      PostedOneMore(rows, tested, hash, k - 1, n);
      PendingOneMore(Posted(rows, tested, hash, k - 1, n), AllMismatches(TaskRows(rows, k - 1, n), tested, hash));
    }
  }

  lemma PostedOneMore(rows: seq<Row>, tested: Implementation, hash: Hash, k: nat, n: nat)
    requires 0 < n
    ensures Posted(rows, tested, hash, k + 1, n) ==
            Posted(rows, tested, hash, k, n) + [AllMismatches(TaskRows(rows, k, n), tested, hash)]
  {
  }

  lemma {:induction false} AllMismatchesOfConcat(a: seq<Row>, b: seq<Row>, tested: Implementation, hash: Hash)
    ensures AllMismatches(a + b, tested, hash) == AllMismatches(a, tested, hash) + AllMismatches(b, tested, hash)
  {
    if a == [] {
      assert a + b == b;
    } else {
      AllMismatchesOfConcat(a[1..], b, tested, hash);
      ConcatOfFirst(a[0], a[1..], b, tested, hash);
      assert a == [a[0]] + a[1..];
    }
  }

  lemma ConcatOfFirst(row: Row, a: seq<Row>, b: seq<Row>, tested: Implementation, hash: Hash)
    requires AllMismatches(a + b, tested, hash) == AllMismatches(a, tested, hash) + AllMismatches(b, tested, hash)
    ensures AllMismatches([row] + a + b, tested, hash) ==
            AllMismatches([row] + a, tested, hash) + AllMismatches(b, tested, hash)
  {
    MismatchesOfFirst(row, a, tested, hash);
    MismatchesOfFirst(row, a + b, tested, hash);
    Associative([row], a, b);
    Associative(RowMismatches(row, tested, hash), AllMismatches(a, tested, hash), AllMismatches(b, tested, hash));
  }

  lemma MismatchesOfFirst(row: Row, rest: seq<Row>, tested: Implementation, hash: Hash)
    ensures AllMismatches([row] + rest, tested, hash) ==
            RowMismatches(row, tested, hash) + AllMismatches(rest, tested, hash)
  {
    assert ([row] + rest)[1..] == rest;
  }

  lemma AllMismatchesUpTo(rows: seq<Row>, n: nat, tested: Implementation, hash: Hash)
    requires n < |rows|
    ensures AllMismatches(rows[..n + 1], tested, hash) ==
            AllMismatches(rows[..n], tested, hash) + RowMismatches(rows[n], tested, hash)
  {
    assert rows[..n + 1] == rows[..n] + [rows[n]];
    AllMismatchesOfConcat(rows[..n], [rows[n]], tested, hash);
  }

  // ----- Every interleaving counts what one pass counts -----

  /** A state of the parallel run: what every task has still to report, and the counters. */
  datatype State = State(tasks: seq<seq<MismatchType>>, counts: map<MismatchType, int>)

  /** One task reports its next mismatch under the lock. */
  predicate ReportStep(s: State, s': State, i: nat) {
    && i < |s.tasks| && s.tasks[i] != []
    && s'.tasks == s.tasks[i := s.tasks[i][1..]]
    && var t := s.tasks[i][0];
       s'.counts == s.counts[t := (if t in s.counts then s.counts[t] else 0) + 1]
  }

  ghost predicate IsRun(run: seq<State>) {
    run != [] && forall k | 0 < k < |run| :: CanStep(run[k - 1], run[k])
  }

  ghost predicate CanStep(s: State, s': State) {
    exists i: nat :: ReportStep(s, s', i)
  }

  predicate IsFinished(s: State) {
    forall i :: 0 <= i < |s.tasks| ==> s.tasks[i] == []
  }

  /** A row that some task selects: with a negative id only multiples of the number of tasks are. */
  lemma CoveredIffNonNegative(row: Row, n: nat)
    requires 0 < n
    ensures CoveredRows([row], n) == [row] <==> 0 <= row.id || row.id % n == 0
    ensures CoveredRows([row], n) == [row] || CoveredRows([row], n) == []
  {
    NegativeRemainder(row.id, n);
    assert RowsUpTo([row][1..], n, n) == [];
  }

  lemma NegativeRemainder(a: int, n: nat)
    requires 0 < n
    ensures (-a) % n == 0 <==> a % n == 0
  {
    var q, r := a / n, a % n;
    assert a == q * n + r;
    var q', r' := (-a) / n, (-a) % n;
    assert -a == q' * n + r';
    assert (q + q') * n + r + r' == 0;
    if r == 0 { MultipleBelow(q + q', n, r'); }
    if r' == 0 { MultipleBelow(q + q', n, r); }
  }

  lemma MultipleBelow(q: int, n: nat, r: nat)
    requires 0 < n && r < n && q * n + r == 0
    ensures r == 0
  {
    Scaled(q, n);
  }

  lemma Scaled(q: int, n: int)
    requires 0 < n
    ensures q <= -1 ==> q * n <= -n
    ensures q >= 1 ==> q * n >= n
  {
    if q <= -1 { assert q * n + n == (q + 1) * n <= 0; }
    if q >= 1 { assert q * n - n == (q - 1) * n >= 0; }
  }

  lemma {:induction false} AllCovered(rows: seq<Row>, n: nat)
    requires 0 < n && forall r | r in rows :: 0 <= r.id
    ensures CoveredRows(rows, n) == rows
  {
    if rows != [] {
      assert rows == [rows[0]] + rows[1..];
      AllCovered(rows[1..], n);
    }
  }

  lemma OneMoreCounted(done: multiset<MismatchType>, t: MismatchType)
    ensures var counts := CountsOf(done);
            CountsOf(done + multiset{t}) == counts[t := (if t in counts then counts[t] else 0) + 1]
  {
  }

  lemma NothingCounted(done: multiset<MismatchType>)
    ensures CountsOf(done) == map[] <==> done == multiset{}
  {
    if done != multiset{} {
      var t :| t in done;
      assert t in CountsOf(done);
    }
  }

  lemma StepKeepsTotal(s: State, s': State, done: multiset<MismatchType>) returns (done': multiset<MismatchType>)
    requires CanStep(s, s') && s.counts == CountsOf(done)
    ensures s'.counts == CountsOf(done') && done' + Pending(s'.tasks) == done + Pending(s.tasks)
  {
    var i: nat :| ReportStep(s, s', i);
    PendingStep(s.tasks, i);
    OneMoreCounted(done, s.tasks[i][0]);
    done' := done + multiset{s.tasks[i][0]};
  }

  lemma {:induction false} RunKeepsTotal(run: seq<State>, k: nat, done: multiset<MismatchType>)
      returns (done': multiset<MismatchType>)
    requires IsRun(run) && k < |run| && run[0].counts == CountsOf(done)
    ensures run[k].counts == CountsOf(done') && done' + Pending(run[k].tasks) == done + Pending(run[0].tasks)
    decreases k
  {
    if k == 0 {
      done' := done;
    } else {
      var before := RunKeepsTotal(run, k - 1, done);
      var s, s' := run[k - 1], run[k];
      assert CanStep(s, s');
      done' := StepKeepsTotal(s, s', before);
    }
  }

  lemma FinishedRunCountsAll(run: seq<State>)
    requires IsRun(run) && run[0].counts == map[] && IsFinished(run[|run| - 1])
    ensures run[|run| - 1].counts == CountsOf(Pending(run[0].tasks))
  {
    NothingCounted(multiset{});
    var done := RunKeepsTotal(run, |run| - 1, multiset{});
    NothingPending(run[|run| - 1].tasks);
    var none, all := Pending(run[|run| - 1].tasks), Pending(run[0].tasks);
    assert done + none == done && multiset{} + all == all;
  }

  /** However the tasks' reports interleave, when all have reported the counters are those of one
      pass over all rows. */
  lemma EveryInterleavingCountsAlike(run: seq<State>, rows: seq<Row>, tested: Implementation, hash: Hash, n: nat)
    requires 0 < n && forall r | r in rows :: 0 <= r.id
    requires IsRun(run) && run[0] == State(Posted(rows, tested, hash, n, n), map[]) && IsFinished(run[|run| - 1])
    ensures run[|run| - 1].counts == CountsOf(multiset(AllMismatches(rows, tested, hash)))
    ensures run[|run| - 1].counts == map[] <==> forall r | r in rows :: Agrees(r, tested, hash)
  {
    FinishedRunCountsAll(run);
    PostedTotal(rows, tested, hash, n, n);
    AllCovered(rows, n);
    EmptyBag(rows, tested, hash);
    NothingCounted(Bag(rows, tested, hash));
    NoMismatches(rows, tested, hash);
  }

  /** The tested implementation agrees with the row. */
  predicate Agrees(row: Row, tested: Implementation, hash: Hash) {
    RowMismatches(row, tested, hash) == []
  }

  lemma {:induction false} NoMismatches(rows: seq<Row>, tested: Implementation, hash: Hash)
    ensures AllMismatches(rows, tested, hash) == [] <==> forall r | r in rows :: Agrees(r, tested, hash)
  {
    if rows != [] {
      NoMismatches(rows[1..], tested, hash);
      FirstAgrees(rows, tested, hash);
      assert forall r :: r in rows <==> r == rows[0] || r in rows[1..];
    }
  }

  lemma FirstAgrees(rows: seq<Row>, tested: Implementation, hash: Hash)
    requires rows != []
    ensures AllMismatches(rows, tested, hash) == [] <==>
              Agrees(rows[0], tested, hash) && AllMismatches(rows[1..], tested, hash) == []
  {
  }

  // ----- Storing, then comparing -----

  lemma {:induction false} StoredIdsAreLines(lines: seq<Line>, from: int, reference: Implementation, hash: Hash,
      row: Row)
    requires row in StoredRows(Requests(lines, from), reference, hash)
    ensures from <= row.id
  {
    var requests := Requests(lines, from);
    assert requests[1..] == Requests(lines[1..], from + 1);
    if row !in RowsFor(requests[0], reference, hash) {
      StoredIdsAreLines(lines[1..], from + 1, reference, hash, row);
    }
  }

  /** Whatever was stored, every row is compared by some task. */
  lemma StoredRowsAreCovered(lines: seq<Line>, reference: Implementation, hash: Hash, n: nat)
    requires 0 < n
    ensures var rows := StoredRows(Requests(lines, 1), reference, hash);
            CoveredRows(rows, n) == rows && forall r | r in rows :: 1 <= r.id
  {
    var rows := StoredRows(Requests(lines, 1), reference, hash);
    forall r | r in rows
      ensures 1 <= r.id
    {
      StoredIdsAreLines(lines, 1, reference, hash, r);
    }
    AllCovered(rows, n);
  }

  /** From the lines of the input to the counters: for any reference and tested implementation and
      however the tasks' reports interleave, the counters are those of one pass over what was
      stored, and empty exactly if the tested implementation agrees with every row of it. */
  lemma StoredThenCompared(lines: seq<Line>, reference: Implementation, tested: Implementation, hash: Hash, n: nat,
                           run: seq<State>)
    requires 0 < n && IsRun(run) && IsFinished(run[|run| - 1])
    requires run[0] == State(Posted(StoredRows(Requests(lines, 1), reference, hash), tested, hash, n, n), map[])
    ensures var rows := StoredRows(Requests(lines, 1), reference, hash);
            && run[|run| - 1].counts == CountsOf(multiset(AllMismatches(rows, tested, hash)))
            && (run[|run| - 1].counts == map[] <==> forall r | r in rows :: Agrees(r, tested, hash))
  {
    StoredRowsAreCovered(lines, reference, hash, n);
    EveryInterleavingCountsAlike(run, StoredRows(Requests(lines, 1), reference, hash), tested, hash, n);
  }

  // ----- What is stored -----

  /** The requests are the lines before the first malformed one, numbered from there on. */
  lemma {:induction false} RequestsAreLines(lines: seq<Line>, from: int)
    ensures |Requests(lines, from)| <= |lines|
    ensures forall i | 0 <= i < |Requests(lines, from)| ::
              lines[i].Some? && Requests(lines, from)[i] == lines[i].value.(lineNumber := from + i)
    ensures |Requests(lines, from)| < |lines| ==> lines[|Requests(lines, from)|].None?
  {
    if lines != [] && lines[0].Some? {
      RequestsAreLines(lines[1..], from + 1);
      assert forall i | 0 < i < |Requests(lines, from)| ::
          Requests(lines, from)[i] == Requests(lines[1..], from + 1)[i - 1];
    }
  }

  ghost predicate AreNumbered(requests: seq<Request>, from: int) {
    forall i | 0 <= i < |requests| :: requests[i].lineNumber == from + i
  }

  lemma {:induction false} RowsAreNumbered(requests: seq<Request>, from: int, reference: Implementation, hash: Hash)
    requires AreNumbered(requests, from)
    ensures IdsWithin(StoredRows(requests, reference, hash), from, from + |requests|)
  {
    if requests != [] {
      assert forall i | 0 <= i < |requests[1..]| :: requests[1..][i] == requests[i + 1];
      RowsAreNumbered(requests[1..], from + 1, reference, hash);
      OneRowBefore(requests[0], StoredRows(requests[1..], reference, hash), from + |requests|, reference, hash);
    }
  }

  lemma OneRowBefore(r: Request, rest: seq<Row>, end: int, reference: Implementation, hash: Hash)
    requires IdsWithin(rest, r.lineNumber + 1, end)
    ensures IdsWithin(RowsFor(r, reference, hash) + rest, r.lineNumber, end)
  {
  }

  /** Every request of the input with a real content type is stored, in one row, and no other is. */
  lemma EveryRequestIsStoredOnce(lines: seq<Line>, reference: Implementation, hash: Hash, i: nat)
    requires i < |lines| && forall k | 0 <= k <= i :: lines[k].Some?
    ensures var r, rows := lines[i].value.(lineNumber := i + 1), StoredRows(Requests(lines, 1), reference, hash);
            if r.contentType <= 32768 then
              exists j :: 0 <= j < |rows| && IsRowOf(rows[j], r, reference, hash) && IsOnlyWithId(rows, j)
            else forall row | row in rows :: row.id != i + 1
  {
    var requests := Requests(lines, 1);
    var rows := StoredRows(requests, reference, hash);
    RequestsAreLines(lines, 1);
    RowsAreNumbered(requests, 1, reference, hash);
    if requests[i].contentType <= 32768 {
      var j := StoredAt(requests, reference, hash, i);
      assert IsRowOf(rows[j], requests[i], reference, hash) && IsOnlyWithId(rows, j);
    } else {
      forall row | row in rows
        ensures row.id != i + 1
      {
        StoredRowsAreOfRequests(requests, reference, hash, row);
      }
    }
  }

  ghost predicate IsOnlyWithId(rows: seq<Row>, j: nat)
    requires j < |rows|
  {
    forall k | 0 <= k < |rows| && k != j :: rows[k].id != rows[j].id
  }

  // ----- What a mismatch means -----

  lemma {:induction false} StoredRowsAreOfRequests(requests: seq<Request>, reference: Implementation, hash: Hash,
      row: Row)
    requires row in StoredRows(requests, reference, hash)
    ensures exists r :: r in requests && r.contentType <= LAST_CONTENT_TYPE && row == StoredRow(r, reference, hash)
  {
    var rest := StoredRows(requests[1..], reference, hash);
    if row in rest {
      StoredRowsAreOfRequests(requests[1..], reference, hash, row);
    }
  }

  /** Storing and comparing with the same implementation reports nothing, for any split into tasks. */
  lemma SameImplementationAgrees(lines: seq<Line>, implementation: Implementation, hash: Hash, n: nat)
    requires 0 < n
    ensures var rows := StoredRows(Requests(lines, 1), implementation, hash);
            AllMismatches(CoveredRows(rows, n), implementation, hash) == []
  {
    var rows := StoredRows(Requests(lines, 1), implementation, hash);
    forall row | row in CoveredRows(rows, n)
      ensures Agrees(row, implementation, hash)
    {
      CoveredIsStored(rows, n, n, row);
      StoredRowsAreOfRequests(Requests(lines, 1), implementation, hash, row);
      var r :| r in Requests(lines, 1) && row == StoredRow(r, implementation, hash);
      StoredRequest(r, implementation, hash);
    }
    NoMismatches(CoveredRows(rows, n), implementation, hash);
  }

  lemma {:induction false} CoveredIsStored(rows: seq<Row>, k: nat, n: nat, row: Row)
    requires 0 < n && row in RowsUpTo(rows, k, n)
    ensures row in rows
  {
    if row in RowsUpTo(rows[1..], k, n) {
      CoveredIsStored(rows[1..], k, n, row);
    }
  }

  /** The two texts a hash function is applied to do not collide. */
  ghost predicate NoCollision(hash: Hash, a: string, b: string) {
    hash(a) == hash(b) ==> a == b
  }

  /** Two stylesheets differ if just one of them is empty or, both not being empty, their pieces differ. */
  ghost predicate StylesheetsDiffer(a: string, b: string) {
    (a == "") != (b == "") || (a != "" && PieceSet(a) != PieceSet(b))
  }

  /** A difference of the verdict is reported, once, and nothing else is as one. */
  lemma VerdictMismatch(r: Request, reference: Implementation, tested: Implementation, hash: Hash)
    ensures multiset(RowMismatches(StoredRow(r, reference, hash), tested, hash))[UrlFilterMatch] ==
            if tested.blocks(r) != reference.blocks(r) then 1 else 0
  {
    StoredRequest(r, reference, hash);
  }

  /** Of a request that is not for a subdocument no other mismatch is reported; of one that is, the
      stylesheet's is reported exactly if the two hashes differ. */
  lemma CssMismatch(r: Request, reference: Implementation, tested: Implementation, hash: Hash)
    ensures multiset(RowMismatches(StoredRow(r, reference, hash), tested, hash))[ElemhideCss] ==
            if r.contentType == 32
              && StylesheetHash(tested.elemhide(r).css, hash) != StylesheetHash(reference.elemhide(r).css, hash)
            then 1 else 0
  {
    StoredRequest(r, reference, hash);
  }

  lemma SelectorsMismatch(r: Request, reference: Implementation, tested: Implementation, hash: Hash)
    ensures multiset(RowMismatches(StoredRow(r, reference, hash), tested, hash))[ElemhideEmuSelectors] ==
            if r.contentType == 32
              && SelectorsHash(tested.elemhide(r).emuSelectors, hash) !=
                 SelectorsHash(reference.elemhide(r).emuSelectors, hash)
            then 1 else 0
    ensures multiset(RowMismatches(StoredRow(r, reference, hash), tested, hash))[Snippets] == 0
  {
    StoredRequest(r, reference, hash);
  }

  lemma StoredRequest(r: Request, implementation: Implementation, hash: Hash)
    ensures RequestOf(StoredRow(r, implementation, hash)) == r
  {
    assert r == Request(r.lineNumber, r.url, r.contentType, r.domain);
  }

  /** A stylesheet mismatch means that the stylesheets differ, and without a collision of the hash
      every difference is one. */
  lemma CssMismatchMeansDifference(a: string, b: string, hash: Hash)
    ensures StylesheetHash(a, hash) != StylesheetHash(b, hash) ==> StylesheetsDiffer(a, b)
    ensures NoCollision(hash, CanonicalText(a), CanonicalText(b)) ==>
              (StylesheetsDiffer(a, b) <==> StylesheetHash(a, hash) != StylesheetHash(b, hash))
  {
    SameTextIffSamePieces(a, b);
  }

  /** Two selector lists differ if just one of them is empty or, both not being empty, their sorted
      selectors have different words. */
  ghost predicate SelectorsDiffer(a: seq<string>, b: seq<string>) {
    (a == []) != (b == []) || (a != [] && Flat(SortedList(a)) != Flat(SortedList(b)))
  }

  /** A selector mismatch means that the selectors differ so, hence in more than their order, and
      without a collision of the hash every such difference is one. */
  lemma SelectorsMismatchMeansDifference(a: seq<string>, b: seq<string>, hash: Hash)
    ensures SelectorsHash(a, hash) != SelectorsHash(b, hash) ==> SelectorsDiffer(a, b) && multiset(a) != multiset(b)
    ensures NoCollision(hash, SelectorText(a), SelectorText(b)) ==>
              (SelectorsDiffer(a, b) <==> SelectorsHash(a, hash) != SelectorsHash(b, hash))
  {
    SameTextIfSameSelectors(a, b);
    EmptyIffNone(a);
    EmptyIffNone(b);
    if a != [] && b != [] { SameSelectorTextIff(a, b); }
  }

  lemma EmptyIffNone(v: seq<string>)
    ensures v == [] <==> multiset(v) == multiset{}
  {
    if v != [] { assert v[0] in multiset(v); }
  }
}
