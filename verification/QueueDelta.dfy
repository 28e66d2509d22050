/**
  Subtracting two counter snapshots: `_queue_counter_delta` with its per-queue
  rows, resets and distributions, and the eight-field interface delta.
 */
module QueueDelta {
  import opened Wrappers
  import opened Ordering
  import opened QueueCounters

  /** The accepted field names, in alphabetical order. */
  datatype Field = RxBytes | RxDropped | RxErrors | RxPackets | TxBytes | TxDropped | TxErrors | TxPackets

  const FIELDS := [RxBytes, RxDropped, RxErrors, RxPackets, TxBytes, TxDropped, TxErrors, TxPackets]

  function Name(f: Field): string {
    match f
    case RxBytes => "rx_bytes"
    case RxDropped => "rx_dropped"
    case RxErrors => "rx_errors"
    case RxPackets => "rx_packets"
    case TxBytes => "tx_bytes"
    case TxDropped => "tx_dropped"
    case TxErrors => "tx_errors"
    case TxPackets => "tx_packets"
  }

  const NAMES := ["rx_bytes", "rx_dropped", "rx_errors", "rx_packets", "tx_bytes", "tx_dropped", "tx_errors", "tx_packets"]

  /** The fields are listed by name, in the order in which `sorted` lists them. */
  lemma NamesAreSorted(i: nat)
    requires i < 8
    ensures |FIELDS| == 8 && Name(FIELDS[i]) == NAMES[i]
    ensures i < 7 ==> TextLe(NAMES[i], NAMES[i + 1]) && NAMES[i] != NAMES[i + 1]
  {
    if i < 7 {
      hide TextLe;
      LaterAt(NAMES[i], NAMES[i + 1], if i == 3 then 0 else 3);
    }
  }

  /** Texts that first differ at `k` are ordered by what they have there. */
  lemma {:induction false} LaterAt(a: string, b: string, k: nat)
    requires k < |a| && k < |b| && a[..k] == b[..k] && a[k] < b[k]
    ensures TextLe(a, b) && a != b
  {
    if k > 0 {
      assert a[0] == a[..k][0] == b[..k][0] == b[0];
      assert a[1..][..k - 1] == a[..k][1..] == b[..k][1..] == b[1..][..k - 1];
      LaterAt(a[1..], b[1..], k - 1);
    }
  }

  lemma EveryField(f: Field)
    ensures exists i :: 0 <= i < |FIELDS| && FIELDS[i] == f
  {
    match f
    case RxBytes => assert FIELDS[0] == f;
    case RxDropped => assert FIELDS[1] == f;
    case RxErrors => assert FIELDS[2] == f;
    case RxPackets => assert FIELDS[3] == f;
    case TxBytes => assert FIELDS[4] == f;
    case TxDropped => assert FIELDS[5] == f;
    case TxErrors => assert FIELDS[6] == f;
    case TxPackets => assert FIELDS[7] == f;
  }

  datatype Row = Row(queue: int, counters: map<string, int>)

  datatype Snapshot = Snapshot(status: Status, observedAt: Option<string>, version: string, rows: seq<Row>)

  type Values = map<Field, nat>

  datatype DeltaRow = DeltaRow(queue: int, complete: bool, counters: Values, resets: seq<Field>)

  datatype DeltaStatus = NoDelta | PartialDelta | CompleteDelta

  datatype Delta = Delta(status: DeltaStatus, rows: seq<DeltaRow>, resets: seq<(int, Field)>)

  // ---- The dictionary built from a snapshot --------------------------------------

  function Normalized(counters: map<string, int>): Values {
    map f: Field | Name(f) in counters && counters[Name(f)] >= 0 :: counters[Name(f)]
  }

  /** A later row of the same queue replaces an earlier one; rows without an accepted value are skipped. */
  function MapOf(rows: seq<Row>): map<int, Values> {
    if |rows| == 0 then map[] else
      var before, last := MapOf(rows[..|rows| - 1]), rows[|rows| - 1];
      if Normalized(last.counters) == map[] then before else before[last.queue := Normalized(last.counters)]
  }

  /** A row has a value for the field: present and not negative; zero counts. */
  predicate Accepts(row: Row, f: Field) { Name(f) in row.counters && row.counters[Name(f)] >= 0 }

  /** The last row of the queue that has any value. */
  ghost predicate Latest(rows: seq<Row>, q: int, i: nat) {
    && i < |rows| && rows[i].queue == q && (exists f :: Accepts(rows[i], f))
    && forall j :: i < j < |rows| && rows[j].queue == q ==> forall f :: !Accepts(rows[j], f)
  }

  /** What a snapshot shows for a field of a queue. */
  ghost predicate Shows(rows: seq<Row>, q: int, f: Field, v: int) {
    exists i: nat :: Latest(rows, q, i) && Accepts(rows[i], f) && rows[i].counters[Name(f)] == v
  }

  lemma NormalizedIs(row: Row)
    ensures forall f :: f in Normalized(row.counters) <==> Accepts(row, f)
    ensures forall f :: Accepts(row, f) ==> Normalized(row.counters)[f] == row.counters[Name(f)]
    ensures Normalized(row.counters) == map[] <==> forall f :: !Accepts(row, f)
  {
    var all := Normalized(row.counters);
    assert forall f :: f in all <==> Accepts(row, f);
    if forall f :: !Accepts(row, f) {
      assert forall f :: f !in all;
      assert all == map[];
    }
  }

  lemma LatestPush(rows: seq<Row>, row: Row, q: int, i: nat)
    ensures Latest(rows + [row], q, i) <==>
      if row.queue == q && (exists f :: Accepts(row, f)) then i == |rows| else Latest(rows, q, i)
  {
    var all := rows + [row];
    assert all[|rows|] == row && forall k :: 0 <= k < |rows| ==> all[k] == rows[k];
    hide Accepts;
  }

  /** The dictionary holds exactly what the rows show. */
  lemma {:induction false} MapShows(rows: seq<Row>, q: int, f: Field, v: int)
    ensures Shows(rows, q, f, v) <==> q in MapOf(rows) && f in MapOf(rows)[q] && MapOf(rows)[q][f] == v
  {
    if |rows| > 0 {
      var init, last := rows[..|rows| - 1], rows[|rows| - 1];
      assert rows == init + [last];
      MapShows(init, q, f, v);
      NormalizedIs(last);
      hide Normalized, Accepts, Shows, Name;
      ShowsPush(init, last, q, f, v);
    }
  }

  lemma ShowsPush(init: seq<Row>, last: Row, q: int, f: Field, v: int)
    ensures Shows(init + [last], q, f, v) <==>
      if last.queue == q && (exists f :: Accepts(last, f)) then Accepts(last, f) && last.counters[Name(f)] == v
      else Shows(init, q, f, v)
  {
    var all := init + [last];
    hide Latest;
    forall i: nat ensures Latest(all, q, i) <==>
      if last.queue == q && (exists f :: Accepts(last, f)) then i == |init| else Latest(init, q, i)
    {
      LatestPush(init, last, q, i);
    }
    forall i: nat | Latest(init, q, i) ensures i < |init| && all[i] == init[i] { LatestBound(init, q, i); }
    if last.queue == q && (exists f :: Accepts(last, f)) {
      assert Latest(all, q, |init|) && all[|init|] == last;
    } else if Shows(init, q, f, v) {
      var i: nat :| Latest(init, q, i) && Accepts(init[i], f) && init[i].counters[Name(f)] == v;
      assert Latest(all, q, i) && Accepts(all[i], f);
    }
  }

  lemma LatestBound(rows: seq<Row>, q: int, i: nat)
    requires Latest(rows, q, i)
    ensures i < |rows|
  {
  }

  method QueueMap(rows: seq<Row>) returns (values: map<int, Values>)
    ensures values == MapOf(rows)
    ensures forall q, f, v: int :: Shows(rows, q, f, v) <==> q in values && f in values[q] && values[q][f] == v
  {
    forall q, f, v: int ensures Shows(rows, q, f, v) <==> q in MapOf(rows) && f in MapOf(rows)[q] && MapOf(rows)[q][f] == v {
      MapShows(rows, q, f, v);
    }
    hide Shows;
    values := map[];
    for i := 0 to |rows|
      invariant values == MapOf(rows[..i])
    {
      assert rows[..i + 1][..i] == rows[..i];
      var normalized := Normalized(rows[i].counters);
      if normalized != map[] { values := values[rows[i].queue := normalized]; }
    }
    assert rows[..|rows|] == rows;
  }

  lemma {:induction false} MapRowsNonEmpty(rows: seq<Row>)
    ensures forall q :: q in MapOf(rows) ==> MapOf(rows)[q] != map[]
  {
    if |rows| > 0 { MapRowsNonEmpty(rows[..|rows| - 1]); }
  }

  lemma Inhabited(s: set<int>)
    ensures s == {} || exists x :: x in s
  {
    if forall x :: x !in s { assert s == {}; }
  }

  lemma MinExists(s: set<int>)
    requires s != {}
    ensures exists m :: m in s && forall y :: y in s ==> m <= y
    decreases |s|
  {
    Inhabited(s);
    var x :| x in s;
    var rest := s - {x};
    assert forall z :: z in s ==> z == x || z in rest;
    if rest == {} {
      assert forall y :: y in s ==> x <= y;
    } else {
      MinExists(rest);
      var m :| m in rest && forall z :: z in rest ==> m <= z;
      var least := if m < x then m else x;
      assert least in s && forall y :: y in s ==> least <= y;
    }
  }

  function Least(s: set<int>): (m: int)
    requires s != {}
    ensures m in s && forall y :: y in s ==> m <= y
  {
    MinExists(s);
    var m :| m in s && forall y :: y in s ==> m <= y;
    m
  }

  /** `sorted` over a set of queue numbers. */
  function Ascending(s: set<int>): seq<int>
    decreases |s|
  {
    if s == {} then [] else [Least(s)] + Ascending(s - {Least(s)})
  }

  lemma {:induction false} AscendingFacts(s: set<int>)
    ensures forall x :: x in Ascending(s) <==> x in s
    ensures forall i, j :: 0 <= i < j < |Ascending(s)| ==> Ascending(s)[i] < Ascending(s)[j]
    decreases |s|
  {
    if s != {} {
      var m, rest := Least(s), Ascending(s - {Least(s)});
      AscendingFacts(s - {m});
      assert Ascending(s) == [m] + rest;
      assert forall x :: x in [m] + rest <==> x == m || x in rest;
      assert forall i :: 0 <= i < |rest| ==> rest[i] in s - {m};
    }
  }

  // ---- What a delta is --------------------------------------------------------------

  predicate Common(b: map<int, Values>, a: map<int, Values>, q: int, f: Field) {
    q in b && q in a && f in b[q] && f in a[q]
  }

  predicate Decreased(b: map<int, Values>, a: map<int, Values>, q: int, f: Field) {
    Common(b, a, q, f) && a[q][f] < b[q][f]
  }

  function Fell(b: map<int, Values>, a: map<int, Values>, q: int): Field -> bool { (f: Field) => Decreased(b, a, q, f) }

  predicate Kept(b: map<int, Values>, a: map<int, Values>, q: int, f: Field) {
    Common(b, a, q, f) && b[q][f] <= a[q][f]
  }

  /** Both snapshots may be subtracted at all. */
  predicate Usable(before: Snapshot, after: Snapshot) {
    && before.status != Unavailable && after.status != Unavailable
    && before.observedAt.Some? && after.observedAt.Some?
    && MapOf(before.rows).Keys * MapOf(after.rows).Keys != {}
  }

  /** Same queues, same fields, nothing decreased, both observed under the same normalisation. */
  ghost predicate Aligned(before: Snapshot, after: Snapshot) {
    var b, a := MapOf(before.rows), MapOf(after.rows);
    && before.status == Observed && after.status == Observed && before.version == after.version
    && b.Keys == a.Keys
    && (forall q :: q in b && q in a ==> b[q].Keys == a[q].Keys)
    && (forall q, f :: Common(b, a, q, f) ==> !Decreased(b, a, q, f))
  }

  ghost predicate RowMeans(b: map<int, Values>, a: map<int, Values>, row: DeltaRow) {
    && (forall f :: f in row.counters <==> Kept(b, a, row.queue, f))
    && (forall f :: f in row.counters ==> b[row.queue][f] + row.counters[f] == a[row.queue][f])
    && (forall f :: f in row.resets <==> Decreased(b, a, row.queue, f))
    && (row.queue in b && row.queue in a)
    && (row.complete <==> b[row.queue].Keys == a[row.queue].Keys && row.resets == [])
  }

  ghost predicate DeltaMeans(before: Snapshot, after: Snapshot, d: Delta) {
    var b, a := MapOf(before.rows), MapOf(after.rows);
    if !Usable(before, after) then d == Delta(NoDelta, [], [])
    else
      && (forall i :: 0 <= i < |d.rows| ==> RowMeans(b, a, d.rows[i]) && d.rows[i].counters != map[])
      && (forall i, j :: 0 <= i < j < |d.rows| ==> d.rows[i].queue < d.rows[j].queue)
      && (forall q, f :: Kept(b, a, q, f) ==> exists i :: 0 <= i < |d.rows| && d.rows[i].queue == q)
      && (forall q, f :: (q, f) in d.resets <==> Decreased(b, a, q, f))
      && (d.status == NoDelta <==> d.rows == [])
      && (d.status == CompleteDelta <==> Aligned(before, after))
  }

  /** The inner loop: the common fields of one queue. */
  method QueueRow(b: map<int, Values>, a: map<int, Values>, queue: int) returns (row: DeltaRow)
    requires queue in b && queue in a
    ensures row.queue == queue && RowMeans(b, a, row)
    ensures row.resets == Filter(FIELDS, Fell(b, a, queue))
  {
    var before, after := b[queue], a[queue];
    var deltas: Values, resets: seq<Field> := map[], [];
    for i := 0 to |FIELDS|
      invariant forall f :: f in deltas <==> f in FIELDS[..i] && Kept(b, a, queue, f)
      invariant forall f :: f in deltas ==> before[f] + deltas[f] == after[f]
      invariant forall f :: f in resets <==> f in FIELDS[..i] && Decreased(b, a, queue, f)
      invariant resets == Filter(FIELDS[..i], Fell(b, a, queue))
    {
      var field := FIELDS[i];
      assert FIELDS[..i + 1] == FIELDS[..i] + [field];
      FilterPush(FIELDS[..i], field, Fell(b, a, queue));
      if field in before && field in after {
        if after[field] < before[field] {
          resets := resets + [field];
        } else {
          deltas := deltas[field := after[field] - before[field]];
        }
      }
    }
    forall f ensures f in FIELDS[..|FIELDS|] { EveryField(f); }
    assert FIELDS[..|FIELDS|] == FIELDS;
    row := DeltaRow(queue, before.Keys == after.Keys && resets == [], deltas, resets);
  }

  function Tagged(queue: int, fields: seq<Field>): (r: seq<(int, Field)>)
    ensures forall q, f :: (q, f) in r <==> q == queue && f in fields
  {
    if |fields| == 0 then [] else Tagged(queue, fields[..|fields| - 1]) + [(queue, fields[|fields| - 1])]
  }

  /** What the outer loop has established for the queues it has visited. */
  ghost predicate Visited(b: map<int, Values>, a: map<int, Values>, done: seq<int>, rows: seq<DeltaRow>,
                          resets: seq<(int, Field)>, complete: bool)
  {
    RowsFit(b, a, done, rows) && Covered(b, a, done, rows) && ResetsFit(b, a, done, resets) && (complete <==> AllAligned(b, a, done))
  }

  ghost predicate RowsFit(b: map<int, Values>, a: map<int, Values>, done: seq<int>, rows: seq<DeltaRow>) {
    && (forall i :: 0 <= i < |rows| ==> RowMeans(b, a, rows[i]) && rows[i].counters != map[] && rows[i].queue in done)
    && (forall i, j :: 0 <= i < j < |rows| ==> rows[i].queue < rows[j].queue)
  }

  ghost predicate Covered(b: map<int, Values>, a: map<int, Values>, done: seq<int>, rows: seq<DeltaRow>) {
    forall q, f :: q in done && Kept(b, a, q, f) ==> exists i :: 0 <= i < |rows| && rows[i].queue == q
  }

  ghost predicate ResetsFit(b: map<int, Values>, a: map<int, Values>, done: seq<int>, resets: seq<(int, Field)>) {
    forall q, f :: (q, f) in resets <==> q in done && Decreased(b, a, q, f)
  }

  ghost predicate AllAligned(b: map<int, Values>, a: map<int, Values>, done: seq<int>) {
    forall q :: q in done ==> QueueAligned(b, a, q)
  }

  ghost predicate QueueAligned(b: map<int, Values>, a: map<int, Values>, q: int) {
    && q in b && q in a && b[q].Keys == a[q].Keys && forall f :: Common(b, a, q, f) ==> !Decreased(b, a, q, f)
  }

  lemma EmptyOrHas<T>(s: seq<T>)
    ensures s == [] || exists x :: x in s
  {
    if s != [] { assert s[0] in s; }
  }

  lemma RowAligned(b: map<int, Values>, a: map<int, Values>, row: DeltaRow)
    requires RowMeans(b, a, row) && b[row.queue] != map[]
    ensures QueueAligned(b, a, row.queue) <==> row.counters != map[] && row.complete
  {
    if QueueAligned(b, a, row.queue) {
      var f :| f in b[row.queue];
      assert !Decreased(b, a, row.queue, f) && Kept(b, a, row.queue, f);
      assert forall r :: r !in row.resets;
      EmptyOrHas(row.resets);
    }
  }

  lemma VisitOne(b: map<int, Values>, a: map<int, Values>, done: seq<int>, rows: seq<DeltaRow>,
                 resets: seq<(int, Field)>, complete: bool, row: DeltaRow)
    requires Visited(b, a, done, rows, resets, complete)
    requires RowMeans(b, a, row) && b[row.queue] != map[] && forall q :: q in done ==> q < row.queue
    ensures Visited(b, a, done + [row.queue], if row.counters == map[] then rows else rows + [row],
                    resets + Tagged(row.queue, row.resets), complete && row.counters != map[] && row.complete)
  {
    RowAligned(b, a, row);
    RowsGrow(b, a, done, rows, row);
    CoverGrows(b, a, done, rows, row);
    ResetsGrow(b, a, done, resets, row);
    assert AllAligned(b, a, done + [row.queue]) <==> AllAligned(b, a, done) && QueueAligned(b, a, row.queue) by {
      hide QueueAligned, RowMeans;
      var all := done + [row.queue];
      assert row.queue in all && forall q :: q in done ==> q in all;
    }
    hide RowMeans, RowsFit, Covered, ResetsFit, AllAligned, QueueAligned, Tagged;
  }

  lemma RowsGrow(b: map<int, Values>, a: map<int, Values>, done: seq<int>, rows: seq<DeltaRow>, row: DeltaRow)
    requires RowsFit(b, a, done, rows) && RowMeans(b, a, row) && forall q :: q in done ==> q < row.queue
    ensures RowsFit(b, a, done + [row.queue], if row.counters == map[] then rows else rows + [row])
  {
    hide RowMeans;
  }

  lemma CoverGrows(b: map<int, Values>, a: map<int, Values>, done: seq<int>, rows: seq<DeltaRow>, row: DeltaRow)
    requires Covered(b, a, done, rows) && RowMeans(b, a, row)
    ensures Covered(b, a, done + [row.queue], if row.counters == map[] then rows else rows + [row])
  {
    assert forall f :: f in row.counters <==> Kept(b, a, row.queue, f);
    hide Kept, RowMeans;
    var more := if row.counters == map[] then rows else rows + [row];
    forall q, f | q in done + [row.queue] && Kept(b, a, q, f)
      ensures exists i :: 0 <= i < |more| && more[i].queue == q
    {
      if q in done {
        var i :| 0 <= i < |rows| && rows[i].queue == q;
        assert more[i].queue == q;
      } else {
        assert f in row.counters;
        assert more[|rows|].queue == q;
      }
    }
  }

  lemma ResetsGrow(b: map<int, Values>, a: map<int, Values>, done: seq<int>, resets: seq<(int, Field)>, row: DeltaRow)
    requires ResetsFit(b, a, done, resets) && RowMeans(b, a, row)
    ensures ResetsFit(b, a, done + [row.queue], resets + Tagged(row.queue, row.resets))
  {
    assert forall f :: f in row.resets <==> Decreased(b, a, row.queue, f);
    hide RowMeans, Decreased, Kept;
    forall q, f ensures (q, f) in resets + Tagged(row.queue, row.resets)
                        <==> q in done + [row.queue] && Decreased(b, a, q, f)
    {
      assert (q, f) in Tagged(row.queue, row.resets) <==> q == row.queue && f in row.resets;
    }
  }

  /** `_queue_counter_delta`, up to the distributions. */
  method QueueCounterDelta(before: Snapshot, after: Snapshot) returns (d: Delta)
    ensures DeltaMeans(before, after, d)
  {
    hide RowMeans, Visited, QueueAligned, Ascending, Tagged, MapOf;
    var b := QueueMap(before.rows);
    var a := QueueMap(after.rows);
    if before.status == Unavailable || after.status == Unavailable
      || before.observedAt.None? || after.observedAt.None? || b.Keys * a.Keys == {}
    {
      return Delta(NoDelta, [], []);
    }
    var common := Ascending(b.Keys * a.Keys);
    AscendingFacts(b.Keys * a.Keys);
    var rows: seq<DeltaRow>, resets: seq<(int, Field)>, whole := [], [], true;
    NothingVisited(b, a);
    MapRowsNonEmpty(before.rows);
    for i := 0 to |common|
      invariant Visited(b, a, common[..i], rows, resets, whole)
    {
      assert common[i] in common;
      var row := QueueRow(b, a, common[i]);
      VisitOne(b, a, common[..i], rows, resets, whole, row);
      assert common[..i + 1] == common[..i] + [common[i]];
      resets := resets + Tagged(row.queue, row.resets);
      if row.counters == map[] {
        whole := false;
      } else {
        whole := whole && row.complete;
        rows := rows + [row];
      }
    }
    assert common[..|common|] == common;
    var complete := whole && before.status == Observed && after.status == Observed && b.Keys == a.Keys
      && before.version == after.version;
    d := Delta(if rows == [] then NoDelta else if complete then CompleteDelta else PartialDelta, rows, resets);
    AllVisited(before, after, common, rows, resets, whole, d);
  }

  lemma NothingVisited(b: map<int, Values>, a: map<int, Values>)
    ensures Visited(b, a, [], [], [], true)
  {
  }

  lemma AllVisited(before: Snapshot, after: Snapshot, common: seq<int>, rows: seq<DeltaRow>,
                   resets: seq<(int, Field)>, whole: bool, d: Delta)
    requires Usable(before, after)
    requires forall q :: q in common <==> q in MapOf(before.rows) && q in MapOf(after.rows)
    requires Visited(MapOf(before.rows), MapOf(after.rows), common, rows, resets, whole)
    requires d.rows == rows && d.resets == resets
    requires d.status == if rows == [] then NoDelta
      else if whole && before.status == Observed && after.status == Observed
              && MapOf(before.rows).Keys == MapOf(after.rows).Keys && before.version == after.version
      then CompleteDelta else PartialDelta
    ensures DeltaMeans(before, after, d)
  {
    var b, a := MapOf(before.rows), MapOf(after.rows);
    MapRowsNonEmpty(before.rows);
    hide RowMeans, MapOf;
    forall q, f ensures (q, f) in d.resets <==> Decreased(b, a, q, f) {
      if Decreased(b, a, q, f) { assert q in common; }
    }
    forall q, f | Kept(b, a, q, f) ensures exists i :: 0 <= i < |d.rows| && d.rows[i].queue == q {
      assert q in common;
    }
    WholeIsAligned(before, after, common, rows, whole);
  }

  lemma WholeIsAligned(before: Snapshot, after: Snapshot, common: seq<int>, rows: seq<DeltaRow>, whole: bool)
    requires Usable(before, after)
    requires forall q :: q in common <==> q in MapOf(before.rows) && q in MapOf(after.rows)
    requires forall q, f :: q in common && Kept(MapOf(before.rows), MapOf(after.rows), q, f) ==>
      exists i :: 0 <= i < |rows| && rows[i].queue == q
    requires whole <==> forall q :: q in common ==> QueueAligned(MapOf(before.rows), MapOf(after.rows), q)
    ensures Aligned(before, after) <==>
      && rows != [] && whole && before.status == Observed && after.status == Observed
      && MapOf(before.rows).Keys == MapOf(after.rows).Keys && before.version == after.version
  {
    var b, a := MapOf(before.rows), MapOf(after.rows);
    MapRowsNonEmpty(before.rows);
    hide MapOf;
    if Aligned(before, after) {
      forall q | q in common ensures QueueAligned(b, a, q) {}
      Inhabited(b.Keys * a.Keys);
      var q :| q in b.Keys * a.Keys;
      var f :| f in b[q];
      assert q in common && !Decreased(b, a, q, f) && Kept(b, a, q, f);
    }
    if whole {
      forall q, f | Common(b, a, q, f) ensures !Decreased(b, a, q, f) {
        assert q in common;
      }
    }
  }

  // ---- Telescoping --------------------------------------------------------------------

  /** The value a delta reports for a field of a queue. */
  ghost predicate Reports(d: Delta, q: int, f: Field, v: nat) {
    exists i :: 0 <= i < |d.rows| && d.rows[i].queue == q && f in d.rows[i].counters && d.rows[i].counters[f] == v
  }

  /** A usable delta reports a value for a field exactly when it is the difference of what the two snapshots show. */
  lemma ReportsShown(before: Snapshot, after: Snapshot, d: Delta, q: int, f: Field, v: nat)
    requires DeltaMeans(before, after, d) && Usable(before, after)
    ensures Reports(d, q, f, v) <==> exists x: int, y: int :: Shows(before.rows, q, f, x) && Shows(after.rows, q, f, y) && x + v == y
  {
    ReportsDifference(before, after, d, q, f, v);
    forall x: int ensures Shows(before.rows, q, f, x)
      <==> q in MapOf(before.rows) && f in MapOf(before.rows)[q] && MapOf(before.rows)[q][f] == x
    {
      MapShows(before.rows, q, f, x);
    }
    forall y: int ensures Shows(after.rows, q, f, y)
      <==> q in MapOf(after.rows) && f in MapOf(after.rows)[q] && MapOf(after.rows)[q][f] == y
    {
      MapShows(after.rows, q, f, y);
    }
    hide MapOf, Shows, DeltaMeans, Reports, Usable;
    if Common(MapOf(before.rows), MapOf(after.rows), q, f) {
      var x, y := MapOf(before.rows)[q][f], MapOf(after.rows)[q][f];
      assert Shows(before.rows, q, f, x) && Shows(after.rows, q, f, y);
    }
  }

  /** Two snapshots can be subtracted exactly when both were observed, dated, and show some queue in common. */
  lemma UsableIff(before: Snapshot, after: Snapshot)
    ensures Usable(before, after) <==>
      && before.status in {Partial, Observed} && after.status in {Partial, Observed}
      && before.observedAt.Some? && after.observedAt.Some?
      && exists q, f, x: int, g, y: int :: Shows(before.rows, q, f, x) && Shows(after.rows, q, g, y)
  {
    ShownQueues(before.rows);
    ShownQueues(after.rows);
    hide MapOf, Shows;
    Inhabited(MapOf(before.rows).Keys * MapOf(after.rows).Keys);
    if q, f, x: int, g, y: int :| Shows(before.rows, q, f, x) && Shows(after.rows, q, g, y) {
      assert q in MapOf(before.rows).Keys * MapOf(after.rows).Keys;
    }
    if q :| q in MapOf(before.rows).Keys * MapOf(after.rows).Keys {
      var f, x: int :| Shows(before.rows, q, f, x);
      var g, y: int :| Shows(after.rows, q, g, y);
    }
  }

  lemma ShownQueues(rows: seq<Row>)
    ensures forall q :: q in MapOf(rows) <==> exists f, x: int :: Shows(rows, q, f, x)
  {
    MapRowsNonEmpty(rows);
    forall q ensures q in MapOf(rows) <==> exists f, x: int :: Shows(rows, q, f, x) {
      hide Shows;
      if q in MapOf(rows) {
        var f :| f in MapOf(rows)[q];
        MapShows(rows, q, f, MapOf(rows)[q][f]);
      }
      if f, x: int :| Shows(rows, q, f, x) { MapShows(rows, q, f, x); }
    }
  }

  lemma RowValue(b: map<int, Values>, a: map<int, Values>, row: DeltaRow, f: Field)
    requires RowMeans(b, a, row)
    ensures f in row.counters <==> Kept(b, a, row.queue, f)
    ensures f in row.counters ==> b[row.queue][f] + row.counters[f] == a[row.queue][f]
  {
  }

  /** A usable delta reports exactly `after - before` on every common field that did not decrease. */
  lemma ReportsDifference(before: Snapshot, after: Snapshot, d: Delta, q: int, f: Field, v: nat)
    requires DeltaMeans(before, after, d) && Usable(before, after)
    ensures var b, a := MapOf(before.rows), MapOf(after.rows);
      Reports(d, q, f, v) <==> Common(b, a, q, f) && b[q][f] + v == a[q][f]
  {
    var b, a := MapOf(before.rows), MapOf(after.rows);
    hide MapOf, RowMeans;
    forall i | 0 <= i < |d.rows| && d.rows[i].queue == q
      ensures f in d.rows[i].counters <==> Kept(b, a, q, f)
      ensures f in d.rows[i].counters ==> b[q][f] + d.rows[i].counters[f] == a[q][f]
    {
      RowValue(b, a, d.rows[i], f);
    }
    if Common(b, a, q, f) && b[q][f] + v == a[q][f] {
      assert Kept(b, a, q, f);
      var i :| 0 <= i < |d.rows| && d.rows[i].queue == q;
      assert d.rows[i].counters[f] == v;
    }
  }

  /**
    Two complete windows that meet make a complete window, and every field of
    every queue of the long one is the sum of the two short ones.
   */
  lemma WindowsTelescope(x: Snapshot, y: Snapshot, z: Snapshot, first: Delta, second: Delta, whole: Delta)
    requires DeltaMeans(x, y, first) && DeltaMeans(y, z, second) && DeltaMeans(x, z, whole)
    requires first.status == CompleteDelta && second.status == CompleteDelta
    ensures whole.status == CompleteDelta && whole.resets == []
    ensures forall q, f, v: nat, w: nat :: Reports(first, q, f, v) && Reports(second, q, f, w) ==> Reports(whole, q, f, v + w)
    ensures forall q, f, u: nat :: Reports(whole, q, f, u) ==>
      exists v: nat, w: nat :: Reports(first, q, f, v) && Reports(second, q, f, w) && v + w == u
  {
    hide RowMeans, MapOf;
    AlignedTransitive(x, y, z);
    NoResets(x, z, whole);
    hide DeltaMeans, Aligned, Usable, MapOf, Reports;
    forall q, f, v: nat, w: nat | Reports(first, q, f, v) && Reports(second, q, f, w)
      ensures Reports(whole, q, f, v + w)
    {
      SumsForward(x, y, z, first, second, whole, q, f, v, w);
    }
    forall q, f, u: nat | Reports(whole, q, f, u)
      ensures exists v: nat, w: nat :: Reports(first, q, f, v) && Reports(second, q, f, w) && v + w == u
    {
      SumsBack(x, y, z, first, second, whole, q, f, u);
    }
  }

  lemma NoResets(before: Snapshot, after: Snapshot, d: Delta)
    requires DeltaMeans(before, after, d) && Usable(before, after) && Aligned(before, after)
    ensures d.resets == []
  {
    hide MapOf, RowMeans;
    forall q, f ensures (q, f) !in d.resets {
      assert !Decreased(MapOf(before.rows), MapOf(after.rows), q, f);
    }
    EmptyOrHas(d.resets);
    forall x ensures x !in d.resets { assert x == (x.0, x.1); }
  }

  lemma SumsForward(x: Snapshot, y: Snapshot, z: Snapshot, first: Delta, second: Delta, whole: Delta,
                    q: int, f: Field, v: nat, w: nat)
    requires DeltaMeans(x, y, first) && DeltaMeans(y, z, second) && DeltaMeans(x, z, whole)
    requires Usable(x, y) && Usable(y, z) && Usable(x, z)
    requires Reports(first, q, f, v) && Reports(second, q, f, w)
    ensures Reports(whole, q, f, v + w)
  {
    hide MapOf, DeltaMeans, Reports, Usable;
    ReportsDifference(x, y, first, q, f, v);
    ReportsDifference(y, z, second, q, f, w);
    ReportsDifference(x, z, whole, q, f, v + w);
  }

  lemma SumsBack(x: Snapshot, y: Snapshot, z: Snapshot, first: Delta, second: Delta, whole: Delta,
                 q: int, f: Field, u: nat)
    requires DeltaMeans(x, y, first) && DeltaMeans(y, z, second) && DeltaMeans(x, z, whole)
    requires Usable(x, y) && Usable(y, z) && Usable(x, z) && Aligned(x, y) && Aligned(y, z)
    requires Reports(whole, q, f, u)
    ensures exists v: nat, w: nat :: Reports(first, q, f, v) && Reports(second, q, f, w) && v + w == u
  {
    hide MapOf, DeltaMeans, Reports, Usable;
    var a, b, c := MapOf(x.rows), MapOf(y.rows), MapOf(z.rows);
    ReportsDifference(x, z, whole, q, f, u);
    assert Common(a, b, q, f) && Common(b, c, q, f) && !Decreased(a, b, q, f) && !Decreased(b, c, q, f);
    var v: nat, w: nat := b[q][f] - a[q][f], c[q][f] - b[q][f];
    ReportsDifference(x, y, first, q, f, v);
    ReportsDifference(y, z, second, q, f, w);
    assert v + w == u;
  }

  lemma AlignedTransitive(x: Snapshot, y: Snapshot, z: Snapshot)
    requires Usable(x, y) && Usable(y, z) && Aligned(x, y) && Aligned(y, z)
    ensures Usable(x, z) && Aligned(x, z)
  {
    var a, b, c := MapOf(x.rows), MapOf(y.rows), MapOf(z.rows);
    hide MapOf;
    Inhabited(a.Keys * b.Keys);
    var q :| q in a.Keys * b.Keys;
    assert q in a.Keys * c.Keys;
    forall q, f | Common(a, c, q, f) ensures !Decreased(a, c, q, f) {
      assert Common(a, b, q, f) && Common(b, c, q, f);
      assert !Decreased(a, b, q, f) && !Decreased(b, c, q, f);
    }
  }

  // ---- Distributions ------------------------------------------------------------------

  datatype Distribution = Distribution(reported: nat, active: nat, total: nat, busiest: Option<(int, nat)>)

  function ValuesOf(rows: seq<DeltaRow>, f: Field): seq<(int, nat)> {
    if |rows| == 0 then [] else
      var last := rows[|rows| - 1];
      ValuesOf(rows[..|rows| - 1], f) + if f in last.counters then [(last.queue, last.counters[f])] else []
  }

  /** The values listed for a field are those of the rows that have one, row by row. */
  lemma {:induction false} ValuesListed(rows: seq<DeltaRow>, f: Field)
    ensures |ValuesOf(rows, f)| == |Filter(rows, Has(f))|
    ensures forall k :: 0 <= k < |ValuesOf(rows, f)| ==>
      var row := Filter(rows, Has(f))[k];
      f in row.counters && ValuesOf(rows, f)[k] == (row.queue, row.counters[f])
  {
    if |rows| > 0 { ValuesListed(rows[..|rows| - 1], f); }
  }

  function Has(f: Field): DeltaRow -> bool { (row: DeltaRow) => f in row.counters }

  function SumOf(values: seq<(int, nat)>): nat {
    if |values| == 0 then 0 else SumOf(values[..|values| - 1]) + values[|values| - 1].1
  }

  function Positive(): ((int, nat)) -> bool { (v: (int, nat)) => v.1 > 0 }

  /** Python's `max`: the first entry that no other exceeds. */
  ghost predicate FirstMax(values: seq<(int, nat)>, peak: (int, nat)) {
    exists k :: 0 <= k < |values| && values[k] == peak
      && (forall j :: 0 <= j < |values| ==> values[j].1 <= peak.1)
      && (forall j :: 0 <= j < k ==> values[j].1 < peak.1)
  }

  ghost predicate DistributionMeans(values: seq<(int, nat)>, d: Distribution) {
    && d.reported == |values| && d.active == Count(values, Positive()) && d.total == SumOf(values)
    && (d.busiest.None? <==> d.total == 0)
    && (d.busiest.Some? ==> FirstMax(values, d.busiest.value) && d.busiest.value.1 > 0)
  }

  method CounterDistribution(rows: seq<DeltaRow>, f: Field) returns (d: Distribution)
    ensures DistributionMeans(ValuesOf(rows, f), d)
  {
    var values: seq<(int, nat)> := [];
    for i := 0 to |rows|
      invariant values == ValuesOf(rows[..i], f)
    {
      assert rows[..i + 1][..i] == rows[..i];
      if f in rows[i].counters { values := values + [(rows[i].queue, rows[i].counters[f])]; }
    }
    assert rows[..|rows|] == rows;
    d := Distribute(values);
  }

  method Distribute(values: seq<(int, nat)>) returns (d: Distribution)
    ensures DistributionMeans(values, d)
  {
    hide FirstMax, Count, SumOf, Positive;
    var total, active, busiest: Option<(int, nat)> := 0, 0, None;
    StartOfScan();
    for i := 0 to |values|
      invariant Scanned(values[..i], total, active, busiest)
    {
      ScanOne(values[..i], values[i], total, active, busiest);
      assert values[..i + 1] == values[..i] + [values[i]];
      if values[i].1 > 0 {
        active := active + 1;
        if busiest.None? || values[i].1 > busiest.value.1 { busiest := Some(values[i]); }
      }
      total := total + values[i].1;
    }
    assert values[..|values|] == values;
    d := Distribution(|values|, active, total, busiest);
  }

  /** What the loop knows of the values it has seen. */
  ghost predicate Scanned(head: seq<(int, nat)>, total: nat, active: nat, busiest: Option<(int, nat)>) {
    && total == SumOf(head) && active == Count(head, Positive())
    && (busiest.None? <==> total == 0)
    && (busiest.None? ==> forall j :: 0 <= j < |head| ==> head[j].1 == 0)
    && (busiest.Some? ==> FirstMax(head, busiest.value) && busiest.value.1 > 0)
  }

  lemma StartOfScan()
    ensures Scanned([], 0, 0, None)
  {
  }

  lemma ScanOne(head: seq<(int, nat)>, next: (int, nat), total: nat, active: nat, busiest: Option<(int, nat)>)
    requires Scanned(head, total, active, busiest)
    ensures Scanned(head + [next], total + next.1, if next.1 > 0 then active + 1 else active,
                    if next.1 > 0 && (busiest.None? || next.1 > busiest.value.1) then Some(next) else busiest)
  {
    CountAppend(head, next, Positive());
    assert (head + [next])[..|head|] == head;
    assert SumOf(head + [next]) == SumOf(head) + next.1;
    hide SumOf, Count;
    if next.1 > 0 && (busiest.None? || next.1 > busiest.value.1) {
      NewMax(head, next, busiest);
    } else if busiest.Some? {
      MaxKept(head, next, busiest.value);
    }
    hide FirstMax;
  }

  lemma NewMax(head: seq<(int, nat)>, next: (int, nat), busiest: Option<(int, nat)>)
    requires busiest.None? ==> forall j :: 0 <= j < |head| ==> head[j].1 == 0
    requires busiest.Some? ==> FirstMax(head, busiest.value)
    requires next.1 > 0 && (busiest.None? || next.1 > busiest.value.1)
    ensures FirstMax(head + [next], next)
  {
    var all := head + [next];
    assert all[|head|] == next && forall j :: 0 <= j < |head| ==> all[j] == head[j];
  }

  lemma MaxKept(head: seq<(int, nat)>, next: (int, nat), peak: (int, nat))
    requires FirstMax(head, peak) && next.1 <= peak.1
    ensures FirstMax(head + [next], peak)
  {
    var all := head + [next];
    var k :| 0 <= k < |head| && head[k] == peak
      && (forall j :: 0 <= j < |head| ==> head[j].1 <= peak.1)
      && (forall j :: 0 <= j < k ==> head[j].1 < peak.1);
    assert all[k] == peak && forall j :: 0 <= j < |head| ==> all[j] == head[j];
  }

  /** The busiest queue holds at most everything and at least an equal share among the active queues. */
  lemma BusiestShare(values: seq<(int, nat)>, d: Distribution)
    requires DistributionMeans(values, d) && d.busiest.Some?
    ensures 1 <= d.active <= d.reported
    ensures d.busiest.value.1 <= d.total <= d.active * d.busiest.value.1
  {
    var k :| 0 <= k < |values| && values[k] == d.busiest.value;
    PartAtMostSum(values, k);
    SumAtMostShare(values, d.busiest.value.1);
    CountPositive(values, Positive());
    assert Positive()(values[k]);
    FilterSound(values, Positive());
    CountAtMostLength(values, Positive());
  }

  lemma {:induction false} CountAtMostLength<T>(s: seq<T>, p: T -> bool)
    ensures Count(s, p) <= |s|
  {
    if |s| > 0 { CountAtMostLength(s[..|s| - 1], p); }
  }

  lemma {:induction false} PartAtMostSum(values: seq<(int, nat)>, k: nat)
    requires k < |values|
    ensures values[k].1 <= SumOf(values)
  {
    if k < |values| - 1 { PartAtMostSum(values[..|values| - 1], k); }
  }

  lemma {:induction false} SumAtMostShare(values: seq<(int, nat)>, peak: nat)
    requires forall j :: 0 <= j < |values| ==> values[j].1 <= peak
    ensures SumOf(values) <= Count(values, Positive()) * peak
  {
    if |values| > 0 {
      SumAtMostShare(values[..|values| - 1], peak);
      var n := Count(values[..|values| - 1], Positive());
      assert (n + 1) * peak == n * peak + peak;
    }
  }

  // ---- The interface delta ---------------------------------------------------------------

  /** `break`s at the first field that is missing or went down; then nothing is reported. */
  method InterfaceDelta(before: map<Field, int>, after: map<Field, int>) returns (deltas: Option<Values>)
    ensures deltas.Some? <==> forall f :: f in before && f in after && before[f] <= after[f]
    ensures deltas.Some? ==> forall f :: f in deltas.value && before[f] + deltas.value[f] == after[f]
  {
    var found: Values := map[];
    for i := 0 to |FIELDS|
      invariant forall f :: f in found <==> f in FIELDS[..i]
      invariant forall f :: f in found ==> f in before && f in after && before[f] + found[f] == after[f]
    {
      var field := FIELDS[i];
      assert FIELDS[..i + 1] == FIELDS[..i] + [field];
      if field !in before || field !in after || after[field] < before[field] { return None; }
      found := found[field := after[field] - before[field]];
    }
    forall f ensures f in FIELDS[..|FIELDS|] { EveryField(f); }
    deltas := Some(found);
  }
}
