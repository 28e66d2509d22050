/**
  The RSS indirection table: which lines belong to the table, which entries are
  kept, and how they are distributed over queues. Each line arrives classified by
  the texts the parser looks for.
 */
module Rss {
  import opened Wrappers
  import opened Ordering
  import opened QueueDelta

  const MAX_LINES := 4096
  const MAX_ENTRIES := 4096
  const MAX_QUEUE := 127

  datatype Line =
    | TableHeader
    | KeyHeader
    | FunctionHeader
    | Other(row: Option<seq<nat>>, hash: Option<(string, bool)>)

  datatype Section = Outside | InTable | InFunctions

  function SectionAfter(section: Section, line: Line): Section {
    match line
    case TableHeader => InTable
    case KeyHeader => Outside
    case FunctionHeader => InFunctions
    case Other(_, _) => section
  }

  function SectionOf(lines: seq<Line>): Section {
    if |lines| == 0 then Outside else SectionAfter(SectionOf(lines[..|lines| - 1]), lines[|lines| - 1])
  }

  /** The queues a line lists, when it is a row of the table. */
  function RowIn(section: Section, line: Line): seq<nat> {
    if section == InTable && line.Other? && line.row.Some? then line.row.value else []
  }

  predicate Header(line: Line) { line.TableHeader? || line.KeyHeader? || line.FunctionHeader? }

  /** `k` is the last header among the lines. */
  predicate LastHeader(lines: seq<Line>, k: nat) {
    k < |lines| && Header(lines[k]) && forall j :: k < j < |lines| ==> !Header(lines[j])
  }

  /** A line is inside the table, or among the hash functions, exactly when that is what the last header opened. */
  lemma {:induction false} SectionIsLastHeader(lines: seq<Line>)
    ensures SectionOf(lines) == InTable <==> exists k: nat :: LastHeader(lines, k) && lines[k] == TableHeader
    ensures SectionOf(lines) == InFunctions <==> exists k: nat :: LastHeader(lines, k) && lines[k] == FunctionHeader
  {
    if |lines| > 0 {
      var init, last := lines[..|lines| - 1], lines[|lines| - 1];
      SectionIsLastHeader(init);
      forall k: nat ensures LastHeader(lines, k) <==> if Header(last) then k == |lines| - 1 else LastHeader(init, k) {
        LastHeaderPush(init, last, k);
        assert lines == init + [last];
      }
      hide LastHeader;
      if Header(last) {
        assert LastHeader(lines, |lines| - 1);
      } else {
        forall k: nat | LastHeader(init, k) ensures k < |init| && lines[k] == init[k] { HeaderBound(init, k); }
        assert forall k: nat :: LastHeader(init, k) ==> LastHeader(lines, k);
      }
    }
  }

  lemma HeaderBound(lines: seq<Line>, k: nat)
    requires LastHeader(lines, k)
    ensures k < |lines|
  {
  }

  lemma LastHeaderPush(init: seq<Line>, last: Line, k: nat)
    ensures LastHeader(init + [last], k) <==> if Header(last) then k == |init| else LastHeader(init, k)
  {
    var all := init + [last];
    assert all[|init|] == last && forall j :: 0 <= j < |init| ==> all[j] == init[j];
  }

  /** Every queue the table lists, in order. */
  function Listed(lines: seq<Line>): seq<nat> {
    if |lines| == 0 then [] else
      Listed(lines[..|lines| - 1]) + RowIn(SectionOf(lines[..|lines| - 1]), lines[|lines| - 1])
  }

  function InRange(): nat -> bool { (queue: nat) => queue <= MAX_QUEUE }

  function Capped(s: seq<nat>): seq<nat> { if |s| > MAX_ENTRIES then s[..MAX_ENTRIES] else s }

  /** Something listed was not kept. */
  predicate Dropped(listed: seq<nat>) {
    |Filter(listed, InRange())| != |listed| || |Filter(listed, InRange())| > MAX_ENTRIES
  }

  lemma KeepPush(seen: seq<nat>, queue: nat)
    ensures Dropped(seen + [queue]) <==> Dropped(seen) || queue > MAX_QUEUE || |Capped(Filter(seen, InRange()))| >= MAX_ENTRIES
    ensures Capped(Filter(seen + [queue], InRange()))
         == if queue > MAX_QUEUE || |Capped(Filter(seen, InRange()))| >= MAX_ENTRIES
            then Capped(Filter(seen, InRange())) else Capped(Filter(seen, InRange())) + [queue]
  {
    FilterPush(seen, queue, InRange());
    FilterShorter(seen, InRange());
  }

  /** The inner loop over one row, with its `continue` and `break`. */
  method KeepRow(row: seq<nat>, kept: seq<nat>, flagged: bool, ghost listed: seq<nat>)
    returns (entries: seq<nat>, incomplete: bool)
    requires kept == Capped(Filter(listed, InRange()))
    requires flagged <==> Dropped(listed)
    ensures entries == Capped(Filter(listed + row, InRange()))
    ensures incomplete <==> Dropped(listed + row)
  {
    hide Dropped, Capped, Filter;
    entries, incomplete := kept, flagged;
    ghost var seen := listed;
    assert listed + row[..0] == listed;
    for i := 0 to |row|
      invariant seen == listed + row[..i]
      invariant entries == Capped(Filter(seen, InRange()))
      invariant incomplete <==> Dropped(seen)
    {
      var queue: nat := row[i];
      KeepPush(seen, queue);
      assert listed + row[..i + 1] == seen + [queue];
      if queue > MAX_QUEUE {
        incomplete := true;
      } else if |entries| >= MAX_ENTRIES {
        incomplete := true;
        KeepFull(seen, row[i..]);
        assert listed + row == seen + row[i..];
        return;
      } else {
        entries := entries + [queue];
      }
      seen := seen + [queue];
    }
    assert row[..|row|] == row;
  }

  /** Once the table is full, the rest of the row changes nothing but the flag. */
  lemma KeepFull(seen: seq<nat>, rest: seq<nat>)
    requires |Capped(Filter(seen, InRange()))| >= MAX_ENTRIES && rest != []
    ensures Capped(Filter(seen + rest, InRange())) == Capped(Filter(seen, InRange())) && Dropped(seen + rest)
  {
    FilterConcat(seen, rest, InRange());
    FilterShorter(seen, InRange());
    FilterShorter(rest, InRange());
  }

  lemma {:induction false} FilterShorter(s: seq<nat>, p: nat -> bool)
    ensures |Filter(s, p)| <= |s|
  {
    if |s| > 0 { FilterShorter(s[..|s| - 1], p); }
  }

  lemma ListedPush(lines: seq<Line>, line: Line)
    ensures SectionOf(lines + [line]) == SectionAfter(SectionOf(lines), line)
    ensures Listed(lines + [line]) == Listed(lines) + RowIn(SectionOf(lines), line)
    ensures HashesOf(lines + [line]) == Switched(HashesOf(lines), HashIn(SectionOf(lines), line))
  {
    assert (lines + [line])[..|lines|] == lines;
  }

  const FUNCTIONS := {"toeplitz", "xor", "crc32"}

  /** The hash function a line switches, when it is listed among the functions and known. */
  function HashIn(section: Section, line: Line): Option<(string, bool)> {
    if section == InFunctions && line.Other? && line.hash.Some? && line.hash.value.0 in FUNCTIONS then line.hash else None
  }

  function Switched(found: map<string, bool>, hash: Option<(string, bool)>): map<string, bool> {
    if hash.Some? then found[hash.value.0 := hash.value.1] else found
  }

  function HashesOf(lines: seq<Line>): map<string, bool> {
    if |lines| == 0 then map[] else
      Switched(HashesOf(lines[..|lines| - 1]), HashIn(SectionOf(lines[..|lines| - 1]), lines[|lines| - 1]))
  }

  function SwitchAt(lines: seq<Line>, k: nat): Option<(string, bool)>
    requires k < |lines|
  {
    HashIn(SectionOf(lines[..k]), lines[k])
  }

  lemma SwitchAtPush(lines: seq<Line>, line: Line, k: nat)
    requires k <= |lines|
    ensures SwitchAt(lines + [line], k) == if k < |lines| then SwitchAt(lines, k) else HashIn(SectionOf(lines), line)
  {
    var all := lines + [line];
    assert all[..k] == lines[..k] && lines[..|lines|] == lines;
  }

  /** Line `j` switches this function. */
  predicate SwitchesAt(lines: seq<Line>, j: nat, name: string)
    requires j < |lines|
  {
    SwitchAt(lines, j).Some? && SwitchAt(lines, j).value.0 == name
  }

  /** Line `k` is the last that switches this function, and says `on`. */
  ghost predicate LastSwitch(lines: seq<Line>, name: string, on: bool, k: nat) {
    && k < |lines| && SwitchesAt(lines, k, name) && SwitchAt(lines, k).value.1 == on
    && forall j: nat :: k < j < |lines| ==> !SwitchesAt(lines, j, name)
  }

  lemma LastSwitchPush(lines: seq<Line>, line: Line, name: string, on: bool, k: nat)
    ensures var hash := HashIn(SectionOf(lines), line);
      LastSwitch(lines + [line], name, on, k) <==>
        if hash.Some? && hash.value.0 == name then k == |lines| && hash.value.1 == on else LastSwitch(lines, name, on, k)
  {
    hide HashIn, SectionOf, SwitchAt;
    var all := lines + [line];
    forall j: nat | j <= |lines|
      ensures SwitchAt(all, j) == if j < |lines| then SwitchAt(lines, j) else HashIn(SectionOf(lines), line)
    {
      SwitchAtPush(lines, line, j);
    }
    var n := |lines|;
    assert SwitchAt(all, n) == HashIn(SectionOf(lines), line);
    forall j: nat | j < n ensures SwitchesAt(all, j, name) <==> SwitchesAt(lines, j, name) {
    }
    if SwitchesAt(all, n, name) {
      assert LastSwitch(all, name, on, k) ==> !(k < n);
    } else {
      assert LastSwitch(all, name, on, k) ==> k < n;
      if k < n { assert SwitchAt(all, k) == SwitchAt(lines, k); }
    }
  }

  /** A function is reported as its last line says. */
  lemma {:induction false} HashIsLastSwitch(lines: seq<Line>, name: string, on: bool)
    ensures name in HashesOf(lines) && HashesOf(lines)[name] == on <==> exists k: nat :: LastSwitch(lines, name, on, k)
  {
    if |lines| > 0 {
      var init, last := lines[..|lines| - 1], lines[|lines| - 1];
      assert lines == init + [last];
      HashIsLastSwitch(init, name, on);
      hide LastSwitch, HashIn, SectionOf;
      forall k: nat ensures var hash := HashIn(SectionOf(init), last);
        LastSwitch(lines, name, on, k) <==>
          if hash.Some? && hash.value.0 == name then k == |init| && hash.value.1 == on else LastSwitch(init, name, on, k)
      {
        LastSwitchPush(init, last, name, on, k);
      }
      var hash := HashIn(SectionOf(init), last);
      if hash.Some? && hash.value.0 == name && hash.value.1 == on { assert LastSwitch(lines, name, on, |init|); }
    }
  }

  datatype Table = Table(entries: seq<nat>, incomplete: bool, hashes: map<string, bool>)

  /** One turn of the outer loop. */
  method Turn(line: Line, section: Section, kept: seq<nat>, flagged: bool, found: map<string, bool>, ghost listed: seq<nat>)
    returns (after: Section, entries: seq<nat>, dropped: bool, hashes: map<string, bool>)
    requires kept == Capped(Filter(listed, InRange())) && (flagged <==> Dropped(listed))
    ensures after == SectionAfter(section, line)
    ensures entries == Capped(Filter(listed + RowIn(section, line), InRange()))
    ensures dropped <==> Dropped(listed + RowIn(section, line))
    ensures hashes == Switched(found, HashIn(section, line))
  {
    after, entries, dropped, hashes := section, kept, flagged, found;
    assert listed + [] == listed;
    match line {
      case TableHeader => after := InTable;
      case KeyHeader => after := Outside;
      case FunctionHeader => after := InFunctions;
      case Other(row, hash) =>
        if section == InTable {
          if row.Some? { entries, dropped := KeepRow(row.value, kept, flagged, listed); }
        } else if section == InFunctions && hash.Some? {
          if hash.value.0 in FUNCTIONS { hashes := found[hash.value.0 := hash.value.1]; }
        }
    }
  }

  method ParseTable(lines: seq<Line>) returns (t: Table)
    ensures var considered := if |lines| > 4096 then lines[..4096] else lines;
      var inRange := Filter(Listed(considered), InRange());
      && t.entries == (if |inRange| > 4096 then inRange[..4096] else inRange)
      && (t.incomplete <==> |lines| > 4096 || |inRange| != |Listed(considered)| || |inRange| > 4096)
      && forall queue :: queue in inRange <==> queue in Listed(considered) && queue <= 127
    ensures t.hashes == HashesOf(if |lines| > 4096 then lines[..4096] else lines)
  {
    hide Dropped, Capped, Filter, Listed, SectionOf, HashesOf;
    var limit := if |lines| < MAX_LINES then |lines| else MAX_LINES;
    var entries: seq<nat>, dropped, section, hashes: map<string, bool> := [], false, Outside, map[];
    assert lines[..0] == [];
    NothingListed();
    for i := 0 to limit
      invariant section == SectionOf(lines[..i])
      invariant entries == Capped(Filter(Listed(lines[..i]), InRange()))
      invariant dropped <==> Dropped(Listed(lines[..i]))
      invariant hashes == HashesOf(lines[..i])
    {
      ListedPush(lines[..i], lines[i]);
      assert lines[..i + 1] == lines[..i] + [lines[i]];
      section, entries, dropped, hashes := Turn(lines[i], section, entries, dropped, hashes, Listed(lines[..i]));
    }
    assert limit == |lines| ==> lines[..limit] == lines;
    WhatIsKept(Listed(lines[..limit]));
    t := Table(entries, dropped || |lines| > MAX_LINES, hashes);
  }

  lemma NothingListed()
    ensures SectionOf([]) == Outside && Listed([]) == [] && HashesOf([]) == map[]
    ensures Capped(Filter([], InRange())) == [] && !Dropped([])
  {
  }

  lemma WhatIsKept(listed: seq<nat>)
    ensures var inRange := Filter(listed, InRange());
      && Capped(inRange) == (if |inRange| > 4096 then inRange[..4096] else inRange)
      && (Dropped(listed) <==> |inRange| != |listed| || |inRange| > 4096)
      && forall queue :: queue in inRange <==> queue in listed && queue <= 127
  {
    FilterSound(listed, InRange());
  }

  lemma {:induction false} FullFilterKeepsAll(s: seq<nat>, p: nat -> bool)
    requires |Filter(s, p)| == |s|
    ensures Filter(s, p) == s
  {
    if |s| > 0 {
      FilterShorter(s[..|s| - 1], p);
      FullFilterKeepsAll(s[..|s| - 1], p);
    }
  }

  /** A table that is not flagged kept every listed entry, in order. */
  lemma UnflaggedTableIsWhole(listed: seq<nat>)
    ensures !Dropped(listed) <==> Capped(Filter(listed, InRange())) == listed
  {
    FilterShorter(listed, InRange());
    if !Dropped(listed) { FullFilterKeepsAll(listed, InRange()); }
  }

  // ---- The distribution over queues -----------------------------------------------

  function Equals(queue: int): nat -> bool { (entry: nat) => entry == queue }

  function RowsOf(queues: seq<int>, entries: seq<nat>): seq<(int, nat)> {
    seq(|queues|, i requires 0 <= i < |queues| => (queues[i], Count(entries, Equals(queues[i]))))
  }

  method Tallied(entries: seq<nat>) returns (counts: map<int, nat>)
    ensures forall queue: int :: queue in counts <==> Count(entries, Equals(queue)) > 0
    ensures forall queue: int :: queue in counts ==> counts[queue] == Count(entries, Equals(queue))
  {
    counts := map[];
    for i := 0 to |entries|
      invariant forall queue: int :: queue in counts <==> Count(entries[..i], Equals(queue)) > 0
      invariant forall queue: int :: queue in counts ==> counts[queue] == Count(entries[..i], Equals(queue))
    {
      var entry: int := entries[i];
      assert entries[..i + 1] == entries[..i] + [entries[i]];
      forall queue: int
        ensures Count(entries[..i + 1], Equals(queue)) == Count(entries[..i], Equals(queue)) + if entry == queue then 1 else 0
      {
        CountAppend(entries[..i], entries[i], Equals(queue));
      }
      counts := counts[entry := (if entry in counts then counts[entry] else 0) + 1];
    }
    assert entries[..|entries|] == entries;
  }

  /** No queue is listed twice, every count is the number of its entries, and the counts add up to the table. */
  ghost predicate DistributionOf(entries: seq<nat>, rows: seq<(int, nat)>) {
    && (forall i, j :: 0 <= i < j < |rows| ==> rows[i].0 < rows[j].0)
    && (forall i :: 0 <= i < |rows| ==> rows[i].1 == Count(entries, Equals(rows[i].0)) && rows[i].1 > 0)
    && SumOf(rows) == |entries|
  }

  method QueueDistribution(entries: seq<nat>) returns (rows: seq<(int, nat)>, busiest: Option<(int, nat)>)
    ensures DistributionOf(entries, rows)
    ensures forall i :: 0 <= i < |rows| ==> rows[i].1 > 0
    ensures busiest.None? <==> entries == []
    ensures busiest.Some? ==> FirstMax(rows, busiest.value)
    ensures busiest.Some? ==> busiest.value.1 <= |entries| <= |rows| * busiest.value.1
  {
    hide FirstMax;
    rows := SortedCounts(entries);
    var d := Distribute(rows);
    busiest := d.busiest;
    if busiest.Some? {
      BusiestShare(rows, d);
      Widen(d.active, |rows|, busiest.value.1);
    }
  }

  lemma Widen(n: nat, m: nat, peak: nat)
    requires n <= m
    ensures n * peak <= m * peak
  {
  }

  method SortedCounts(entries: seq<nat>) returns (rows: seq<(int, nat)>)
    ensures DistributionOf(entries, rows)
  {
    var counts := Tallied(entries);
    var queues := Ascending(counts.Keys);
    AscendingFacts(counts.Keys);
    hide Ascending, Count;
    rows := [];
    for i := 0 to |queues|
      invariant rows == RowsOf(queues[..i], entries)
    {
      assert queues[i] in queues;
      rows := rows + [(queues[i], counts[queues[i]])];
    }
    assert queues[..|queues|] == queues;
    CountsDistribute(queues, entries);
  }

  lemma CountsDistribute(queues: seq<int>, entries: seq<nat>)
    requires forall i, j :: 0 <= i < j < |queues| ==> queues[i] < queues[j]
    requires forall queue: int :: queue in queues <==> Count(entries, Equals(queue)) > 0
    ensures DistributionOf(entries, RowsOf(queues, entries))
  {
    forall i | 0 <= i < |entries| ensures entries[i] in queues {
      assert Equals(entries[i])(entries[i]);
      CountPositive(entries, Equals(entries[i]));
    }
    hide Count;
    CountsAddUp(queues, entries);
    forall i | 0 <= i < |queues| ensures Count(entries, Equals(queues[i])) > 0 { assert queues[i] in queues; }
  }

  lemma {:induction false} CountsAddUp(queues: seq<int>, entries: seq<nat>)
    requires forall i, j :: 0 <= i < j < |queues| ==> queues[i] < queues[j]
    requires forall i :: 0 <= i < |entries| ==> entries[i] in queues
    ensures SumOf(RowsOf(queues, entries)) == |entries|
  {
    if |entries| == 0 {
      AllZero(queues);
      assert entries == [];
    } else {
      var init, last := entries[..|entries| - 1], entries[|entries| - 1];
      CountsAddUp(queues, init);
      assert entries == init + [last];
      OneMore(queues, init, last);
      var k :| 0 <= k < |queues| && queues[k] == last;
      Once(queues, k);
    }
  }

  lemma {:induction false} AllZero(queues: seq<int>)
    ensures SumOf(RowsOf(queues, [])) == 0
  {
    if |queues| > 0 {
      AllZero(queues[..|queues| - 1]);
      assert RowsOf(queues, [])[..|queues| - 1] == RowsOf(queues[..|queues| - 1], []);
    }
  }

  function Is(queue: int): int -> bool { (q: int) => q == queue }

  lemma {:induction false} OneMore(queues: seq<int>, entries: seq<nat>, entry: nat)
    ensures SumOf(RowsOf(queues, entries + [entry])) == SumOf(RowsOf(queues, entries)) + Count(queues, Is(entry))
  {
    if |queues| > 0 {
      var init := queues[..|queues| - 1];
      OneMore(init, entries, entry);
      CountAppend(entries, entry, Equals(queues[|queues| - 1]));
      assert RowsOf(queues, entries)[..|init|] == RowsOf(init, entries);
      assert RowsOf(queues, entries + [entry])[..|init|] == RowsOf(init, entries + [entry]);
    }
  }

  lemma Once(queues: seq<int>, k: nat)
    requires forall i, j :: 0 <= i < j < |queues| ==> queues[i] < queues[j]
    requires k < |queues|
    ensures Count(queues, Is(queues[k])) == 1
  {
    CountWithout(queues, k, Is(queues[k]));
    CountPositive(queues[..k] + queues[k + 1..], Is(queues[k]));
  }
}
