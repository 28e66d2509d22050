/**
  Reading and parsing pgbench transaction logs: the byte budget of the reader, the
  newline that joins the files, the row checks, and what `complete` can mean.
  Text is ASCII; `\n` is the only line break.
 */
module TransactionLog {
  import opened Texts
  import opened Wrappers
  import opened Decimals
  import opened Ordering
  import opened Percentiles

  const MAX_BYTES: nat := 8 * 1024 * 1024
  const MAX_ROWS := 20_000
  const MAX_LATENCY_US := 3_600_000_000.0

  // ---- The reader ------------------------------------------------------------------

  /** A log file: its bytes, or None when it cannot be opened. */
  type LogFile = Option<string>

  function Readable(files: seq<LogFile>): string {
    if |files| == 0 then "" else Readable(files[..|files| - 1]) + files[|files| - 1].GetOr("")
  }

  function Concat(chunks: seq<string>): string {
    if |chunks| == 0 then "" else Concat(chunks[..|chunks| - 1]) + chunks[|chunks| - 1]
  }

  /** The first `k` files could be read, and none of them found the budget used up. */
  ghost predicate WholeUpTo(files: seq<LogFile>, budget: nat, k: nat)
    requires k <= |files|
  {
    forall i :: 0 <= i < k ==> files[i].Some? && |Readable(files[..i])| < budget
  }

  /** Nothing was left out. */
  ghost predicate ReadWhole(files: seq<LogFile>, budget: nat) {
    WholeUpTo(files, budget, |files|) && |Readable(files)| <= budget
  }

  lemma SpentOut(files: seq<LogFile>, budget: nat, k: nat)
    requires k < |files| && |Readable(files[..k])| >= budget
    ensures !ReadWhole(files, budget)
  {
  }

  lemma Overflows(files: seq<LogFile>, budget: nat, k: nat)
    requires k <= |files| && |Readable(files[..k])| > budget
    ensures !ReadWhole(files, budget)
  {
    ReadableGrows(files, k);
  }

  ghost predicate SameChunks(files: seq<LogFile>, chunks: seq<string>) {
    |chunks| <= |files| && forall i :: 0 <= i < |chunks| ==> files[i] == Some(chunks[i])
  }

  lemma ReadablePush(files: seq<LogFile>, k: nat)
    requires k < |files|
    ensures Readable(files[..k + 1]) == Readable(files[..k]) + files[k].GetOr("")
  {
    assert files[..k + 1][..k] == files[..k];
  }

  lemma {:induction false} ReadableGrows(files: seq<LogFile>, k: nat)
    requires k <= |files|
    ensures Readable(files[..k]) <= Readable(files)
  {
    if k == |files| {
      assert files[..k] == files;
    } else {
      var init := files[..|files| - 1];
      ReadableGrows(init, k);
      assert init[..k] == files[..k];
    }
  }

  lemma ConcatPush(chunks: seq<string>, chunk: string)
    ensures Concat(chunks + [chunk]) == Concat(chunks) + chunk
  {
    assert (chunks + [chunk])[..|chunks|] == chunks;
  }

  lemma PrefixCut(a: string, c: string, r: nat, whole: string)
    requires r <= |c| && a + c <= whole
    ensures a + c[..r] <= whole
  {
    assert a + c[..r] == (a + c)[..|a| + r];
  }

  /** The loop of `_read_pgbench_latency_logs`: never more than the budget, and a flag for anything dropped. */
  method ReadLogs(files: seq<LogFile>, budget: nat) returns (chunks: seq<string>, truncated: bool)
    ensures |Concat(chunks)| <= budget
    ensures Concat(chunks) <= Readable(files)
    ensures truncated <==> !ReadWhole(files, budget)
    ensures !truncated ==> Concat(chunks) == Readable(files) && |chunks| == |files| && SameChunks(files, chunks)
  {
    assert files[..0] == [] && Readable([]) == "" && Concat([]) == "";
    assert WholeUpTo(files, budget, 0) && SameChunks(files, []);
    var remaining: nat := budget;
    chunks, truncated := [], false;
    for k := 0 to |files|
      invariant remaining == budget - |Readable(files[..k])|
      invariant Concat(chunks) == Readable(files[..k])
      invariant !truncated <==> WholeUpTo(files, budget, k)
      invariant !truncated ==> |chunks| == k && SameChunks(files, chunks)
    {
      hide Readable, Concat, ReadWhole;
      ReadablePush(files, k);
      ReadableGrows(files, k);
      ReadableGrows(files, k + 1);
      if remaining <= 0 {
        SpentOut(files, budget, k);
        truncated := true;
        return;
      }
      if files[k].None? {
        truncated := true;
        continue;
      }
      var chunk := files[k].value;
      if |chunk| > remaining {
        Overflows(files, budget, k + 1);
        PrefixCut(Readable(files[..k]), chunk, remaining, Readable(files));
        ConcatPush(chunks, chunk[..remaining]);
        chunks := chunks + [chunk[..remaining]];
        truncated := true;
        return;
      }
      ConcatPush(chunks, chunk);
      chunks := chunks + [chunk];
      remaining := remaining - |chunk|;
    }
    assert files[..|files|] == files;
  }

  // ---- Joining and splitting ----------------------------------------------------------

  /** `b"\n".join(chunks)`. */
  function Join(chunks: seq<string>): string {
    if |chunks| == 0 then "" else if |chunks| == 1 then chunks[0]
    else Join(chunks[..|chunks| - 1]) + "\n" + chunks[|chunks| - 1]
  }

  /** The length of the text before the first newline. */
  function Head(text: string): (n: nat)
    ensures n <= |text| && (n < |text| ==> text[n] == '\n')
    ensures forall i :: 0 <= i < n ==> text[i] != '\n'
  {
    if text == "" || text[0] == '\n' then 0 else 1 + Head(text[1..])
  }

  function SplitLines(text: string): seq<string>
    decreases |text|
  {
    if text == "" then [] else
      var n := Head(text);
      if n == |text| then [text] else [text[..n]] + SplitLines(text[n + 1..])
  }

  lemma {:induction false} HeadIsFirst(text: string, n: nat)
    requires n < |text| && text[n] == '\n' && forall i :: 0 <= i < n ==> text[i] != '\n'
    ensures Head(text) == n
  {
  }

  lemma SplitStep(text: string, n: nat)
    requires n < |text| && text[n] == '\n' && forall i :: 0 <= i < n ==> text[i] != '\n'
    ensures SplitLines(text) == [text[..n]] + SplitLines(text[n + 1..])
  {
    HeadIsFirst(text, n);
  }

  lemma NothingSplits()
    ensures SplitLines("") == []
  {
  }

  /** A text that ends a line splits independently of what follows. */
  lemma {:induction false} SplitAfterNewline(a: string, b: string)
    requires a != "" && a[|a| - 1] == '\n'
    ensures SplitLines(a + b) == SplitLines(a) + SplitLines(b)
    decreases |a|
  {
    hide SplitLines;
    var n := Head(a);
    hide Head;
    var h, tail := a[..n], a[n + 1..];
    SplitBoth(a, b, n);
    NothingSplits();
    if tail == "" {
      assert tail + b == b;
      Regroup([h], [], SplitLines(b));
      assert [] + SplitLines(b) == SplitLines(b);
    } else {
      assert tail[|tail| - 1] == '\n';
      SplitAfterNewline(tail, b);
      Regroup([h], SplitLines(tail), SplitLines(b));
    }
  }

  lemma SplitBoth(a: string, b: string, n: nat)
    requires n < |a| && a[n] == '\n' && forall i :: 0 <= i < n ==> a[i] != '\n'
    ensures SplitLines(a) == [a[..n]] + SplitLines(a[n + 1..])
    ensures SplitLines(a + b) == [a[..n]] + SplitLines(a[n + 1..] + b)
  {
    assert (a + b)[..n] == a[..n] && (a + b)[n + 1..] == a[n + 1..] + b;
    SplitStep(a, n);
    SplitStep(a + b, n);
  }

  lemma Regroup(x: seq<string>, y: seq<string>, z: seq<string>)
    ensures x + (y + z) == (x + y) + z
  {
  }

  /** A log that is empty or ends in a newline: the newline that joins the next one ends an empty line. */
  predicate Closed(log: string) { log == "" || log[|log| - 1] == '\n' }

  lemma {:induction false} JoinLeavesBlank(chunks: seq<string>, k: nat)
    requires k < |chunks| - 1 && Closed(chunks[k])
    ensures "" in SplitLines(Join(chunks))
  {
    var init, last := chunks[..|chunks| - 1], chunks[|chunks| - 1];
    var front := Join(init);
    assert Join(chunks) == front + ("\n" + last);
    if k == |init| - 1 {
      JoinCloses(init);
      LeadingBlank(last);
      if front == "" {
        assert front + ("\n" + last) == "\n" + last;
      } else {
        SplitAfterNewline(front, "\n" + last);
        assert SplitLines(Join(chunks))[|SplitLines(front)|] == "";
      }
    } else {
      JoinLeavesBlank(init, k);
      BlankSurvives(front, "\n" + last);
    }
  }

  lemma LeadingBlank(rest: string)
    ensures SplitLines("\n" + rest) == [""] + SplitLines(rest)
  {
    var text := "\n" + rest;
    SplitStep(text, 0);
    assert text[..0] == "" && text[1..] == rest;
  }

  lemma JoinCloses(chunks: seq<string>)
    requires |chunks| > 0 && Closed(chunks[|chunks| - 1])
    ensures Closed(Join(chunks))
  {
  }

  /** A log that is not closed is separated from the next one by the joining newline alone. */
  lemma {:induction false} SplitOpen(a: string, b: string)
    requires !Closed(a)
    ensures SplitLines(a + "\n" + b) == SplitLines(a) + SplitLines(b)
    decreases |a|
  {
    var n := Head(a);
    if n == |a| {
      RowStep(a, b);
      assert SplitLines(a) == [a];
    } else {
      SplitBoth(a, "\n" + b, n);
      var h, tail := a[..n], a[n + 1..];
      assert tail != "" && tail[|tail| - 1] == a[|a| - 1];
      hide SplitLines, Head;
      Glue(a, b);
      Glue(tail, b);
      SplitOpen(tail, b);
      Regroup([h], SplitLines(tail), SplitLines(b));
    }
  }

  lemma Glue(a: string, b: string)
    ensures a + "\n" + b == a + ("\n" + b)
  {
  }

  /** Only the last log may be closed. */
  predicate Joinable(logs: seq<string>) { forall k :: 0 <= k < |logs| - 1 ==> !Closed(logs[k]) }

  /** The lines of every log, one after the other. */
  function AllLines(logs: seq<string>): seq<string> {
    if |logs| == 0 then [] else AllLines(logs[..|logs| - 1]) + SplitLines(logs[|logs| - 1])
  }

  lemma {:induction false} JoinSplits(logs: seq<string>)
    requires Joinable(logs)
    ensures SplitLines(Join(logs)) == AllLines(logs)
  {
    hide SplitLines, Closed;
    if |logs| == 0 {
      NoLines();
    } else if |logs| == 1 {
      assert logs[..0] == [] && AllLines([]) == [];
      assert AllLines(logs) == [] + SplitLines(logs[0]);
    } else {
      var init := logs[..|logs| - 1];
      assert Joinable(init) && !Closed(init[|init| - 1]);
      JoinOpens(init);
      hide Joinable;
      JoinSplits(init);
      SplitOpen(Join(init), logs[|logs| - 1]);
    }
  }

  lemma NoLines()
    ensures SplitLines("") == []
  {
  }

  lemma JoinOpens(logs: seq<string>)
    requires |logs| > 0 && !Closed(logs[|logs| - 1])
    ensures !Closed(Join(logs))
  {
  }

  /** Appending text that starts with a newline cannot remove an empty line. */
  lemma {:induction false} BlankSurvives(a: string, b: string)
    requires "" in SplitLines(a)
    ensures "" in SplitLines(a + b)
    decreases |a|
  {
    var n := Head(a);
    if n < |a| {
      SplitBoth(a, b, n);
      hide SplitLines, Head;
      if a[..n] == "" {
        assert SplitLines(a + b)[0] == "";
      } else {
        BlankSurvives(a[n + 1..], b);
      }
    }
  }

  // ---- The parser ------------------------------------------------------------------------

  /** Python's `float`, as far as it is finite: None for malformed text, infinities and NaN. */
  type FloatParser = string -> Option<real>

  function RowLatency(line: string, float: FloatParser): Option<real> {
    var fields := Words(line);
    if |fields| < 3 || !Digital(fields[0]) || !Digital(fields[1]) then None
    else match float(fields[2])
      case None => None
      case Some(us) => if us < 0.0 || us > MAX_LATENCY_US then None else Some(us / 1000.0)
  }

  /** A line is a row exactly when it has three words, two numbers and a latency of at most an hour; it counts in milliseconds. */
  lemma RowIsValidIff(line: string, float: FloatParser, ms: real)
    ensures RowLatency(line, float) == Some(ms) <==>
      var words := Words(line);
      && |words| >= 3 && Digital(words[0]) && Digital(words[1])
      && float(words[2]).Some? && 0.0 <= float(words[2]).value <= 3_600_000_000.0 && ms * 1000.0 == float(words[2]).value
  {
    hide Words, Digital;
  }

  /** What pgbench writes is what is read: client, transaction and microseconds, separated by spaces. */
  lemma WrittenRowReadsBack(client: nat, transaction: nat, text: string, float: FloatParser)
    requires Word(text) && float(text).Some? && 0.0 <= float(text).value <= 3_600_000_000.0
    ensures RowLatency(Decimal(client) + " " + Decimal(transaction) + " " + text, float) == Some(float(text).value / 1000.0)
  {
    hide Words, Spaced, Decimal, Word, Digital;
    var words := [Decimal(client), Decimal(transaction), text];
    DecimalIsWord(client);
    DecimalIsWord(transaction);
    SpacedSplits(words);
    ThreeSpaced(Decimal(client), Decimal(transaction), text);
  }

  lemma ThreeSpaced(a: string, b: string, c: string)
    ensures Spaced([a, b, c]) == a + " " + b + " " + c
  {
    assert [a, b, c][1..] == [b, c] && [b, c][1..] == [c];
    assert Spaced([b, c]) == b + " " + c;
    assert a + " " + (b + " " + c) == a + " " + b + " " + c;
  }

  lemma DecimalIsWord(n: nat)
    ensures Word(Decimal(n)) && Digital(Decimal(n))
  {
  }

  function Accepted(float: FloatParser): string -> bool { (line: string) => RowLatency(line, float).Some? }

  /** What one line adds to the samples. */
  function Sample(line: string, float: FloatParser): seq<real> {
    match RowLatency(line, float) case Some(ms) => [ms] case None => []
  }

  function Latencies(lines: seq<string>, float: FloatParser): seq<real> {
    if |lines| == 0 then [] else Latencies(lines[..|lines| - 1], float) + Sample(lines[|lines| - 1], float)
  }

  datatype TailStatus = Unavailable | Partial | Complete

  datatype Tail = Tail(status: TailStatus, samples: nat, invalid: nat, truncated: bool, summary: Option<Summary>)

  function Considered(lines: seq<string>): seq<string> { if |lines| > MAX_ROWS then lines[..MAX_ROWS] else lines }

  /** `complete`: nothing truncated, every line a valid row, and as many rows as transactions. */
  ghost predicate Exact(text: string, expected: nat, truncated: bool, float: FloatParser) {
    var lines := SplitLines(text);
    && !truncated && |lines| <= MAX_ROWS && |lines| == expected > 0
    && forall i :: 0 <= i < |lines| ==> Accepted(float)(lines[i])
  }

  /** What the parser reports for these lines. */
  function TailOf(lines: seq<string>, expected: nat, truncated: bool, float: FloatParser): Tail {
    var considered := Considered(lines);
    var latencies := Latencies(considered, float);
    var cut := truncated || |lines| > MAX_ROWS;
    LatencyCount(considered, float);
    var invalid := |considered| - |latencies|;
    if |latencies| == 0 then Tail(Unavailable, 0, invalid, cut, None)
    else Tail(if !cut && invalid == 0 && |latencies| == expected then Complete else Partial,
              |latencies|, invalid, cut, Some(Summarize(latencies)))
  }

  lemma {:induction false} LatencyCount(lines: seq<string>, float: FloatParser)
    ensures |Latencies(lines, float)| == Count(lines, Accepted(float)) <= |lines|
  {
    if |lines| > 0 { LatencyCount(lines[..|lines| - 1], float); }
  }

  /** The report's counts and status, in terms of the lines. */
  lemma TailFacts(text: string, expected: nat, truncated: bool, float: FloatParser)
    ensures var considered, tail := Considered(SplitLines(text)), TailOf(SplitLines(text), expected, truncated, float);
      && tail.samples == Count(considered, Accepted(float))
      && tail.samples + tail.invalid == |considered|
      && (tail.summary.None? <==> tail.samples == 0) && (tail.status == Unavailable <==> tail.samples == 0)
      && (tail.summary.Some? ==>
           |Latencies(considered, float)| > 0 && tail.summary.value == Summarize(Latencies(considered, float)))
      && (tail.truncated <==> truncated || |SplitLines(text)| > MAX_ROWS)
      && (tail.status == Complete <==> Exact(text, expected, truncated, float))
  {
    hide SplitLines, RowLatency, Latencies, Summarize, Count, Accepted;
    var considered := Considered(SplitLines(text));
    LatencyCount(considered, float);
    CountAccepted(considered, float);
  }

  method ParseLatencyLog(text: string, expected: nat, truncated: bool, float: FloatParser) returns (tail: Tail)
    ensures tail == TailOf(SplitLines(text), expected, truncated, float)
    ensures var considered := Considered(SplitLines(text));
      && tail.samples == Count(considered, Accepted(float))
      && tail.samples + tail.invalid == |considered|
      && (tail.summary.None? <==> tail.samples == 0) && (tail.status == Unavailable <==> tail.samples == 0)
      && (tail.summary.Some? ==>
           |Latencies(considered, float)| > 0 && tail.summary.value == Summarize(Latencies(considered, float)))
    ensures tail.truncated <==> truncated || |SplitLines(text)| > 20_000
    ensures tail.status == Complete <==> Exact(text, expected, truncated, float)
  {
    hide RowLatency, SplitLines, Latencies, Exact, Summarize, Count, Accepted;
    TailFacts(text, expected, truncated, float);
    var lines := SplitLines(text);
    var limit := if |lines| < MAX_ROWS then |lines| else MAX_ROWS;
    var considered := lines[..limit];
    assert considered == Considered(lines);
    var latencies, invalid := CollectRows(considered, float);
    var cut := truncated || |lines| > MAX_ROWS;
    if latencies == [] { return Tail(Unavailable, 0, invalid, cut, None); }
    var complete := !cut && invalid == 0 && |latencies| == expected;
    tail := Tail(if complete then Complete else Partial, |latencies|, invalid, cut, Some(Summarize(latencies)));
  }

  method CollectRows(lines: seq<string>, float: FloatParser) returns (latencies: seq<real>, invalid: nat)
    ensures latencies == Latencies(lines, float) && |latencies| == Count(lines, Accepted(float))
    ensures |latencies| + invalid == |lines|
  {
    latencies, invalid := [], 0;
    for i := 0 to |lines|
      invariant latencies == Latencies(lines[..i], float) && |latencies| == Count(lines[..i], Accepted(float))
      invariant |latencies| + invalid == i
    {
      hide RowLatency;
      assert lines[..i + 1][..i] == lines[..i];
      var latency := RowLatency(lines[i], float);
      if latency.None? {
        invalid := invalid + 1;
        assert Latencies(lines[..i], float) + [] == Latencies(lines[..i], float);
      } else {
        latencies := latencies + [latency.value];
      }
    }
    assert lines[..|lines|] == lines;
  }

  lemma {:induction false} CountAccepted(lines: seq<string>, float: FloatParser)
    ensures Count(lines, Accepted(float)) <= |lines|
    ensures Count(lines, Accepted(float)) == |lines| <==> forall i :: 0 <= i < |lines| ==> Accepted(float)(lines[i])
  {
    if |lines| > 0 {
      var init := lines[..|lines| - 1];
      CountAccepted(init, float);
      assert forall i :: 0 <= i < |init| ==> init[i] == lines[i];
    }
  }

  // ---- The order of the rows -----------------------------------------------------------------

  lemma LatenciesPush(s: seq<string>, x: string, float: FloatParser)
    ensures Latencies(s + [x], float) == Latencies(s, float) + Sample(x, float)
  {
    hide Sample;
    assert (s + [x])[..|s|] == s;
  }

  lemma {:induction false} LatenciesWithout(s: seq<string>, k: nat, float: FloatParser)
    requires k < |s|
    ensures multiset(Latencies(s, float))
         == multiset(Latencies(s[..k] + s[k + 1..], float)) + multiset(Sample(s[k], float))
  {
    hide Sample, Latencies;
    var init, last := s[..|s| - 1], s[|s| - 1];
    assert s == init + [last];
    LatenciesPush(init, last, float);
    if k == |s| - 1 {
      assert s[..k] + s[k + 1..] == init;
    } else {
      LatenciesWithout(init, k, float);
      LatenciesPush(init[..k] + init[k + 1..], last, float);
      assert s[..k] + s[k + 1..] == (init[..k] + init[k + 1..]) + [last];
    }
  }

  lemma {:induction false} LatenciesOfMultiset(a: seq<string>, b: seq<string>, float: FloatParser)
    requires multiset(a) == multiset(b)
    ensures multiset(Latencies(a, float)) == multiset(Latencies(b, float))
  {
    SameLength(a, b);
    if |a| > 0 {
      var x, init := a[|a| - 1], a[..|a| - 1];
      LastMultiset(a);
      assert x in multiset(b);
      var k :| 0 <= k < |b| && b[k] == x;
      var rest := b[..k] + b[k + 1..];
      WithoutMultiset(b, k);
      RemoveBoth(multiset(a), multiset(b), multiset(init), multiset(rest), x);
      hide Sample, Latencies;
      LatenciesOfMultiset(init, rest, float);
      LatenciesWithout(b, k, float);
      LatenciesWithout(a, |a| - 1, float);
      assert a[..|a| - 1] + a[|a| - 1 + 1..] == init;
    }
  }

  /** The order of the log rows changes nothing that is reported, as long as none of them is cut off. */
  lemma RowOrderIsIrrelevant(text: string, other: string, expected: nat, truncated: bool, float: FloatParser)
    requires multiset(SplitLines(text)) == multiset(SplitLines(other))
    requires |SplitLines(text)| <= MAX_ROWS
    ensures TailOf(SplitLines(text), expected, truncated, float) == TailOf(SplitLines(other), expected, truncated, float)
  {
    var a, b := SplitLines(text), SplitLines(other);
    hide SplitLines, RowLatency, Latencies, Summarize;
    SameLength(a, b);
    LatenciesOfMultiset(a, b, float);
    SameLength(Latencies(a, float), Latencies(b, float));
    if |Latencies(a, float)| > 0 { SummaryIgnoresOrder(Latencies(a, float), Latencies(b, float)); }
  }

  /** `n` copies of a row, each on a line of its own. */
  function Rows(row: string, n: nat): string { if n == 0 then "" else row + "\n" + Rows(row, n - 1) }

  function Repeated(row: string, n: nat): seq<string> { seq(n, _ => row) }

  predicate OneLine(row: string) { forall i :: 0 <= i < |row| ==> row[i] != '\n' }

  lemma RowStep(row: string, rest: string)
    requires OneLine(row)
    ensures SplitLines(row + "\n" + rest) == [row] + SplitLines(rest)
  {
    var text := row + "\n" + rest;
    assert text[|row|] == '\n' && forall i :: 0 <= i < |row| ==> text[i] == row[i];
    assert text[..|row|] == row && text[|row| + 1..] == rest;
    SplitStep(text, |row|);
  }

  lemma RowsUnfold(row: string, n: nat)
    ensures n == 0 ==> Rows(row, n) == "" && Repeated(row, n) == []
    ensures n > 0 ==> Rows(row, n) == row + "\n" + Rows(row, n - 1) && Repeated(row, n) == [row] + Repeated(row, n - 1)
  {
  }

  lemma {:induction false} RowsSplit(row: string, n: nat)
    requires OneLine(row)
    ensures SplitLines(Rows(row, n)) == Repeated(row, n)
  {
    hide SplitLines, Rows, Repeated, OneLine;
    RowsUnfold(row, n);
    NothingSplits();
    if n > 0 {
      RowsSplit(row, n - 1);
      RowStep(row, Rows(row, n - 1));
    }
  }

  lemma {:induction false} RowsEnd(row: string, n: nat)
    requires n > 0
    ensures Rows(row, n) != "" && Rows(row, n)[|Rows(row, n)| - 1] == '\n'
  {
    if n > 1 { RowsEnd(row, n - 1); }
  }

  lemma {:induction false} AllRowsAccepted(row: string, n: nat, float: FloatParser)
    requires RowLatency(row, float).Some?
    ensures |Latencies(Repeated(row, n), float)| == n
  {
    hide RowLatency;
    if n > 0 {
      AllRowsAccepted(row, n - 1, float);
      assert Repeated(row, n)[..n - 1] == Repeated(row, n - 1);
    }
  }

  /** A row as pgbench writes it: client, transaction, microseconds. */
  const SAMPLE_ROW := "0 0 1"

  lemma SampleRowIsAccepted(float: FloatParser)
    requires float("1") == Some(1.0)
    ensures RowLatency(SAMPLE_ROW, float) == Some(1.0 / 1000.0)
    ensures OneLine(SAMPLE_ROW)
  {
    SampleRowWords();
    assert Digital("0");
    hide Words, Digital;
  }

  lemma SampleRowWords()
    ensures Words(SAMPLE_ROW) == ["0", "0", "1"]
  {
    var words := ["0", "0", "1"];
    assert words[1..] == ["0", "1"] && ["0", "1"][1..] == ["1"];
    assert Spaced(["0", "1"]) == "0 1" && Spaced(words) == SAMPLE_ROW;
    assert forall i :: 0 <= i < 3 ==> Word(words[i]);
    hide Words, Spaced;
    SpacedSplits(words);
  }

  /** The same lines, the empty one last or first. */
  lemma BlankLastOrFirst(row: string, n: nat)
    requires n > 0 && OneLine(row)
    ensures SplitLines(Rows(row, n) + "\n") == Repeated(row, n) + [""]
    ensures SplitLines("\n" + Rows(row, n)) == [""] + Repeated(row, n)
  {
    RowsSplit(row, n);
    RowsEnd(row, n);
    SplitAfterNewline(Rows(row, n), "\n");
    LeadingBlank("");
    LeadingBlank(Rows(row, n));
    assert "\n" + "" == "\n" && SplitLines("") == [];
    assert [""] + [] == [""];
    hide SplitLines, Rows;
  }

  lemma SamplesAfterBlank(row: string, n: nat, float: FloatParser)
    requires RowLatency(row, float).Some? && !Accepted(float)("")
    ensures |Latencies([""] + Repeated(row, n), float)| == n
  {
    AllRowsAccepted(row, n, float);
    var rows := Repeated(row, n);
    LatenciesWithout([""] + rows, 0, float);
    assert ([""] + rows)[..0] + ([""] + rows)[1..] == rows && ([""] + rows)[0] == "";
    assert Sample("", float) == [];
    hide RowLatency, Latencies;
    SameLength(Latencies([""] + rows, float), Latencies(rows, float));
  }

  /**
    The bound is needed: with one row more than the parser considers, moving an
    empty line from the end to the front changes the number of samples.
   */
  lemma RowOrderMattersBeyondTheCut(float: FloatParser)
    requires float("1") == Some(1.0)
    ensures var text, other := Rows(SAMPLE_ROW, MAX_ROWS) + "\n", "\n" + Rows(SAMPLE_ROW, MAX_ROWS);
      && multiset(SplitLines(text)) == multiset(SplitLines(other))
      && TailOf(SplitLines(text), MAX_ROWS, false, float).samples == MAX_ROWS
      && TailOf(SplitLines(other), MAX_ROWS, false, float).samples == MAX_ROWS - 1
  {
    SampleRowIsAccepted(float);
    BlankIsRejected(float);
    CutDecides(SAMPLE_ROW, MAX_ROWS, float);
  }

  lemma CutDecides(row: string, n: nat, float: FloatParser)
    requires RowLatency(row, float).Some? && !Accepted(float)("") && OneLine(row)
    requires n == MAX_ROWS
    ensures var text, other := Rows(row, n) + "\n", "\n" + Rows(row, n);
      && multiset(SplitLines(text)) == multiset(SplitLines(other))
      && TailOf(SplitLines(text), n, false, float).samples == n
      && TailOf(SplitLines(other), n, false, float).samples == n - 1
  {
    hide RowLatency, Latencies, Summarize, SplitLines, Rows;
    BlankLastOrFirst(row, n);
    AllRowsAccepted(row, n, float);
    SamplesAfterBlank(row, n - 1, float);
    var lines := Repeated(row, n);
    assert Considered(lines + [""]) == lines;
    assert Considered([""] + lines) == [""] + Repeated(row, n - 1);
    assert multiset(lines + [""]) == multiset([""] + lines);
  }

  // ---- What completeness can mean for several logs ------------------------------------------

  lemma BlankIsRejected(float: FloatParser)
    ensures !Accepted(float)("")
  {
  }

  /**
    A log before the last that is empty or ends in a newline, as pgbench ends its
    logs, is never part of a complete whole: the joining newline leaves an empty
    line, which counts as an invalid row.
   */
  lemma SeveralLogsAreNeverComplete(logs: seq<string>, k: nat, expected: nat, truncated: bool, float: FloatParser)
    requires k < |logs| - 1 && Closed(logs[k])
    ensures !Exact(Join(logs), expected, truncated, float)
  {
    hide RowLatency;
    JoinLeavesBlank(logs, k);
    BlankIsRejected(float);
    var lines := SplitLines(Join(logs));
    var i :| 0 <= i < |lines| && lines[i] == "";
  }

  predicate AcceptedLog(log: string, float: FloatParser) {
    forall i :: 0 <= i < |SplitLines(log)| ==> Accepted(float)(SplitLines(log)[i])
  }

  function LineCount(logs: seq<string>): nat {
    if |logs| == 0 then 0 else LineCount(logs[..|logs| - 1]) + |SplitLines(logs[|logs| - 1])|
  }

  /**
    The logs one by one: none before the last is empty or ends in a newline, every
    line of every log is a valid row, and together there are as many rows as
    transactions, within the parser's limit.
   */
  predicate EveryLogExact(logs: seq<string>, expected: nat, float: FloatParser) {
    && Joinable(logs)
    && (forall k :: 0 <= k < |logs| ==> AcceptedLog(logs[k], float))
    && LineCount(logs) == expected && 0 < expected <= MAX_ROWS
  }

  lemma {:induction false} AllLinesAccepted(logs: seq<string>, float: FloatParser)
    ensures |AllLines(logs)| == LineCount(logs)
    ensures (forall i :: 0 <= i < |AllLines(logs)| ==> Accepted(float)(AllLines(logs)[i]))
      <==> forall k :: 0 <= k < |logs| ==> AcceptedLog(logs[k], float)
  {
    if |logs| > 0 {
      var init, last := logs[..|logs| - 1], logs[|logs| - 1];
      AllLinesAccepted(init, float);
      hide SplitLines, Accepted;
      var before, all := AllLines(init), AllLines(logs);
      assert all == before + SplitLines(last);
      if forall i :: 0 <= i < |all| ==> Accepted(float)(all[i]) {
        assert forall i :: 0 <= i < |before| ==> all[i] == before[i];
        assert forall i :: 0 <= i < |SplitLines(last)| ==> all[|before| + i] == SplitLines(last)[i];
        forall k | 0 <= k < |logs| ensures AcceptedLog(logs[k], float) {
          if k < |init| { assert logs[k] == init[k]; }
        }
      }
      if forall k :: 0 <= k < |logs| ==> AcceptedLog(logs[k], float) {
        assert forall k :: 0 <= k < |init| ==> init[k] == logs[k];
        assert AcceptedLog(last, float);
      }
    }
  }

  /** The joined logs are complete exactly when the logs are, one by one. */
  lemma JoinedExactIff(logs: seq<string>, expected: nat, float: FloatParser)
    ensures Exact(Join(logs), expected, false, float) <==> EveryLogExact(logs, expected, float)
  {
    hide Join, SplitLines, RowLatency, AcceptedLog;
    if Joinable(logs) {
      JoinSplits(logs);
      AllLinesAccepted(logs, float);
    } else {
      var k :| 0 <= k < |logs| - 1 && Closed(logs[k]);
      SeveralLogsAreNeverComplete(logs, k, expected, false, float);
    }
  }

  function Contents(files: seq<LogFile>): seq<string> {
    seq(|files|, i requires 0 <= i < |files| => files[i].GetOr(""))
  }

  lemma ChunksAreContents(files: seq<LogFile>, chunks: seq<string>)
    requires SameChunks(files, chunks) && |chunks| == |files|
    ensures chunks == Contents(files)
  {
  }

  lemma ExactIsUntruncated(text: string, expected: nat, truncated: bool, float: FloatParser)
    ensures Exact(text, expected, truncated, float) <==> !truncated && Exact(text, expected, false, float)
  {
  }

  /** Reader and parser together: `complete` exactly when every log was read whole and the logs are exact one by one. */
  method TailEvidence(files: seq<LogFile>, expected: nat, float: FloatParser) returns (tail: Tail)
    ensures tail.status == Complete <==>
      ReadWhole(files, 8_388_608) && EveryLogExact(Contents(files), expected, float)
  {
    hide Exact, EveryLogExact, ReadWhole, RowLatency, SameChunks, TailOf;
    var chunks, truncated := ReadLogs(files, MAX_BYTES);
    tail := ParseLatencyLog(Join(chunks), expected, truncated, float);
    ExactIsUntruncated(Join(chunks), expected, truncated, float);
    if !truncated {
      ChunksAreContents(files, chunks);
      JoinedExactIff(chunks, expected, float);
    }
  }
}
