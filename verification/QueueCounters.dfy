/**
  The ethtool statistics normaliser. Lines arrive already split at the last colon
  with the key trimmed, lowered and its blanks collapsed; the driver patterns of
  `_queue_stat_identity` are a parameter. What is modelled exactly is the stateful
  loop: section context, additive and exact fields, duplicates, overflow, bounds.
 */
module QueueCounters {
  import opened Wrappers
  import opened Decimals
  import opened Ordering

  const MAX_QUEUE := 127
  const MAX_LINES := 4096
  const COUNTER_MAX: nat := 0xFFFF_FFFF_FFFF_FFFF
  const SECTION_FAMILY := "vmxnet3-sectioned-queue"

  type QueueIndex = n: nat | n <= MAX_QUEUE

  datatype Line = Line(separated: bool, key: string, text: string)

  /** One queue and one normalised field. */
  datatype Slot = Slot(queue: QueueIndex, field: string)

  datatype Ident = Ident(queue: QueueIndex, field: string, family: string, additive: bool)

  type Grammar = string -> Option<Ident>

  datatype Stat = Stat(slot: Slot, family: string, additive: bool, key: string, value: nat)

  /** The queue section opened by a marker line: its direction and queue. */
  datatype Section = Section(direction: string, queue: QueueIndex)

  const COMPONENTS := map[
    "ucast pkts rx" := "rx_packets", "mcast pkts rx" := "rx_packets", "bcast pkts rx" := "rx_packets",
    "ucast bytes rx" := "rx_bytes", "mcast bytes rx" := "rx_bytes", "bcast bytes rx" := "rx_bytes",
    "ucast pkts tx" := "tx_packets", "mcast pkts tx" := "tx_packets", "bcast pkts tx" := "tx_packets",
    "ucast bytes tx" := "tx_bytes", "mcast bytes tx" := "tx_bytes", "bcast bytes tx" := "tx_bytes"]

  const EXACTS := map[
    "pkts rx err" := "rx_errors", "drv dropped rx total" := "rx_dropped",
    "pkts tx err" := "tx_errors", "drv dropped tx total" := "tx_dropped"]

  function Marker(key: string): Option<string> {
    if key == "rx queue#" then Some("rx") else if key == "tx queue#" then Some("tx") else None
  }

  function SectionField(key: string): Option<string> {
    if key in COMPONENTS then Some(COMPONENTS[key]) else if key in EXACTS then Some(EXACTS[key]) else None
  }

  // ---- Reading one line -------------------------------------------------------

  datatype Reading = Ignored | TooLarge | Opened(section: Section) | Unclassified | Found(stat: Stat)

  predicate Bounded(text: string)
    requires Digits(text)
  {
    |text| <= 20 && Number(text) <= COUNTER_MAX
  }

  function Read(g: Grammar, section: Option<Section>, line: Line): Reading {
    if !line.separated || !Digital(line.text) then Ignored
    else if !Bounded(line.text) then TooLarge
    else if Marker(line.key).Some? then
      var queue := Number(line.text);
      if queue <= MAX_QUEUE then Opened(Section(Marker(line.key).value, queue)) else Unclassified
    else ReadStat(g, section, line.key, Number(line.text))
  }

  /** The twenty-digit cut rejects no value that fits: written in decimal, exactly the values up to the maximum pass. */
  lemma DecimalPassesIffItFits(n: nat)
    ensures Digital(Decimal(n)) && (Bounded(Decimal(n)) <==> n <= COUNTER_MAX)
  {
    DecimalValue(n);
    assert Pow10(10) == 10_000_000_000 && Pow10(20) == 10_000_000_000 * Pow10(10);
    if n <= COUNTER_MAX { DecimalLength(n, 20); }
  }

  function ReadStat(g: Grammar, section: Option<Section>, key: string, value: nat): Reading {
    match g(key)
    case Some(id) => Found(Stat(Slot(id.queue, id.field), id.family, id.additive, key, value))
    case None =>
      var field := SectionField(key);
      if section.None? || field.None? || !(section.value.direction <= field.value) then Unclassified
      else Found(Stat(Slot(section.value.queue, field.value), SECTION_FAMILY, key in COMPONENTS, key, value))
  }

  /** A marker line always replaces the section: by its own, or by none when it is unusable. */
  function SectionAfter(g: Grammar, section: Option<Section>, line: Line): Option<Section> {
    if line.separated && Marker(line.key).Some? then
      match Read(g, section, line)
      case Opened(s) => Some(s)
      case _ => None
    else section
  }

  // ---- The accumulators -------------------------------------------------------

  /** The local variables of the loop; `counters` is the two-level dictionary, keyed by slot. */
  datatype Tally = Tally(
    counters: map<Slot, nat>, queues: set<QueueIndex>, families: set<string>,
    numeric: nat, unclassified: nat, duplicates: nat, invalid: nat,
    invalidSlots: set<Slot>, additiveSlots: set<Slot>, sources: set<(Slot, string)>,
    section: Option<Section>)

  const START := Tally(map[], {}, {}, 0, 0, 0, 0, {}, {}, {}, None)

  function Held(m: map<Slot, nat>, slot: Slot): nat { if slot in m then m[slot] else 0 }

  /** Everything after a line has been classified as a statistic. */
  function StoreStat(t: Tally, s: Stat): Tally {
    var t := t.(queues := t.queues + {s.slot.queue}, families := t.families + {s.family});
    if s.additive then StoreAdditive(t, s)
    else if s.slot in t.counters then t.(duplicates := t.duplicates + 1)
    else t.(counters := t.counters[s.slot := s.value])
  }

  function StoreAdditive(t: Tally, s: Stat): Tally {
    if s.slot in t.invalidSlots then t
    else if (s.slot, s.key) in t.sources || (s.slot in t.counters && s.slot !in t.additiveSlots)
    then t.(duplicates := t.duplicates + 1)
    else
      var t := t.(sources := t.sources + {(s.slot, s.key)});
      var combined := Held(t.counters, s.slot) + s.value;
      if combined > COUNTER_MAX
      then t.(counters := t.counters - {s.slot}, invalidSlots := t.invalidSlots + {s.slot}, invalid := t.invalid + 1)
      else t.(counters := t.counters[s.slot := combined], additiveSlots := t.additiveSlots + {s.slot})
  }

  function StepLine(g: Grammar, t: Tally, line: Line): Tally {
    var t' := t.(section := SectionAfter(g, t.section, line));
    match Read(g, t.section, line)
    case Ignored => t'
    case TooLarge => t'.(invalid := t'.invalid + 1)
    case Opened(_) => t'.(numeric := t'.numeric + 1, families := t'.families + {SECTION_FAMILY})
    case Unclassified => t'.(numeric := t'.numeric + 1, unclassified := t'.unclassified + 1)
    case Found(stat) => StoreStat(t'.(numeric := t'.numeric + 1), stat)
  }

  function TallyOf(g: Grammar, lines: seq<Line>): Tally {
    if |lines| == 0 then START else StepLine(g, TallyOf(g, lines[..|lines| - 1]), lines[|lines| - 1])
  }

  datatype Status = Unavailable | Partial | Observed

  datatype Report = Report(status: Status, tally: Tally, truncated: bool)

  function Considered(lines: seq<Line>): seq<Line> {
    if |lines| > MAX_LINES then lines[..MAX_LINES] else lines
  }

  function ReportOf(g: Grammar, lines: seq<Line>): Report {
    var t := TallyOf(g, Considered(lines));
    var truncated := |lines| > MAX_LINES;
    var status :=
      if t.queues == {} then Unavailable
      else if t.duplicates > 0 || t.invalid > 0 || truncated then Partial
      else Observed;
    Report(status, t, truncated)
  }

  // ---- The loop -----------------------------------------------------------------

  class Normaliser {
    var counters: map<Slot, nat>
    var queues: set<QueueIndex>
    var families: set<string>
    var numeric: nat
    var unclassified: nat
    var duplicates: nat
    var invalid: nat
    var invalidSlots: set<Slot>
    var additiveSlots: set<Slot>
    var sources: set<(Slot, string)>
    var section: Option<Section>

    function View(): Tally
      reads this
    {
      Tally(counters, queues, families, numeric, unclassified, duplicates, invalid,
            invalidSlots, additiveSlots, sources, section)
    }

    constructor ()
      ensures View() == START
    {
      counters, queues, families := map[], {}, {};
      numeric, unclassified, duplicates, invalid := 0, 0, 0, 0;
      invalidSlots, additiveSlots, sources, section := {}, {}, {}, None;
    }

    /** The branch for additive fields, with its early `continue`s. */
    method StoreComponent(slot: Slot, family: string, key: string, value: nat)
      modifies this
      ensures View() == StoreAdditive(old(View()), Stat(slot, family, true, key, value))
    {
      if slot in invalidSlots { return; }
      if (slot, key) in sources || (slot in counters && slot !in additiveSlots) {
        duplicates := duplicates + 1;
        return;
      }
      sources := sources + {(slot, key)};
      var combined := (if slot in counters then counters[slot] else 0) + value;
      if combined > COUNTER_MAX {
        counters := counters - {slot};
        invalidSlots := invalidSlots + {slot};
        invalid := invalid + 1;
        return;
      }
      counters := counters[slot := combined];
      additiveSlots := additiveSlots + {slot};
    }

    /** The part of the loop body after a line has been classified. */
    method Store(queue: QueueIndex, field: string, family: string, additive: bool, key: string, value: nat)
      modifies this
      ensures View() == StoreStat(old(View()), Stat(Slot(queue, field), family, additive, key, value))
    {
      hide StoreAdditive;
      var slot := Slot(queue, field);
      queues := queues + {queue};
      families := families + {family};
      if additive {
        StoreComponent(slot, family, key, value);
        return;
      }
      if slot in counters {
        duplicates := duplicates + 1;
        return;
      }
      counters := counters[slot := value];
    }

    /** One turn of the loop, with its early `continue`s. */
    method Feed(g: Grammar, line: Line)
      modifies this
      ensures View() == StepLine(g, old(View()), line)
    {
      hide StoreStat;
      if !line.separated { return; }
      var marker := Marker(line.key);
      if !Digital(line.text) {
        if marker.Some? { section := None; }
        return;
      }
      if !Bounded(line.text) {
        invalid := invalid + 1;
        if marker.Some? { section := None; }
        return;
      }
      numeric := numeric + 1;
      var value := Number(line.text);
      if marker.Some? {
        section := if value <= MAX_QUEUE then Some(Section(marker.value, value)) else None;
        if section.Some? {
          families := families + {SECTION_FAMILY};
        } else {
          unclassified := unclassified + 1;
        }
        return;
      }
      var identity := g(line.key);
      if identity.None? {
        var field := SectionField(line.key);
        if section.None? || field.None? || !(section.value.direction <= field.value) {
          unclassified := unclassified + 1;
          return;
        }
        Store(section.value.queue, field.value, SECTION_FAMILY, line.key in COMPONENTS, line.key, value);
      } else {
        Store(identity.value.queue, identity.value.field, identity.value.family, identity.value.additive, line.key, value);
      }
    }
  }

  /** `_parse_ethtool_queue_statistics`. */
  method ParseQueueStatistics(g: Grammar, lines: seq<Line>) returns (report: Report)
    ensures report == ReportOf(g, lines)
    ensures report.tally == TallyOf(g, if |lines| > 4096 then lines[..4096] else lines)
    ensures report.truncated <==> |lines| > 4096
    ensures report.status == Unavailable <==> report.tally.queues == {}
    ensures report.status == Observed <==>
      report.tally.queues != {} && report.tally.duplicates == 0 && report.tally.invalid == 0 && |lines| <= 4096
  {
    hide StepLine;
    var n := new Normaliser();
    var limit := if |lines| < MAX_LINES then |lines| else MAX_LINES;
    assert Considered(lines) == lines[..limit];
    for i := 0 to limit
      invariant n.View() == TallyOf(g, lines[..i])
    {
      assert lines[..i + 1][..i] == lines[..i];
      n.Feed(g, lines[i]);
    }
    var truncated := |lines| > MAX_LINES;
    var incomplete := n.duplicates > 0 || n.invalid > 0 || truncated;
    report := Report(if n.queues == {} then Unavailable else if incomplete then Partial else Observed,
                     n.View(), truncated);
  }

  // ---- What the counters mean -----------------------------------------------------

  /** The lines that were classified, in order. */
  function Stats(g: Grammar, lines: seq<Line>): seq<Stat> {
    if |lines| == 0 then [] else
      var init := lines[..|lines| - 1];
      match Read(g, TallyOf(g, init).section, lines[|lines| - 1])
      case Found(stat) => Stats(g, init) + [stat]
      case _ => Stats(g, init)
  }

  function Sum(stats: seq<Stat>): nat {
    if |stats| == 0 then 0 else Sum(stats[..|stats| - 1]) + stats[|stats| - 1].value
  }

  ghost predicate Increasing(picks: seq<nat>, n: nat) {
    && (forall i :: 0 <= i < |picks| ==> picks[i] < n)
    && (forall i, j :: 0 <= i < j < |picks| ==> picks[i] < picks[j])
  }

  function Picked(stats: seq<Stat>, picks: seq<nat>): nat
    requires forall i :: 0 <= i < |picks| ==> picks[i] < |stats|
  {
    if |picks| == 0 then 0 else Picked(stats, picks[..|picks| - 1]) + stats[picks[|picks| - 1]].value
  }

  /** The value is one exact line's. */
  ghost predicate FromExact(stats: seq<Stat>, slot: Slot, value: nat) {
    exists i :: 0 <= i < |stats| && stats[i].slot == slot && !stats[i].additive && stats[i].value == value
  }

  /** The picked lines are components of the slot with pairwise distinct names, all of them counted. */
  ghost predicate Components(stats: seq<Stat>, slot: Slot, value: nat, picks: seq<nat>, sources: set<(Slot, string)>) {
    && |picks| > 0 && Increasing(picks, |stats|)
    && (forall i :: 0 <= i < |picks| ==>
         var s := stats[picks[i]]; s.slot == slot && s.additive && (slot, s.key) in sources)
    && (forall i, j :: 0 <= i < j < |picks| ==> stats[picks[i]].key != stats[picks[j]].key)
    && Picked(stats, picks) == value
  }

  ghost predicate FromComponents(stats: seq<Stat>, slot: Slot, value: nat, sources: set<(Slot, string)>) {
    exists picks :: Components(stats, slot, value, picks, sources)
  }

  /** Whether a stored slot holds a sum of components or one exact line. */
  predicate Summed(t: Tally, slot: Slot) { slot in t.additiveSlots && slot !in t.invalidSlots }

  ghost predicate TallyInv(t: Tally, stats: seq<Stat>) {
    && (forall slot :: slot in t.counters ==> t.counters[slot] <= COUNTER_MAX && slot.queue in t.queues)
    && (forall slot :: Summed(t, slot) ==> slot in t.counters)
    && (forall slot :: slot in t.counters && Summed(t, slot) ==>
         FromComponents(stats, slot, t.counters[slot], t.sources))
    && (forall slot :: slot in t.counters && !Summed(t, slot) ==> FromExact(stats, slot, t.counters[slot]))
  }
}
