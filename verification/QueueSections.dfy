/**
  Queue sections, from the lines alone: which counter a line under a marker belongs
  to, and what a whole section adds up to.
 */
module QueueSections {
  import opened Wrappers
  import opened Decimals
  import opened Ordering
  import opened QueueCounters

  // ---- Which key counts for which field -------------------------------------------------

  /** The three lines whose sum is a packet or byte counter. */
  predicate SummedUnder(direction: string, field: string, keys: set<string>) {
    || (direction == "rx" && field == "rx_packets" && keys == {"ucast pkts rx", "mcast pkts rx", "bcast pkts rx"})
    || (direction == "rx" && field == "rx_bytes" && keys == {"ucast bytes rx", "mcast bytes rx", "bcast bytes rx"})
    || (direction == "tx" && field == "tx_packets" && keys == {"ucast pkts tx", "mcast pkts tx", "bcast pkts tx"})
    || (direction == "tx" && field == "tx_bytes" && keys == {"ucast bytes tx", "mcast bytes tx", "bcast bytes tx"})
  }

  /** The one line that is an error or drop counter. */
  predicate GivenUnder(direction: string, field: string, key: string) {
    || (direction == "rx" && field == "rx_errors" && key == "pkts rx err")
    || (direction == "rx" && field == "rx_dropped" && key == "drv dropped rx total")
    || (direction == "tx" && field == "tx_errors" && key == "pkts tx err")
    || (direction == "tx" && field == "tx_dropped" && key == "drv dropped tx total")
  }

  lemma ComponentValues(key: string)
    requires key in COMPONENTS
    ensures COMPONENTS[key] in {"rx_packets", "rx_bytes", "tx_packets", "tx_bytes"}
    ensures COMPONENTS[key] == "rx_packets" <==> key in {"ucast pkts rx", "mcast pkts rx", "bcast pkts rx"}
    ensures COMPONENTS[key] == "rx_bytes" <==> key in {"ucast bytes rx", "mcast bytes rx", "bcast bytes rx"}
    ensures COMPONENTS[key] == "tx_packets" <==> key in {"ucast pkts tx", "mcast pkts tx", "bcast pkts tx"}
    ensures COMPONENTS[key] == "tx_bytes" <==> key in {"ucast bytes tx", "mcast bytes tx", "bcast bytes tx"}
  {
  }

  lemma GivenValues(key: string)
    requires key in EXACTS
    ensures EXACTS[key] in {"rx_errors", "rx_dropped", "tx_errors", "tx_dropped"}
    ensures EXACTS[key] == "rx_errors" <==> key == "pkts rx err"
    ensures EXACTS[key] == "rx_dropped" <==> key == "drv dropped rx total"
    ensures EXACTS[key] == "tx_errors" <==> key == "pkts tx err"
    ensures EXACTS[key] == "tx_dropped" <==> key == "drv dropped tx total"
    ensures key !in COMPONENTS
  {
  }

  lemma TablesList(key: string)
    ensures key in COMPONENTS <==>
      || key in {"ucast pkts rx", "mcast pkts rx", "bcast pkts rx", "ucast bytes rx", "mcast bytes rx", "bcast bytes rx"}
      || key in {"ucast pkts tx", "mcast pkts tx", "bcast pkts tx", "ucast bytes tx", "mcast bytes tx", "bcast bytes tx"}
    ensures key in EXACTS <==> key in {"pkts rx err", "drv dropped rx total", "pkts tx err", "drv dropped tx total"}
  {
  }

  /** Of the lines without a driver pattern, exactly the three of the table add up to the field. */
  lemma SummedKeys(direction: string, field: string, keys: set<string>, key: string)
    requires SummedUnder(direction, field, keys)
    ensures SectionField(key) == Some(field) <==> key in keys
    ensures key in keys ==> key in COMPONENTS
    ensures direction <= field
  {
    TablesList(key);
    if key in COMPONENTS { ComponentValues(key); } else if key in EXACTS { GivenValues(key); }
    assert field[..2] == direction;
    hide COMPONENTS, EXACTS;
  }

  lemma GivenKeys(direction: string, field: string, given: string, key: string)
    requires GivenUnder(direction, field, given)
    ensures SectionField(key) == Some(field) <==> key == given
    ensures key == given ==> key !in COMPONENTS
    ensures direction <= field
  {
    TablesList(key);
    if key in COMPONENTS { ComponentValues(key); } else if key in EXACTS { GivenValues(key); }
    assert field[..2] == direction;
    hide COMPONENTS, EXACTS;
  }

  // ---- One line under a marker -------------------------------------------------------------

  const MARKERS := {"rx queue#", "tx queue#"}

  /** A numeric line within the bounds that is no marker and that no driver pattern knows. */
  predicate Plain(g: Grammar, line: Line) {
    && line.separated && Digital(line.text) && |line.text| <= 20 && Number(line.text) <= COUNTER_MAX
    && line.key !in MARKERS && g(line.key).None?
  }

  /** A marker that opens a section. */
  predicate Opens(line: Line, direction: string, queue: QueueIndex) {
    && line.separated && line.key in MARKERS && direction == line.key[..2]
    && Digital(line.text) && |line.text| <= 20 && Number(line.text) == queue
  }

  lemma MarkerIs(key: string)
    ensures Marker(key).Some? <==> key in MARKERS
    ensures key in MARKERS ==> Marker(key) == Some(key[..2])
  {
    var rx, tx := "rx queue#", "tx queue#";
    assert rx[..2] == "rx" && tx[..2] == "tx" && rx[0] != tx[0];
  }

  lemma OpenedSection(g: Grammar, t: Tally, line: Line, direction: string, queue: QueueIndex)
    requires Opens(line, direction, queue)
    ensures StepLine(g, t, line) == t.(section := Some(Section(direction, queue)), numeric := t.numeric + 1,
                                       families := t.families + {SECTION_FAMILY})
  {
    MarkerIs(line.key);
    hide Marker, MARKERS;
  }

  /** The field a plain line counts for under a direction, by the tables. */
  ghost predicate Classified(direction: string, key: string, field: string, additive: bool) {
    if additive then exists keys :: SummedUnder(direction, field, keys) && key in keys
    else GivenUnder(direction, field, key)
  }

  lemma TableLine(g: Grammar, section: Section, line: Line, field: string, additive: bool)
    requires Plain(g, line) && Classified(section.direction, line.key, field, additive)
    ensures Read(g, Some(section), line)
         == Found(Stat(Slot(section.queue, field), SECTION_FAMILY, additive, line.key, Number(line.text)))
  {
    MarkerIs(line.key);
    if additive {
      var keys :| SummedUnder(section.direction, field, keys) && line.key in keys;
      SummedKeys(section.direction, field, keys, line.key);
    } else {
      GivenKeys(section.direction, field, line.key, line.key);
    }
    hide Marker, MARKERS, SectionField, COMPONENTS, SummedUnder, GivenUnder;
  }

  /** A line of the other direction, or of no table, is unclassified. */
  lemma ForeignLine(g: Grammar, section: Section, line: Line)
    requires Plain(g, line) && (section.direction == "rx" || section.direction == "tx")
    requires forall field, additive :: !Classified(section.direction, line.key, field, additive)
    ensures Read(g, Some(section), line) == Unclassified
  {
    MarkerIs(line.key);
    if SectionField(line.key).Some? && section.direction <= SectionField(line.key).value {
      TableField(section.direction, line.key);
      assert false;
    }
    hide Marker, MARKERS, SectionField, Classified;
  }

  lemma TableField(direction: string, key: string)
    requires direction == "rx" || direction == "tx"
    requires SectionField(key).Some? && direction <= SectionField(key).value
    ensures exists field, additive :: Classified(direction, key, field, additive)
  {
    TablesList(key);
    var field := SectionField(key).value;
    assert field[..2] == direction;
    if key in COMPONENTS {
      ComponentValues(key);
      ComponentClassified(direction, key, field);
      assert Classified(direction, key, field, true);
    } else {
      GivenValues(key);
      assert "rx"[0] != "tx"[0];
      assert Classified(direction, key, field, false);
    }
  }

  lemma PrefixIs(direction: string, field: string)
    requires (direction == "rx" || direction == "tx") && direction <= field
    requires field in {"rx_packets", "rx_bytes", "tx_packets", "tx_bytes"}
    ensures direction == "rx" <==> field == "rx_packets" || field == "rx_bytes"
  {
    assert "rx"[0] != "tx"[0] && field[0] == direction[0];
  }

  lemma ComponentClassified(direction: string, key: string, field: string)
    requires direction == "rx" || direction == "tx"
    requires key in COMPONENTS && COMPONENTS[key] == field && direction <= field
    ensures Classified(direction, key, field, true)
  {
    hide COMPONENTS;
    ComponentValues(key);
    PrefixIs(direction, field);
    var keys := if field == "rx_packets" then {"ucast pkts rx", "mcast pkts rx", "bcast pkts rx"}
                else if field == "rx_bytes" then {"ucast bytes rx", "mcast bytes rx", "bcast bytes rx"}
                else if field == "tx_packets" then {"ucast pkts tx", "mcast pkts tx", "bcast pkts tx"}
                else {"ucast bytes tx", "mcast bytes tx", "bcast bytes tx"};
    assert key in keys;
    assert SummedUnder(direction, field, keys);
  }

  /** Without a section no plain line is classified. */
  lemma LineOutside(g: Grammar, line: Line)
    requires Plain(g, line)
    ensures Read(g, None, line) == Unclassified
  {
    MarkerIs(line.key);
    hide Marker, MARKERS;
  }

  /** A line that a driver pattern knows counts for the queue and field the pattern names, whatever the section. */
  lemma DriverLine(g: Grammar, t: Tally, line: Line)
    requires line.separated && Digital(line.text) && |line.text| <= 20 && Number(line.text) <= COUNTER_MAX
    requires line.key !in MARKERS && g(line.key).Some?
    ensures var id := g(line.key).value;
      && Read(g, t.section, line) == Found(Stat(Slot(id.queue, id.field), id.family, id.additive, line.key, Number(line.text)))
      && (!id.additive && Slot(id.queue, id.field) !in t.counters ==>
           StepLine(g, t, line).counters == t.counters[Slot(id.queue, id.field) := Number(line.text)])
  {
    MarkerIs(line.key);
    hide Marker, MARKERS, Number;
  }

  // ---- A whole section -------------------------------------------------------------------------

  function Value(line: Line): nat { if Digital(line.text) then Number(line.text) else 0 }

  /** The sum of the values of the lines with one of these keys. */
  function SumOver(block: seq<Line>, keys: set<string>): nat {
    if |block| == 0 then 0
    else SumOver(block[..|block| - 1], keys) + if block[|block| - 1].key in keys then Value(block[|block| - 1]) else 0
  }

  predicate Mentions(block: seq<Line>, keys: set<string>) { exists i :: 0 <= i < |block| && block[i].key in keys }

  ghost predicate OnceEach(block: seq<Line>, keys: set<string>) {
    forall i, j :: 0 <= i < j < |block| && block[i].key in keys ==> block[j].key != block[i].key
  }

  /** What is known of one summed field after part of a section. */
  ghost predicate SumKept(t: Tally, slot: Slot, block: seq<Line>, keys: set<string>) {
    && slot !in t.invalidSlots
    && (slot in t.counters <==> Mentions(block, keys))
    && Held(t.counters, slot) == SumOver(block, keys)
    && (slot in t.counters ==> slot in t.additiveSlots)
    && (forall key :: (slot, key) in t.sources <==> key in keys && Mentions(block, {key}))
  }

  lemma MentionsPush(block: seq<Line>, line: Line, keys: set<string>)
    ensures Mentions(block + [line], keys) <==> Mentions(block, keys) || line.key in keys
  {
    var all := block + [line];
    if Mentions(block, keys) {
      var i :| 0 <= i < |block| && block[i].key in keys;
      assert all[i].key in keys;
    }
    if line.key in keys { assert all[|block|].key in keys; }
  }

  lemma SumPush(block: seq<Line>, line: Line, keys: set<string>)
    ensures SumOver(block + [line], keys) == SumOver(block, keys) + if line.key in keys then Value(line) else 0
  {
    assert (block + [line])[..|block|] == block;
  }

  /** A statistic of another field leaves everything about this one alone. */
  lemma OtherStat(t: Tally, s: Stat, slot: Slot)
    requires s.slot != slot
    ensures var t' := StoreStat(t, s);
      && (slot in t'.counters <==> slot in t.counters) && Held(t'.counters, slot) == Held(t.counters, slot)
      && (slot in t'.invalidSlots <==> slot in t.invalidSlots) && (slot in t'.additiveSlots <==> slot in t.additiveSlots)
      && (forall key :: (slot, key) in t'.sources <==> (slot, key) in t.sources) && t'.section == t.section
  {
  }

  /** The first line of its name adds its value. */
  lemma NewComponent(t: Tally, s: Stat)
    requires s.additive && s.slot !in t.invalidSlots && (s.slot, s.key) !in t.sources
    requires s.slot in t.counters ==> s.slot in t.additiveSlots
    requires Held(t.counters, s.slot) + s.value <= COUNTER_MAX
    ensures var t' := StoreStat(t, s);
      && t'.counters == t.counters[s.slot := Held(t.counters, s.slot) + s.value] && t'.invalidSlots == t.invalidSlots
      && s.slot in t'.additiveSlots && t'.sources == t.sources + {(s.slot, s.key)} && t'.section == t.section
      && t'.duplicates == t.duplicates && t'.invalid == t.invalid && t'.unclassified == t.unclassified
  {
  }

  /** A plain line steps the tally by its reading. */
  lemma PlainStep(g: Grammar, t: Tally, line: Line)
    requires Plain(g, line)
    ensures match Read(g, t.section, line)
      case Found(stat) => StepLine(g, t, line) == StoreStat(t.(numeric := t.numeric + 1), stat)
      case Unclassified => StepLine(g, t, line) == t.(numeric := t.numeric + 1, unclassified := t.unclassified + 1)
      case _ => false
  {
    MarkerIs(line.key);
    hide Marker, MARKERS, StoreStat, SectionField, COMPONENTS;
  }

  lemma SumStep(g: Grammar, t: Tally, section: Section, field: string, keys: set<string>, block: seq<Line>, line: Line)
    requires t.section == Some(section) && SummedUnder(section.direction, field, keys) && Plain(g, line)
    requires SumKept(t, Slot(section.queue, field), block, keys)
    requires line.key in keys ==> !Mentions(block, {line.key})
    requires SumOver(block + [line], keys) <= COUNTER_MAX
    ensures SumKept(StepLine(g, t, line), Slot(section.queue, field), block + [line], keys)
    ensures StepLine(g, t, line).section == t.section
  {
    hide StepLine, SumKept;
    if line.key in keys {
      ComponentStep(g, t, section, field, keys, block, line);
    } else {
      OtherStep(g, t, section, field, keys, block, line);
    }
  }

  lemma ComponentStep(g: Grammar, t: Tally, section: Section, field: string, keys: set<string>, block: seq<Line>, line: Line)
    requires t.section == Some(section) && SummedUnder(section.direction, field, keys) && Plain(g, line)
    requires SumKept(t, Slot(section.queue, field), block, keys)
    requires line.key in keys && !Mentions(block, {line.key}) && SumOver(block + [line], keys) <= COUNTER_MAX
    ensures SumKept(StepLine(g, t, line), Slot(section.queue, field), block + [line], keys)
    ensures StepLine(g, t, line).section == t.section && StepLine(g, t, line).duplicates == t.duplicates
    ensures StepLine(g, t, line).invalid == t.invalid
  {
    hide StepLine, StoreStat, Read, Mentions, SumOver, Plain, SummedUnder;
    PlainStep(g, t, line);
    PlainValue(g, line);
    TableLine(g, section, line, field, true);
    MentionsPush(block, line, keys);
    forall key ensures Mentions(block + [line], {key}) <==> Mentions(block, {key}) || key == line.key {
      MentionsPush(block, line, {key});
    }
    SumPush(block, line, keys);
    NewComponent(t.(numeric := t.numeric + 1), Read(g, t.section, line).stat);
  }

  lemma OtherStep(g: Grammar, t: Tally, section: Section, field: string, keys: set<string>, block: seq<Line>, line: Line)
    requires t.section == Some(section) && SummedUnder(section.direction, field, keys) && Plain(g, line)
    requires SumKept(t, Slot(section.queue, field), block, keys) && line.key !in keys
    ensures SumKept(StepLine(g, t, line), Slot(section.queue, field), block + [line], keys)
    ensures StepLine(g, t, line).section == t.section
  {
    hide StepLine, StoreStat, Read, Mentions, SumOver, Plain, SummedUnder;
    PlainStep(g, t, line);
    MentionsPush(block, line, keys);
    forall key | key in keys ensures Mentions(block + [line], {key}) <==> Mentions(block, {key}) {
      MentionsPush(block, line, {key});
    }
    SumPush(block, line, keys);
    SlotIsOther(g, section, line, field, keys);
    if Read(g, t.section, line).Found? {
      OtherStat(t.(numeric := t.numeric + 1), Read(g, t.section, line).stat, Slot(section.queue, field));
    }
  }

  lemma SlotIsOther(g: Grammar, section: Section, line: Line, field: string, keys: set<string>)
    requires SummedUnder(section.direction, field, keys) && Plain(g, line) && line.key !in keys
    ensures var r := Read(g, Some(section), line); r.Found? ==> r.stat.slot != Slot(section.queue, field)
  {
    MarkerIs(line.key);
    SummedKeys(section.direction, field, keys, line.key);
    hide Marker, MARKERS, SectionField, COMPONENTS, SummedUnder;
  }

  /** Nothing is known of the field yet. */
  ghost predicate Untouched(t: Tally, slot: Slot) {
    && slot !in t.counters && slot !in t.invalidSlots && forall key :: (slot, key) !in t.sources
  }

  lemma {:induction false} SectionTally(g: Grammar, before: seq<Line>, marker: Line, block: seq<Line>,
                                        direction: string, queue: QueueIndex, field: string, keys: set<string>)
    requires Opens(marker, direction, queue) && SummedUnder(direction, field, keys)
    requires Untouched(TallyOf(g, before), Slot(queue, field))
    requires (forall i :: 0 <= i < |block| ==> Plain(g, block[i])) && OnceEach(block, keys)
    requires SumOver(block, keys) <= COUNTER_MAX
    ensures var t := TallyOf(g, before + [marker] + block);
      SumKept(t, Slot(queue, field), block, keys) && t.section == Some(Section(direction, queue))
    decreases |block|
  {
    hide StepLine, SumKept, Mentions, Plain, SummedUnder, SumOver, Opens;
    if |block| == 0 {
      OpenedTally(g, before, marker, direction, queue, field, keys);
      assert before + [marker] + [] == before + [marker] && block == [];
    } else {
      var init, last := block[..|block| - 1], block[|block| - 1];
      assert block == init + [last];
      SumPush(init, last, keys);
      SectionTally(g, before, marker, init, direction, queue, field, keys);
      TallyOfPush(g, before + [marker] + init, last);
      assert before + [marker] + block == (before + [marker] + init) + [last];
      if last.key in keys { NotMentioned(init, last, keys); }
      SumStep(g, TallyOf(g, before + [marker] + init), Section(direction, queue), field, keys, init, last);
    }
  }

  lemma NotMentioned(init: seq<Line>, last: Line, keys: set<string>)
    requires OnceEach(init + [last], keys) && last.key in keys
    ensures !Mentions(init, {last.key})
  {
    var all := init + [last];
    assert all[|init|] == last && forall i :: 0 <= i < |init| ==> all[i] == init[i];
  }

  lemma TallyOfPush(g: Grammar, lines: seq<Line>, line: Line)
    ensures TallyOf(g, lines + [line]) == StepLine(g, TallyOf(g, lines), line)
  {
    hide StepLine;
    assert (lines + [line])[..|lines|] == lines;
  }

  lemma OpenedTally(g: Grammar, before: seq<Line>, marker: Line, direction: string, queue: QueueIndex,
                    field: string, keys: set<string>)
    requires Opens(marker, direction, queue) && Untouched(TallyOf(g, before), Slot(queue, field))
    ensures var t := TallyOf(g, before + [marker]);
      SumKept(t, Slot(queue, field), [], keys) && t.section == Some(Section(direction, queue))
  {
    TallyOfPush(g, before, marker);
    OpenedSection(g, TallyOf(g, before), marker, direction, queue);
    hide StepLine, TallyOf, Opens;
  }

  /**
    After the marker of queue `queue`, in whatever order the lines come and whatever else
    is among them: a packet or byte counter is the sum of its unicast, multicast and
    broadcast lines when each occurs at most once and the sum fits.
   */
  lemma SectionAddsUp(g: Grammar, before: seq<Line>, marker: Line, block: seq<Line>,
                      direction: string, queue: QueueIndex, field: string, keys: set<string>)
    requires Opens(marker, direction, queue) && SummedUnder(direction, field, keys)
    requires Untouched(TallyOf(g, before), Slot(queue, field))
    requires (forall i :: 0 <= i < |block| ==> Plain(g, block[i])) && OnceEach(block, keys)
    requires SumOver(block, keys) <= COUNTER_MAX
    ensures var t, slot := TallyOf(g, before + [marker] + block), Slot(queue, field);
      && (slot in t.counters <==> Mentions(block, keys))
      && (slot in t.counters ==> t.counters[slot] == SumOver(block, keys))
  {
    hide TallyOf, Mentions, SumOver, Plain, OnceEach, SummedUnder, Opens;
    SectionTally(g, before, marker, block, direction, queue, field, keys);
  }

  // ---- Error and drop counters -------------------------------------------------------------------

  /** The value of the first line with this key. */
  function FirstValue(block: seq<Line>, key: string): Option<nat> {
    if |block| == 0 then None
    else if FirstValue(block[..|block| - 1], key).Some? then FirstValue(block[..|block| - 1], key)
    else if block[|block| - 1].key == key then Some(Value(block[|block| - 1])) else None
  }

  function Stored(t: Tally, slot: Slot): Option<nat> { if slot in t.counters then Some(t.counters[slot]) else None }

  /** A line that gives a counter: the first is stored as it is, any other is a duplicate. */
  lemma GivenStep(g: Grammar, t: Tally, section: Section, field: string, given: string, line: Line)
    requires t.section == Some(section) && GivenUnder(section.direction, field, given) && Plain(g, line)
    ensures var t', slot := StepLine(g, t, line), Slot(section.queue, field);
      && t'.section == t.section
      && Stored(t', slot) == (if line.key == given && Stored(t, slot).None? then Some(Number(line.text)) else Stored(t, slot))
      && (line.key == given && Stored(t, slot).Some? ==> t'.counters == t.counters && t'.duplicates == t.duplicates + 1)
      && (line.key == given && Stored(t, slot).None? ==> t'.duplicates == t.duplicates)
  {
    PlainStep(g, t, line);
    if line.key == given {
      TableLine(g, section, line, field, false);
    } else {
      GivenIsOther(g, section, line, field, given);
      if Read(g, t.section, line).Found? {
        OtherStat(t.(numeric := t.numeric + 1), Read(g, t.section, line).stat, Slot(section.queue, field));
      }
      hide StoreStat;
    }
    hide StepLine, Read, Plain, GivenUnder, Number;
  }

  lemma GivenIsOther(g: Grammar, section: Section, line: Line, field: string, given: string)
    requires GivenUnder(section.direction, field, given) && Plain(g, line) && line.key != given
    ensures var r := Read(g, Some(section), line); r.Found? ==> r.stat.slot != Slot(section.queue, field)
  {
    MarkerIs(line.key);
    GivenKeys(section.direction, field, given, line.key);
    hide Marker, MARKERS, SectionField, COMPONENTS, GivenUnder;
  }

  /** After the marker of queue `queue`: an error or drop counter is its first line, as given. */
  lemma {:induction false} SectionGives(g: Grammar, before: seq<Line>, marker: Line, block: seq<Line>,
                                        direction: string, queue: QueueIndex, field: string, given: string)
    requires Opens(marker, direction, queue) && GivenUnder(direction, field, given)
    requires Slot(queue, field) !in TallyOf(g, before).counters
    requires forall i :: 0 <= i < |block| ==> Plain(g, block[i])
    ensures var t := TallyOf(g, before + [marker] + block);
      Stored(t, Slot(queue, field)) == FirstValue(block, given) && t.section == Some(Section(direction, queue))
    decreases |block|
  {
    hide StepLine, Plain, GivenUnder, Opens;
    if |block| == 0 {
      TallyOfPush(g, before, marker);
      OpenedSection(g, TallyOf(g, before), marker, direction, queue);
      assert before + [marker] + [] == before + [marker] && block == [];
    } else {
      var init, last := block[..|block| - 1], block[|block| - 1];
      SectionGives(g, before, marker, init, direction, queue, field, given);
      TallyOfPush(g, before + [marker] + init, last);
      assert before + [marker] + block == (before + [marker] + init) + [last];
      GivenStep(g, TallyOf(g, before + [marker] + init), Section(direction, queue), field, given, last);
      PlainValue(g, last);
    }
  }

  lemma PlainValue(g: Grammar, line: Line)
    requires Plain(g, line)
    ensures Digital(line.text) && Value(line) == Number(line.text)
  {
  }

  // ---- Lines that count for nothing -----------------------------------------------------------------

  /** A marker whose number is malformed, too long or out of range closes the section. */
  predicate Closes(line: Line) {
    line.separated && line.key in MARKERS
    && (!Digital(line.text) || |line.text| > 20 || Number(line.text) > MAX_QUEUE)
  }

  lemma ClosedSection(g: Grammar, t: Tally, line: Line)
    requires Closes(line)
    ensures StepLine(g, t, line).section == None && StepLine(g, t, line).counters == t.counters
  {
    MarkerIs(line.key);
    hide Marker, MARKERS;
  }

  /** After such a marker every plain line is counted as unclassified, whatever its key. */
  lemma {:induction false} NothingAfterBadMarker(g: Grammar, before: seq<Line>, marker: Line, block: seq<Line>)
    requires Closes(marker) && forall i :: 0 <= i < |block| ==> Plain(g, block[i])
    ensures var t0, t := TallyOf(g, before + [marker]), TallyOf(g, before + [marker] + block);
      && t.section == None && t.counters == TallyOf(g, before).counters
      && t.unclassified == t0.unclassified + |block|
    decreases |block|
  {
    hide StepLine, Plain, Closes;
    if |block| == 0 {
      TallyOfPush(g, before, marker);
      ClosedSection(g, TallyOf(g, before), marker);
      assert before + [marker] + [] == before + [marker] && block == [];
    } else {
      var init, last := block[..|block| - 1], block[|block| - 1];
      NothingAfterBadMarker(g, before, marker, init);
      TallyOfPush(g, before + [marker] + init, last);
      assert before + [marker] + block == (before + [marker] + init) + [last];
      LineOutside(g, last);
      PlainStep(g, TallyOf(g, before + [marker] + init), last);
    }
  }

  /** Under a marker, a line of the other direction or of no table is counted as unclassified and changes no counter. */
  lemma ForeignStep(g: Grammar, t: Tally, section: Section, line: Line)
    requires t.section == Some(section) && (section.direction == "rx" || section.direction == "tx") && Plain(g, line)
    requires forall field, additive :: !Classified(section.direction, line.key, field, additive)
    ensures StepLine(g, t, line) == t.(numeric := t.numeric + 1, unclassified := t.unclassified + 1)
  {
    ForeignLine(g, section, line);
    PlainStep(g, t, line);
    hide Plain, Classified, StepLine, Read;
  }

  // ---- A section without repetitions is clean -----------------------------------------------------------

  ghost predicate AllDistinct(block: seq<Line>) { forall i, j :: 0 <= i < j < |block| ==> block[i].key != block[j].key }

  ghost predicate SumsFit(block: seq<Line>, direction: string) {
    forall field, keys :: SummedUnder(direction, field, keys) ==> SumOver(block, keys) <= COUNTER_MAX
  }

  lemma FitsBefore(init: seq<Line>, last: Line, direction: string)
    requires SumsFit(init + [last], direction)
    ensures SumsFit(init, direction)
  {
    forall field, keys | SummedUnder(direction, field, keys) ensures SumOver(init, keys) <= COUNTER_MAX {
      SumPush(init, last, keys);
      assert SumOver(init + [last], keys) <= COUNTER_MAX;
    }
  }

  lemma {:induction false} FirstValueNone(block: seq<Line>, key: string)
    requires forall i :: 0 <= i < |block| ==> block[i].key != key
    ensures FirstValue(block, key) == None
  {
    if |block| > 0 { FirstValueNone(block[..|block| - 1], key); }
  }

  /** One section of distinct lines whose sums fit, as the first output: no duplicate and nothing invalid, so it is observed. */
  lemma {:induction false} DistinctSectionIsClean(g: Grammar, marker: Line, block: seq<Line>, direction: string, queue: QueueIndex)
    requires Opens(marker, direction, queue) && (direction == "rx" || direction == "tx")
    requires (forall i :: 0 <= i < |block| ==> Plain(g, block[i])) && AllDistinct(block) && SumsFit(block, direction)
    ensures var t := TallyOf(g, [marker] + block);
      t.duplicates == 0 && t.invalid == 0 && t.section == Some(Section(direction, queue))
  {
    hide StepLine, Plain, SumsFit, Opens, Classified, Read;
    if |block| == 0 {
      TallyOfPush(g, [], marker);
      OpenedSection(g, TallyOf(g, []), marker, direction, queue);
      assert [marker] + [] == [] + [marker] && block == [];
    } else {
      var init, last := block[..|block| - 1], block[|block| - 1];
      assert block == init + [last];
      FitsBefore(init, last, direction);
      DistinctSectionIsClean(g, marker, init, direction, queue);
      TallyOfPush(g, [marker] + init, last);
      assert [marker] + block == ([marker] + init) + [last] && [marker] + init == [] + [marker] + init;
      hide TallyOf;
      if field, additive :| Classified(direction, last.key, field, additive) {
        if additive {
          CleanComponent(g, marker, init, last, direction, queue, field);
        } else {
          CleanGiven(g, marker, init, last, direction, queue, field);
        }
      } else {
        ForeignStep(g, TallyOf(g, [marker] + init), Section(direction, queue), last);
      }
    }
  }

  lemma CleanComponent(g: Grammar, marker: Line, init: seq<Line>, last: Line, direction: string, queue: QueueIndex, field: string)
    requires Opens(marker, direction, queue) && Classified(direction, last.key, field, true)
    requires (forall i :: 0 <= i < |init| ==> Plain(g, init[i])) && Plain(g, last)
    requires AllDistinct(init + [last]) && SumsFit(init + [last], direction)
    ensures var t := TallyOf(g, [] + [marker] + init);
      StepLine(g, t, last).duplicates == t.duplicates && StepLine(g, t, last).invalid == t.invalid
      && StepLine(g, t, last).section == t.section
  {
    hide StepLine, Plain, Opens, SumKept, Mentions, SumOver;
    var keys :| SummedUnder(direction, field, keys) && last.key in keys;
    FitsBefore(init, last, direction);
    hide SummedUnder;
    var all := init + [last];
    assert all[|init|] == last && forall i :: 0 <= i < |init| ==> all[i] == init[i];
    NotMentioned(init, last, keys);
    StartUntouched(g, Slot(queue, field));
    SectionTally(g, [], marker, init, direction, queue, field, keys);
    ComponentStep(g, TallyOf(g, [] + [marker] + init), Section(direction, queue), field, keys, init, last);
  }

  lemma StartUntouched(g: Grammar, slot: Slot)
    ensures Untouched(TallyOf(g, []), slot)
  {
  }

  lemma CleanGiven(g: Grammar, marker: Line, init: seq<Line>, last: Line, direction: string, queue: QueueIndex, field: string)
    requires Opens(marker, direction, queue) && Classified(direction, last.key, field, false)
    requires (forall i :: 0 <= i < |init| ==> Plain(g, init[i])) && Plain(g, last) && AllDistinct(init + [last])
    ensures var t := TallyOf(g, [] + [marker] + init);
      StepLine(g, t, last).duplicates == t.duplicates && StepLine(g, t, last).invalid == t.invalid
      && StepLine(g, t, last).section == t.section
  {
    hide StepLine, TallyOf, FirstValue, Plain, Opens, GivenUnder;
    var all := init + [last];
    assert all[|init|] == last && forall i :: 0 <= i < |init| ==> all[i] == init[i];
    StartUntouched(g, Slot(queue, field));
    SectionGives(g, [], marker, init, direction, queue, field, last.key);
    FirstValueNone(init, last.key);
    GivenOnce(g, TallyOf(g, [] + [marker] + init), Section(direction, queue), field, last);
  }

  lemma GivenOnce(g: Grammar, t: Tally, section: Section, field: string, line: Line)
    requires t.section == Some(section) && GivenUnder(section.direction, field, line.key) && Plain(g, line)
    requires Slot(section.queue, field) !in t.counters
    ensures var t' := StepLine(g, t, line); t'.duplicates == t.duplicates && t'.invalid == t.invalid && t'.section == t.section
  {
    PlainStep(g, t, line);
    TableLine(g, section, line, field, false);
    hide StepLine, Read, Plain, GivenUnder, Number;
  }

  /** A component line that occurs again is a duplicate and changes no counter. */
  lemma RepeatedComponent(g: Grammar, t: Tally, section: Section, line: Line, field: string)
    requires t.section == Some(section) && Plain(g, line) && Classified(section.direction, line.key, field, true)
    requires (Slot(section.queue, field), line.key) in t.sources && Slot(section.queue, field) !in t.invalidSlots
    ensures var t' := StepLine(g, t, line); t'.counters == t.counters && t'.duplicates == t.duplicates + 1
  {
    PlainStep(g, t, line);
    TableLine(g, section, line, field, true);
    hide StepLine, Read, Plain, Classified, Number;
  }
}
