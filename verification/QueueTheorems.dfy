/** What the normaliser promises about every counter it stores, for every input. */
module QueueTheorems {
  import opened Wrappers
  import opened Decimals
  import opened Ordering
  import opened QueueCounters

  // ---- One exact line, or distinct components ---------------------------------

  lemma PickedGrows(stats: seq<Stat>, s: Stat, picks: seq<nat>)
    requires forall i :: 0 <= i < |picks| ==> picks[i] < |stats|
    ensures Picked(stats + [s], picks) == Picked(stats, picks)
  {
    if |picks| > 0 { PickedGrows(stats, s, picks[..|picks| - 1]); }
  }

  lemma ComponentsGrow(stats: seq<Stat>, s: Stat, slot: Slot, value: nat, picks: seq<nat>,
                       sources: set<(Slot, string)>, more: set<(Slot, string)>)
    requires Components(stats, slot, value, picks, sources) && sources <= more
    ensures Components(stats + [s], slot, value, picks, more)
  {
    PickedGrows(stats, s, picks);
    var all := stats + [s];
    assert forall i :: 0 <= i < |picks| ==> all[picks[i]] == stats[picks[i]];
  }

  lemma ComponentAdded(stats: seq<Stat>, s: Stat, value: nat, picks: seq<nat>, sources: set<(Slot, string)>)
    requires Components(stats, s.slot, value, picks, sources) && s.additive && (s.slot, s.key) !in sources
    ensures Components(stats + [s], s.slot, value + s.value, picks + [|stats|], sources + {(s.slot, s.key)})
  {
    var all, more := stats + [s], picks + [|stats|];
    PickedGrows(stats, s, picks);
    assert more[..|picks|] == picks;
    assert forall i :: 0 <= i < |picks| ==> all[picks[i]] == stats[picks[i]] && all[picks[i]].key != s.key;
  }

  lemma FirstComponent(stats: seq<Stat>, s: Stat, sources: set<(Slot, string)>)
    requires s.additive
    ensures Components(stats + [s], s.slot, s.value, [|stats|], sources + {(s.slot, s.key)})
  {
    var all, one: seq<nat> := stats + [s], [|stats|];
    assert one[..0] == [];
    assert Picked(all, []) == 0;
  }

  lemma ExactGrows(stats: seq<Stat>, s: Stat, slot: Slot, value: nat)
    requires FromExact(stats, slot, value)
    ensures FromExact(stats + [s], slot, value)
  {
    var i :| 0 <= i < |stats| && stats[i].slot == slot && !stats[i].additive && stats[i].value == value;
    assert (stats + [s])[i] == stats[i];
  }

  /** Slots the statistic does not touch keep their provenance. */
  lemma OtherSlots(t: Tally, stats: seq<Stat>, s: Stat, t': Tally)
    requires TallyInv(t, stats) && t.sources <= t'.sources && t.queues <= t'.queues
    requires forall slot :: slot != s.slot ==>
      && (slot in t'.counters <==> slot in t.counters)
      && (slot in t.counters ==> t'.counters[slot] == t.counters[slot])
      && (Summed(t', slot) <==> Summed(t, slot))
    requires s.slot in t'.counters ==> t'.counters[s.slot] <= COUNTER_MAX && s.slot.queue in t'.queues
    requires Summed(t', s.slot) ==> s.slot in t'.counters
    requires s.slot in t'.counters ==>
      if Summed(t', s.slot) then FromComponents(stats + [s], s.slot, t'.counters[s.slot], t'.sources)
      else FromExact(stats + [s], s.slot, t'.counters[s.slot])
    ensures TallyInv(t', stats + [s])
  {
    hide FromComponents, FromExact, Components;
    forall slot | slot in t'.counters && Summed(t', slot)
      ensures FromComponents(stats + [s], slot, t'.counters[slot], t'.sources)
    {
      if slot != s.slot { SumKept(stats, s, slot, t.counters[slot], t.sources, t'.sources); }
    }
    forall slot | slot in t'.counters && !Summed(t', slot)
      ensures FromExact(stats + [s], slot, t'.counters[slot])
    {
      if slot != s.slot { ExactGrows(stats, s, slot, t.counters[slot]); }
    }
  }

  lemma SumKept(stats: seq<Stat>, s: Stat, slot: Slot, value: nat, sources: set<(Slot, string)>, more: set<(Slot, string)>)
    requires FromComponents(stats, slot, value, sources) && sources <= more
    ensures FromComponents(stats + [s], slot, value, more)
  {
    var picks :| Components(stats, slot, value, picks, sources);
    ComponentsGrow(stats, s, slot, value, picks, sources, more);
  }

  lemma SlotKept(t: Tally, stats: seq<Stat>, s: Stat, t': Tally)
    requires TallyInv(t, stats) && t.sources <= t'.sources && t.queues <= t'.queues
    requires t'.counters == t.counters && t'.additiveSlots == t.additiveSlots && t'.invalidSlots == t.invalidSlots
    ensures TallyInv(t', stats + [s])
  {
    hide FromComponents, FromExact;
    if s.slot in t.counters {
      if Summed(t, s.slot) { SumKept(stats, s, s.slot, t.counters[s.slot], t.sources, t'.sources); }
      else { ExactGrows(stats, s, s.slot, t.counters[s.slot]); }
    }
    OtherSlots(t, stats, s, t');
  }

  lemma StoreKeepsInv(t: Tally, stats: seq<Stat>, s: Stat)
    requires TallyInv(t, stats) && s.value <= COUNTER_MAX
    ensures TallyInv(StoreStat(t, s), stats + [s])
  {
    hide TallyInv, FromComponents, FromExact;
    var t' := StoreStat(t, s);
    if s.additive {
      StoreAdditiveInv(t, stats, s);
    } else if s.slot in t.counters {
      SlotKept(t, stats, s, t');
    } else {
      NewExact(t, stats, s);
    }
  }

  lemma NewExact(t: Tally, stats: seq<Stat>, s: Stat)
    requires TallyInv(t, stats) && s.value <= COUNTER_MAX && !s.additive && s.slot !in t.counters
    ensures TallyInv(StoreStat(t, s), stats + [s])
  {
    hide FromComponents;
    var t' := StoreStat(t, s);
    assert (stats + [s])[|stats|] == s;
    assert !Summed(t, s.slot);
    OtherSlots(t, stats, s, t');
  }

  lemma StoreAdditiveInv(t: Tally, stats: seq<Stat>, s: Stat)
    requires TallyInv(t, stats) && s.value <= COUNTER_MAX && s.additive
    ensures TallyInv(StoreStat(t, s), stats + [s])
  {
    hide FromComponents, FromExact;
    var t' := StoreStat(t, s);
    if t'.counters == t.counters && t'.additiveSlots == t.additiveSlots && t'.invalidSlots == t.invalidSlots {
      SlotKept(t, stats, s, t');
    } else if s.slot in t'.invalidSlots {
      OtherSlots(t, stats, s, t');
    } else {
      Combined(t, stats, s);
      OtherSlots(t, stats, s, t');
    }
  }

  lemma Combined(t: Tally, stats: seq<Stat>, s: Stat)
    requires TallyInv(t, stats) && s.additive && s.slot !in t.invalidSlots && (s.slot, s.key) !in t.sources
    requires s.slot in t.counters ==> s.slot in t.additiveSlots
    ensures FromComponents(stats + [s], s.slot, Held(t.counters, s.slot) + s.value, t.sources + {(s.slot, s.key)})
  {
    hide Components, FromExact;
    if s.slot in t.counters {
      assert Summed(t, s.slot);
      var picks :| Components(stats, s.slot, t.counters[s.slot], picks, t.sources);
      ComponentAdded(stats, s, t.counters[s.slot], picks, t.sources);
    } else {
      FirstComponent(stats, s, t.sources);
    }
  }

  /** A classified value passed the bound check. */
  lemma FoundIsBounded(g: Grammar, section: Option<Section>, line: Line)
    requires Read(g, section, line).Found?
    ensures Read(g, section, line).stat.value <= COUNTER_MAX
  {
  }

  lemma StatsPush(g: Grammar, lines: seq<Line>)
    requires |lines| > 0
    ensures var r := Read(g, TallyOf(g, lines[..|lines| - 1]).section, lines[|lines| - 1]);
      Stats(g, lines) == Stats(g, lines[..|lines| - 1]) + if r.Found? then [r.stat] else []
  {
  }

  lemma {:induction false} TallyOfInv(g: Grammar, lines: seq<Line>)
    ensures TallyInv(TallyOf(g, lines), Stats(g, lines))
  {
    hide FromComponents, FromExact, Read;
    if |lines| > 0 {
      var init := lines[..|lines| - 1];
      TallyOfInv(g, init);
      StatsPush(g, lines);
      StepInv(g, TallyOf(g, init), lines[|lines| - 1], Stats(g, init));
    }
  }

  lemma StepInv(g: Grammar, t: Tally, line: Line, stats: seq<Stat>)
    requires TallyInv(t, stats)
    ensures var r := Read(g, t.section, line);
      TallyInv(StepLine(g, t, line), stats + if r.Found? then [r.stat] else [])
  {
    hide FromComponents, FromExact, Read, StoreStat;
    var r := Read(g, t.section, line);
    if r.Found? {
      FoundIsBounded(g, t.section, line);
      var t' := t.(section := SectionAfter(g, t.section, line), numeric := t.numeric + 1);
      assert TallyInv(t', stats);
      StoreKeepsInv(t', stats, r.stat);
    } else {
      assert stats + [] == stats;
    }
  }

  /**
    Every stored counter fits the counter width and is either one exact line's
    value or the sum of component lines with pairwise distinct names, never a mix.
   */
  lemma CountersHaveSources(g: Grammar, lines: seq<Line>, slot: Slot)
    requires slot in ReportOf(g, lines).tally.counters
    ensures var t, stats := ReportOf(g, lines).tally, Stats(g, Considered(lines));
      && t.counters[slot] <= COUNTER_MAX
      && if Summed(t, slot) then FromComponents(stats, slot, t.counters[slot], t.sources)
         else FromExact(stats, slot, t.counters[slot])
  {
    hide FromComponents, FromExact, TallyOf;
    TallyOfInv(g, Considered(lines));
  }

  // ---- Conservation ---------------------------------------------------------------

  ghost function Total(m: map<Slot, nat>): nat
    decreases |m.Keys|
  {
    if m == map[] then 0 else
      var k :| k in m.Keys;
      Less(m, k);
      m[k] + Total(m - {k})
  }

  lemma Less(m: map<Slot, nat>, k: Slot)
    requires k in m
    ensures |(m - {k}).Keys| < |m.Keys|
  {
    assert (m - {k}).Keys == m.Keys - {k};
  }

  lemma {:induction false} TotalWithout(m: map<Slot, nat>, k: Slot)
    requires k in m
    ensures Total(m) == m[k] + Total(m - {k})
    decreases |m.Keys|
  {
    var first :| first in m.Keys && Total(m) == m[first] + Total(m - {first});
    if first != k {
      Less(m, first);
      Less(m, k);
      TotalWithout(m - {first}, k);
      TotalWithout(m - {k}, first);
      assert m - {first} - {k} == m - {k} - {first};
    }
  }

  lemma TotalUpdate(m: map<Slot, nat>, k: Slot, v: nat)
    ensures Total(m[k := v]) + Held(m, k) == Total(m) + v
  {
    TotalWithout(m[k := v], k);
    if k in m {
      TotalWithout(m, k);
      assert m[k := v] - {k} == m - {k};
    } else {
      assert m[k := v] - {k} == m;
    }
  }

  /** Nothing is invented; and while nothing was dropped, nothing is lost. */
  ghost predicate Conserves(t: Tally, stats: seq<Stat>) {
    && Total(t.counters) <= Sum(stats)
    && (t.duplicates == 0 && t.invalid == 0 ==> t.invalidSlots == {} && Total(t.counters) == Sum(stats))
  }

  lemma StoreConserves(t: Tally, stats: seq<Stat>, s: Stat)
    requires Conserves(t, stats)
    ensures Conserves(StoreStat(t, s), stats + [s])
  {
    hide Total;
    assert (stats + [s])[..|stats|] == stats;
    TotalUpdate(t.counters, s.slot, s.value);
    TotalUpdate(t.counters, s.slot, Held(t.counters, s.slot) + s.value);
    if s.slot in t.counters {
      TotalWithout(t.counters, s.slot);
    } else {
      assert t.counters - {s.slot} == t.counters;
    }
  }

  lemma {:induction false} TallyConserves(g: Grammar, lines: seq<Line>)
    ensures Conserves(TallyOf(g, lines), Stats(g, lines))
  {
    hide Read, StoreStat, Conserves;
    if |lines| > 0 {
      TallyConserves(g, lines[..|lines| - 1]);
      StatsPush(g, lines);
      StepConserves(g, TallyOf(g, lines[..|lines| - 1]), lines[|lines| - 1], Stats(g, lines[..|lines| - 1]));
    } else {
      NothingConserved();
    }
  }

  lemma NothingConserved()
    ensures Conserves(START, [])
  {
  }

  lemma StepConserves(g: Grammar, t: Tally, line: Line, stats: seq<Stat>)
    requires Conserves(t, stats)
    ensures var r := Read(g, t.section, line);
      Conserves(StepLine(g, t, line), stats + if r.Found? then [r.stat] else [])
  {
    hide Read, StoreStat, Total, Sum;
    var r := Read(g, t.section, line);
    if r.Found? {
      var t' := t.(section := SectionAfter(g, t.section, line), numeric := t.numeric + 1);
      assert Conserves(t', stats);
      StoreConserves(t', stats, r.stat);
    } else {
      assert stats + [] == stats;
    }
  }

  /** An `observed` snapshot accounts for every classified line; a partial one never exceeds them. */
  lemma ObservedIsConserved(g: Grammar, lines: seq<Line>)
    ensures var r := ReportOf(g, lines);
      && Total(r.tally.counters) <= Sum(Stats(g, Considered(lines)))
      && (r.status == Observed ==> Considered(lines) == lines && Total(r.tally.counters) == Sum(Stats(g, lines)))
  {
    hide TallyOf, Total, Sum, Stats;
    TallyConserves(g, Considered(lines));
  }

  // ---- Every numeric line is counted once -------------------------------------------

  function NumericLine(): Line -> bool { (l: Line) => l.separated && Digital(l.text) }

  function OversizedLine(): Line -> bool { (l: Line) => l.separated && Digital(l.text) && !Bounded(l.text) }

  lemma StoreCounts(t: Tally, s: Stat)
    ensures var t' := StoreStat(t, s);
      t'.numeric == t.numeric && t'.invalid + |t.invalidSlots| == t.invalid + |t'.invalidSlots|
  {
  }

  lemma {:induction false} EveryNumericLineCounts(g: Grammar, lines: seq<Line>)
    ensures var t := TallyOf(g, lines);
      && t.numeric + Count(lines, OversizedLine()) == Count(lines, NumericLine())
      && t.invalid == Count(lines, OversizedLine()) + |t.invalidSlots|
  {
    hide StoreStat;
    if |lines| > 0 {
      var init, last := lines[..|lines| - 1], lines[|lines| - 1];
      EveryNumericLineCounts(g, init);
      var t := TallyOf(g, init);
      var r := Read(g, t.section, last);
      if r.Found? {
        StoreCounts(t.(section := SectionAfter(g, t.section, last), numeric := t.numeric + 1), r.stat);
      }
    }
  }

  // ---- A field can come back after an overflow ----------------------------------------

  function ExactFor(slot: Slot): Stat -> bool { (s: Stat) => s.slot == slot && !s.additive }

  /** The number of lines after which the field was first dropped by an overflow. */
  function DroppedAt(g: Grammar, lines: seq<Line>, slot: Slot): (n: nat)
    requires slot in TallyOf(g, lines).invalidSlots
    ensures 0 < n <= |lines|
    ensures slot in TallyOf(g, lines[..n]).invalidSlots && slot !in TallyOf(g, lines[..n - 1]).invalidSlots
  {
    assert lines[..|lines|] == lines;
    var init := lines[..|lines| - 1];
    if slot in TallyOf(g, init).invalidSlots then
      var n := DroppedAt(g, init, slot);
      assert init[..n] == lines[..n] && init[..n - 1] == lines[..n - 1];
      n
    else |lines|
  }

  /** The statistics classified after the first `n` lines. */
  function StatsAfter(g: Grammar, lines: seq<Line>, n: nat): seq<Stat>
    requires n <= |lines|
  {
    if n == |lines| then [] else
      var init := lines[..|lines| - 1];
      match Read(g, TallyOf(g, init).section, lines[|lines| - 1])
      case Found(stat) => StatsAfter(g, init, n) + [stat]
      case _ => StatsAfter(g, init, n)
  }

  lemma {:induction false} StatsAfterIs(g: Grammar, lines: seq<Line>, n: nat)
    requires n <= |lines|
    ensures Stats(g, lines) == Stats(g, lines[..n]) + StatsAfter(g, lines, n)
  {
    hide Read, TallyOf;
    if n == |lines| {
      assert lines[..n] == lines;
    } else {
      var init := lines[..|lines| - 1];
      StatsAfterIs(g, init, n);
      assert init[..n] == lines[..n];
    }
  }

  /** A statistic that drops a field leaves it out of the counters. */
  lemma DroppingStat(t: Tally, s: Stat, slot: Slot)
    requires slot !in t.invalidSlots && slot in StoreStat(t, s).invalidSlots
    ensures slot !in StoreStat(t, s).counters
  {
  }

  /** A dropped field stays marked; only an exact statistic for it stores it again, and then it keeps its value. */
  lemma DroppedStat(t: Tally, s: Stat, slot: Slot)
    requires slot in t.invalidSlots
    ensures var t' := StoreStat(t, s);
      && slot in t'.invalidSlots
      && (slot in t.counters ==> slot in t'.counters && t'.counters[slot] == t.counters[slot])
      && (slot !in t.counters && ExactFor(slot)(s) ==> slot in t'.counters && t'.counters[slot] == s.value)
      && (slot !in t.counters && !ExactFor(slot)(s) ==> slot !in t'.counters)
  {
  }

  /** The line before the last statistic, its classification, and the tally `StoreStat` is applied to. */
  lemma LastLine(g: Grammar, lines: seq<Line>)
    requires |lines| > 0
    ensures
      var init, last := TallyOf(g, lines[..|lines| - 1]), lines[|lines| - 1];
      var r := Read(g, init.section, last);
      if r.Found? then
        exists base: Tally :: TallyOf(g, lines) == StoreStat(base, r.stat)
          && base.invalidSlots == init.invalidSlots && base.counters == init.counters
      else TallyOf(g, lines).invalidSlots == init.invalidSlots && TallyOf(g, lines).counters == init.counters
  {
    hide TallyOf, StepLine, Read, StoreStat;
    var init, last := TallyOf(g, lines[..|lines| - 1]), lines[|lines| - 1];
    TallyPush(g, lines);
    LineStep(g, init, last);
    var r := Read(g, init.section, last);
    if r.Found? {
      var base := init.(section := SectionAfter(g, init.section, last), numeric := init.numeric + 1);
      assert TallyOf(g, lines) == StoreStat(base, r.stat);
    }
  }

  lemma TallyPush(g: Grammar, lines: seq<Line>)
    requires |lines| > 0
    ensures TallyOf(g, lines) == StepLine(g, TallyOf(g, lines[..|lines| - 1]), lines[|lines| - 1])
  {
  }

  lemma LineStep(g: Grammar, t: Tally, line: Line)
    ensures match Read(g, t.section, line)
      case Found(stat) =>
        StepLine(g, t, line) == StoreStat(t.(section := SectionAfter(g, t.section, line), numeric := t.numeric + 1), stat)
      case _ => StepLine(g, t, line).invalidSlots == t.invalidSlots && StepLine(g, t, line).counters == t.counters
  {
    hide Read, StoreStat, SectionAfter;
  }

  lemma NewlyDropped(g: Grammar, lines: seq<Line>, slot: Slot)
    requires |lines| > 0 && slot !in TallyOf(g, lines[..|lines| - 1]).invalidSlots && slot in TallyOf(g, lines).invalidSlots
    ensures slot !in TallyOf(g, lines).counters
  {
    hide Read, StoreStat, TallyOf;
    LastLine(g, lines);
    var init := TallyOf(g, lines[..|lines| - 1]);
    var r := Read(g, init.section, lines[|lines| - 1]);
    assert r.Found?;
    var base: Tally :| TallyOf(g, lines) == StoreStat(base, r.stat)
      && base.invalidSlots == init.invalidSlots && base.counters == init.counters;
    DroppingStat(base, r.stat, slot);
  }

  lemma StillDropped(g: Grammar, lines: seq<Line>, slot: Slot)
    requires |lines| > 0 && slot in TallyOf(g, lines[..|lines| - 1]).invalidSlots
    ensures
      var t, t' := TallyOf(g, lines[..|lines| - 1]), TallyOf(g, lines);
      var r := Read(g, t.section, lines[|lines| - 1]);
      && (slot in t.counters ==> slot in t'.counters && t'.counters[slot] == t.counters[slot])
      && (slot !in t.counters && !(r.Found? && ExactFor(slot)(r.stat)) ==> slot !in t'.counters)
      && (slot !in t.counters && r.Found? && ExactFor(slot)(r.stat) ==>
            slot in t'.counters && t'.counters[slot] == r.stat.value)
  {
    hide Read, StoreStat, TallyOf, ExactFor;
    LastLine(g, lines);
    var init := TallyOf(g, lines[..|lines| - 1]);
    var r := Read(g, init.section, lines[|lines| - 1]);
    if r.Found? {
      var base: Tally :| TallyOf(g, lines) == StoreStat(base, r.stat)
        && base.invalidSlots == init.invalidSlots && base.counters == init.counters;
      DroppedStat(base, r.stat, slot);
    }
  }

  /** The exact statistics for the field after the line that dropped it. */
  function ExactAfter(g: Grammar, lines: seq<Line>, slot: Slot): seq<Stat>
    requires slot in TallyOf(g, lines).invalidSlots
  {
    Filter(StatsAfter(g, lines, DroppedAt(g, lines, slot)), ExactFor(slot))
  }

  lemma ExactPush(g: Grammar, lines: seq<Line>, slot: Slot)
    requires |lines| > 0 && slot in TallyOf(g, lines[..|lines| - 1]).invalidSlots && slot in TallyOf(g, lines).invalidSlots
    ensures var init := lines[..|lines| - 1];
      var r := Read(g, TallyOf(g, init).section, lines[|lines| - 1]);
      ExactAfter(g, lines, slot)
      == ExactAfter(g, init, slot) + if r.Found? && ExactFor(slot)(r.stat) then [r.stat] else []
  {
    hide Read, TallyOf, ExactFor, Filter;
    var init := lines[..|lines| - 1];
    var r, n := Read(g, TallyOf(g, init).section, lines[|lines| - 1]), DroppedAt(g, init, slot);
    if r.Found? { FilterPush(StatsAfter(g, init, n), r.stat, ExactFor(slot)); }
  }

  lemma {:induction false} FieldReturns(g: Grammar, lines: seq<Line>, slot: Slot)
    requires slot in TallyOf(g, lines).invalidSlots
    ensures var t, exact := TallyOf(g, lines), ExactAfter(g, lines, slot);
      && (slot in t.counters <==> exact != [])
      && (exact != [] ==> t.counters[slot] == exact[0].value)
  {
    hide Read, StepLine, ExactFor, ExactAfter;
    if |lines| > 0 {
      var init := lines[..|lines| - 1];
      if slot !in TallyOf(g, init).invalidSlots {
        NewlyDropped(g, lines, slot);
        NothingAfter(g, lines, slot);
      } else {
        hide TallyOf;
        StillDropped(g, lines, slot);
        ExactPush(g, lines, slot);
        FieldReturns(g, init, slot);
      }
    }
  }

  lemma NothingAfter(g: Grammar, lines: seq<Line>, slot: Slot)
    requires |lines| > 0 && slot !in TallyOf(g, lines[..|lines| - 1]).invalidSlots && slot in TallyOf(g, lines).invalidSlots
    ensures ExactAfter(g, lines, slot) == []
  {
    hide TallyOf;
    assert DroppedAt(g, lines, slot) == |lines|;
  }

  /**
    Over any input: a field that an overflow dropped is in the result exactly when
    an exact line for it follows the line that dropped it, and then with the value of
    the first such line.
   */
  lemma OverflowedFieldReturnsIff(g: Grammar, lines: seq<Line>, slot: Slot)
    requires slot in TallyOf(g, lines).invalidSlots
    ensures var t, n := TallyOf(g, lines), DroppedAt(g, lines, slot);
      var exact := ExactAfter(g, lines, slot);
      && exact == Filter(StatsAfter(g, lines, n), ExactFor(slot))
      && Stats(g, lines) == Stats(g, lines[..n]) + StatsAfter(g, lines, n)
      && !Summed(t, slot)
      && (slot in t.counters <==> exact != [])
      && (exact != [] ==> t.counters[slot] == exact[0].value)
  {
    hide TallyOf, Stats, StatsAfter, DroppedAt;
    StatsAfterIs(g, lines, DroppedAt(g, lines, slot));
    FieldReturns(g, lines, slot);
  }

  // ---- Such lines exist ---------------------------------------------------------------

  /** A driver that reports two components of a field and the field itself. */
  const BOTH_FORMS: Grammar := (key: string) =>
    if key == "multicast" || key == "unicast" then Some(Ident(0, "rx_packets", "driver", true))
    else if key == "total" then Some(Ident(0, "rx_packets", "driver", false))
    else None

  const PACKETS := Slot(0, "rx_packets")

  function Reports(unicast: nat, multicast: nat, total: nat): seq<Line> {
    [Line(true, "unicast", Decimal(unicast)), Line(true, "multicast", Decimal(multicast)), Line(true, "total", Decimal(total))]
  }

  lemma ReadsAs(key: string, value: nat)
    requires value <= COUNTER_MAX && BOTH_FORMS(key).Some?
    ensures Read(BOTH_FORMS, None, Line(true, key, Decimal(value)))
         == Found(Stat(PACKETS, "driver", BOTH_FORMS(key).value.additive, key, value))
    ensures Marker(key).None?
  {
    hide Bounded, Decimal;
    DecimalPassesIffItFits(value);
    DecimalValue(value);
    assert key[1] != 'x' by {
      assert "multicast"[1] == 'u' && "unicast"[1] == 'n' && "total"[1] == 'o';
    }
    assert "rx queue#"[1] == 'x' && "tx queue#"[1] == 'x';
  }

  /** Whatever the values: the components overflow, the field is dropped, and the total brings it back. */
  lemma OverflowedFieldReturns(unicast: nat, multicast: nat, total: nat)
    requires unicast <= COUNTER_MAX && multicast <= COUNTER_MAX && total <= COUNTER_MAX
    requires unicast + multicast > COUNTER_MAX
    ensures var lines := Reports(unicast, multicast, total);
      && PACKETS in TallyOf(BOTH_FORMS, lines[..2]).invalidSlots && PACKETS !in TallyOf(BOTH_FORMS, lines[..2]).counters
      && PACKETS in TallyOf(BOTH_FORMS, lines).invalidSlots
      && PACKETS in TallyOf(BOTH_FORMS, lines).counters && TallyOf(BOTH_FORMS, lines).counters[PACKETS] == total
  {
    hide Read, Marker, Decimal;
    var lines := Reports(unicast, multicast, total);
    ReadsAs("unicast", unicast);
    ReadsAs("multicast", multicast);
    ReadsAs("total", total);
    assert lines[..2][..1] == lines[..1] && lines[..1][..0] == [] && lines[..|lines| - 1] == lines[..2];
    var t0 := TallyOf(BOTH_FORMS, []);
    var t1 := TallyOf(BOTH_FORMS, lines[..1]);
    assert t1 == StepLine(BOTH_FORMS, t0, lines[0]);
    var t2 := TallyOf(BOTH_FORMS, lines[..2]);
    assert t2 == StepLine(BOTH_FORMS, t1, lines[1]);
    assert TallyOf(BOTH_FORMS, lines) == StepLine(BOTH_FORMS, t2, lines[2]);
  }
}
