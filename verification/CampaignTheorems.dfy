/** What the campaign projection promises, for every run history. */
module CampaignTheorems {
  import opened Wrappers
  import opened Ordering
  import opened Campaign

  // ---- The fold over sorted attempts ---------------------------------------

  ghost predicate DistinctDays(windows: seq<Window>) {
    forall i, j :: 0 <= i < j < |windows| ==> windows[i].day != windows[j].day
  }

  /** The entry of a day is the first valid attempt of that day. */
  ghost predicate FirstOfDay(campaign: CampaignRow, attempts: seq<Run>, w: Window) {
    var valid := Filter(attempts, ValidOn(campaign, w.day));
    |valid| > 0 && valid[0].id == w.runId
  }

  lemma {:induction false} WindowsFacts(campaign: CampaignRow, attempts: seq<Run>)
    ensures DistinctDays(WindowsOf(campaign, attempts))
    ensures forall w :: w in WindowsOf(campaign, attempts) ==> FirstOfDay(campaign, attempts, w)
    ensures forall run :: run in attempts && Valid(campaign)(run) ==>
      HasDay(WindowsOf(campaign, attempts), run.request.windowDay)
  {
    hide AttemptReason, CalendarDay;
    if |attempts| > 0 {
      var init, last := attempts[..|attempts| - 1], attempts[|attempts| - 1];
      WindowsFacts(campaign, init);
      var before, after := WindowsOf(campaign, init), WindowsOf(campaign, attempts);
      assert attempts == init + [last];
      forall w | w in before ensures FirstOfDay(campaign, attempts, w) {
        FirstOfDayGrows(campaign, init, last, w);
      }
      HasDayGrows(before, last);
      if Valid(campaign)(last) && !HasDay(before, last.request.windowDay) {
        FirstOfNewDay(campaign, init, last);
      }
    }
  }

  lemma HasDayGrows(before: seq<Window>, last: Run)
    ensures var after := SetDefault(before, last.request.windowDay, last.id);
      && HasDay(after, last.request.windowDay)
      && (forall day :: HasDay(before, day) ==> HasDay(after, day))
      && (DistinctDays(before) ==> DistinctDays(after))
  {
    var after := SetDefault(before, last.request.windowDay, last.id);
    forall day | HasDay(before, day) ensures HasDay(after, day) {
      var i :| 0 <= i < |before| && before[i].day == day;
      assert after[i].day == day;
    }
    if !HasDay(before, last.request.windowDay) {
      assert after[|before|].day == last.request.windowDay;
    }
  }

  lemma FirstOfDayGrows(campaign: CampaignRow, init: seq<Run>, last: Run, w: Window)
    requires FirstOfDay(campaign, init, w)
    ensures FirstOfDay(campaign, init + [last], w)
  {
    FilterPush(init, last, ValidOn(campaign, w.day));
  }

  lemma FirstOfNewDay(campaign: CampaignRow, init: seq<Run>, last: Run)
    requires Valid(campaign)(last) && !HasDay(WindowsOf(campaign, init), last.request.windowDay)
    requires forall run :: run in init && Valid(campaign)(run) ==>
      HasDay(WindowsOf(campaign, init), run.request.windowDay)
    ensures FirstOfDay(campaign, init + [last], Window(last.request.windowDay, last.id))
  {
    var p := ValidOn(campaign, last.request.windowDay);
    FilterPush(init, last, p);
    FilterNone(init, p);
  }

  // ---- Each reported run is the earliest valid one of its day ---------------

  /** The reference definition, on the unsorted history. */
  ghost predicate EarliestValid(campaign: CampaignRow, runs: seq<Run>, w: Window) {
    exists i :: 0 <= i < |runs| && EarliestAt(campaign, runs, w, i)
  }

  ghost predicate EarliestAt(campaign: CampaignRow, runs: seq<Run>, w: Window, i: nat)
    requires i < |runs|
  {
    && ValidOn(campaign, w.day)(runs[i]) && runs[i].id == w.runId
    && forall j :: 0 <= j < |runs| && ValidOn(campaign, w.day)(runs[j]) ==>
         TextLe(SortKey(runs[i]), SortKey(runs[j]))
         && (TextLe(SortKey(runs[j]), SortKey(runs[i])) ==> i <= j)
  }

  /** Filtering by day before or after discarding foreign runs is the same. */
  lemma ValidOfAttempts(campaign: CampaignRow, runs: seq<Run>, day: string)
    ensures Filter(Attempts(campaign, runs), ValidOn(campaign, day))
         == Filter(StableSort(runs, ByStart()), ValidOn(campaign, day))
  {
    hide AttemptReason, StableSort, Filter, ByStart, TotalPreorder;
    ByStartIsTotal();
    var q := ValidOn(campaign, day);
    forall run | q(run) ensures run.request.campaignId == campaign.id {
      assert Valid(campaign)(run);
    }
    FilterOfAttempts(campaign, runs, q);
    FilterSort(runs, ByStart(), q);
  }

  lemma FilterOfAttempts(campaign: CampaignRow, runs: seq<Run>, q: Run -> bool)
    requires forall run :: q(run) ==> run.request.campaignId == campaign.id
    ensures Filter(Attempts(campaign, runs), q) == StableSort(Filter(runs, q), ByStart())
  {
    hide StableSort, Filter, ByStart, TotalPreorder;
    ByStartIsTotal();
    FilterSort(Filter(runs, Attempt(campaign)), ByStart(), q);
    FilterTwice(runs, Attempt(campaign), q, q);
  }

  lemma WindowIsEarliest(campaign: CampaignRow, runs: seq<Run>, w: Window)
    ensures w in WindowsOf(campaign, Attempts(campaign, runs)) <==> EarliestValid(campaign, runs, w)
  {
    hide AttemptReason, CalendarDay, WindowsOf;
    var attempts := Attempts(campaign, runs);
    var p := ValidOn(campaign, w.day);
    WindowsFacts(campaign, attempts);
    ByStartIsTotal();
    ValidOfAttempts(campaign, runs, w.day);
    FirstWhereHeads(runs, p, ByStart());
    FirstWhereIsLeast(runs, p, ByStart());
    var first := FirstWhere(runs, p, ByStart());
    if w in WindowsOf(campaign, attempts) {
      assert FirstOfDay(campaign, attempts, w);
      assert EarliestAt(campaign, runs, w, first.value);
    }
    if EarliestValid(campaign, runs, w) {
      var i :| 0 <= i < |runs| && EarliestAt(campaign, runs, w, i);
      EarliestIsUnique(campaign, runs, w, i);
      assert Filter(attempts, p)[0] == runs[i];
      FilterSound(attempts, p);
      assert runs[i] in Filter(attempts, p);
      assert HasDay(WindowsOf(campaign, attempts), w.day);
      var k :| 0 <= k < |WindowsOf(campaign, attempts)| && WindowsOf(campaign, attempts)[k].day == w.day;
      assert FirstOfDay(campaign, attempts, WindowsOf(campaign, attempts)[k]);
    }
  }

  lemma EarliestIsUnique(campaign: CampaignRow, runs: seq<Run>, w: Window, i: nat)
    requires i < |runs| && EarliestAt(campaign, runs, w, i)
    ensures FirstWhere(runs, ValidOn(campaign, w.day), ByStart()) == Some(i)
  {
    hide AttemptReason, Valid, ValidOn, FirstWhere, TotalPreorder, TextLe;
    ByStartIsTotal();
    FirstWhereUnique(runs, ValidOn(campaign, w.day), ByStart(), i);
  }

  lemma ByDayIsTotal()
    ensures TotalPreorder(ByDay())
  {
    var le := ByDay();
    forall x, y ensures le(x, y) || le(y, x) { TextTotal(x.day, y.day); }
    forall x, y, z | le(x, y) && le(y, z) ensures le(x, z) { TextTransitive(x.day, y.day, z.day); }
  }

  /**
    The reported windows are exactly the earliest valid run of each day that has
    one, listed by day.
   */
  lemma WindowsAreEarliest(campaign: CampaignRow, runs: seq<Run>, session: Option<Session>,
                           today: string, installed: Installed)
    ensures var view := Project(campaign, runs, session, today, installed);
      && (forall w :: w in view.windows <==> EarliestValid(campaign, runs, w))
      && (forall i, j :: 0 <= i < j < |view.windows| ==>
           view.windows[i].day != view.windows[j].day && TextLe(view.windows[i].day, view.windows[j].day))
  {
    hide AttemptReason, CalendarDay, WindowsOf;
    var windows := WindowsOf(campaign, Attempts(campaign, runs));
    var sorted := StableSort(windows, ByDay());
    SortedWindows(windows, campaign, runs);
    forall w ensures w in sorted <==> EarliestValid(campaign, runs, w) {
      WindowIsEarliest(campaign, runs, w);
    }
  }

  lemma SortedWindows(windows: seq<Window>, campaign: CampaignRow, runs: seq<Run>)
    requires windows == WindowsOf(campaign, Attempts(campaign, runs))
    ensures var sorted := StableSort(windows, ByDay());
      && Sorted(sorted, ByDay()) && DistinctDays(sorted)
      && |sorted| == |windows| && forall w :: w in sorted <==> w in windows
  {
    hide AttemptReason, CalendarDay, WindowsOf;
    WindowsFacts(campaign, Attempts(campaign, runs));
    ByDayIsTotal();
    SortFacts(windows, ByDay());
    var sorted := StableSort(windows, ByDay());
    forall w ensures w in sorted <==> w in windows {
      assert w in sorted <==> w in multiset(sorted);
    }
    DistinctByCount(windows, sorted);
  }

  function OnDay(day: string): Window -> bool { (w: Window) => w.day == day }

  lemma {:induction false} DistinctIffCount(windows: seq<Window>)
    ensures DistinctDays(windows) <==> forall day :: Count(windows, OnDay(day)) <= 1
  {
    if |windows| > 0 {
      var init, last := windows[..|windows| - 1], windows[|windows| - 1];
      DistinctIffCount(init);
      CountPositive(init, OnDay(last.day));
      if DistinctDays(windows) {
        forall day ensures Count(windows, OnDay(day)) <= 1 {}
      }
      if !DistinctDays(windows) {
        if DistinctDays(init) {
          var i :| 0 <= i < |init| && windows[i].day == last.day;
          assert OnDay(last.day)(init[i]);
          assert Count(windows, OnDay(last.day)) > 1;
        } else {
          var day :| Count(init, OnDay(day)) > 1;
          assert Count(windows, OnDay(day)) > 1;
        }
      }
    }
  }

  lemma DistinctByCount(a: seq<Window>, b: seq<Window>)
    requires multiset(a) == multiset(b) && DistinctDays(a)
    ensures DistinctDays(b)
  {
    DistinctIffCount(a);
    DistinctIffCount(b);
    forall day ensures Count(b, OnDay(day)) <= 1 {
      CountOfMultiset(a, b, OnDay(day));
    }
  }

  // ---- The day set ----------------------------------------------------------

  /** The days with an acceptable attempt: a definition that knows neither the checks nor the fold. */
  ghost function DaySet(campaign: CampaignRow, runs: seq<Run>): set<string> {
    set run | run in runs && run.request.campaignId == campaign.id && Acceptable(run, campaign.contract)
            :: run.request.windowDay
  }

  lemma DaySetIsValid(campaign: CampaignRow, runs: seq<Run>)
    ensures DaySet(campaign, runs) == set run | run in runs && Valid(campaign)(run) :: run.request.windowDay
  {
    forall run ensures Valid(campaign)(run)
                       <==> run.request.campaignId == campaign.id && Acceptable(run, campaign.contract)
    {
      ValidAttemptIff(run, campaign.contract);
    }
    hide AttemptReason, Acceptable;
  }

  function DaysOf(windows: seq<Window>): seq<string> {
    seq(|windows|, i requires 0 <= i < |windows| => windows[i].day)
  }

  /** `valid_windows` counts the UTC days on which some attempt was valid. */
  lemma WindowsCountDays(campaign: CampaignRow, runs: seq<Run>)
    ensures var windows := WindowsOf(campaign, Attempts(campaign, runs));
      && (forall day :: HasDay(windows, day) <==> day in DaySet(campaign, runs))
      && |windows| == |DaySet(campaign, runs)|
  {
    hide AttemptReason, CalendarDay, Acceptable, WindowsOf;
    DaySetIsValid(campaign, runs);
    var attempts := Attempts(campaign, runs);
    var windows := WindowsOf(campaign, attempts);
    WindowsFacts(campaign, attempts);
    AttemptsBelong(campaign, runs);
    forall day ensures HasDay(windows, day) <==> day in DaySet(campaign, runs) {
      if HasDay(windows, day) {
        var k :| 0 <= k < |windows| && windows[k].day == day;
        assert FirstOfDay(campaign, attempts, windows[k]);
        FilterSound(attempts, ValidOn(campaign, day));
        assert Filter(attempts, ValidOn(campaign, day))[0] in attempts;
      }
      if day in DaySet(campaign, runs) {
        var run :| run in runs && Valid(campaign)(run) && run.request.windowDay == day;
        assert run in attempts;
      }
    }
    DaysCounted(windows, DaySet(campaign, runs));
  }

  lemma DaysCounted(windows: seq<Window>, days: set<string>)
    requires DistinctDays(windows)
    requires forall day :: HasDay(windows, day) <==> day in days
    ensures |windows| == |days|
  {
    var list := DaysOf(windows);
    DistinctMultiset(list);
    assert (set day | day in list) == days by {
      forall day ensures day in list <==> day in days {
        if day in days {
          var k :| 0 <= k < |windows| && windows[k].day == day;
          assert list[k] == day;
        }
        if day in list {
          var k :| 0 <= k < |list| && list[k] == day;
          assert windows[k].day == day;
        }
      }
    }
  }

  lemma SubsetCount<T>(a: set<T>, b: set<T>)
    requires a <= b
    ensures |a| <= |b|
  {
    assert b == a + (b - a);
    assert |b| == |a| + |b - a|;
  }

  lemma MembersOfMultiset<T>(a: seq<T>, b: seq<T>)
    requires multiset(a) <= multiset(b)
    ensures forall x :: x in a ==> x in b
  {
    forall x | x in a ensures x in b {
      assert multiset(a)[x] > 0;
      assert multiset(b)[x] >= multiset(a)[x];
    }
  }

  /** Adding runs never removes a day and never lowers `valid_windows`. */
  lemma MoreRunsMoreDays(campaign: CampaignRow, runs: seq<Run>, more: seq<Run>)
    requires multiset(runs) <= multiset(more)
    ensures DaySet(campaign, runs) <= DaySet(campaign, more)
    ensures |WindowsOf(campaign, Attempts(campaign, runs))| <= |WindowsOf(campaign, Attempts(campaign, more))|
  {
    hide AttemptReason, CalendarDay, Acceptable, WindowsOf;
    MembersOfMultiset(runs, more);
    WindowsCountDays(campaign, runs);
    WindowsCountDays(campaign, more);
    SubsetCount(DaySet(campaign, runs), DaySet(campaign, more));
  }

  /** Once completed, always completed, whatever happens to the clock, session or installed profile. */
  lemma CompletedIsAbsorbing(
      campaign: CampaignRow, runs: seq<Run>, more: seq<Run>,
      session: Option<Session>, today: string, installed: Installed,
      session': Option<Session>, today': string, installed': Installed)
    requires multiset(runs) <= multiset(more)
    requires Project(campaign, runs, session, today, installed).status == "completed"
    ensures var view := Project(campaign, more, session', today', installed');
      && view.status == "completed" && view.gate == CampaignComplete && !view.Eligible()
      && (campaign.status != "completed" ==> view.remaining == 0)
  {
    hide AttemptReason, CalendarDay, WindowsOf;
    MoreRunsMoreDays(campaign, runs, more);
  }

  // ---- Order of arrival ------------------------------------------------------

  lemma ActiveIffLive(campaign: CampaignRow, attempts: seq<Run>)
    requires forall run :: run in attempts && LiveAttempt(campaign)(run) ==> run.id != ""
    ensures ActiveOf(campaign, attempts) != "" <==> Count(attempts, LiveAttempt(campaign)) > 0
  {
    if |attempts| > 0 {
      ActiveIffLive(campaign, attempts[..|attempts| - 1]);
    }
  }

  /** Counting over the attempts is counting over the whole history. */
  lemma CountAttempts(campaign: CampaignRow, runs: seq<Run>, p: Run -> bool)
    requires forall run :: p(run) ==> run.request.campaignId == campaign.id
    ensures Count(Attempts(campaign, runs), p) == Count(runs, p)
  {
    var mine := Filter(runs, Attempt(campaign));
    ByStartIsTotal();
    SortFacts(mine, ByStart());
    CountOfMultiset(StableSort(mine, ByStart()), mine, p);
    FilterSound(mine, p);
    FilterSound(runs, p);
    FilterTwice(runs, Attempt(campaign), p, p);
  }

  lemma AttemptCount(campaign: CampaignRow, runs: seq<Run>)
    ensures |Attempts(campaign, runs)| == Count(runs, Attempt(campaign))
  {
    FilterSound(runs, Attempt(campaign));
    ByStartIsTotal();
    SortFacts(Filter(runs, Attempt(campaign)), ByStart());
  }

  lemma SortedDays(campaign: CampaignRow, runs: seq<Run>)
    ensures var days := DaysOf(StableSort(WindowsOf(campaign, Attempts(campaign, runs)), ByDay()));
      && Distinct(days) && Sorted(days, TextLe)
      && (set day | day in days) == DaySet(campaign, runs)
  {
    hide AttemptReason, CalendarDay, WindowsOf;
    var windows := WindowsOf(campaign, Attempts(campaign, runs));
    SortedWindows(windows, campaign, runs);
    WindowsCountDays(campaign, runs);
    var sorted := StableSort(windows, ByDay());
    var days := DaysOf(sorted);
    forall day ensures day in days <==> day in DaySet(campaign, runs) {
      if day in days {
        var k :| 0 <= k < |days| && days[k] == day;
        assert sorted[k] in windows;
      }
      if HasDay(windows, day) {
        var k :| 0 <= k < |windows| && windows[k].day == day;
        assert windows[k] in sorted;
        var m :| 0 <= m < |sorted| && sorted[m] == windows[k];
        assert days[m] == day;
      }
    }
    assert Sorted(days, TextLe) by {
      forall i, j | 0 <= i < j < |days| ensures TextLe(days[i], days[j]) {
        assert ByDay()(sorted[i], sorted[j]);
      }
    }
  }

  /**
    The order in which the history is listed changes no day, no count and no
    status; it changes no dispatch decision either once live attempts have ids.
   */
  lemma OrderOfRunsIsIrrelevant(campaign: CampaignRow, runs: seq<Run>, other: seq<Run>,
                                session: Option<Session>, today: string, installed: Installed)
    requires multiset(runs) == multiset(other)
    ensures var a, b := Project(campaign, runs, session, today, installed),
                        Project(campaign, other, session, today, installed);
      && DaysOf(a.windows) == DaysOf(b.windows)
      && |a.windows| == |b.windows| && a.remaining == b.remaining && a.status == b.status
      && a.failedAttempts == b.failedAttempts && |a.attempts| == |b.attempts|
      && a.windowNumber == b.windowNumber && a.attemptNumber == b.attemptNumber
      && ((forall run :: run in runs && LiveAttempt(campaign)(run) ==> run.id != "") ==> a.gate == b.gate)
  {
    hide AttemptReason, CalendarDay, WindowsOf;
    SameDays(campaign, runs, other);
    AttemptCount(campaign, runs);
    AttemptCount(campaign, other);
    CountOfMultiset(runs, other, Attempt(campaign));
    CountAttempts(campaign, runs, EndedBadly(campaign));
    CountAttempts(campaign, other, EndedBadly(campaign));
    CountOfMultiset(runs, other, EndedBadly(campaign));
    if forall run :: run in runs && LiveAttempt(campaign)(run) ==> run.id != "" {
      SameActivity(campaign, runs, other);
    }
  }

  lemma SameDays(campaign: CampaignRow, runs: seq<Run>, other: seq<Run>)
    requires multiset(runs) == multiset(other)
    ensures var w, w' := WindowsOf(campaign, Attempts(campaign, runs)), WindowsOf(campaign, Attempts(campaign, other));
      && DaysOf(StableSort(w, ByDay())) == DaysOf(StableSort(w', ByDay()))
      && |w| == |w'| && (forall day :: HasDay(w, day) <==> HasDay(w', day))
      && |StableSort(w, ByDay())| == |w| && |StableSort(w', ByDay())| == |w'|
  {
    hide AttemptReason, CalendarDay, WindowsOf;
    MoreRunsMoreDays(campaign, runs, other);
    MoreRunsMoreDays(campaign, other, runs);
    WindowsCountDays(campaign, runs);
    WindowsCountDays(campaign, other);
    SortedWindows(WindowsOf(campaign, Attempts(campaign, runs)), campaign, runs);
    SortedWindows(WindowsOf(campaign, Attempts(campaign, other)), campaign, other);
    SortedDays(campaign, runs);
    SortedDays(campaign, other);
    var a := DaysOf(StableSort(WindowsOf(campaign, Attempts(campaign, runs)), ByDay()));
    var b := DaysOf(StableSort(WindowsOf(campaign, Attempts(campaign, other)), ByDay()));
    DistinctMultiset(a);
    DistinctMultiset(b);
    forall x, y | x in a && y in a && TextLe(x, y) && TextLe(y, x) ensures x == y { TextTotal(x, y); }
    SortedUnique(a, b, TextLe);
  }

  lemma SameActivity(campaign: CampaignRow, runs: seq<Run>, other: seq<Run>)
    requires multiset(runs) == multiset(other)
    requires forall run :: run in runs && LiveAttempt(campaign)(run) ==> run.id != ""
    ensures ActiveOf(campaign, Attempts(campaign, runs)) == "" <==> ActiveOf(campaign, Attempts(campaign, other)) == ""
  {
    MembersOfMultiset(other, runs);
    AttemptsBelong(campaign, runs);
    AttemptsBelong(campaign, other);
    ActiveIffLive(campaign, Attempts(campaign, runs));
    ActiveIffLive(campaign, Attempts(campaign, other));
    CountAttempts(campaign, runs, LiveAttempt(campaign));
    CountAttempts(campaign, other, LiveAttempt(campaign));
    CountOfMultiset(runs, other, LiveAttempt(campaign));
  }

  ghost predicate DistinctKeys(campaign: CampaignRow, runs: seq<Run>) {
    forall x, y :: x in runs && y in runs && Attempt(campaign)(x) && Attempt(campaign)(y) ==>
      SortKey(x) == SortKey(y) ==> x == y
  }

  /** When no two attempts share a sort key, the whole projection is independent of the listing order. */
  lemma DistinctKeysFixTheView(campaign: CampaignRow, runs: seq<Run>, other: seq<Run>,
                               session: Option<Session>, today: string, installed: Installed)
    requires multiset(runs) == multiset(other)
    requires DistinctKeys(campaign, runs)
    ensures Project(campaign, runs, session, today, installed) == Project(campaign, other, session, today, installed)
  {
    hide AttemptReason, CalendarDay, WindowsOf, ActiveOf, EffectiveStatus, GateOf, StableSort, Summaries, Count;
    SameAttempts(campaign, runs, other);
  }

  lemma SameAttempts(campaign: CampaignRow, runs: seq<Run>, other: seq<Run>)
    requires multiset(runs) == multiset(other)
    requires DistinctKeys(campaign, runs)
    ensures Attempts(campaign, runs) == Attempts(campaign, other)
  {
    hide AttemptReason, CalendarDay, StableSort, Filter;
    var a, b := Attempts(campaign, runs), Attempts(campaign, other);
    ByStartIsTotal();
    SortFacts(Filter(runs, Attempt(campaign)), ByStart());
    SortFacts(Filter(other, Attempt(campaign)), ByStart());
    FilterMultiset(runs, other, Attempt(campaign));
    AttemptsBelong(campaign, runs);
    forall x, y | x in a && y in a && ByStart()(x, y) && ByStart()(y, x) ensures x == y {
      TextTotal(SortKey(x), SortKey(y));
    }
    SortedUnique(a, b, ByStart());
  }

  function Is<T(==)>(x: T): T -> bool { (y: T) => y == x }

  lemma {:induction false} CountIs<T>(s: seq<T>, x: T)
    ensures Count(s, Is(x)) == multiset(s)[x]
  {
    if |s| > 0 {
      CountIs(s[..|s| - 1], x);
      LastMultiset(s);
    }
  }

  lemma FilterMultiset<T(!new)>(a: seq<T>, b: seq<T>, p: T -> bool)
    requires multiset(a) == multiset(b)
    ensures multiset(Filter(a, p)) == multiset(Filter(b, p))
  {
    forall x ensures multiset(Filter(a, p))[x] == multiset(Filter(b, p))[x] {
      var both := (y: T) => p(y) && y == x;
      FilterTwice(a, p, Is(x), both);
      FilterTwice(b, p, Is(x), both);
      FilterSound(Filter(a, p), Is(x));
      FilterSound(Filter(b, p), Is(x));
      FilterSound(a, both);
      FilterSound(b, both);
      CountOfMultiset(a, b, both);
      CountIs(Filter(a, p), x);
      CountIs(Filter(b, p), x);
    }
  }

  // ---- Runs that do not count ------------------------------------------------

  lemma {:induction false} OnlyValidMatters(campaign: CampaignRow, attempts: seq<Run>)
    ensures WindowsOf(campaign, attempts) == WindowsOf(campaign, Filter(attempts, Valid(campaign)))
  {
    hide AttemptReason, CalendarDay, SetDefault;
    if |attempts| > 0 {
      var init, last := attempts[..|attempts| - 1], attempts[|attempts| - 1];
      OnlyValidMatters(campaign, init);
      if Valid(campaign)(last) {
        WindowsPush(campaign, Filter(init, Valid(campaign)), last);
      } else {
        assert Filter(attempts, Valid(campaign)) == Filter(init, Valid(campaign));
      }
    }
  }

  /** A foreign or invalid run, wherever it is listed, changes no day and no reported run id. */
  lemma InvalidRunsChangeNothing(campaign: CampaignRow, before: seq<Run>, run: Run, after: seq<Run>)
    requires !Valid(campaign)(run)
    ensures WindowsOf(campaign, Attempts(campaign, before + [run] + after))
         == WindowsOf(campaign, Attempts(campaign, before + after))
  {
    hide AttemptReason, CalendarDay, WindowsOf;
    var p := Valid(campaign);
    FilterOfAttempts(campaign, before + [run] + after, p);
    FilterOfAttempts(campaign, before + after, p);
    OnlyValidMatters(campaign, Attempts(campaign, before + [run] + after));
    OnlyValidMatters(campaign, Attempts(campaign, before + after));
    FilterConcat(before + [run], after, p);
    FilterPush(before, run, p);
    FilterConcat(before, after, p);
    assert Filter(before, p) + [] == Filter(before, p);
  }

  // ---- When a window may be dispatched ----------------------------------------

  /**
    Dispatch is allowed exactly when the campaign is active under the installed
    profile, still short of its target of distinct days, has no live attempt and
    no valid run today, and its own pair of Agents is ready.
   */
  lemma DispatchAllowedIff(campaign: CampaignRow, runs: seq<Run>, session: Option<Session>,
                           today: string, installed: Installed)
    requires forall run :: run in runs && LiveAttempt(campaign)(run) ==> run.id != ""
    ensures Project(campaign, runs, session, today, installed).Eligible() <==>
      && (campaign.status == "" || campaign.status == "active")
      && installed == Installed(campaign.contract.profileVersion, campaign.contract.methodologyVersion)
      && |DaySet(campaign, runs)| < (if campaign.targetWindows == 0 then 3 else campaign.targetWindows)
      && Count(runs, LiveAttempt(campaign)) == 0
      && today !in DaySet(campaign, runs)
      && session.Some? && MatchesSession(campaign.contract, session.value) && session.value.status == "ready"
  {
    hide AttemptReason, CalendarDay, Acceptable, WindowsOf, ActiveOf, MatchesSession;
    var attempts := Attempts(campaign, runs);
    WindowsCountDays(campaign, runs);
    AttemptsBelong(campaign, runs);
    ActiveIffLive(campaign, attempts);
    CountAttempts(campaign, runs, LiveAttempt(campaign));
  }
}
