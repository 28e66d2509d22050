/** What each part of the reported view says about the run history, field by field. */
module CampaignView {
  import opened Wrappers
  import opened Decimals
  import opened Ordering
  import opened Campaign
  import opened CampaignTheorems

  // ---- The contract ----------------------------------------------------------------

  function InRole(role: string): Participant -> bool { (x: Participant) => x.role == role }

  lemma PairCounts(session: Session)
    ensures |PairOf(session)| == Count(session.agents, InRole("target")) + Count(session.agents, InRole("generator"))
    ensures forall role :: role in {"target", "generator"} ==>
      (role in (set p | p in PairOf(session) :: p.role) <==> Count(session.agents, InRole(role)) > 0)
  {
    assert "target"[0] != "generator"[0];
    SplitCount(session.agents);
    FilterSound(session.agents, Paired());
    forall role | role in {"target", "generator"}
      ensures role in (set p | p in PairOf(session) :: p.role) <==> Count(session.agents, InRole(role)) > 0
    {
      CountPositive(session.agents, InRole(role));
      if i :| 0 <= i < |session.agents| && InRole(role)(session.agents[i]) {
        assert session.agents[i] in PairOf(session);
      }
    }
  }

  lemma {:induction false} SplitCount(agents: seq<Participant>)
    ensures Count(agents, Paired()) == Count(agents, InRole("target")) + Count(agents, InRole("generator"))
  {
    assert "target"[0] != "generator"[0];
    if |agents| > 0 { SplitCount(agents[..|agents| - 1]); }
  }

  /** A contract is built exactly for the standard profile, 3 to 30 windows and one Agent in each role. */
  lemma ContractBuiltIff(session: Session, profile: string, windows: int, installed: Installed)
    ensures var r := BuildContract(session, profile, windows, installed);
      && (r.Ok? <==>
           && profile == "network-peer-standard" && 3 <= windows <= 30
           && Count(session.agents, InRole("target")) == 1 && Count(session.agents, InRole("generator")) == 1)
      && (r.Ok? ==>
           && r.value.version == "network-campaign-v1" && r.value.sessionId == session.id && r.value.profile == profile
           && r.value.profileVersion == installed.profileVersion
           && r.value.methodologyVersion == installed.methodologyVersion
           && multiset(r.value.participants) == multiset(PairOf(session))
           && |r.value.participants| == 2 && r.value.participants[0].role == "generator"
           && r.value.participants[1].role == "target")
  {
    var pair := PairOf(session);
    RolesAreRight(session);
    ByRoleIsTotal();
    SortFacts(pair, ByRole());
    if BuildContract(session, profile, windows, installed).Ok? { RolesInOrder(pair); }
    hide StableSort, PairOf, Count;
  }

  lemma RolesAreRight(session: Session)
    ensures (set p | p in PairOf(session) :: p.role) == {"target", "generator"} && |PairOf(session)| == 2
       <==> Count(session.agents, InRole("target")) == 1 && Count(session.agents, InRole("generator")) == 1
  {
    PairCounts(session);
    FilterSound(session.agents, Paired());
    var pair := PairOf(session);
    var roles := set p | p in pair :: p.role;
    assert roles <= {"target", "generator"};
    assert roles == {"target", "generator"} <==> "target" in roles && "generator" in roles;
    hide PairOf, Count, Filter;
  }

  lemma RolesInOrder(pair: seq<Participant>)
    requires |pair| == 2 && (set p | p in pair :: p.role) == {"target", "generator"}
    ensures var sorted := StableSort(pair, ByRole());
      |sorted| == 2 && sorted[0].role == "generator" && sorted[1].role == "target"
  {
    TwoRoles(pair);
    RolesOfTwo(pair);
    assert pair == [pair[0], pair[1]];
    SortTwo(pair[0], pair[1], ByRole());
    hide StableSort;
    GeneratorFirst();
  }

  lemma RolesOfTwo(pair: seq<Participant>)
    requires |pair| == 2 && (set p | p in pair :: p.role) == {"target", "generator"}
    ensures forall i :: 0 <= i < 2 ==> pair[i].role == "target" || pair[i].role == "generator"
  {
    forall i | 0 <= i < 2 ensures pair[i].role == "target" || pair[i].role == "generator" {
      assert pair[i] in pair && pair[i].role in (set p | p in pair :: p.role);
    }
  }

  lemma GeneratorFirst()
    ensures TextLe("generator", "target") && !TextLe("target", "generator")
  {
    assert "generator"[0] == 'g' && "target"[0] == 't';
  }

  lemma SortTwo<T(!new)>(a: T, b: T, le: (T, T) -> bool)
    ensures StableSort([a, b], le) == if le(a, b) then [a, b] else [b, a]
  {
    assert [a, b][..1] == [a] && [a][..0] == [];
    assert StableSort([a], le) == InsertSorted([], a, le) == [a];
    assert InsertSorted([a], b, le) == if le(a, b) then [a] + [b] else InsertSorted([], b, le) + [a];
  }

  // ---- The verdict on one attempt -----------------------------------------------------

  /** What each check objects to, in the order the checks are made. */
  function Faults(run: Run, c: Contract): seq<bool> {
    var result := ResultOf(run);
    [run.request.contractVersion != c.version,
     !(run.request.confirmLoad && run.request.confirmWindow),
     !(run.request.sessionId == c.sessionId && run.request.profile == c.profile),
     run.status != Completed,
     result.profileVersion != c.profileVersion,
     result.methodologyVersion != c.methodologyVersion,
     result.sessionId !in {"", c.sessionId},
     !result.comparisonEligible,
     !CalendarDay(run.request.windowDay)]
  }

  function Reasons(run: Run): seq<Reason> {
    [VersionMismatch, ConfirmationMissing, TargetMismatch, NotCompleted(run.status), ProfileVersionMismatch,
     MethodologyMismatch, ResultSessionMismatch, ValidityIncomplete, InvalidWindow]
  }

  /** The reason names the first fault; without one the attempt is valid. */
  lemma ReasonIsFirstFault(run: Run, c: Contract)
    ensures var faults, reason := Faults(run, c), AttemptReason(run, c);
      && (reason == ValidWindow <==> forall k :: 0 <= k < 9 ==> !faults[k])
      && forall k :: 0 <= k < 9 && faults[k] && (forall j :: 0 <= j < k ==> !faults[j]) ==> reason == Reasons(run)[k]
  {
    hide CalendarDay;
    var f := Faults(run, c);
    assert f[6] <==> ResultOf(run).sessionId != "" && ResultOf(run).sessionId != c.sessionId;
    assert f[0] || f[1] || f[2] || f[3] || f[4] || f[5] || f[6] || f[7] || f[8] <==> AttemptReason(run, c) != ValidWindow;
    forall k | 0 <= k < 9 && f[k] && (forall j :: 0 <= j < k ==> !f[j]) ensures AttemptReason(run, c) == Reasons(run)[k] {
      assert k == 0 || k == 1 || k == 2 || k == 3 || k == 4 || k == 5 || k == 6 || k == 7 || k == 8;
      assert k > 0 ==> !f[0];
      assert k > 1 ==> !f[1];
      assert k > 2 ==> !f[2];
      assert k > 3 ==> !f[3];
      assert k > 4 ==> !f[4];
      assert k > 5 ==> !f[5];
      assert k > 6 ==> !f[6];
      assert k > 7 ==> !f[7];
    }
  }

  // ---- Calendar days ------------------------------------------------------------------

  function YearDays(year: nat): nat {
    DaysIn(year, 1) + DaysIn(year, 2) + DaysIn(year, 3) + DaysIn(year, 4) + DaysIn(year, 5) + DaysIn(year, 6)
    + DaysIn(year, 7) + DaysIn(year, 8) + DaysIn(year, 9) + DaysIn(year, 10) + DaysIn(year, 11) + DaysIn(year, 12)
  }

  /** The Gregorian calendar: 366 days in leap years, otherwise 365, and only February changes. */
  lemma MonthsFillTheYear(year: nat)
    ensures YearDays(year) == if year % 400 == 0 || (year % 4 == 0 && year % 100 != 0) then 366 else 365
    ensures forall month :: 1 <= month <= 12 && month != 2 ==> DaysIn(year, month) == DaysIn(0, month)
    ensures DaysIn(year, 1) == DaysIn(year, 3) == DaysIn(year, 5) == DaysIn(year, 7) == DaysIn(year, 8)
         == DaysIn(year, 10) == DaysIn(year, 12) == 31
  {
  }

  function DayText(year: nat, month: nat, day: nat): string {
    Padded(year, 4) + "-" + Padded(month, 2) + "-" + Padded(day, 2)
  }

  /** The accepted texts are exactly the dates, written with four, two and two digits. */
  lemma CalendarDayIff(s: string)
    ensures CalendarDay(s) <==>
      exists year, month, day :: 1000 <= year <= 9999 && 1 <= month <= 12 && 1 <= day <= DaysIn(year, month)
        && s == DayText(year, month, day)
  {
    if CalendarDay(s) {
      var year, month, day := Number(s[..4]), Number(s[5..7]), Number(s[8..]);
      Pow10Values();
      NumberBound(s[..4]);
      PaddedNumber(s[..4]);
      PaddedNumber(s[5..7]);
      PaddedNumber(s[8..]);
      assert s == s[..4] + "-" + s[5..7] + "-" + s[8..];
      assert s == DayText(year, month, day);
    }
    forall year, month, day
      | 1000 <= year <= 9999 && 1 <= month <= 12 && 1 <= day <= DaysIn(year, month) && s == DayText(year, month, day)
      ensures CalendarDay(s)
    {
      DateIsCalendar(s, year, month, day);
    }
  }

  lemma Pow10Values()
    ensures Pow10(2) == 100 && Pow10(4) == 10_000
  {
    assert Pow10(4) == 100 * Pow10(2);
  }

  lemma DateIsCalendar(s: string, year: nat, month: nat, day: nat)
    requires 1000 <= year <= 9999 && 1 <= month <= 12 && 1 <= day <= DaysIn(year, month) && s == DayText(year, month, day)
    ensures CalendarDay(s)
  {
    Pow10Values();
    WrittenDigits(year, 4);
    WrittenDigits(month, 2);
    WrittenDigits(day, 2);
    SlicesOf(Padded(year, 4), Padded(month, 2), Padded(day, 2));
    hide Padded, Number, Pow10, DaysIn;
  }

  lemma SlicesOf(a: string, b: string, c: string)
    requires |a| == 4 && |b| == 2 && |c| == 2
    ensures var s := a + "-" + b + "-" + c;
      |s| == 10 && s[..4] == a && s[4] == '-' && s[5..7] == b && s[7] == '-' && s[8..] == c
  {
  }

  lemma WrittenDigits(n: nat, width: nat)
    requires width >= 1 && n < Pow10(width)
    ensures |Padded(n, width)| == width && Digits(Padded(n, width)) && Number(Padded(n, width)) == n
  {
    DecimalLength(n, width);
    PadLength(Decimal(n), width);
    DecimalValue(n);
    PadValue(Decimal(n), width);
  }

  /** Digits of a given width are determined by their value. */
  lemma PaddedNumber(s: string)
    requires |s| >= 1 && Digits(s)
    ensures Padded(Number(s), |s|) == s
  {
    NumberBound(s);
    WrittenDigits(Number(s), |s|);
    SameDigits(Padded(Number(s), |s|), s);
  }

  lemma {:induction false} SameDigits(a: string, b: string)
    requires |a| == |b| && Digits(a) && Digits(b) && Number(a) == Number(b)
    ensures a == b
  {
    if |a| > 0 {
      var n := |a| - 1;
      assert Number(a) == 10 * Number(a[..n]) + (a[n] as int - '0' as int);
      assert Number(b) == 10 * Number(b[..n]) + (b[n] as int - '0' as int);
      SameDigits(a[..n], b[..n]);
      assert a == a[..n] + [a[n]] && b == b[..n] + [b[n]];
    }
  }

  // ---- The view -----------------------------------------------------------------------

  /** Progress and status, in terms of the distinct valid days. */
  lemma ProgressIsExact(campaign: CampaignRow, runs: seq<Run>, session: Option<Session>, today: string, installed: Installed)
    ensures
      var view, days := Project(campaign, runs, session, today, installed), |DaySet(campaign, runs)|;
      var n := if campaign.targetWindows == 0 then 3 else campaign.targetWindows;
      var mine := (run: Run) => run.request.campaignId == campaign.id;
      var failed := (run: Run) => run.request.campaignId == campaign.id && (run.status == Failed || run.status == Cancelled);
      && view.targetWindows == n && view.ValidWindows() == days && view.windowDay == today
      && view.remaining == (if days < n then n - days else 0)
      && view.windowNumber == (if days < n then days + 1 else n)
      && view.attemptNumber == Count(runs, mine) + 1
      && view.failedAttempts == Count(runs, failed)
      && (view.status == "completed" <==> days >= n || campaign.status == "completed")
      && (view.status == "superseded" <==>
           && days < n
           && (campaign.status == "superseded"
               || (campaign.status in {"", "active"}
                   && installed != Installed(campaign.contract.profileVersion, campaign.contract.methodologyVersion))))
      && (view.status !in {"completed", "superseded"} ==>
           view.status == if campaign.status == "" then "active" else campaign.status)
  {
    hide AttemptReason, CalendarDay, Acceptable, WindowsOf, ActiveOf, GateOf, Summaries;
    WindowsCountDays(campaign, runs);
    SortedWindows(WindowsOf(campaign, Attempts(campaign, runs)), campaign, runs);
    AttemptCount(campaign, runs);
    CountAttempts(campaign, runs, EndedBadly(campaign));
    var mine := (run: Run) => run.request.campaignId == campaign.id;
    var failed := (run: Run) => run.request.campaignId == campaign.id && (run.status == Failed || run.status == Cancelled);
    CountSame(runs, Attempt(campaign), mine);
    CountSame(runs, EndedBadly(campaign), failed);
    StatusWords();
  }

  lemma StatusWords()
    ensures "completed" != "superseded" && "completed" != "active" && "superseded" != "active"
  {
    assert "completed"[0] == 'c' && "superseded"[0] == 's' && "active"[0] == 'a';
  }

  /** The gate names the first obstacle to a dispatch. */
  lemma GateIsFirstObstacle(campaign: CampaignRow, runs: seq<Run>, session: Option<Session>, today: string,
                            installed: Installed)
    requires forall run :: run in runs && run.request.campaignId == campaign.id && run.status.Live() ==> run.id != ""
    ensures
      var view, days := Project(campaign, runs, session, today, installed), DaySet(campaign, runs);
      view.gate ==
        if view.status == "completed" then CampaignComplete
        else if view.status == "superseded" then Superseded
        else if campaign.status !in {"", "active"} then NotActive
        else if exists run :: run in runs && run.request.campaignId == campaign.id && run.status in {Queued, Running} then RunActive
        else if today in days then DayComplete
        else if session.None? then SessionUnavailable
        else if !MatchesSession(campaign.contract, session.value) then SessionMismatch
        else if session.value.status != "ready" then AgentsNotReady
        else Ready
  {
    hide AttemptReason, CalendarDay, Acceptable, WindowsOf, ActiveOf, MatchesSession;
    var attempts := Attempts(campaign, runs);
    WindowsCountDays(campaign, runs);
    AttemptsBelong(campaign, runs);
    ActiveIffLive(campaign, attempts);
    CountAttempts(campaign, runs, LiveAttempt(campaign));
    CountPositive(runs, LiveAttempt(campaign));
    if run :| run in runs && run.request.campaignId == campaign.id && run.status in {Queued, Running} {
      var i :| 0 <= i < |runs| && runs[i] == run;
      assert LiveAttempt(campaign)(runs[i]);
    }
  }

  /** One summary for each attempt, in the order of their starts, each saying what the attempt says. */
  lemma AttemptsAreListed(campaign: CampaignRow, runs: seq<Run>, session: Option<Session>, today: string, installed: Installed)
    ensures
      var view, attempts := Project(campaign, runs, session, today, installed), Attempts(campaign, runs);
      && |view.attempts| == |attempts|
      && (forall i, j :: 0 <= i < j < |attempts| ==> TextLe(SortKey(attempts[i]), SortKey(attempts[j])))
      && (forall run :: run in attempts <==> run in runs && run.request.campaignId == campaign.id)
      && forall i :: 0 <= i < |attempts| ==>
           var s, run := view.attempts[i], attempts[i];
           && s.runId == run.id && s.status == run.status
           && s.attemptNumber == run.request.attemptNumber && s.windowNumber == run.request.windowNumber
           && s.windowDay == (if CalendarDay(run.request.windowDay) then Some(run.request.windowDay) else None)
           && s.reason == AttemptReason(run, campaign.contract)
           && (s.valid <==> Acceptable(run, campaign.contract))
  {
    var attempts := Attempts(campaign, runs);
    hide CalendarDay, GateOf, EffectiveStatus, WindowsOf, ActiveOf;
    AttemptsBelong(campaign, runs);
    ByStartIsTotal();
    SortFacts(Filter(runs, Attempt(campaign)), ByStart());
    forall i, j | 0 <= i < j < |attempts| ensures TextLe(SortKey(attempts[i]), SortKey(attempts[j])) {
      assert ByStart()(attempts[i], attempts[j]);
    }
    forall i | 0 <= i < |attempts|
      ensures AttemptReason(attempts[i], campaign.contract) == ValidWindow <==> Acceptable(attempts[i], campaign.contract)
    {
      ValidAttemptIff(attempts[i], campaign.contract);
    }
    hide AttemptReason, Acceptable, StableSort, Attempts;
  }

  /** `i` is the last attempt that is queued or running. */
  ghost predicate LastLive(campaign: CampaignRow, attempts: seq<Run>, i: nat) {
    && i < |attempts| && attempts[i].request.campaignId == campaign.id && attempts[i].status in {Queued, Running}
    && forall j :: i < j < |attempts| ==> attempts[j].request.campaignId != campaign.id || attempts[j].status !in {Queued, Running}
  }

  lemma LastLivePush(campaign: CampaignRow, init: seq<Run>, last: Run, i: nat)
    ensures LastLive(campaign, init + [last], i) <==>
      if last.request.campaignId == campaign.id && last.status in {Queued, Running} then i == |init|
      else LastLive(campaign, init, i)
  {
    var all := init + [last];
    assert all[|init|] == last && forall j :: 0 <= j < |init| ==> all[j] == init[j];
  }

  /** The active run is the last attempt that is still queued or running; without one the id is empty. */
  lemma {:induction false} ActiveIsLast(campaign: CampaignRow, attempts: seq<Run>, i: nat)
    ensures LastLive(campaign, attempts, i) ==> ActiveOf(campaign, attempts) == attempts[i].id
    ensures (forall k: nat :: !LastLive(campaign, attempts, k)) ==> ActiveOf(campaign, attempts) == ""
  {
    if |attempts| > 0 {
      var init, last := attempts[..|attempts| - 1], attempts[|attempts| - 1];
      assert attempts == init + [last];
      ActiveIsLast(campaign, init, i);
      hide LastLive;
      forall k: nat ensures LastLive(campaign, attempts, k) <==>
        if last.request.campaignId == campaign.id && last.status in {Queued, Running} then k == |init|
        else LastLive(campaign, init, k)
      {
        LastLivePush(campaign, init, last, k);
      }
      if LastLive(campaign, init, i) { LastLiveBound(campaign, init, i); }
      if forall k: nat :: !LastLive(campaign, attempts, k) {
        assert !LastLive(campaign, attempts, |init|);
        forall k: nat ensures !LastLive(campaign, init, k) { assert !LastLive(campaign, attempts, k); }
      }
    }
  }

  lemma LastLiveBound(campaign: CampaignRow, attempts: seq<Run>, i: nat)
    requires LastLive(campaign, attempts, i)
    ensures i < |attempts|
  {
  }
}
