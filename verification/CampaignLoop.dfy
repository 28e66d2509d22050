/**
  The closed loop around the projection: the server dispatches a window only when
  the projection of the stored history says it may, stamps the day the projection
  used, and one thread per run carries it from queued to an end. Other runs, other
  campaigns, restarts of the Controller and the clock move freely.
 */
module CampaignLoop {
  import opened Wrappers
  import opened Ordering
  import opened Campaign
  import opened CampaignTheorems

  datatype Thread = NoThread | Starting | Executing

  datatype Loop = Loop(campaign: CampaignRow, runs: seq<Run>, threads: seq<Thread>)

  /** What the dispatcher sees: the rows in the order the query lists them, the clock, the session. */
  datatype Sight = Sight(listing: seq<Run>, session: Option<Session>, today: string, installed: Installed)

  datatype Step =
    | Dispatch(sight: Sight, runId: string, accepted: bool)
    | Submit(runId: string, request: Request)
    | Begin(index: nat, startedAt: string)
    | Report(index: nat, result: Option<Outcome>)
    | End(index: nat, status: RunStatus, result: Option<Outcome>, finishedAt: string)
    | Restart(finishedAt: string)

  function ViewOf(campaign: CampaignRow, sight: Sight): View {
    Project(campaign, sight.listing, sight.session, sight.today, sight.installed)
  }

  function Stamped(campaign: CampaignRow, view: View): Request {
    Request(campaign.id, campaign.contract.version, true, true, campaign.contract.sessionId,
            campaign.contract.profile, view.windowDay, view.windowNumber, view.attemptNumber)
  }

  function NewRun(runId: string, request: Request): Run { Run(runId, Queued, "", "", request, None) }

  /** `update_run`: it writes whatever it is told; nothing guards an ended run. */
  function UpdateRun(run: Run, status: RunStatus, at: string, result: Option<Outcome>): (after: Run)
    ensures after.id == run.id && after.request == run.request && after.status == status
    ensures after.result == if result.Some? then result else run.result
    ensures after.startedAt == if status == Running then at else run.startedAt
    ensures after.finishedAt == if status == Queued || status == Running then run.finishedAt else at
  {
    run.(status := status,
         startedAt := if status == Running then at else run.startedAt,
         finishedAt := if status.Live() then run.finishedAt else at,
         result := if result.Some? then result else run.result)
  }

  function Recover(runs: seq<Run>, at: string): (after: seq<Run>)
    ensures |after| == |runs|
    ensures forall i :: 0 <= i < |runs| ==>
      if runs[i].status == Queued || runs[i].status == Running
      then after[i] == runs[i].(status := Failed, finishedAt := at) else after[i] == runs[i]
  {
    seq(|runs|, i requires 0 <= i < |runs| =>
      if runs[i].status.Live() then runs[i].(status := Failed, finishedAt := at) else runs[i])
  }

  /** The dispatcher reads this campaign's rows, all of them, in some order, and the present UTC day. */
  ghost predicate Faithful(s: Loop, sight: Sight) {
    multiset(sight.listing) == multiset(Filter(s.runs, Attempt(s.campaign))) && CalendarDay(sight.today)
  }

  function Append(s: Loop, run: Run): Loop {
    s.(runs := s.runs + [run], threads := s.threads + [Starting])
  }

  function Write(s: Loop, i: nat, run: Run, thread: Thread): Loop
    requires i < |s.runs| == |s.threads|
  {
    s.(runs := s.runs[i := run], threads := s.threads[i := thread])
  }

  /** One step; a step whose guard fails changes nothing. */
  ghost function Next(s: Loop, step: Step): Loop
    requires |s.runs| == |s.threads|
  {
    match step
    case Dispatch(sight, runId, accepted) =>
      if Faithful(s, sight) && runId != "" && accepted && ViewOf(s.campaign, sight).Eligible()
      then Append(s, NewRun(runId, Stamped(s.campaign, ViewOf(s.campaign, sight)))) else s
    case Submit(runId, request) =>
      if request.campaignId != s.campaign.id then Append(s, NewRun(runId, request)) else s
    case Begin(i, at) =>
      if i < |s.runs| && s.threads[i] == Starting
      then Write(s, i, UpdateRun(s.runs[i], Running, at, None), Executing) else s
    case Report(i, result) =>
      if i < |s.runs| && s.threads[i] == Executing
      then Write(s, i, s.runs[i].(result := if result.Some? then result else s.runs[i].result), Executing) else s
    case End(i, status, result, at) =>
      if i < |s.runs| && s.threads[i] == Executing && !status.Live()
      then Write(s, i, UpdateRun(s.runs[i], status, at, result), NoThread) else s
    case Restart(at) =>
      s.(runs := Recover(s.runs, at), threads := seq(|s.threads|, _ => NoThread))
  }

  /** A restart fails every queued or running run, of any campaign, and touches no other. */
  lemma RestartFailsLiveRuns(s: Loop, at: string, i: nat)
    requires |s.runs| == |s.threads| && i < |s.runs|
    ensures var s' := Next(s, Restart(at));
      && |s'.runs| == |s.runs| == |s'.threads| && s'.threads[i] == NoThread
      && s'.runs[i] == if s.runs[i].status in {Queued, Running} then s.runs[i].(status := Failed, finishedAt := at)
                       else s.runs[i]
  {
  }

  // ---- The invariant ---------------------------------------------------------

  ghost predicate ThreadsMatch(s: Loop) {
    && |s.runs| == |s.threads|
    && forall i :: 0 <= i < |s.runs| ==>
         && (s.threads[i] == Starting <==> s.runs[i].status == Queued)
         && (s.threads[i] == Executing <==> s.runs[i].status == Running)
  }

  ghost predicate LiveNamed(s: Loop) {
    forall run :: run in s.runs && LiveAttempt(s.campaign)(run) ==> run.id != ""
  }

  ghost predicate OneLive(s: Loop) { Count(s.runs, LiveAttempt(s.campaign)) <= 1 }

  ghost predicate OnePerDay(campaign: CampaignRow, runs: seq<Run>) {
    forall day :: Count(runs, ValidOn(campaign, day)) <= 1
  }

  /** The day of a live attempt has no valid run yet. */
  ghost predicate LiveDayFree(s: Loop) {
    forall run :: run in s.runs && LiveAttempt(s.campaign)(run) ==>
      Count(s.runs, ValidOn(s.campaign, run.request.windowDay)) == 0
  }

  ghost predicate WithinTarget(s: Loop) {
    Count(s.runs, Valid(s.campaign)) + Count(s.runs, LiveAttempt(s.campaign)) <= Target(s.campaign)
  }

  ghost predicate LoopInv(s: Loop) {
    ThreadsMatch(s) && LiveNamed(s) && OneLive(s) && OnePerDay(s.campaign, s.runs) && LiveDayFree(s) && WithinTarget(s)
  }

  // ---- What an eligible view says about the history -----------------------------

  lemma ValidImpliesAttempt(campaign: CampaignRow, day: string)
    ensures forall run :: ValidOn(campaign, day)(run) ==> Valid(campaign)(run)
    ensures forall run :: Valid(campaign)(run) ==> run.request.campaignId == campaign.id && !run.status.Live()
    ensures forall run :: LiveAttempt(campaign)(run) ==> run.request.campaignId == campaign.id
  {
    forall run | Valid(campaign)(run) ensures !run.status.Live() {
      ValidIsCalendar(run, campaign.contract);
    }
  }

  lemma ListingCounts(s: Loop, sight: Sight, p: Run -> bool)
    requires Faithful(s, sight)
    requires forall run :: p(run) ==> run.request.campaignId == s.campaign.id
    ensures Count(sight.listing, p) == Count(s.runs, p)
  {
    var mine := Filter(s.runs, Attempt(s.campaign));
    CountOfMultiset(sight.listing, mine, p);
    FilterSound(mine, p);
    FilterSound(s.runs, p);
    FilterTwice(s.runs, Attempt(s.campaign), p, p);
  }

  lemma {:induction false} WindowsAreRuns(campaign: CampaignRow, attempts: seq<Run>)
    requires OnePerDay(campaign, attempts)
    ensures |WindowsOf(campaign, attempts)| == Count(attempts, Valid(campaign))
  {
    hide AttemptReason, CalendarDay;
    if |attempts| > 0 {
      var init, last := attempts[..|attempts| - 1], attempts[|attempts| - 1];
      forall day ensures Count(init, ValidOn(campaign, day)) <= 1 {
        assert Count(attempts, ValidOn(campaign, day)) <= 1;
      }
      WindowsAreRuns(campaign, init);
      if Valid(campaign)(last) {
        var day := last.request.windowDay;
        assert Count(attempts, ValidOn(campaign, day)) <= 1;
        NoRunNoDay(campaign, init, day);
      }
    }
  }

  lemma NoRunNoDay(campaign: CampaignRow, attempts: seq<Run>, day: string)
    requires Count(attempts, ValidOn(campaign, day)) == 0
    ensures !HasDay(WindowsOf(campaign, attempts), day)
  {
    hide AttemptReason, CalendarDay, WindowsOf;
    var windows := WindowsOf(campaign, attempts);
    WindowsFacts(campaign, attempts);
    if HasDay(windows, day) {
      var k :| 0 <= k < |windows| && windows[k].day == day;
      assert FirstOfDay(campaign, attempts, windows[k]);
      FilterSound(attempts, ValidOn(campaign, day));
      assert false;
    }
  }

  lemma RunMakesDay(campaign: CampaignRow, attempts: seq<Run>, day: string)
    requires !HasDay(WindowsOf(campaign, attempts), day)
    ensures Count(attempts, ValidOn(campaign, day)) == 0
  {
    hide AttemptReason, CalendarDay, WindowsOf;
    WindowsFacts(campaign, attempts);
    CountPositive(attempts, ValidOn(campaign, day));
  }

  /** `valid_windows` is the number of valid runs when no day has two. */
  lemma ViewCountsRuns(s: Loop, sight: Sight)
    requires Faithful(s, sight) && OnePerDay(s.campaign, s.runs)
    ensures |ViewOf(s.campaign, sight).windows| == Count(s.runs, Valid(s.campaign))
    ensures |WindowsOf(s.campaign, Attempts(s.campaign, sight.listing))| == Count(s.runs, Valid(s.campaign))
  {
    hide AttemptReason, CalendarDay, WindowsOf, Faithful;
    var attempts := Attempts(s.campaign, sight.listing);
    forall day ensures Count(attempts, ValidOn(s.campaign, day)) <= 1 {
      ValidImpliesAttempt(s.campaign, day);
      CountAttempts(s.campaign, sight.listing, ValidOn(s.campaign, day));
      ListingCounts(s, sight, ValidOn(s.campaign, day));
    }
    WindowsAreRuns(s.campaign, attempts);
    ValidImpliesAttempt(s.campaign, "");
    CountAttempts(s.campaign, sight.listing, Valid(s.campaign));
    ListingCounts(s, sight, Valid(s.campaign));
    SortedWindows(WindowsOf(s.campaign, attempts), s.campaign, sight.listing);
  }

  lemma ListingMembers(s: Loop, sight: Sight)
    requires Faithful(s, sight)
    ensures forall run :: run in Attempts(s.campaign, sight.listing) ==> run in s.runs
  {
    AttemptsBelong(s.campaign, sight.listing);
    FilterSound(s.runs, Attempt(s.campaign));
    MembersOfMultiset(sight.listing, Filter(s.runs, Attempt(s.campaign)));
  }

  lemma EligibleMeans(s: Loop, sight: Sight)
    requires LoopInv(s) && Faithful(s, sight) && ViewOf(s.campaign, sight).Eligible()
    ensures Count(s.runs, LiveAttempt(s.campaign)) == 0
    ensures Count(s.runs, ValidOn(s.campaign, sight.today)) == 0
    ensures Count(s.runs, Valid(s.campaign)) < Target(s.campaign)
  {
    hide AttemptReason, CalendarDay, WindowsOf, ActiveOf, Faithful;
    var attempts := Attempts(s.campaign, sight.listing);
    ViewCountsRuns(s, sight);
    ValidImpliesAttempt(s.campaign, sight.today);
    ListingMembers(s, sight);
    ActiveIffLive(s.campaign, attempts);
    CountAttempts(s.campaign, sight.listing, LiveAttempt(s.campaign));
    ListingCounts(s, sight, LiveAttempt(s.campaign));
    RunMakesDay(s.campaign, attempts, sight.today);
    CountAttempts(s.campaign, sight.listing, ValidOn(s.campaign, sight.today));
    ListingCounts(s, sight, ValidOn(s.campaign, sight.today));
  }

  // ---- Every step keeps the invariant ---------------------------------------------

  lemma AppendInv(s: Loop, run: Run)
    requires LoopInv(s) && run.status == Queued
    requires run.request.campaignId == s.campaign.id ==>
      && run.id != ""
      && Count(s.runs, LiveAttempt(s.campaign)) == 0
      && Count(s.runs, ValidOn(s.campaign, run.request.windowDay)) == 0
      && Count(s.runs, Valid(s.campaign)) < Target(s.campaign)
    ensures LoopInv(Append(s, run))
  {
    hide AttemptReason, CalendarDay;
    var s' := Append(s, run);
    ValidImpliesAttempt(s.campaign, "");
    forall day ensures Count(s'.runs, ValidOn(s.campaign, day)) == Count(s.runs, ValidOn(s.campaign, day)) {
      ValidImpliesAttempt(s.campaign, day);
      CountAppend(s.runs, run, ValidOn(s.campaign, day));
    }
    CountAppend(s.runs, run, Valid(s.campaign));
    CountAppend(s.runs, run, LiveAttempt(s.campaign));
    forall r | r in s'.runs && LiveAttempt(s.campaign)(r)
      ensures r.id != "" && Count(s'.runs, ValidOn(s.campaign, r.request.windowDay)) == 0
    {
      if r !in s.runs { assert r == run; }
    }
  }

  /** A write that keeps a live run live changes no count. */
  lemma StayLiveInv(s: Loop, i: nat, run: Run, thread: Thread)
    requires LoopInv(s) && i < |s.runs| && s.runs[i].status.Live() && run.status.Live()
    requires run.id == s.runs[i].id && run.request == s.runs[i].request
    requires thread == if run.status == Queued then Starting else Executing
    ensures LoopInv(Write(s, i, run, thread))
  {
    hide AttemptReason, CalendarDay;
    var s' := Write(s, i, run, thread);
    ValidImpliesAttempt(s.campaign, "");
    forall day ensures Count(s'.runs, ValidOn(s.campaign, day)) == Count(s.runs, ValidOn(s.campaign, day)) {
      ValidImpliesAttempt(s.campaign, day);
      CountUpdate(s.runs, i, run, ValidOn(s.campaign, day));
    }
    CountUpdate(s.runs, i, run, Valid(s.campaign));
    CountUpdate(s.runs, i, run, LiveAttempt(s.campaign));
    LiveOrigins(s, i, run, thread);
  }

  lemma LiveOrigins(s: Loop, i: nat, run: Run, thread: Thread)
    requires i < |s.runs| == |s.threads| && s.runs[i].status.Live()
    requires run.id == s.runs[i].id && run.request == s.runs[i].request
    ensures forall r :: r in Write(s, i, run, thread).runs && LiveAttempt(s.campaign)(r) ==>
      exists q :: q in s.runs && LiveAttempt(s.campaign)(q) && q.id == r.id && q.request == r.request
  {
    forall r | r in Write(s, i, run, thread).runs && LiveAttempt(s.campaign)(r)
      ensures exists q :: q in s.runs && LiveAttempt(s.campaign)(q) && q.id == r.id && q.request == r.request
    {
      if r in s.runs {} else { assert s.runs[i] in s.runs && r == run; }
    }
  }

  /** Ending a run: its day was free and no other attempt is live. */
  lemma EndInv(s: Loop, i: nat, run: Run)
    requires LoopInv(s) && i < |s.runs| && s.runs[i].status.Live() && !run.status.Live()
    requires run.id == s.runs[i].id && run.request == s.runs[i].request
    ensures LoopInv(Write(s, i, run, NoThread))
  {
    hide AttemptReason, CalendarDay;
    var s' := Write(s, i, run, NoThread);
    var was := s.runs[i];
    ValidImpliesAttempt(s.campaign, "");
    CountUpdate(s.runs, i, run, Valid(s.campaign));
    CountUpdate(s.runs, i, run, LiveAttempt(s.campaign));
    forall day
      ensures Count(s'.runs, ValidOn(s.campaign, day))
           == Count(s.runs, ValidOn(s.campaign, day)) + if ValidOn(s.campaign, day)(run) then 1 else 0
      ensures Count(s'.runs, ValidOn(s.campaign, day)) <= 1
    {
      ValidImpliesAttempt(s.campaign, day);
      CountUpdate(s.runs, i, run, ValidOn(s.campaign, day));
      if ValidOn(s.campaign, day)(run) {
        assert LiveAttempt(s.campaign)(was) && was in s.runs;
      }
    }
    if was.request.campaignId == s.campaign.id {
      assert Count(s'.runs, LiveAttempt(s.campaign)) == 0;
      CountPositive(s'.runs, LiveAttempt(s.campaign));
    } else {
      forall r | r in s'.runs && LiveAttempt(s.campaign)(r) ensures r in s.runs {}
    }
  }

  lemma {:induction false} RecoverCounts(campaign: CampaignRow, runs: seq<Run>, at: string, p: Run -> bool)
    requires forall run :: p(run) ==> !run.status.Live() && run.status == Completed
    ensures Count(Recover(runs, at), p) == Count(runs, p)
  {
    if |runs| > 0 {
      var init := runs[..|runs| - 1];
      RecoverCounts(campaign, init, at, p);
      assert Recover(runs, at)[..|runs| - 1] == Recover(init, at);
    }
  }

  lemma RestartInv(s: Loop, at: string)
    requires LoopInv(s)
    ensures LoopInv(s.(runs := Recover(s.runs, at), threads := seq(|s.threads|, _ => NoThread)))
  {
    hide AttemptReason, CalendarDay;
    var runs := Recover(s.runs, at);
    CountPositive(runs, LiveAttempt(s.campaign));
    forall day ensures Count(runs, ValidOn(s.campaign, day)) <= 1 {
      CompletedOnly(s.campaign, day);
      RecoverCounts(s.campaign, s.runs, at, ValidOn(s.campaign, day));
    }
    CompletedOnly(s.campaign, "");
    RecoverCounts(s.campaign, s.runs, at, Valid(s.campaign));
  }

  lemma CompletedOnly(campaign: CampaignRow, day: string)
    ensures forall run :: Valid(campaign)(run) ==> run.status == Completed
    ensures forall run :: ValidOn(campaign, day)(run) ==> run.status == Completed
  {
    forall run | Valid(campaign)(run) ensures run.status == Completed {
      ValidIsCalendar(run, campaign.contract);
    }
  }

  lemma NextInv(s: Loop, step: Step)
    requires LoopInv(s)
    ensures LoopInv(Next(s, step)) && Next(s, step).campaign == s.campaign
  {
    hide OneLive, OnePerDay, LiveDayFree, WithinTarget, LiveNamed, Project, Recover;
    match step
    case Dispatch(sight, runId, accepted) =>
      if Faithful(s, sight) && runId != "" && accepted && ViewOf(s.campaign, sight).Eligible() {
        EligibleMeans(s, sight);
        ViewDay(s.campaign, sight);
        AppendInv(s, NewRun(runId, Stamped(s.campaign, ViewOf(s.campaign, sight))));
      }
    case Submit(runId, request) =>
      if request.campaignId != s.campaign.id { AppendInv(s, NewRun(runId, request)); }
    case Begin(i, at) =>
      if i < |s.runs| && s.threads[i] == Starting {
        StayLiveInv(s, i, UpdateRun(s.runs[i], Running, at, None), Executing);
      }
    case Report(i, result) =>
      if i < |s.runs| && s.threads[i] == Executing {
        StayLiveInv(s, i, s.runs[i].(result := if result.Some? then result else s.runs[i].result), Executing);
      }
    case End(i, status, result, at) =>
      if i < |s.runs| && s.threads[i] == Executing && !status.Live() {
        EndInv(s, i, UpdateRun(s.runs[i], status, at, result));
      }
    case Restart(at) => RestartInv(s, at);
  }

  lemma ViewDay(campaign: CampaignRow, sight: Sight)
    ensures ViewOf(campaign, sight).windowDay == sight.today
  {
  }

  // ---- Over every run of the machine ------------------------------------------------

  ghost function Steps(s: Loop, steps: seq<Step>): Loop
    requires |s.runs| == |s.threads|
  {
    if |steps| == 0 then s
    else
      var before := Steps(s, steps[..|steps| - 1]);
      if |before.runs| == |before.threads| then Next(before, steps[|steps| - 1]) else before
  }

  function Fresh(campaign: CampaignRow): Loop { Loop(campaign, [], []) }

  lemma {:induction false} EveryRunInv(campaign: CampaignRow, steps: seq<Step>)
    ensures LoopInv(Steps(Fresh(campaign), steps)) && Steps(Fresh(campaign), steps).campaign == campaign
  {
    if |steps| > 0 {
      EveryRunInv(campaign, steps[..|steps| - 1]);
      NextInv(Steps(Fresh(campaign), steps[..|steps| - 1]), steps[|steps| - 1]);
    }
  }

  /**
    The campaign's promise: at every moment at most one attempt is queued or
    running, no UTC day has two valid runs, and whoever looks sees as many valid
    windows as there are valid runs, never more than the target.
   */
  lemma OneWindowPerDay(campaign: CampaignRow, steps: seq<Step>, sight: Sight)
    requires Faithful(Steps(Fresh(campaign), steps), sight)
    ensures var s := Steps(Fresh(campaign), steps);
      && Count(s.runs, LiveAttempt(campaign)) <= 1
      && (forall day :: Count(s.runs, ValidOn(campaign, day)) <= 1)
      && ViewOf(campaign, sight).ValidWindows() == Count(s.runs, Valid(campaign))
      && Count(s.runs, Valid(campaign)) + Count(s.runs, LiveAttempt(campaign))
         <= (if campaign.targetWindows == 0 then 3 else campaign.targetWindows)
  {
    hide AttemptReason, CalendarDay, Project, Steps, Faithful;
    EveryRunInv(campaign, steps);
    ViewCountsRuns(Steps(Fresh(campaign), steps), sight);
  }

  /**
    `update_run` has no terminal guard, yet no reachable step changes a run that
    has ended: one thread per run is what makes its end final.
   */
  lemma EndedRunsStay(campaign: CampaignRow, steps: seq<Step>, step: Step, i: nat)
    requires i < |Steps(Fresh(campaign), steps).runs|
    requires !Steps(Fresh(campaign), steps).runs[i].status.Live()
    ensures var s := Steps(Fresh(campaign), steps);
      |s.runs| == |s.threads| && i < |Next(s, step).runs| && Next(s, step).runs[i] == s.runs[i]
  {
    hide AttemptReason, CalendarDay, Project, Steps, Faithful, OneLive, OnePerDay, LiveDayFree, WithinTarget;
    EveryRunInv(campaign, steps);
  }
}
