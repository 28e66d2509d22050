/** The numbers the dispatcher stamps on its runs, over every run of the closed loop. */
module CampaignNumbers {
  import opened Wrappers
  import opened Ordering
  import opened Campaign
  import opened CampaignTheorems
  import opened CampaignLoop

  /** What `f` says of the runs that satisfy `p`, in order. */
  function NumbersOf(p: Run -> bool, f: Run -> nat, runs: seq<Run>): seq<nat> {
    if |runs| == 0 then [] else
      NumbersOf(p, f, runs[..|runs| - 1]) + if p(runs[|runs| - 1]) then [f(runs[|runs| - 1])] else []
  }

  function AttemptNumber(): Run -> nat { (run: Run) => run.request.attemptNumber }

  function WindowNumber(): Run -> nat { (run: Run) => run.request.windowNumber }

  predicate OneToN(numbers: seq<nat>) { forall k :: 0 <= k < |numbers| ==> numbers[k] == k + 1 }

  lemma NumbersPush(p: Run -> bool, f: Run -> nat, runs: seq<Run>, run: Run)
    ensures NumbersOf(p, f, runs + [run]) == NumbersOf(p, f, runs) + if p(run) then [f(run)] else []
  {
    assert (runs + [run])[..|runs|] == runs;
  }

  lemma {:induction false} NumbersCount(p: Run -> bool, f: Run -> nat, runs: seq<Run>)
    ensures |NumbersOf(p, f, runs)| == Count(runs, p)
  {
    if |runs| > 0 { NumbersCount(p, f, runs[..|runs| - 1]); }
  }

  /** Rewriting runs without touching what is read changes no number. */
  lemma {:induction false} NumbersKept(p: Run -> bool, f: Run -> nat, a: seq<Run>, b: seq<Run>)
    requires |a| == |b| && forall i :: 0 <= i < |a| ==> p(b[i]) == p(a[i]) && (p(a[i]) ==> f(b[i]) == f(a[i]))
    ensures NumbersOf(p, f, b) == NumbersOf(p, f, a)
  {
    if |a| > 0 {
      NumbersKept(p, f, a[..|a| - 1], b[..|b| - 1]);
    }
  }

  lemma {:induction false} NumbersNone(p: Run -> bool, f: Run -> nat, runs: seq<Run>, i: nat)
    requires i <= |runs| && forall j :: i <= j < |runs| ==> !p(runs[j])
    ensures NumbersOf(p, f, runs) == NumbersOf(p, f, runs[..i])
  {
    if i < |runs| {
      NumbersNone(p, f, runs[..|runs| - 1], i);
      assert runs[..|runs| - 1][..i] == runs[..i];
    } else {
      assert runs[..i] == runs;
    }
  }

  /** When the last run that can count begins to count, its number is added at the end. */
  lemma NumbersGain(p: Run -> bool, f: Run -> nat, runs: seq<Run>, i: nat, run: Run)
    requires i < |runs| && p(run) && forall j :: i <= j < |runs| ==> !p(runs[j])
    ensures NumbersOf(p, f, runs[i := run]) == NumbersOf(p, f, runs) + [f(run)]
  {
    var after := runs[i := run];
    NumbersNone(p, f, runs, i);
    NumbersNone(p, f, after, i + 1);
    assert after[..i + 1] == runs[..i] + [run];
    NumbersPush(p, f, runs[..i], run);
  }

  // ---- The invariant -------------------------------------------------------------------

  function WindowNumbers(s: Loop): seq<nat> { NumbersOf(Valid(s.campaign), WindowNumber(), s.runs) }

  /** A live attempt is the last attempt, and works on the window after the valid ones. */
  ghost predicate LiveIsNext(s: Loop) {
    forall i :: 0 <= i < |s.runs| && LiveAttempt(s.campaign)(s.runs[i]) ==>
      && s.runs[i].request.windowNumber == |WindowNumbers(s)| + 1
      && forall j :: i < j < |s.runs| ==> s.runs[j].request.campaignId != s.campaign.id
  }

  /** The request of every attempt repeats the contract and both confirmations. */
  ghost predicate StampedRight(s: Loop) {
    forall run :: run in s.runs && run.request.campaignId == s.campaign.id ==>
      && run.request.contractVersion == s.campaign.contract.version && run.request.sessionId == s.campaign.contract.sessionId
      && run.request.profile == s.campaign.contract.profile && run.request.confirmLoad && run.request.confirmWindow
      && CalendarDay(run.request.windowDay)
  }

  ghost predicate NumberInv(s: Loop) {
    && OneToN(NumbersOf(Attempt(s.campaign), AttemptNumber(), s.runs))
    && OneToN(WindowNumbers(s)) && LiveIsNext(s) && StampedRight(s)
  }

  lemma AppendNumbers(s: Loop, run: Run)
    requires NumberInv(s) && run.status == Queued
    requires run.request.campaignId == s.campaign.id ==>
      && Count(s.runs, LiveAttempt(s.campaign)) == 0
      && run.request.attemptNumber == Count(s.runs, Attempt(s.campaign)) + 1
      && run.request.windowNumber == Count(s.runs, Valid(s.campaign)) + 1
      && StampedRight(Append(s, run))
    ensures NumberInv(Append(s, run))
  {
    hide AttemptReason, CalendarDay;
    ValidImpliesAttempt(s.campaign, "");
    NumbersPush(Attempt(s.campaign), AttemptNumber(), s.runs, run);
    NumbersPush(Valid(s.campaign), WindowNumber(), s.runs, run);
    NumbersCount(Attempt(s.campaign), AttemptNumber(), s.runs);
    NumbersCount(Valid(s.campaign), WindowNumber(), s.runs);
    CountPositive(s.runs, LiveAttempt(s.campaign));
    var s' := Append(s, run);
    forall i | 0 <= i < |s'.runs| && LiveAttempt(s.campaign)(s'.runs[i])
      ensures s'.runs[i].request.windowNumber == |WindowNumbers(s')| + 1
      ensures forall j :: i < j < |s'.runs| ==> s'.runs[j].request.campaignId != s.campaign.id
    {
      if i < |s.runs| { assert s'.runs[i] == s.runs[i]; }
    }
  }

  /** Rewriting the rows without touching identities, with no attempt becoming valid or live. */
  lemma RewriteNumbers(s: Loop, s': Loop)
    requires NumberInv(s) && s'.campaign == s.campaign && |s'.runs| == |s.runs|
    requires forall i :: 0 <= i < |s.runs| ==>
      && s'.runs[i].request == s.runs[i].request && Valid(s.campaign)(s'.runs[i]) == Valid(s.campaign)(s.runs[i])
      && (LiveAttempt(s.campaign)(s'.runs[i]) ==> LiveAttempt(s.campaign)(s.runs[i]))
    ensures NumberInv(s')
  {
    hide AttemptReason, CalendarDay;
    NumbersKept(Attempt(s.campaign), AttemptNumber(), s.runs, s'.runs);
    NumbersKept(Valid(s.campaign), WindowNumber(), s.runs, s'.runs);
    StampsKept(s, s');
    hide StampedRight;
  }

  /** A live attempt becomes valid. */
  lemma GainNumbers(s: Loop, i: nat, run: Run)
    requires LoopInv(s) && NumberInv(s) && i < |s.runs| && LiveAttempt(s.campaign)(s.runs[i])
    requires run.request == s.runs[i].request && Valid(s.campaign)(run) && !run.status.Live()
    ensures NumberInv(Write(s, i, run, NoThread))
  {
    hide LoopInv, StampedRight, LiveIsNext, NumbersOf, Valid, LiveAttempt, Attempt;
    OnlyOneLive(s, i);
    var s' := Write(s, i, run, NoThread);
    AttemptsKept(s, i, run);
    WindowsGain(s, i, run);
    StampsKept(s, s');
    NoneLive(s, i, run);
  }

  lemma AttemptsKept(s: Loop, i: nat, run: Run)
    requires i < |s.runs| && run.request == s.runs[i].request
    ensures NumbersOf(Attempt(s.campaign), AttemptNumber(), s.runs[i := run]) == NumbersOf(Attempt(s.campaign), AttemptNumber(), s.runs)
  {
    NumbersKept(Attempt(s.campaign), AttemptNumber(), s.runs, s.runs[i := run]);
  }

  lemma WindowsGain(s: Loop, i: nat, run: Run)
    requires NumberInv(s) && i < |s.runs| && LiveAttempt(s.campaign)(s.runs[i])
    requires run.request == s.runs[i].request && Valid(s.campaign)(run)
    ensures OneToN(NumbersOf(Valid(s.campaign), WindowNumber(), s.runs[i := run]))
  {
    hide AttemptReason, CalendarDay, StampedRight, NumbersOf;
    ValidImpliesAttempt(s.campaign, "");
    NumbersGain(Valid(s.campaign), WindowNumber(), s.runs, i, run);
  }

  /** Rewriting rows keeps the stamps when every request stays. */
  lemma StampsKept(s: Loop, s': Loop)
    requires StampedRight(s) && s'.campaign == s.campaign && |s'.runs| == |s.runs|
    requires forall k :: 0 <= k < |s.runs| ==> s'.runs[k].request == s.runs[k].request
    ensures StampedRight(s')
  {
    hide CalendarDay;
    forall r | r in s'.runs ensures exists old_ :: old_ in s.runs && old_.request == r.request {
      var k :| 0 <= k < |s'.runs| && s'.runs[k] == r;
      assert s.runs[k] in s.runs;
    }
  }

  lemma NoneLive(s: Loop, i: nat, run: Run)
    requires |s.runs| == |s.threads| && i < |s.runs| && !run.status.Live()
    requires forall j :: 0 <= j < |s.runs| && j != i ==> !LiveAttempt(s.campaign)(s.runs[j])
    ensures LiveIsNext(Write(s, i, run, NoThread))
  {
    hide WindowNumbers;
  }

  lemma OnlyOneLive(s: Loop, i: nat)
    requires LoopInv(s) && i < |s.runs| && LiveAttempt(s.campaign)(s.runs[i])
    ensures |s.runs| == |s.threads|
    ensures forall j :: 0 <= j < |s.runs| && j != i ==> !LiveAttempt(s.campaign)(s.runs[j])
  {
    CountWithout(s.runs, i, LiveAttempt(s.campaign));
    var rest := s.runs[..i] + s.runs[i + 1..];
    CountPositive(rest, LiveAttempt(s.campaign));
    forall j | 0 <= j < |s.runs| && j != i ensures !LiveAttempt(s.campaign)(s.runs[j]) {
      assert s.runs[j] == rest[if j < i then j else j - 1];
    }
  }

  /** What the dispatcher reads off an eligible view is the next number of each kind. */
  lemma DispatchNumbers(s: Loop, sight: Sight)
    requires LoopInv(s) && Faithful(s, sight) && ViewOf(s.campaign, sight).Eligible()
    ensures ViewOf(s.campaign, sight).attemptNumber == Count(s.runs, Attempt(s.campaign)) + 1
    ensures ViewOf(s.campaign, sight).windowNumber == Count(s.runs, Valid(s.campaign)) + 1
  {
    hide AttemptReason, CalendarDay, WindowsOf, ActiveOf, Faithful, LoopInv, GateOf, EffectiveStatus;
    EligibleMeans(s, sight);
    LoopHasOnePerDay(s);
    ViewCountsRuns(s, sight);
    AttemptCount(s.campaign, sight.listing);
    ListingCounts(s, sight, Attempt(s.campaign));
  }

  lemma LoopHasOnePerDay(s: Loop)
    requires LoopInv(s)
    ensures OnePerDay(s.campaign, s.runs) && |s.runs| == |s.threads|
  {
  }

  lemma StampFits(s: Loop, sight: Sight, runId: string)
    requires StampedRight(s) && CalendarDay(sight.today)
    ensures StampedRight(Append(s, NewRun(runId, Stamped(s.campaign, ViewOf(s.campaign, sight)))))
  {
    ViewDay(s.campaign, sight);
    hide CalendarDay, Project;
  }

  lemma SightDay(s: Loop, sight: Sight)
    requires Faithful(s, sight)
    ensures CalendarDay(sight.today)
  {
  }

  lemma NextNumbers(s: Loop, step: Step)
    requires LoopInv(s) && NumberInv(s)
    ensures NumberInv(Next(s, step))
  {
    hide AttemptReason, CalendarDay, LoopInv, NumberInv, Project, Faithful, LiveAttempt, Valid;
    LoopHasOnePerDay(s);
    match step
    case Dispatch(sight, runId, accepted) =>
      if Faithful(s, sight) && runId != "" && accepted && ViewOf(s.campaign, sight).Eligible() {
        DispatchStep(s, sight, runId);
      }
    case Submit(runId, request) =>
      if request.campaignId != s.campaign.id { AppendNumbers(s, NewRun(runId, request)); }
    case Begin(i, at) =>
      if i < |s.runs| && s.threads[i] == Starting { StayLive(s, i, UpdateRun(s.runs[i], Running, at, None), Executing); }
    case Report(i, result) =>
      if i < |s.runs| && s.threads[i] == Executing {
        LiveByThread(s, i);
        StayLive(s, i, s.runs[i].(result := if result.Some? then result else s.runs[i].result), Executing);
      }
    case End(i, status, result, at) =>
      if i < |s.runs| && s.threads[i] == Executing && !status.Live() {
        EndStep(s, i, UpdateRun(s.runs[i], status, at, result));
      }
    case Restart(at) => RestartStep(s, at);
  }

  lemma DispatchStep(s: Loop, sight: Sight, runId: string)
    requires LoopInv(s) && NumberInv(s) && Faithful(s, sight) && ViewOf(s.campaign, sight).Eligible()
    ensures NumberInv(Append(s, NewRun(runId, Stamped(s.campaign, ViewOf(s.campaign, sight)))))
  {
    hide AttemptReason, CalendarDay, LoopInv, Project, Faithful;
    DispatchNumbers(s, sight);
    EligibleMeans(s, sight);
    SightDay(s, sight);
    StampFits(s, sight, runId);
    AppendNumbers(s, NewRun(runId, Stamped(s.campaign, ViewOf(s.campaign, sight))));
  }

  lemma LiveByThread(s: Loop, i: nat)
    requires LoopInv(s) && i < |s.runs| && (s.threads[i] == Starting || s.threads[i] == Executing)
    ensures s.runs[i].status.Live()
  {
  }

  lemma StayLive(s: Loop, i: nat, run: Run, thread: Thread)
    requires LoopInv(s) && NumberInv(s) && i < |s.runs| && (s.threads[i] == Starting || s.threads[i] == Executing)
    requires run.request == s.runs[i].request && run.status.Live()
    ensures NumberInv(Write(s, i, run, thread))
  {
    hide AttemptReason, CalendarDay, LoopInv, NumberInv;
    LoopHasOnePerDay(s);
    LiveByThread(s, i);
    ValidImpliesAttempt(s.campaign, "");
    RewriteNumbers(s, Write(s, i, run, thread));
  }

  lemma EndStep(s: Loop, i: nat, run: Run)
    requires LoopInv(s) && NumberInv(s) && i < |s.runs| && s.threads[i] == Executing
    requires run.request == s.runs[i].request && !run.status.Live()
    ensures NumberInv(Write(s, i, run, NoThread))
  {
    hide AttemptReason, CalendarDay, LoopInv, NumberInv;
    LoopHasOnePerDay(s);
    LiveByThread(s, i);
    ValidImpliesAttempt(s.campaign, "");
    if Valid(s.campaign)(run) {
      GainNumbers(s, i, run);
    } else {
      RewriteNumbers(s, Write(s, i, run, NoThread));
    }
  }

  lemma RestartStep(s: Loop, at: string)
    requires LoopInv(s) && NumberInv(s)
    ensures NumberInv(s.(runs := Recover(s.runs, at), threads := seq(|s.threads|, _ => NoThread)))
  {
    hide AttemptReason, CalendarDay, LoopInv, NumberInv;
    CompletedOnly(s.campaign, "");
    RewriteNumbers(s, s.(runs := Recover(s.runs, at), threads := seq(|s.threads|, _ => NoThread)));
  }

  lemma {:induction false} EveryRunNumbers(campaign: CampaignRow, steps: seq<Step>)
    ensures var s := Steps(Fresh(campaign), steps); LoopInv(s) && NumberInv(s) && s.campaign == campaign
  {
    hide AttemptReason, CalendarDay;
    EveryRunInv(campaign, steps);
    if |steps| > 0 {
      EveryRunNumbers(campaign, steps[..|steps| - 1]);
      hide LoopInv, NumberInv, Next;
      var s := Steps(Fresh(campaign), steps[..|steps| - 1]);
      LoopHasOnePerDay(s);
      NextNumbers(s, steps[|steps| - 1]);
    }
  }

  /**
    Always: the attempts of a campaign are numbered 1, 2, 3 ... in the order of their
    dispatch, its valid runs carry the windows 1, 2, 3 ... in that order, a live attempt
    works on the window after them, and every attempt was dispatched under the contract
    with both confirmations.
   */
  lemma WindowsAreNumbered(campaign: CampaignRow, steps: seq<Step>)
    ensures var s := Steps(Fresh(campaign), steps);
      && OneToN(NumbersOf(Attempt(campaign), AttemptNumber(), s.runs))
      && OneToN(NumbersOf(Valid(campaign), WindowNumber(), s.runs))
      && (forall run :: run in s.runs && LiveAttempt(campaign)(run) ==>
           run.request.windowNumber == Count(s.runs, Valid(campaign)) + 1)
      && StampedRight(s)
  {
    hide AttemptReason, CalendarDay, Steps, LoopInv, StampedRight;
    EveryRunNumbers(campaign, steps);
    NumbersCount(Valid(campaign), WindowNumber(), Steps(Fresh(campaign), steps).runs);
  }
}
