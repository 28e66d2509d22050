/**
  Repeated network campaigns: the immutable contract, the verdict on one attempt,
  and the projection of an unordered run history into at most one valid window
  per UTC day. Absent text fields are empty strings, which is how the program
  reads them (`... or ""`).
 */
module Campaign {
  import opened Wrappers
  import opened Decimals
  import opened Ordering

  const MIN_WINDOWS := 3
  const MAX_WINDOWS := 30
  const VERSION := "network-campaign-v1"
  const PROFILE := "network-peer-standard"

  // ---- The contract --------------------------------------------------------

  datatype Participant = Participant(id: string, name: string, role: string, placement: string)

  datatype Topology = Topology(scope: string, source: string, evidence: string)

  datatype Session = Session(id: string, status: string, topology: Topology, agents: seq<Participant>)

  datatype Contract = Contract(
    version: string, sessionId: string, profile: string, profileVersion: string,
    methodologyVersion: string, topology: Topology, participants: seq<Participant>)

  datatype Installed = Installed(profileVersion: string, methodologyVersion: string)

  datatype ContractError = WrongProfile | WindowsOutOfRange | WrongRoles

  function OrElse(text: string, default: string): string { if text == "" then default else text }

  function TopologyIdentity(t: Topology): Topology {
    Topology(OrElse(t.scope, "undeclared"), OrElse(t.source, "unavailable"), OrElse(t.evidence, "unavailable"))
  }

  function Paired(): Participant -> bool {
    (p: Participant) => p.role == "target" || p.role == "generator"
  }

  function ByRole(): (Participant, Participant) -> bool {
    (a: Participant, b: Participant) => TextLe(a.role, b.role)
  }

  function PairOf(session: Session): seq<Participant> { Filter(session.agents, Paired()) }

  function BuildContract(session: Session, profile: string, windows: int, installed: Installed)
    : (r: Result<Contract, ContractError>)
  {
    var pair := PairOf(session);
    if profile != PROFILE then Err(WrongProfile)
    else if !(MIN_WINDOWS <= windows <= MAX_WINDOWS) then Err(WindowsOutOfRange)
    else if (set p | p in pair :: p.role) != {"target", "generator"} || |pair| != 2 then Err(WrongRoles)
    else Ok(Contract(VERSION, session.id, profile, installed.profileVersion, installed.methodologyVersion,
                     TopologyIdentity(session.topology), StableSort(pair, ByRole())))
  }

  predicate MatchesSession(contract: Contract, session: Session) {
    var pair := StableSort(PairOf(session), ByRole());
    && session.id == contract.sessionId
    && |pair| == 2
    && pair == StableSort(contract.participants, ByRole())
    && TopologyIdentity(session.topology) == contract.topology
  }

  /** The same text, absence being the same as the default. */
  predicate SameText(a: string, b: string, default: string) { a == b || (a in {"", default} && b in {"", default}) }

  lemma ByRoleIsTotal()
    ensures TotalPreorder(ByRole())
  {
    var le := ByRole();
    forall x, y ensures le(x, y) || le(y, x) { TextTotal(x.role, y.role); }
    forall x, y, z | le(x, y) && le(y, z) ensures le(x, z) {
      TextTransitive(x.role, y.role, z.role);
    }
  }

  lemma TwoRoles(pair: seq<Participant>)
    requires |pair| == 2 && (set p | p in pair :: p.role) == {"target", "generator"}
    ensures pair[0].role != pair[1].role
  {
    assert "target" in (set p | p in pair :: p.role) && "generator" in (set p | p in pair :: p.role);
    assert forall p :: p in pair ==> p == pair[0] || p == pair[1];
  }

  /**
    A contract built from a session is matched by exactly the sessions with the
    same identity, topology and pair of Agents, in whatever order the Agents are
    listed and whatever other Agents have joined.
   */
  lemma ContractPinsSession(
      session: Session, profile: string, windows: int, installed: Installed, other: Session)
    requires BuildContract(session, profile, windows, installed).Ok?
    ensures var contract := BuildContract(session, profile, windows, installed).value;
      MatchesSession(contract, other) <==>
        && other.id == session.id
        && SameText(other.topology.scope, session.topology.scope, "undeclared")
        && SameText(other.topology.source, session.topology.source, "unavailable")
        && SameText(other.topology.evidence, session.topology.evidence, "unavailable")
        && multiset(PairOf(other)) == multiset(PairOf(session))
  {
    var pair, pair' := PairOf(session), PairOf(other);
    var a, b := StableSort(pair, ByRole()), StableSort(pair', ByRole());
    ByRoleIsTotal();
    SortFacts(pair, ByRole());
    SortFacts(pair', ByRole());
    SortFacts(a, ByRole());
    TwoRoles(pair);
    NoTies(pair, a);
    SortedUnique(a, StableSort(a, ByRole()), ByRole());
    SameTopology(session.topology, other.topology);
    hide TopologyIdentity, SameText, StableSort, Filter;
    if multiset(pair) == multiset(pair') {
      SortedUnique(a, b, ByRole());
    }
  }

  lemma SameTopology(a: Topology, b: Topology)
    ensures TopologyIdentity(b) == TopologyIdentity(a) <==>
      && SameText(b.scope, a.scope, "undeclared") && SameText(b.source, a.source, "unavailable")
      && SameText(b.evidence, a.evidence, "unavailable")
  {
    hide SameText;
    SameWithDefault(a.scope, b.scope, "undeclared");
    SameWithDefault(a.source, b.source, "unavailable");
    SameWithDefault(a.evidence, b.evidence, "unavailable");
  }

  lemma SameWithDefault(a: string, b: string, default: string)
    ensures OrElse(a, default) == OrElse(b, default) <==> SameText(b, a, default)
  {
  }

  lemma NoTies(pair: seq<Participant>, sorted: seq<Participant>)
    requires |pair| == 2 && pair[0].role != pair[1].role && multiset(sorted) == multiset(pair)
    ensures forall x, y :: x in sorted && y in sorted && ByRole()(x, y) && ByRole()(y, x) ==> x == y
  {
    forall x, y | x in sorted && y in sorted && ByRole()(x, y) && ByRole()(y, x) ensures x == y {
      TextTotal(x.role, y.role);
      assert x in multiset(pair) && y in multiset(pair);
    }
  }

  // ---- Run history ---------------------------------------------------------

  datatype RunStatus = Queued | Running | Completed | Failed | Cancelled {
    predicate Live() { Queued? || Running? }
  }

  datatype Request = Request(
    campaignId: string, contractVersion: string, confirmLoad: bool, confirmWindow: bool,
    sessionId: string, profile: string, windowDay: string, windowNumber: nat, attemptNumber: nat)

  datatype Outcome = Outcome(
    profileVersion: string, methodologyVersion: string, sessionId: string, comparisonEligible: bool)

  datatype Run = Run(
    id: string, status: RunStatus, startedAt: string, finishedAt: string,
    request: Request, result: Option<Outcome>)

  datatype CampaignRow = CampaignRow(id: string, status: string, targetWindows: nat, contract: Contract)

  function DaysIn(year: nat, month: nat): nat {
    if month in {4, 6, 9, 11} then 30
    else if month != 2 then 31
    else if year % 4 == 0 && (year % 100 != 0 || year % 400 == 0) then 29
    else 28
  }

  /** Text that `strptime("%Y-%m-%d")` accepts and `strftime` writes back unchanged. */
  predicate CalendarDay(s: string) {
    && |s| == 10 && s[4] == '-' && s[7] == '-'
    && Digits(s[..4]) && Digits(s[5..7]) && Digits(s[8..])
    && 1000 <= Number(s[..4])
    && 1 <= Number(s[5..7]) <= 12
    && 1 <= Number(s[8..]) <= DaysIn(Number(s[..4]), Number(s[5..7]))
  }

  datatype Reason =
    | VersionMismatch | ConfirmationMissing | TargetMismatch | NotCompleted(status: RunStatus)
    | ProfileVersionMismatch | MethodologyMismatch | ResultSessionMismatch
    | ValidityIncomplete | InvalidWindow | ValidWindow

  function ResultOf(run: Run): Outcome { run.result.GetOr(Outcome("", "", "", false)) }

  /** `_attempt_contract_status`: the first check that fails names the reason. */
  function AttemptReason(run: Run, c: Contract): Reason {
    var result := ResultOf(run);
    if run.request.contractVersion != c.version then VersionMismatch
    else if !run.request.confirmLoad || !run.request.confirmWindow then ConfirmationMissing
    else if run.request.sessionId != c.sessionId || run.request.profile != c.profile then TargetMismatch
    else if run.status != Completed then NotCompleted(run.status)
    else if result.profileVersion != c.profileVersion then ProfileVersionMismatch
    else if result.methodologyVersion != c.methodologyVersion then MethodologyMismatch
    else if result.sessionId != "" && result.sessionId != c.sessionId then ResultSessionMismatch
    else if !result.comparisonEligible then ValidityIncomplete
    else if !CalendarDay(run.request.windowDay) then InvalidWindow
    else ValidWindow
  }

  function Attempt(campaign: CampaignRow): Run -> bool {
    (run: Run) => run.request.campaignId == campaign.id
  }

  /** An attempt of this campaign that its contract accepts. */
  function Valid(campaign: CampaignRow): Run -> bool {
    (run: Run) => run.request.campaignId == campaign.id && AttemptReason(run, campaign.contract) == ValidWindow
  }

  function ValidOn(campaign: CampaignRow, day: string): Run -> bool {
    (run: Run) => Valid(campaign)(run) && run.request.windowDay == day
  }

  function LiveAttempt(campaign: CampaignRow): Run -> bool {
    (run: Run) => run.request.campaignId == campaign.id && run.status.Live()
  }

  function EndedBadly(campaign: CampaignRow): Run -> bool {
    (run: Run) => run.request.campaignId == campaign.id && (run.status.Failed? || run.status.Cancelled?)
  }

  /** The start decides; without one the end, and without either the id. */
  function SortKey(run: Run): (key: string)
    ensures run.startedAt != "" ==> key == run.startedAt
    ensures run.startedAt == "" && run.finishedAt != "" ==> key == run.finishedAt
    ensures run.startedAt == "" && run.finishedAt == "" ==> key == run.id
  {
    OrElse(run.startedAt, OrElse(run.finishedAt, run.id))
  }

  function ByStart(): (Run, Run) -> bool {
    (a: Run, b: Run) => TextLe(SortKey(a), SortKey(b))
  }

  lemma ByStartIsTotal()
    ensures TotalPreorder(ByStart())
  {
    var le := ByStart();
    forall x, y ensures le(x, y) || le(y, x) { TextTotal(SortKey(x), SortKey(y)); }
    forall x, y, z | le(x, y) && le(y, z) ensures le(x, z) {
      TextTransitive(SortKey(x), SortKey(y), SortKey(z));
    }
  }

  function Attempts(campaign: CampaignRow, runs: seq<Run>): seq<Run> {
    StableSort(Filter(runs, Attempt(campaign)), ByStart())
  }

  // ---- The projection ------------------------------------------------------

  /** One entry of `valid_days`, whose insertion order a Python dict keeps. */
  datatype Window = Window(day: string, runId: string)

  predicate HasDay(windows: seq<Window>, day: string) {
    exists i :: 0 <= i < |windows| && windows[i].day == day
  }

  function SetDefault(windows: seq<Window>, day: string, runId: string): seq<Window> {
    if HasDay(windows, day) then windows else windows + [Window(day, runId)]
  }

  function ByDay(): (Window, Window) -> bool {
    (a: Window, b: Window) => TextLe(a.day, b.day)
  }

  function WindowsOf(campaign: CampaignRow, attempts: seq<Run>): seq<Window> {
    if |attempts| == 0 then [] else
      var last := attempts[|attempts| - 1];
      var before := WindowsOf(campaign, attempts[..|attempts| - 1]);
      if Valid(campaign)(last) then SetDefault(before, last.request.windowDay, last.id) else before
  }

  /** The id of the last attempt that is still queued or running; empty when there is none. */
  function ActiveOf(campaign: CampaignRow, attempts: seq<Run>): string {
    if |attempts| == 0 then ""
    else if LiveAttempt(campaign)(attempts[|attempts| - 1]) then attempts[|attempts| - 1].id
    else ActiveOf(campaign, attempts[..|attempts| - 1])
  }

  datatype Summary = Summary(
    runId: string, status: RunStatus, windowDay: Option<string>, attemptNumber: nat,
    windowNumber: nat, valid: bool, reason: Reason)

  function SummaryOf(campaign: CampaignRow, run: Run): Summary {
    var reason := AttemptReason(run, campaign.contract);
    Summary(run.id, run.status,
            if CalendarDay(run.request.windowDay) then Some(run.request.windowDay) else None,
            run.request.attemptNumber, run.request.windowNumber, reason == ValidWindow, reason)
  }

  datatype Gate =
    | CampaignComplete | Superseded | NotActive | RunActive | DayComplete
    | SessionUnavailable | SessionMismatch | AgentsNotReady | Ready

  datatype View = View(
    status: string, windows: seq<Window>, targetWindows: nat, remaining: nat,
    attempts: seq<Summary>, failedAttempts: nat, activeRunId: string,
    gate: Gate, windowNumber: nat, attemptNumber: nat, windowDay: string)
  {
    predicate Eligible() { gate == Ready }
    function ValidWindows(): nat { |windows| }
  }

  function Target(campaign: CampaignRow): nat {
    if campaign.targetWindows == 0 then MIN_WINDOWS else campaign.targetWindows
  }

  function EffectiveStatus(campaign: CampaignRow, windows: nat, installed: Installed): string {
    var stored := OrElse(campaign.status, "active");
    if windows >= Target(campaign) then "completed"
    else if stored == "active" && (installed.profileVersion != campaign.contract.profileVersion
                                   || installed.methodologyVersion != campaign.contract.methodologyVersion)
    then "superseded"
    else stored
  }

  function GateOf(campaign: CampaignRow, windows: seq<Window>, active: string,
                  session: Option<Session>, today: string, installed: Installed): Gate
  {
    var status := EffectiveStatus(campaign, |windows|, installed);
    if status == "completed" then CampaignComplete
    else if status == "superseded" then Superseded
    else if OrElse(campaign.status, "active") != "active" then NotActive
    else if active != "" then RunActive
    else if HasDay(windows, today) then DayComplete
    else if session.None? then SessionUnavailable
    else if !MatchesSession(campaign.contract, session.value) then SessionMismatch
    else if session.value.status != "ready" then AgentsNotReady
    else Ready
  }

  function Max0(x: int): nat { if x < 0 then 0 else x }

  function Min(a: nat, b: nat): nat { if a < b then a else b }

  function Summaries(campaign: CampaignRow, attempts: seq<Run>): seq<Summary> {
    seq(|attempts|, i requires 0 <= i < |attempts| => SummaryOf(campaign, attempts[i]))
  }

  /** What the projection is meant to be: each part stated separately over the sorted attempts. */
  function Project(campaign: CampaignRow, runs: seq<Run>, session: Option<Session>,
                   today: string, installed: Installed): View
  {
    var attempts := Attempts(campaign, runs);
    var windows := WindowsOf(campaign, attempts);
    var active := ActiveOf(campaign, attempts);
    View(EffectiveStatus(campaign, |windows|, installed),
         StableSort(windows, ByDay()), Target(campaign), Max0(Target(campaign) - |windows|),
         Summaries(campaign, attempts), Count(attempts, EndedBadly(campaign)), active,
         GateOf(campaign, windows, active, session, today, installed),
         Min(Target(campaign), |windows| + 1), |attempts| + 1, today)
  }

  /** A confirmed, completed, comparable run of this very contract on a real day. */
  predicate Acceptable(run: Run, c: Contract) {
    && run.status == Completed && run.request.confirmLoad && run.request.confirmWindow
    && run.request.contractVersion == c.version && run.request.sessionId == c.sessionId
    && run.request.profile == c.profile && CalendarDay(run.request.windowDay)
    && ResultOf(run).comparisonEligible && ResultOf(run).sessionId in {"", c.sessionId}
    && (ResultOf(run).profileVersion, ResultOf(run).methodologyVersion) == (c.profileVersion, c.methodologyVersion)
  }

  /** The chain of checks finds no fault exactly with the acceptable attempts. */
  lemma ValidAttemptIff(run: Run, c: Contract)
    ensures AttemptReason(run, c) == ValidWindow <==> Acceptable(run, c)
  {
  }

  lemma ValidIsCalendar(run: Run, contract: Contract)
    requires AttemptReason(run, contract) == ValidWindow
    ensures CalendarDay(run.request.windowDay) && run.status == Completed
  {
  }

  method AttemptsOf(campaign: CampaignRow, runs: seq<Run>) returns (attempts: seq<Run>)
    ensures attempts == Filter(runs, Attempt(campaign))
  {
    attempts := [];
    for i := 0 to |runs|
      invariant attempts == Filter(runs[..i], Attempt(campaign))
    {
      assert runs[..i + 1] == runs[..i] + [runs[i]];
      FilterPush(runs[..i], runs[i], Attempt(campaign));
      if runs[i].request.campaignId == campaign.id {
        attempts := attempts + [runs[i]];
      }
    }
    assert runs[..|runs|] == runs;
  }

  lemma WindowsPush(campaign: CampaignRow, attempts: seq<Run>, run: Run)
    ensures WindowsOf(campaign, attempts + [run])
         == if Valid(campaign)(run) then SetDefault(WindowsOf(campaign, attempts), run.request.windowDay, run.id)
            else WindowsOf(campaign, attempts)
    ensures ActiveOf(campaign, attempts + [run])
         == if LiveAttempt(campaign)(run) then run.id else ActiveOf(campaign, attempts)
  {
    assert (attempts + [run])[..|attempts|] == attempts;
  }

  /** What one more attempt does to each accumulator. */
  lemma ScanPush(campaign: CampaignRow, head: seq<Run>, run: Run)
    requires run.request.campaignId == campaign.id
    ensures var summary := SummaryOf(campaign, run);
      && WindowsOf(campaign, head + [run])
         == (if summary.valid && summary.windowDay.Some?
             then SetDefault(WindowsOf(campaign, head), summary.windowDay.value, run.id) else WindowsOf(campaign, head))
      && ActiveOf(campaign, head + [run]) == (if run.status.Live() then run.id else ActiveOf(campaign, head))
      && Count(head + [run], EndedBadly(campaign))
         == Count(head, EndedBadly(campaign)) + (if run.status.Failed? || run.status.Cancelled? then 1 else 0)
      && Summaries(campaign, head + [run]) == Summaries(campaign, head) + [summary]
  {
    WindowsPush(campaign, head, run);
    CountAppend(head, run, EndedBadly(campaign));
    if AttemptReason(run, campaign.contract) == ValidWindow { ValidIsCalendar(run, campaign.contract); }
    hide AttemptReason, CalendarDay, SetDefault, WindowsOf, ActiveOf, Count;
  }

  /** The body of `for run in attempts`: one pass, four accumulators. */
  method Scan(campaign: CampaignRow, attempts: seq<Run>)
    returns (windows: seq<Window>, active: string, failed: nat, summaries: seq<Summary>)
    requires forall run :: run in attempts ==> run.request.campaignId == campaign.id
    ensures windows == WindowsOf(campaign, attempts)
    ensures active == ActiveOf(campaign, attempts)
    ensures failed == Count(attempts, EndedBadly(campaign))
    ensures summaries == Summaries(campaign, attempts)
  {
    windows, active, failed, summaries := [], "", 0, [];
    assert attempts[..0] == [] && WindowsOf(campaign, []) == windows && ActiveOf(campaign, []) == active;
    assert Count<Run>([], EndedBadly(campaign)) == failed && Summaries(campaign, []) == summaries;
    hide SetDefault, WindowsOf, ActiveOf, Count, SummaryOf, Summaries, EndedBadly;
    for i := 0 to |attempts|
      invariant windows == WindowsOf(campaign, attempts[..i])
      invariant active == ActiveOf(campaign, attempts[..i])
      invariant failed == Count(attempts[..i], EndedBadly(campaign))
      invariant summaries == Summaries(campaign, attempts[..i])
    {
      var run := attempts[i];
      ScanPush(campaign, attempts[..i], run);
      assert attempts[..i + 1] == attempts[..i] + [run];
      var summary := SummaryOf(campaign, run);
      if summary.valid && summary.windowDay.Some? {
        windows := SetDefault(windows, summary.windowDay.value, run.id);
      }
      if run.status.Queued? || run.status.Running? {
        active := run.id;
      } else if run.status.Failed? || run.status.Cancelled? {
        failed := failed + 1;
      }
      summaries := summaries + [summary];
    }
    assert attempts[..|attempts|] == attempts;
  }

  method ProjectNetworkCampaign(campaign: CampaignRow, runs: seq<Run>, session: Option<Session>,
                                today: string, installed: Installed)
    returns (view: View)
    ensures view == Project(campaign, runs, session, today, installed)
  {
    var attempts := AttemptsOf(campaign, runs);
    attempts := StableSort(attempts, ByStart());
    AttemptsBelong(campaign, runs);
    var windows, active, failed, summaries := Scan(campaign, attempts);
    view := View(EffectiveStatus(campaign, |windows|, installed),
                 StableSort(windows, ByDay()), Target(campaign), Max0(Target(campaign) - |windows|),
                 summaries, failed, active,
                 GateOf(campaign, windows, active, session, today, installed),
                 Min(Target(campaign), |windows| + 1), |attempts| + 1, today);
  }

  lemma AttemptsBelong(campaign: CampaignRow, runs: seq<Run>)
    ensures forall run :: run in Attempts(campaign, runs) <==> run in runs && run.request.campaignId == campaign.id
  {
    var mine := Filter(runs, Attempt(campaign));
    ByStartIsTotal();
    SortFacts(mine, ByStart());
    FilterSound(runs, Attempt(campaign));
    forall run ensures run in Attempts(campaign, runs) <==> run in mine {
      assert run in Attempts(campaign, runs) <==> run in multiset(Attempts(campaign, runs));
    }
  }
}
