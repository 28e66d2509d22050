/**
  The loops of `run_network` and the step count announced for them. The code
  always measures both directions; `network_total_steps` multiplies by the number
  of directions the profile lists. Measurements are nondeterministic: they yield a
  rate or raise, and every completed step may be stopped by the run's context.
 */
module NetworkSteps {
  const PORT_MIN := 5201
  const PORT_MAX := 5210

  datatype Direction = GeneratorToTarget | TargetToGenerator

  datatype Profile = Profile(
    listedDirections: nat, streams: seq<nat>, fractions: seq<nat>, path: bool, latency: bool,
    postPath: bool, bidirectionalStreams: nat)

  datatype Phase =
    | PathEvidence(d: Direction)
    | Latency(d: Direction)
    | Tcp(d: Direction, streams: nat)
    | Udp(d: Direction, fraction: nat)
    | Bidirectional(streams: nat)
    | PostPath(d: Direction)

  function PerDirection(p: Profile): nat {
    |p.streams| + |p.fractions| + (if p.latency then 1 else 0) + (if p.path then 1 else 0) + if p.postPath then 1 else 0
  }

  /** `network_total_steps`, accumulated as the code does. */
  function TotalSteps(p: Profile): nat {
    p.listedDirections * |p.streams|
    + (if p.latency then p.listedDirections else 0)
    + (if p.path then p.listedDirections else 0)
    + (if p.postPath then p.listedDirections else 0)
    + p.listedDirections * |p.fractions|
    + (if p.bidirectionalStreams != 0 then 1 else 0)
  }

  // ---- What an undisturbed run measures, in order -----------------------------

  function Both(f: Direction -> seq<Phase>): seq<Phase> { f(GeneratorToTarget) + f(TargetToGenerator) }

  function TcpRow(streams: seq<nat>): Direction -> seq<Phase> {
    (d: Direction) => seq(|streams|, i requires 0 <= i < |streams| => Tcp(d, streams[i]))
  }

  function UdpRow(fractions: seq<nat>): Direction -> seq<Phase> {
    (d: Direction) => seq(|fractions|, i requires 0 <= i < |fractions| => Udp(d, fractions[i]))
  }

  function One(wanted: bool, make: Direction -> Phase): seq<Phase> {
    if wanted then [make(GeneratorToTarget), make(TargetToGenerator)] else []
  }

  function Loads(p: Profile): seq<Phase> {
    Both(TcpRow(p.streams)) + Both(UdpRow(p.fractions))
    + if p.bidirectionalStreams != 0 then [Bidirectional(p.bidirectionalStreams)] else []
  }

  function Plan(p: Profile): seq<Phase> {
    One(p.path, d => PathEvidence(d)) + One(p.latency, d => Latency(d)) + Loads(p) + One(p.postPath, d => PostPath(d))
  }

  lemma PlanLength(p: Profile)
    ensures |Plan(p)| == 2 * PerDirection(p) + if p.bidirectionalStreams != 0 then 1 else 0
  {
  }

  /** The loads in plain terms: every stream count forward, then backward; then the rates in the same way; then both at once. */
  lemma LoadsAre(p: Profile)
    ensures
      var n, m := |p.streams|, |p.fractions|;
      && |Loads(p)| == 2 * n + 2 * m + (if p.bidirectionalStreams != 0 then 1 else 0)
      && (forall j :: 0 <= j < n ==> Loads(p)[j] == Tcp(GeneratorToTarget, p.streams[j]))
      && (forall j :: n <= j < 2 * n ==> Loads(p)[j] == Tcp(TargetToGenerator, p.streams[j - n]))
      && (forall j :: 2 * n <= j < 2 * n + m ==> Loads(p)[j] == Udp(GeneratorToTarget, p.fractions[j - 2 * n]))
      && (forall j :: 2 * n + m <= j < 2 * n + 2 * m ==> Loads(p)[j] == Udp(TargetToGenerator, p.fractions[j - 2 * n - m]))
      && (p.bidirectionalStreams != 0 ==> Loads(p)[2 * n + 2 * m] == Bidirectional(p.bidirectionalStreams))
  {
  }

  /** Around the loads: path evidence and latency before them, the second path evidence after them, generator to target first. */
  lemma PlanIs(p: Profile)
    ensures Plan(p)
         == (if p.path then [PathEvidence(GeneratorToTarget), PathEvidence(TargetToGenerator)] else [])
          + (if p.latency then [Latency(GeneratorToTarget), Latency(TargetToGenerator)] else [])
          + Loads(p)
          + (if p.postPath then [PostPath(GeneratorToTarget), PostPath(TargetToGenerator)] else [])
  {
    hide Loads;
  }

  lemma Distribute(n: nat, a: nat, b: nat, c: nat, d: nat, e: nat)
    ensures n * (a + b + c + d + e) == n * a + n * b + n * c + n * d + n * e
  {
  }

  lemma Scale(n: nat, m: nat)
    ensures n * m == 2 * m <==> n == 2 || m == 0
  {
    assert n * m - 2 * m == (n - 2) * m;
  }

  /**
    The announced total is the number of steps an undisturbed run completes
    exactly when the profile lists two directions or asks for nothing per direction.
   */
  lemma TotalIsExact(p: Profile)
    ensures |Plan(p)| == TotalSteps(p) <==> p.listedDirections == 2 || PerDirection(p) == 0
  {
    hide Plan;
    PlanLength(p);
    var n := p.listedDirections;
    var b, c, d := if p.latency then 1 else 0, if p.path then 1 else 0, if p.postPath then 1 else 0;
    Distribute(n, |p.streams|, |p.fractions|, b, c, d);
    assert n * b == (if p.latency then n else 0) && n * c == (if p.path then n else 0);
    assert n * d == if p.postPath then n else 0;
    Scale(n, PerDirection(p));
  }

  // ---- The context ------------------------------------------------------------

  /** `JobContext`: the counter saturates at the announced total. `calls` is history. */
  class JobContext {
    const totalSteps: nat
    var completedSteps: nat
    ghost var calls: nat

    ghost predicate Valid()
      reads this
    {
      totalSteps >= 1 && completedSteps == if calls < totalSteps then calls else totalSteps
    }

    constructor (announced: nat)
      ensures Valid() && calls == 0 && totalSteps == if announced < 1 then 1 else announced
    {
      totalSteps := if announced < 1 then 1 else announced;
      completedSteps := 0;
      calls := 0;
    }

    /** `complete_step`; false when the report's checkpoint raised. */
    method CompleteStep() returns (go: bool)
      requires Valid()
      modifies this
      ensures Valid() && calls == old(calls) + 1
    {
      completedSteps := if completedSteps + 1 < totalSteps then completedSteps + 1 else totalSteps;
      calls := calls + 1;
      go := *;
    }
  }

  // ---- The run ------------------------------------------------------------------

  /** One measurement under load, with the port it used and the rate the receiver saw. */
  datatype Load = Load(phase: Phase, port: nat, bitsPerSecond: int)

  function PortOf(index: nat): nat { PORT_MIN + index % (PORT_MAX - PORT_MIN + 1) }

  function PhasesOf(loads: seq<Load>): seq<Phase> {
    seq(|loads|, i requires 0 <= i < |loads| => loads[i].phase)
  }

  /** Measurement number `from + i` under load uses the port of that number. */
  predicate PortsFrom(loads: seq<Load>, from: nat) {
    forall i :: 0 <= i < |loads| ==> loads[i].port == PortOf(from + i)
  }

  lemma PortsAreBounded(index: nat)
    ensures PortOf(index) == 5201 + index % 10 && PORT_MIN <= PortOf(index) <= PORT_MAX
    ensures forall other: nat :: index < other <= index + (PORT_MAX - PORT_MIN) ==> PortOf(other) != PortOf(index)
  {
    var span := PORT_MAX - PORT_MIN + 1;
    forall other: nat | index < other <= index + (PORT_MAX - PORT_MIN) ensures PortOf(other) != PortOf(index) {
      assert other == span * (other / span) + other % span && index == span * (index / span) + index % span;
    }
  }

  /** Some TCP measurement in this direction moved data. */
  predicate Baseline(loads: seq<Load>, d: Direction) {
    exists i :: 0 <= i < |loads| && loads[i].phase.Tcp? && loads[i].phase.d == d && loads[i].bitsPerSecond > 0
  }

  const BOTH := [GeneratorToTarget, TargetToGenerator]

  class NetworkRun {
    const profile: Profile
    const context: JobContext
    var path: seq<Direction>
    var latency: seq<Direction>
    var tcp: seq<Load>
    var udp: seq<Load>
    var bidirectional: seq<Load>
    var post: seq<Direction>
    var index: nat

    ghost predicate Valid()
      reads this, context
    {
      && context.Valid()
      && index <= |tcp| + |udp|
      && PortsFrom(tcp, 0) && PortsFrom(udp, |tcp|) && PortsFrom(bidirectional, |tcp| + |udp|)
    }

    constructor (profile: Profile)
      ensures Valid() && fresh(context) && this.profile == profile
      ensures context.calls == 0 && context.totalSteps == if TotalSteps(profile) < 1 then 1 else TotalSteps(profile)
      ensures path == [] && latency == [] && tcp == [] && udp == [] && bidirectional == [] && post == [] && index == 0
    {
      this.profile := profile;
      context := new JobContext(TotalSteps(profile));
      path, latency, post, index := [], [], [], 0;
      tcp, udp, bidirectional := [], [], [];
    }

    method ProbePath() returns (ok: bool)
      requires Valid() && path == []
      modifies this`path, context
      ensures Valid() && path <= BOTH
      ensures ok ==> path == BOTH && context.calls == old(context.calls) + 2
    {
      for i := 0 to 2
        invariant Valid() && path == BOTH[..i] && context.calls == old(context.calls) + i
      {
        var raised: bool := *;
        if raised { return false; }
        path := path + [BOTH[i]];
        ok := context.CompleteStep();
        if !ok { return; }
      }
      ok := true;
    }

    method ProbeLatency() returns (ok: bool)
      requires Valid() && latency == []
      modifies this`latency, context
      ensures Valid() && latency <= BOTH
      ensures ok ==> latency == BOTH && context.calls == old(context.calls) + 2
    {
      for i := 0 to 2
        invariant Valid() && latency == BOTH[..i] && context.calls == old(context.calls) + i
      {
        var raised: bool := *;
        if raised { return false; }
        latency := latency + [BOTH[i]];
        ok := context.CompleteStep();
        if !ok { return; }
      }
      ok := true;
    }

    method ProbePostPath() returns (ok: bool)
      requires Valid() && post == []
      modifies this`post, context
      ensures Valid() && post <= BOTH
      ensures ok ==> post == BOTH && context.calls == old(context.calls) + 2
    {
      for i := 0 to 2
        invariant Valid() && post == BOTH[..i] && context.calls == old(context.calls) + i
      {
        var raised: bool := *;
        if raised { return false; }
        post := post + [BOTH[i]];
        ok := context.CompleteStep();
        if !ok { return; }
      }
      ok := true;
    }

    /** One direction of the TCP loop. */
    method MeasureTcpRow(d: Direction) returns (ok: bool)
      requires Valid() && bidirectional == [] && udp == [] && index == |tcp|
      modifies this`tcp, this`index, context
      ensures Valid() && PhasesOf(tcp) <= PhasesOf(old(tcp)) + TcpRow(profile.streams)(d)
      ensures ok ==> PhasesOf(tcp) == PhasesOf(old(tcp)) + TcpRow(profile.streams)(d)
      ensures ok ==> udp == [] && index == |tcp| && context.calls == old(context.calls) + |profile.streams|
    {
      var list := profile.streams;
      ghost var row := TcpRow(list)(d);
      for j := 0 to |list|
        invariant Valid() && PhasesOf(tcp) == PhasesOf(old(tcp)) + row[..j] && udp == [] && index == |tcp|
        invariant context.calls == old(context.calls) + j
      {
        hide PhasesOf;
        var raised: bool, rate: int := *, *;
        if raised { return false; }
        ghost var before := tcp;
        tcp := tcp + [Load(Tcp(d, list[j]), PortOf(index), rate)];
        PhasesPush(before, tcp[|tcp| - 1]);
        assert row[..j + 1] == row[..j] + [row[j]];
        ok := context.CompleteStep();
        if !ok { return; }
        index := index + 1;
      }
      assert row[..|list|] == row;
      ok := true;
    }

    method MeasureTcp() returns (ok: bool)
      requires Valid() && tcp == [] && udp == [] && bidirectional == [] && index == 0
      modifies this`tcp, this`index, context
      ensures Valid() && PhasesOf(tcp) <= Both(TcpRow(profile.streams))
      ensures ok ==> PhasesOf(tcp) == Both(TcpRow(profile.streams)) && index == |tcp|
      ensures ok ==> context.calls == old(context.calls) + 2 * |profile.streams|
    {
      assert PhasesOf(tcp) == [];
      ok := MeasureTcpRow(GeneratorToTarget);
      if !ok { return; }
      ok := MeasureTcpRow(TargetToGenerator);
    }

    /** `tcp_peak <= 0` means that direction has no baseline. */
    method HasBaseline(d: Direction) returns (found: bool)
      ensures found == Baseline(tcp, d)
    {
      found := false;
      for i := 0 to |tcp|
        invariant found == Baseline(tcp[..i], d)
      {
        found := found || (tcp[i].phase.Tcp? && tcp[i].phase.d == d && tcp[i].bitsPerSecond > 0);
        BaselinePush(tcp[..i], tcp[i], d);
        assert tcp[..i + 1] == tcp[..i] + [tcp[i]];
      }
      assert tcp[..|tcp|] == tcp;
    }

    /** One direction of the UDP loop. */
    method MeasureUdpRow(d: Direction) returns (ok: bool)
      requires Valid() && bidirectional == [] && index == |tcp| + |udp|
      modifies this`udp, this`index, context
      ensures Valid() && PhasesOf(udp) <= PhasesOf(old(udp)) + UdpRow(profile.fractions)(d)
      ensures ok ==> PhasesOf(udp) == PhasesOf(old(udp)) + UdpRow(profile.fractions)(d)
      ensures ok ==> index == |tcp| + |udp| && context.calls == old(context.calls) + |profile.fractions|
    {
      var list := profile.fractions;
      ghost var row := UdpRow(list)(d);
      for j := 0 to |list|
        invariant Valid() && PhasesOf(udp) == PhasesOf(old(udp)) + row[..j] && index == |tcp| + |udp|
        invariant context.calls == old(context.calls) + j
      {
        hide PhasesOf;
        var raised: bool, rate: int := *, *;
        if raised { return false; }
        ghost var before := udp;
        udp := udp + [Load(Udp(d, list[j]), PortOf(index), rate)];
        PhasesPush(before, udp[|udp| - 1]);
        assert row[..j + 1] == row[..j] + [row[j]];
        ok := context.CompleteStep();
        if !ok { return; }
        index := index + 1;
      }
      assert row[..|list|] == row;
      ok := true;
    }

    /** A direction without a TCP baseline raises before any of its rates is tried. */
    method MeasureUdp() returns (ok: bool)
      requires Valid() && udp == [] && bidirectional == [] && index == |tcp|
      modifies this`udp, this`index, context
      ensures Valid() && PhasesOf(udp) <= Both(UdpRow(profile.fractions))
      ensures ok ==> PhasesOf(udp) == Both(UdpRow(profile.fractions)) && index == |tcp| + |udp|
      ensures ok ==> context.calls == old(context.calls) + 2 * |profile.fractions|
      ensures ok ==> forall d :: Baseline(tcp, d)
    {
      hide Baseline;
      assert PhasesOf(udp) == [];
      var found := HasBaseline(GeneratorToTarget);
      if !found { return false; }
      ok := MeasureUdpRow(GeneratorToTarget);
      if !ok { return; }
      found := HasBaseline(TargetToGenerator);
      if !found { return false; }
      ok := MeasureUdpRow(TargetToGenerator);
      forall d ensures Baseline(tcp, d) { assert d == GeneratorToTarget || d == TargetToGenerator; }
    }

    method MeasureBidirectional() returns (ok: bool)
      requires Valid() && bidirectional == [] && index == |tcp| + |udp|
      modifies this`bidirectional, context
      ensures Valid() && PhasesOf(bidirectional) <= [Bidirectional(profile.bidirectionalStreams)]
      ensures ok ==> PhasesOf(bidirectional) == [Bidirectional(profile.bidirectionalStreams)]
      ensures ok ==> context.calls == old(context.calls) + 1
    {
      var raised: bool, rate: int := *, *;
      if raised { return false; }
      bidirectional := [Load(Bidirectional(profile.bidirectionalStreams), PortOf(index), rate)];
      ok := context.CompleteStep();
    }

    /** The steps whose results have been recorded, in the order of the lists. */
    ghost function Recorded(): seq<Phase>
      reads this
    {
      Record(path, latency, tcp, udp, bidirectional, post)
    }

    /** The two probes that come before any load. */
    method Prologue() returns (ok: bool)
      requires Valid() && path == [] && latency == []
      modifies this`path, this`latency, context
      ensures Valid() && path <= BOTH && latency <= BOTH
      ensures ok ==> path == (if profile.path then BOTH else []) && latency == (if profile.latency then BOTH else [])
      ensures ok ==> context.calls == old(context.calls) + |path| + |latency|
    {
      hide PortsFrom;
      ok := true;
      if profile.path {
        ok := ProbePath();
        if !ok { return; }
      }
      if profile.latency {
        ok := ProbeLatency();
      }
    }

    /** Everything measured under load. */
    method LoadPhase() returns (ok: bool)
      requires Valid() && tcp == [] && udp == [] && bidirectional == [] && index == 0
      modifies this`tcp, this`udp, this`bidirectional, this`index, context
      ensures Valid() && |bidirectional| <= 1
      ensures PhasesOf(tcp) <= Both(TcpRow(profile.streams)) && PhasesOf(udp) <= Both(UdpRow(profile.fractions))
      ensures ok ==> PhasesOf(tcp) + PhasesOf(udp) + PhasesOf(bidirectional) == Loads(profile)
      ensures ok ==> context.calls == old(context.calls) + |Loads(profile)|
      ensures ok && profile.fractions != [] ==> forall d :: Baseline(tcp, d)
    {
      hide PortsFrom, Baseline;
      assert PhasesOf(udp) == [] && PhasesOf(bidirectional) == [];
      ok := MeasureTcp();
      if !ok { return; }
      if profile.fractions != [] {
        ok := MeasureUdp();
        if !ok { return; }
      }
      assert PhasesOf(udp) == Both(UdpRow(profile.fractions));
      if profile.bidirectionalStreams != 0 {
        ok := MeasureBidirectional();
      }
    }

    /**
      `run_network`: on a normal return the recorded results are the plan itself
      and every step was completed; an exception leaves each list a prefix of its part.
     */
    method Execute() returns (returned: bool)
      requires Valid() && context.calls == 0 && index == 0
      requires path == [] && latency == [] && tcp == [] && udp == [] && bidirectional == [] && post == []
      modifies this, context
      ensures Valid()
      ensures returned ==> Recorded() == Plan(profile) && context.calls == |Plan(profile)|
      ensures returned && profile.fractions != [] ==>
        && (exists i :: 0 <= i < |tcp| && tcp[i].phase.Tcp? && tcp[i].phase.d == GeneratorToTarget && tcp[i].bitsPerSecond > 0)
        && (exists i :: 0 <= i < |tcp| && tcp[i].phase.Tcp? && tcp[i].phase.d == TargetToGenerator && tcp[i].bitsPerSecond > 0)
      ensures path <= BOTH && latency <= BOTH && post <= BOTH
      ensures PhasesOf(tcp) <= Both(TcpRow(profile.streams)) && PhasesOf(udp) <= Both(UdpRow(profile.fractions))
      ensures |bidirectional| <= 1
    {
      assert PhasesOf(tcp) == [] && PhasesOf(udp) == [];
      hide PortsFrom, Baseline, PhasesOf, Loads;
      returned := Prologue();
      if !returned { return; }
      returned := LoadPhase();
      if !returned { return; }
      if profile.postPath {
        returned := ProbePostPath();
        if !returned { return; }
      }
      RecordIsPlan(profile, path, latency, tcp, udp, bidirectional, post);
      if profile.fractions != [] { BaselinesMoved(tcp); }
    }
  }

  lemma BaselinesMoved(loads: seq<Load>)
    requires forall d :: Baseline(loads, d)
    ensures exists i :: 0 <= i < |loads| && loads[i].phase.Tcp? && loads[i].phase.d == GeneratorToTarget && loads[i].bitsPerSecond > 0
    ensures exists i :: 0 <= i < |loads| && loads[i].phase.Tcp? && loads[i].phase.d == TargetToGenerator && loads[i].bitsPerSecond > 0
  {
    assert Baseline(loads, GeneratorToTarget) && Baseline(loads, TargetToGenerator);
  }

  ghost function Record(path: seq<Direction>, latency: seq<Direction>, tcp: seq<Load>, udp: seq<Load>,
                        bidirectional: seq<Load>, post: seq<Direction>): seq<Phase>
  {
    Visits(path, d => PathEvidence(d)) + Visits(latency, d => Latency(d))
    + (PhasesOf(tcp) + PhasesOf(udp) + PhasesOf(bidirectional)) + Visits(post, d => PostPath(d))
  }

  lemma RecordIsPlan(p: Profile, path: seq<Direction>, latency: seq<Direction>, tcp: seq<Load>, udp: seq<Load>,
                     bidirectional: seq<Load>, post: seq<Direction>)
    requires path == (if p.path then BOTH else []) && latency == (if p.latency then BOTH else [])
    requires post == if p.postPath then BOTH else []
    requires PhasesOf(tcp) + PhasesOf(udp) + PhasesOf(bidirectional) == Loads(p)
    ensures Record(path, latency, tcp, udp, bidirectional, post) == Plan(p)
    ensures |Plan(p)| == |path| + |latency| + |Loads(p)| + |post|
  {
    hide Loads, PhasesOf;
    assert Visits(path, d => PathEvidence(d)) == One(p.path, d => PathEvidence(d));
    assert Visits(latency, d => Latency(d)) == One(p.latency, d => Latency(d));
    assert Visits(post, d => PostPath(d)) == One(p.postPath, d => PostPath(d));
  }

  function Visits(list: seq<Direction>, make: Direction -> Phase): seq<Phase> {
    seq(|list|, i requires 0 <= i < |list| => make(list[i]))
  }

  lemma PhasesPush(loads: seq<Load>, load: Load)
    ensures PhasesOf(loads + [load]) == PhasesOf(loads) + [load.phase]
  {
  }

  lemma BaselinePush(loads: seq<Load>, load: Load, d: Direction)
    ensures Baseline(loads + [load], d)
      <==> Baseline(loads, d) || (load.phase.Tcp? && load.phase.d == d && load.bitsPerSecond > 0)
  {
    var more := loads + [load];
    if Baseline(loads, d) {
      var i :| 0 <= i < |loads| && loads[i].phase.Tcp? && loads[i].phase.d == d && loads[i].bitsPerSecond > 0;
      assert more[i] == loads[i];
    }
    if load.phase.Tcp? && load.phase.d == d && load.bitsPerSecond > 0 {
      assert more[|loads|] == load;
    }
  }

  /** With a profile that lists two directions, an undisturbed run ends with its counter exactly at the total. */
  method MeasureProfile(profile: Profile) returns (run: NetworkRun, returned: bool)
    ensures returned ==> run.Recorded() == Plan(profile)
    ensures returned ==> (run.context.calls == TotalSteps(profile) <==> profile.listedDirections == 2 || PerDirection(profile) == 0)
  {
    run := new NetworkRun(profile);
    returned := run.Execute();
    TotalIsExact(profile);
  }
}
