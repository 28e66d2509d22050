/**
  The cgroup walks that bound a compute or memory run: which hierarchy applies,
  the CPU quota and memory headroom over every ancestor, the effective thread
  count, and the memory admission test. Control files arrive as stripped text.
 */
module Boundaries {
  import opened Wrappers
  import opened Decimals
  import opened Ordering

  const MAX_DEPTH := 32

  datatype Version = V1 | V2

  /** A line of /proc/self/cgroup split at its first two colons, the lists split at their separators. */
  datatype GroupLine = Malformed | GroupLine(hierarchy: string, controllers: seq<string>, path: seq<string>)

  predicate Unified(l: GroupLine) { l.GroupLine? && l.hierarchy == "0" && l.controllers == [] }

  predicate Legacy(l: GroupLine, controller: string) {
    l.GroupLine? && !Unified(l) && controller in l.controllers
  }

  /** The first unified line decides; otherwise the last line that names the controller. */
  ghost predicate Selects(lines: seq<GroupLine>, controller: string, choice: Option<(Version, nat)>) {
    match choice
    case None => forall i :: 0 <= i < |lines| ==> !Unified(lines[i]) && !Legacy(lines[i], controller)
    case Some((V2, k)) => k < |lines| && Unified(lines[k]) && forall i :: 0 <= i < k ==> !Unified(lines[i])
    case Some((V1, k)) =>
      && k < |lines| && Legacy(lines[k], controller)
      && (forall i :: 0 <= i < |lines| ==> !Unified(lines[i]))
      && (forall i :: k < i < |lines| ==> !Legacy(lines[i], controller))
  }

  /** The choice the loop makes, as a function of the lines. */
  function Chosen(lines: seq<GroupLine>, controller: string): Option<(Version, nat)> {
    if |lines| == 0 then None else
      var k := |lines| - 1;
      var before := Chosen(lines[..k], controller);
      if before.Some? && before.value.0 == V2 then before
      else if Unified(lines[k]) then Some((V2, k))
      else if Legacy(lines[k], controller) then Some((V1, k))
      else before
  }

  lemma {:induction false} ChosenSelects(lines: seq<GroupLine>, controller: string)
    ensures Selects(lines, controller, Chosen(lines, controller))
  {
    if |lines| > 0 { ChosenSelects(lines[..|lines| - 1], controller); }
  }

  lemma SelectsOne(lines: seq<GroupLine>, controller: string, a: Option<(Version, nat)>, b: Option<(Version, nat)>)
    requires Selects(lines, controller, a) && Selects(lines, controller, b)
    ensures a == b
  {
    if a.Some? && b.Some? {
      var i, j := a.value.1, b.value.1;
      assert i == j;
    }
  }

  lemma SelectionIs(lines: seq<GroupLine>, controller: string, choice: Option<(Version, nat)>)
    requires Selects(lines, controller, choice)
    ensures (exists k :: choice == Some((V2, k))) <==>
      exists i :: 0 <= i < |lines| && lines[i].GroupLine? && lines[i].hierarchy == "0" && lines[i].controllers == []
    ensures choice == None ==> forall i :: 0 <= i < |lines| && lines[i].GroupLine? ==>
      controller !in lines[i].controllers && (lines[i].hierarchy == "0" ==> lines[i].controllers != [])
    ensures forall k: nat :: choice == Some((V1, k)) ==>
      && k < |lines| && lines[k].GroupLine? && controller in lines[k].controllers
      && forall i :: k < i < |lines| && lines[i].GroupLine? ==> controller !in lines[i].controllers
  {
    if choice.Some? {
      var (version, k) := choice.value;
      if version == V2 { assert choice == Some((V2, k)) && Unified(lines[k]); }
    }
    if i :| 0 <= i < |lines| && lines[i].GroupLine? && lines[i].hierarchy == "0" && lines[i].controllers == [] {
      assert Unified(lines[i]);
    }
    forall k: nat, i | choice == Some((V1, k)) && k < i < |lines| && lines[i].GroupLine?
      ensures controller !in lines[i].controllers
    {
      assert !Unified(lines[i]) && !Legacy(lines[i], controller);
    }
  }

  method SelectGroup(lines: seq<GroupLine>, controller: string) returns (choice: Option<(Version, nat)>)
    ensures Selects(lines, controller, choice) && choice == Chosen(lines, controller)
    ensures (exists k :: choice == Some((V2, k))) <==>
      exists i :: 0 <= i < |lines| && lines[i].GroupLine? && lines[i].hierarchy == "0" && lines[i].controllers == []
    ensures choice == None ==> forall i :: 0 <= i < |lines| && lines[i].GroupLine? ==>
      controller !in lines[i].controllers && (lines[i].hierarchy == "0" ==> lines[i].controllers != [])
    ensures forall k: nat :: choice == Some((V1, k)) ==>
      && k < |lines| && lines[k].GroupLine? && controller in lines[k].controllers
      && forall i :: k < i < |lines| && lines[i].GroupLine? ==> controller !in lines[i].controllers
  {
    choice := Find(lines, controller);
    SelectionIs(lines, controller, choice);
    ChosenSelects(lines, controller);
    SelectsOne(lines, controller, choice, Chosen(lines, controller));
  }

  method Find(lines: seq<GroupLine>, controller: string) returns (choice: Option<(Version, nat)>)
    ensures Selects(lines, controller, choice)
  {
    choice := None;
    for k := 0 to |lines|
      invariant Selects(lines[..k], controller, choice) && (choice.Some? ==> choice.value.0 == V1)
    {
      if lines[k].Malformed? { continue; }
      if Unified(lines[k]) { return Some((V2, k)); }
      if controller in lines[k].controllers { choice := Some((V1, k)); }
    }
    assert lines[..|lines|] == lines;
  }

  function NonEmptyPart(): string -> bool { (part: string) => part != "" }

  predicate Dotted(parts: seq<string>) { exists i :: 0 <= i < |parts| && (parts[i] == "." || parts[i] == "..") }

  /** Where the walk starts: nowhere, at an unsafe or too deep path (not trusted), or inside a group. */
  datatype Place = NoGroup | Unsafe | TooDeep | Inside(version: Version, parts: seq<string>)

  /** The non-empty components of the chosen line's path; None when no line is chosen. */
  function ChosenPath(lines: seq<GroupLine>, choice: Option<(Version, nat)>): Option<seq<string>> {
    if choice.None? || choice.value.1 >= |lines| || lines[choice.value.1].Malformed? then None
    else Some(Filter(lines[choice.value.1].path, NonEmptyPart()))
  }

  function PathFor(lines: seq<GroupLine>, controller: string): Option<seq<string>> {
    ChosenPath(lines, Chosen(lines, controller))
  }

  function PlaceOf(version: Version, path: Option<seq<string>>): Place {
    match path
    case None => NoGroup
    case Some(parts) => if Dotted(parts) then Unsafe else if |parts| > MAX_DEPTH then TooDeep else Inside(version, parts)
  }

  function PlaceFor(lines: seq<GroupLine>, controller: string): Place {
    var choice := Chosen(lines, controller);
    PlaceOf(if choice.Some? then choice.value.0 else V1, ChosenPath(lines, choice))
  }

  /** What a chosen path means: its non-empty components in order, refused with a dot component, or with more than 32. */
  lemma PlaceMeans(version: Version, path: seq<string>)
    ensures var parts := Filter(path, NonEmptyPart());
      var place := PlaceOf(version, Some(parts));
      && (forall part :: part in parts <==> part in path && part != "")
      && (place == Unsafe <==> "." in path || ".." in path)
      && (place == TooDeep <==> "." !in path && ".." !in path && |parts| > 32)
      && (place == Inside(version, parts) <==> "." !in path && ".." !in path && |parts| <= 32)
  {
    FilterSound(path, NonEmptyPart());
    var parts := Filter(path, NonEmptyPart());
    DottedIs(parts);
    hide Filter, Dotted;
    assert "." != "" && ".." != "";
  }

  lemma DottedIs(parts: seq<string>)
    ensures Dotted(parts) <==> "." in parts || ".." in parts
  {
  }

  /** From the lines to the place where a walk for `controller` starts. */
  method Locate(lines: seq<GroupLine>, controller: string) returns (place: Place)
    ensures place == PlaceFor(lines, controller)
  {
    var choice := SelectGroup(lines, controller);
    place := PlaceOf(if choice.Some? then choice.value.0 else V1, ChosenPath(lines, choice));
  }

  /** What the CPU walk trusts. */
  predicate Trusted(place: Place) { place.NoGroup? || place.Inside? }

  /** The directories from the group itself (depth 0) up to the root. */
  function Levels(place: Place): nat { if place.Inside? then |place.parts| + 1 else 0 }

  function Directory(place: Place, depth: nat): seq<string>
    requires place.Inside? && depth <= |place.parts|
  {
    place.parts[..|place.parts| - depth]
  }

  /** The levels walked are the group itself, then parent after parent, up to the root. */
  lemma LevelsAreAncestors(place: Place)
    requires place.Inside?
    ensures Levels(place) == |place.parts| + 1
    ensures Directory(place, 0) == place.parts && Directory(place, Levels(place) - 1) == []
    ensures forall depth: nat :: depth + 1 < Levels(place) ==>
      |Directory(place, depth)| > 0
      && Directory(place, depth + 1) == Directory(place, depth)[..|Directory(place, depth)| - 1]
  {
  }

  // ---- CPU quota ----------------------------------------------------------------

  /** `cpu.max` as words; the two legacy files. None is an unreadable or oversized file. */
  datatype CpuFiles = CpuFiles(max: Option<seq<string>>, quota: Option<string>, period: Option<string>)

  datatype Quota = Absent | Unlimited | Broken | Finite(quota: nat, period: nat)

  predicate PositiveText(text: string) { Digital(text) && Number(text) > 0 }

  function ReadUnified(files: CpuFiles): Quota {
    match files.max
    case None => Absent
    case Some(words) =>
      if |words| != 2 || !PositiveText(words[1]) then Broken
      else if words[0] == "max" then Unlimited
      else if !PositiveText(words[0]) then Broken
      else Finite(Number(words[0]), Number(words[1]))
  }

  function ReadLegacy(files: CpuFiles): Quota {
    if files.quota.None? && files.period.None? then Absent
    else if files.quota == Some("-1") && files.period.Some? && PositiveText(files.period.value) then Unlimited
    else if files.quota.None? || files.period.None?
         || !PositiveText(files.quota.value) || !PositiveText(files.period.value) then Broken
    else Finite(Number(files.quota.value), Number(files.period.value))
  }

  function ReadCpu(version: Version, files: CpuFiles): Quota {
    if version == V2 then ReadUnified(files) else ReadLegacy(files)
  }

  /** A finite quota is read from exactly two positive numbers; what is neither that nor "no limit" is malformed. */
  lemma QuotaReadIff(files: CpuFiles, quota: nat, period: nat)
    ensures ReadCpu(V2, files) == Finite(quota, period) <==>
      && files.max.Some? && |files.max.value| == 2 && quota > 0 && period > 0
      && Digital(files.max.value[0]) && Number(files.max.value[0]) == quota
      && Digital(files.max.value[1]) && Number(files.max.value[1]) == period
    ensures ReadCpu(V1, files) == Finite(quota, period) <==>
      && files.quota.Some? && files.period.Some? && quota > 0 && period > 0
      && Digital(files.quota.value) && Number(files.quota.value) == quota
      && Digital(files.period.value) && Number(files.period.value) == period
    ensures ReadCpu(V2, files) == Absent <==> files.max == None
    ensures ReadCpu(V1, files) == Absent <==> files.quota == None && files.period == None
    ensures ReadCpu(V2, files) == Unlimited <==>
      && files.max.Some? && |files.max.value| == 2 && files.max.value[0] == "max"
      && Digital(files.max.value[1]) && Number(files.max.value[1]) > 0
    ensures ReadCpu(V1, files) == Unlimited <==>
      files.quota == Some("-1") && files.period.Some? && Digital(files.period.value) && Number(files.period.value) > 0
  {
    assert "max"[0] == 'm' && "-1"[0] == '-';
    hide Number;
  }

  /** What the kernel writes is what the walk reads: the numbers themselves, `max`, or `-1` for no quota. */
  lemma WrittenQuotaReadsBack(quota: nat, period: nat)
    requires period > 0
    ensures var files := CpuFiles(Some([Decimal(quota), Decimal(period)]), Some(Decimal(quota)), Some(Decimal(period)));
      && ReadCpu(V2, files) == ReadCpu(V1, files) == if quota > 0 then Finite(quota, period) else Broken
    ensures ReadCpu(V2, CpuFiles(Some(["max", Decimal(period)]), None, None)) == Unlimited
    ensures ReadCpu(V1, CpuFiles(None, Some("-1"), Some(Decimal(period)))) == Unlimited
  {
    DecimalValue(quota);
    DecimalValue(period);
    assert Decimal(quota)[0] != 'm' && Decimal(quota)[0] != '-';
    assert "max"[0] == 'm' && "-1"[0] == '-';
  }

  function QuotaAt(place: Place, tree: seq<string> -> CpuFiles, depth: nat): Quota
    requires depth < Levels(place)
  {
    ReadCpu(place.version, tree(Directory(place, depth)))
  }

  function Ratio(quota: nat, period: nat): real
    requires period > 0
  {
    quota as real / period as real
  }

  /** A finite quota always has a positive period. */
  lemma FiniteIsPositive(version: Version, files: CpuFiles)
    requires ReadCpu(version, files).Finite?
    ensures ReadCpu(version, files).quota > 0 && ReadCpu(version, files).period > 0
  {
  }

  function Ceiling(r: real): int { -((0.0 - r).Floor) }

  /** The whole threads a quota allows. */
  function Threads(r: real): nat { if Ceiling(r) < 1 then 1 else Ceiling(r) }

  lemma CeilingIsLeast(r: real, n: int)
    ensures Ceiling(r) <= n <==> r <= n as real
  {
  }

  /** The threads a quota allows: the least positive whole number that is not below the ratio. */
  lemma ThreadsAreLeast(r: real, n: int)
    ensures Threads(r) <= n <==> 1 <= n && r <= n as real
  {
    CeilingIsLeast(r, n);
  }

  lemma ThreadsMonotone(a: real, b: real)
    requires a <= b
    ensures Threads(a) <= Threads(b)
  {
    ThreadsAreLeast(b, Threads(b));
    ThreadsAreLeast(a, Threads(b));
  }

  /** `limiting` is None exactly when no level is finite; otherwise it is the least ratio, the deepest level among ties. */
  datatype CpuQuota = CpuQuota(verified: bool, limiting: Option<(real, nat)>, checked: nat)

  ghost predicate LeastQuota(place: Place, tree: seq<string> -> CpuFiles, upto: nat, limiting: Option<(real, nat)>)
    requires upto <= Levels(place)
  {
    match limiting
    case None => forall d: nat :: d < upto ==> !QuotaAt(place, tree, d).Finite?
    case Some((ratio, depth)) =>
      && depth < upto && FiniteRatio(place, tree, depth) == Some(ratio)
      && forall d: nat :: d < upto && FiniteRatio(place, tree, d).Some? ==>
           ratio < FiniteRatio(place, tree, d).value || (ratio == FiniteRatio(place, tree, d).value && depth <= d)
  }

  function FiniteRatio(place: Place, tree: seq<string> -> CpuFiles, depth: nat): Option<real>
    requires depth < Levels(place)
  {
    match QuotaAt(place, tree, depth)
    case Finite(quota, period) => if period == 0 then None else Some(Ratio(quota, period))
    case _ => None
  }

  /** The walk of `_cpu_quota_boundary`: from the group to the root, keeping the least ratio. */
  method CpuQuotaBoundary(place: Place, tree: seq<string> -> CpuFiles) returns (r: CpuQuota)
    ensures r.verified <==> Trusted(place) && forall d: nat :: d < Levels(place) ==> !QuotaAt(place, tree, d).Broken?
    ensures LeastQuota(place, tree, Levels(place), r.limiting)
    ensures r.checked <= Levels(place)
  {
    var verified, checked := Trusted(place), 0;
    var limiting: Option<(real, nat)> := None;
    for depth := 0 to Levels(place)
      invariant verified <==> Trusted(place) && forall d: nat :: d < depth ==> !QuotaAt(place, tree, d).Broken?
      invariant LeastQuota(place, tree, depth, limiting)
      invariant checked <= depth
    {
      var quota := ReadCpu(place.version, tree(Directory(place, depth)));
      assert quota == QuotaAt(place, tree, depth);
      if quota.Absent? { continue; }
      checked := checked + 1;
      if quota.Broken? {
        verified := false;
        continue;
      }
      if quota.Unlimited? { continue; }
      FiniteIsPositive(place.version, tree(Directory(place, depth)));
      var ratio := Ratio(quota.quota, quota.period);
      if limiting.None? || ratio < limiting.value.0 { limiting := Some((ratio, depth)); }
    }
    r := CpuQuota(verified, limiting, checked);
  }

  datatype CpuBoundary = CpuBoundary(host: nat, affinity: Option<nat>, quota: CpuQuota, effective: nat)

  /** `bound` is the least of the host, the affinity mask and the threads every finite quota allows. */
  ghost predicate LeastBound(host: nat, affinity: Option<nat>, place: Place, tree: seq<string> -> CpuFiles, bound: nat) {
    && bound <= host
    && (affinity.Some? ==> bound <= affinity.value)
    && (forall d: nat :: d < Levels(place) && FiniteRatio(place, tree, d).Some? ==>
         bound <= Threads(FiniteRatio(place, tree, d).value))
    && (bound == host || affinity == Some(bound)
        || exists d: nat :: d < Levels(place) && FiniteRatio(place, tree, d).Some?
             && bound == Threads(FiniteRatio(place, tree, d).value))
  }

  /** `os.cpu_count()` may be unknown. */
  function HostCores(cpuCount: Option<nat>): (n: nat)
    ensures n >= 1 && (cpuCount.Some? && cpuCount.value > 0 ==> n == cpuCount.value)
    ensures cpuCount == None || cpuCount == Some(0) ==> n == 1
  { if cpuCount.Some? && cpuCount.value > 0 then cpuCount.value else 1 }

  /** An affinity mask counts only when it is non-empty and plausible. */
  function AffinityCores(mask: Option<set<int>>): (n: Option<nat>)
    ensures n.Some? <==> mask.Some? && mask.value != {} && forall cpu :: cpu in mask.value ==> 0 <= cpu <= 8191
    ensures n.Some? ==> n.value == |mask.value|
  {
    if mask.Some? && mask.value != {} && forall cpu :: cpu in mask.value ==> 0 <= cpu <= 8191
    then Some(|mask.value|) else None
  }

  method LogicalCpuBoundary(cpuCount: Option<nat>, mask: Option<set<int>>, place: Place, tree: seq<string> -> CpuFiles)
    returns (b: CpuBoundary)
    ensures b.effective >= 1
    ensures LeastBound(HostCores(cpuCount), AffinityCores(mask), place, tree, b.effective)
    ensures b.quota.verified <==> Trusted(place) && forall d: nat :: d < Levels(place) ==> !QuotaAt(place, tree, d).Broken?
  {
    var host, affinity := HostCores(cpuCount), AffinityCores(mask);
    var quota := CpuQuotaBoundary(place, tree);
    var effective := host;
    if affinity.Some? && affinity.value < effective { effective := affinity.value; }
    if quota.limiting.Some? && Threads(quota.limiting.value.0) < effective {
      effective := Threads(quota.limiting.value.0);
    }
    QuotaBoundsAll(place, tree, quota.limiting);
    b := CpuBoundary(host, affinity, quota, effective);
  }

  lemma QuotaBoundsAll(place: Place, tree: seq<string> -> CpuFiles, limiting: Option<(real, nat)>)
    requires LeastQuota(place, tree, Levels(place), limiting)
    ensures forall d: nat :: d < Levels(place) && FiniteRatio(place, tree, d).Some? ==>
      limiting.Some? && Threads(limiting.value.0) <= Threads(FiniteRatio(place, tree, d).value)
  {
    forall d: nat | d < Levels(place) && FiniteRatio(place, tree, d).Some?
      ensures limiting.Some? && Threads(limiting.value.0) <= Threads(FiniteRatio(place, tree, d).value)
    {
      ThreadsMonotone(limiting.value.0, FiniteRatio(place, tree, d).value);
    }
  }

  // ---- Threads of a job ------------------------------------------------------------

  datatype ThreadRequest = All | Half | Exactly(n: int)

  datatype ThreadError = OutOfRange | Refused(reason: Preflight)

  /** Every accepted request runs between one thread and the boundary; `half` rounds up. */
  function ResolveThreads(request: ThreadRequest, cores: nat): (r: Result<nat, ThreadError>)
    requires cores >= 1
    ensures r.Ok? ==> 1 <= r.value <= cores
    ensures r.Err? <==> request.Exactly? && !(1 <= request.n <= cores)
    ensures r.Err? ==> r.error == OutOfRange
    ensures request.Half? ==> r.Ok? && cores <= 2 * r.value <= cores + 1
  {
    match request
    case All => Ok(cores)
    case Half => var half := Ceiling(cores as real / 2.0); Ok(if half < 1 then 1 else half)
    case Exactly(n) => if 1 <= n <= cores then Ok(n) else Err(OutOfRange)
  }

  // ---- Memory ------------------------------------------------------------------------

  const MAX_CONTROL: nat := 0x7FFF_FFFF_FFFF_FFFF
  const LEGACY_UNLIMITED: nat := 0x1000_0000_0000_0000
  const RESERVE := 512 * 1024 * 1024

  datatype MemoryFiles = MemoryFiles(limit: Option<string>, current: Option<string>)

  datatype Memory = MemAbsent | MemUnlimited | MemBroken(finite: bool) | MemFinite(limit: nat, current: nat)

  /**
    The memory walk forgets an unsafe path before it decides what to trust, so only
    a path that is too deep leaves it unverified; the CPU walk refuses both.
   */
  predicate Walkable(place: Place) { !place.TooDeep? }

  function ControlInteger(text: Option<string>, legacy: bool): Option<nat> {
    if text.None? || text.value == "max" || !Digital(text.value) then None
    else if Number(text.value) > MAX_CONTROL || (legacy && Number(text.value) >= LEGACY_UNLIMITED) then None
    else Some(Number(text.value))
  }

  function ReadMemory(version: Version, files: MemoryFiles): Memory {
    match files.limit
    case None => MemAbsent
    case Some(raw) =>
      match ControlInteger(files.limit, version == V1)
      case None =>
        if raw == "max" || (version == V1 && (raw == "-1" || (Digital(raw) && Number(raw) >= LEGACY_UNLIMITED)))
        then MemUnlimited else MemBroken(false)
      case Some(limit) =>
        match ControlInteger(files.current, false)
        case None => MemBroken(true)
        case Some(current) => MemFinite(limit, current)
  }

  /** A finite limit is read from two numbers within 63 bits; everything else is absent, no limit or malformed. */
  lemma MemoryReadIff(version: Version, files: MemoryFiles, limit: nat, current: nat)
    ensures ReadMemory(version, files) == MemFinite(limit, current) <==>
      && files.limit.Some? && Digital(files.limit.value) && Number(files.limit.value) == limit
      && limit < 0x8000_0000_0000_0000 && (version == V1 ==> limit < 0x1000_0000_0000_0000)
      && files.current.Some? && Digital(files.current.value) && Number(files.current.value) == current
      && current < 0x8000_0000_0000_0000
    ensures ReadMemory(version, files) == MemAbsent <==> files.limit == None
    ensures ReadMemory(version, files) == MemUnlimited <==>
      && files.limit.Some?
      && (files.limit.value == "max"
          || (version == V1 && (files.limit.value == "-1"
                                || (Digital(files.limit.value) && Number(files.limit.value) >= 0x1000_0000_0000_0000))))
  {
    assert "max"[0] == 'm' && "-1"[0] == '-';
    hide Number;
  }

  /** Written limits and usages are read back exactly, up to where each version means "no limit". */
  lemma WrittenMemoryReadsBack(version: Version, limit: nat, current: nat)
    requires limit <= MAX_CONTROL && current <= MAX_CONTROL
    ensures ReadMemory(version, MemoryFiles(Some(Decimal(limit)), Some(Decimal(current))))
         == if version == V1 && limit >= LEGACY_UNLIMITED then MemUnlimited else MemFinite(limit, current)
  {
    DecimalValue(limit);
    DecimalValue(current);
    assert Decimal(limit)[0] != 'm' && Decimal(current)[0] != 'm' && "max"[0] == 'm';
  }

  function MemoryAt(place: Place, tree: seq<string> -> MemoryFiles, depth: nat): Memory
    requires depth < Levels(place)
  {
    ReadMemory(place.version, tree(Directory(place, depth)))
  }

  function Headroom(m: Memory): nat
    requires m.MemFinite?
  {
    if m.limit < m.current then 0 else m.limit - m.current
  }

  /** Order of the tuples (headroom, limit, current, depth). */
  predicate Before(m: Memory, d: nat, m': Memory, d': nat)
    requires m.MemFinite? && m'.MemFinite?
  {
    || Headroom(m) < Headroom(m')
    || (Headroom(m) == Headroom(m') && m.limit < m'.limit)
    || (Headroom(m) == Headroom(m') && m.limit == m'.limit && m.current < m'.current)
    || (Headroom(m) == Headroom(m') && m.limit == m'.limit && m.current == m'.current && d <= d')
  }

  datatype MemoryBoundary = MemoryBoundary(
    host: Option<nat>, verified: bool, limiting: Option<(Memory, nat)>, finiteDetected: bool, effective: Option<nat>)

  ghost predicate LeastHeadroom(place: Place, tree: seq<string> -> MemoryFiles, upto: nat, limiting: Option<(Memory, nat)>)
    requires upto <= Levels(place)
  {
    match limiting
    case None => forall d: nat :: d < upto ==> !MemoryAt(place, tree, d).MemFinite?
    case Some((m, depth)) =>
      && depth < upto && MemoryAt(place, tree, depth) == m && m.MemFinite?
      && forall d: nat :: d < upto && MemoryAt(place, tree, d).MemFinite? ==> Before(m, depth, MemoryAt(place, tree, d), d)
  }

  /** The limiting level has the least headroom; among equals the least limit; among those it lies deepest. */
  lemma LimitingIsLeast(place: Place, tree: seq<string> -> MemoryFiles, m: Memory, depth: nat, other: nat)
    requires LeastHeadroom(place, tree, Levels(place), Some((m, depth)))
    requires other < Levels(place) && MemoryAt(place, tree, other).MemFinite?
    ensures depth < Levels(place) && m == MemoryAt(place, tree, depth) && m.MemFinite?
    ensures var n := MemoryAt(place, tree, other);
      var h, k := if m.limit < m.current then 0 else m.limit - m.current, if n.limit < n.current then 0 else n.limit - n.current;
      && h <= k && (h == k ==> m.limit <= n.limit)
      && (h == k && m.limit == n.limit ==> m.current <= n.current)
      && (m == n ==> depth <= other)
  {
  }

  /** The walk of `_memory_allocation_boundary`. */
  method MemoryAllocationBoundary(host: Option<nat>, place: Place, tree: seq<string> -> MemoryFiles)
    returns (b: MemoryBoundary)
    ensures b.host == host
    ensures b.verified <==> Walkable(place) && forall d: nat :: d < Levels(place) ==> !MemoryAt(place, tree, d).MemBroken?
    ensures LeastHeadroom(place, tree, Levels(place), b.limiting)
    ensures b.effective == EffectiveMemory(host, b.verified, b.limiting)
  {
    var verified, detected := Walkable(place), false;
    var limiting: Option<(Memory, nat)> := None;
    for depth := 0 to Levels(place)
      invariant verified <==> Walkable(place) && forall d: nat :: d < depth ==> !MemoryAt(place, tree, d).MemBroken?
      invariant LeastHeadroom(place, tree, depth, limiting)
      invariant detected && limiting.None? ==> !verified
    {
      var level := ReadMemory(place.version, tree(Directory(place, depth)));
      assert level == MemoryAt(place, tree, depth);
      match level {
        case MemAbsent => {}
        case MemUnlimited => {}
        case MemBroken(finite) =>
          detected := detected || finite;
          verified := false;
        case MemFinite(_, _) =>
          detected := true;
          if limiting.None? || !Before(limiting.value.0, limiting.value.1, level, depth) {
            limiting := Some((level, depth));
          }
      }
    }
    if detected && limiting.None? { verified := false; }
    b := MemoryBoundary(host, verified, limiting, detected, EffectiveMemory(host, verified, limiting));
  }

  function EffectiveMemory(host: Option<nat>, verified: bool, limiting: Option<(Memory, nat)>): Option<nat> {
    if !verified then None
    else if limiting.None? || !limiting.value.0.MemFinite? then host
    else
      var headroom := Headroom(limiting.value.0);
      if host.Some? && host.value < headroom then host else Some(headroom)
  }

  datatype Admission = Admitted | Unverified | NotEnough

  /** The allocation test of `system_preflight`, from the lines of /proc/self/cgroup; `SystemPreflight` runs it. */
  method AdmitMemory(arrayMib: nat, host: Option<nat>, lines: seq<GroupLine>, tree: seq<string> -> MemoryFiles)
    returns (a: Admission)
    ensures var place := PlaceFor(lines, "memory");
      a == Admitted <==>
        && Walkable(place) && (forall d: nat :: d < Levels(place) ==> !MemoryAt(place, tree, d).MemBroken?)
        && FitsEverywhere(arrayMib * 1024 * 1024 * 3 + RESERVE, host, place, tree)
    ensures var place := PlaceFor(lines, "memory");
      a == Admission.Unverified <==>
        !Walkable(place) || exists d: nat :: d < Levels(place) && MemoryAt(place, tree, d).MemBroken?
  {
    var needed := arrayMib * 1024 * 1024 * 3;
    var place := Locate(lines, "memory");
    var boundary := MemoryAllocationBoundary(host, place, tree);
    if !boundary.verified { return Admission.Unverified; }
    FitsIffEffective(needed, host, place, tree, boundary.limiting);
    if boundary.effective.Some? && boundary.effective.value - needed < RESERVE { return NotEnough; }
    a := Admitted;
  }

  /** The amount fits in the host's memory when known, and under the limit of every ancestor with a readable finite limit. */
  ghost predicate FitsEverywhere(amount: nat, host: Option<nat>, place: Place, tree: seq<string> -> MemoryFiles) {
    && (host.Some? ==> amount <= host.value)
    && forall d: nat :: d < Levels(place) && MemoryAt(place, tree, d).MemFinite? ==>
         amount + MemoryAt(place, tree, d).current <= MemoryAt(place, tree, d).limit
  }

  lemma FitsIffEffective(needed: nat, host: Option<nat>, place: Place, tree: seq<string> -> MemoryFiles,
                         limiting: Option<(Memory, nat)>)
    requires LeastHeadroom(place, tree, Levels(place), limiting)
    ensures var effective := EffectiveMemory(host, true, limiting);
      FitsEverywhere(needed + RESERVE, host, place, tree)
      <==> effective.None? || effective.value - needed >= RESERVE
  {
    if limiting.Some? {
      var (m, depth) := limiting.value;
      assert MemoryAt(place, tree, depth) == m;
      forall d: nat | d < Levels(place) && MemoryAt(place, tree, d).MemFinite?
        ensures Headroom(m) <= Headroom(MemoryAt(place, tree, d))
      {
      }
    }
  }

  // ---- When the two walks disagree ------------------------------------------------

  predicate DottedPath(path: Option<seq<string>>) { path.Some? && Dotted(path.value) }

  predicate DeepPath(path: Option<seq<string>>) { path.Some? && |path.value| > MAX_DEPTH }

  /** The CPU walk refuses its path. */
  predicate CpuRefuses(lines: seq<GroupLine>) { !Trusted(PlaceFor(lines, "cpu")) }

  /** The memory walk refuses its path. */
  predicate MemoryRefuses(lines: seq<GroupLine>) { !Walkable(PlaceFor(lines, "memory")) }

  /**
    Both walks trust, or both refuse, exactly when the CPU path is dotted or too deep
    just in case the memory path is too deep and not dotted: a dotted memory path is
    forgotten, a dotted CPU path is refused.
   */
  lemma WalksAgreeIff(lines: seq<GroupLine>)
    ensures var cpu, memory := PathFor(lines, "cpu"), PathFor(lines, "memory");
      (CpuRefuses(lines) <==> MemoryRefuses(lines))
      <==> (DottedPath(cpu) || DeepPath(cpu) <==> DeepPath(memory) && !DottedPath(memory))
  {
  }

  /** With one path for both, as under the unified hierarchy, that is: exactly when the path is not dotted. */
  lemma SharedPathAgreesIff(lines: seq<GroupLine>)
    requires PathFor(lines, "cpu") == PathFor(lines, "memory")
    ensures (CpuRefuses(lines) <==> MemoryRefuses(lines)) <==> !DottedPath(PathFor(lines, "cpu"))
  {
    WalksAgreeIff(lines);
  }

  /** A unified line gives both walks the same path. */
  lemma UnifiedSharesPath(lines: seq<GroupLine>)
    requires exists i :: 0 <= i < |lines| && Unified(lines[i])
    ensures PathFor(lines, "cpu") == PathFor(lines, "memory")
  {
    ChosenSelects(lines, "cpu");
    ChosenSelects(lines, "memory");
  }

  /** A container that sees its own group through a relative path: `0::/a/../b`. */
  const DOTTED_LINES := [GroupLine("0", [], ["", "a", "..", "b"])]

  lemma DottedLinesDisagree()
    ensures CpuRefuses(DOTTED_LINES) && !MemoryRefuses(DOTTED_LINES)
  {
    var line := DOTTED_LINES[0];
    assert DOTTED_LINES[..0] == [];
    assert Chosen([], "cpu") == None && Chosen([], "memory") == None;
    assert Chosen(DOTTED_LINES, "cpu") == Some((V2, 0)) && Chosen(DOTTED_LINES, "memory") == Some((V2, 0));
    FilterSound(line.path, NonEmptyPart());
    var parts := Filter(line.path, NonEmptyPart());
    assert line.path[2] == ".." && ".." in parts;
    assert Dotted(parts) by {
      var i :| 0 <= i < |parts| && parts[i] == "..";
    }
  }

  /** Two legacy lines, no dotted component: the CPU group is 33 levels deep, the memory group one. */
  function DeepLines(deep: seq<string>): seq<GroupLine> {
    [GroupLine("4", ["cpu"], deep), GroupLine("5", ["memory"], ["a"])]
  }

  lemma ChosenOfTwo(first: GroupLine, second: GroupLine, controller: string)
    requires !Unified(first) && !Unified(second)
    ensures Chosen([first, second], controller)
         == if Legacy(second, controller) then Some((V1, 1)) else if Legacy(first, controller) then Some((V1, 0)) else None
  {
    var lines := [first, second];
    assert lines[..1] == [first] && [first][..0] == [];
    assert Chosen([], controller) == None;
    assert Chosen([first], controller) == if Legacy(first, controller) then Some((V1, 0)) else None;
  }

  lemma NotDotted(path: seq<string>)
    requires forall i :: 0 <= i < |path| ==> path[i] == "a"
    ensures !Dotted(path)
  {
    var dot, dots := ".", "..";
    assert "a"[0] != dot[0] && "a"[0] != dots[0];
  }

  lemma DeepLinesDisagree(deep: seq<string>)
    requires |deep| > MAX_DEPTH && forall i :: 0 <= i < |deep| ==> deep[i] == "a"
    ensures CpuRefuses(DeepLines(deep)) && !MemoryRefuses(DeepLines(deep))
  {
    var cpu, memory := GroupLine("4", ["cpu"], deep), GroupLine("5", ["memory"], ["a"]);
    hide Chosen, Filter, Dotted;
    TwoControllers(cpu, memory);
    PathKept(deep);
    PathKept(["a"]);
    assert PathFor(DeepLines(deep), "cpu") == Some(deep) && PathFor(DeepLines(deep), "memory") == Some(["a"]);
  }

  lemma PathKept(path: seq<string>)
    requires forall i :: 0 <= i < |path| ==> path[i] == "a"
    ensures Filter(path, NonEmptyPart()) == path && !Dotted(path)
  {
    AllKept(path);
    NotDotted(path);
  }

  lemma TwoControllers(cpu: GroupLine, memory: GroupLine)
    requires cpu.GroupLine? && cpu.hierarchy == "4" && cpu.controllers == ["cpu"]
    requires memory.GroupLine? && memory.hierarchy == "5" && memory.controllers == ["memory"]
    ensures Chosen([cpu, memory], "cpu") == Some((V1, 0)) && Chosen([cpu, memory], "memory") == Some((V1, 1))
  {
    hide Chosen;
    assert cpu.hierarchy[0] == '4' && memory.hierarchy[0] == '5';
    assert |cpu.controllers[0]| == 3 && |memory.controllers[0]| == 6;
    ChosenOfTwo(cpu, memory, "cpu");
    ChosenOfTwo(cpu, memory, "memory");
  }

  lemma {:induction false} AllKept(path: seq<string>)
    requires forall i :: 0 <= i < |path| ==> path[i] == "a"
    ensures Filter(path, NonEmptyPart()) == path
  {
    if |path| > 0 { AllKept(path[..|path| - 1]); }
  }

  // ---- Preflight --------------------------------------------------------------------

  /** The suite, with the array size of a memory profile. */
  datatype Suite = Compute | MemorySuite(arrayMib: nat)

  /** What preflight reads of the machine; `toolReady` is sysbench on the path, or a successful compilation. */
  datatype Machine = Machine(
    cpuCount: Option<nat>, mask: Option<set<int>>, host: Option<nat>, lines: seq<GroupLine>,
    cpu: seq<string> -> CpuFiles, memory: seq<string> -> MemoryFiles, linux: bool, toolReady: bool)

  datatype Preflight = Ready(cores: nat) | CpuUnverified | NotLinux | MemoryUnverified | NotEnoughMemory | NoTool

  ghost predicate CpuVerified(m: Machine) {
    var place := PlaceFor(m.lines, "cpu");
    Trusted(place) && forall d: nat :: d < Levels(place) ==> !QuotaAt(place, m.cpu, d).Broken?
  }

  ghost predicate MemoryVerified(m: Machine) {
    var place := PlaceFor(m.lines, "memory");
    Walkable(place) && forall d: nat :: d < Levels(place) ==> !MemoryAt(place, m.memory, d).MemBroken?
  }

  /** Three arrays and the reserve fit in the host's memory when known. */
  predicate FitsHost(m: Machine, arrayMib: nat): (fits: bool)
    ensures fits <==> m.host == None || arrayMib * 3_145_728 + 536_870_912 <= m.host.value
  { m.host.Some? ==> arrayMib * 1024 * 1024 * 3 + RESERVE <= m.host.value }

  /** They fit everywhere: the host, and every ancestor with a readable finite limit. */
  ghost predicate AllocationFits(m: Machine, arrayMib: nat) {
    FitsEverywhere(arrayMib * 1024 * 1024 * 3 + RESERVE, m.host, PlaceFor(m.lines, "memory"), m.memory)
  }

  /** The conditions under which a suite may run. */
  ghost predicate Accepts(m: Machine, suite: Suite) {
    && CpuVerified(m) && m.toolReady
    && (suite.MemorySuite? ==> m.linux && MemoryVerified(m) && AllocationFits(m, suite.arrayMib))
  }

  /**
    `system_preflight`: the CPU walk comes first for both suites, so a memory run too
    needs a verified CPU boundary before its allocation is looked at.
   */
  method SystemPreflight(suite: Suite, m: Machine) returns (p: Preflight)
    ensures p.Ready? <==> Accepts(m, suite)
    ensures p == CpuUnverified <==> !CpuVerified(m)
    ensures p == MemoryUnverified <==> CpuVerified(m) && suite.MemorySuite? && m.linux && !MemoryVerified(m)
    ensures p == NotLinux <==> CpuVerified(m) && suite.MemorySuite? && !m.linux
    ensures p == NotEnoughMemory <==>
      CpuVerified(m) && suite.MemorySuite? && m.linux && MemoryVerified(m) && !AllocationFits(m, suite.arrayMib)
    ensures p.Ready? ==> p.cores >= 1 && LeastBound(HostCores(m.cpuCount), AffinityCores(m.mask),
                                                    PlaceFor(m.lines, "cpu"), m.cpu, p.cores)
  {
    hide FitsEverywhere, LeastBound;
    var place := Locate(m.lines, "cpu");
    var boundary := LogicalCpuBoundary(m.cpuCount, m.mask, place, m.cpu);
    if !boundary.quota.verified { return CpuUnverified; }
    if suite.MemorySuite? {
      if !m.linux { return NotLinux; }
      var admission := AdmitMemory(suite.arrayMib, m.host, m.lines, m.memory);
      if admission == Admission.Unverified { return MemoryUnverified; }
      if admission == NotEnough { return NotEnoughMemory; }
    }
    if !m.toolReady { return NoTool; }
    p := Ready(boundary.effective);
  }

  /**
    The thread count of one job of a run: it exists only after preflight accepted the
    suite, and it respects the host, the affinity mask and the quota of every ancestor.
   */
  method JobThreads(request: ThreadRequest, suite: Suite, m: Machine) returns (r: Result<nat, ThreadError>)
    ensures r.Err? && r.error.Refused? <==> !Accepts(m, suite)
    ensures r == Err(Refused(CpuUnverified)) <==> !CpuVerified(m)
    ensures var place := PlaceFor(m.lines, "cpu");
      r.Ok? ==>
        && 1 <= r.value <= HostCores(m.cpuCount)
        && (AffinityCores(m.mask).Some? ==> r.value <= AffinityCores(m.mask).value)
        && forall d: nat :: d < Levels(place) && FiniteRatio(place, m.cpu, d).Some? ==>
             r.value <= Threads(FiniteRatio(place, m.cpu, d).value)
    ensures r.Ok? && request.All? ==>
      LeastBound(HostCores(m.cpuCount), AffinityCores(m.mask), PlaceFor(m.lines, "cpu"), m.cpu, r.value)
  {
    var p := SystemPreflight(suite, m);
    if !p.Ready? { return Err(Refused(p)); }
    r := ResolveThreads(request, p.cores);
  }

  /** A memory run behind a dotted memory path is accepted on the host's memory alone, once the CPU walk is verified. */
  lemma DottedMemoryPathAdmits(m: Machine, arrayMib: nat)
    requires DottedPath(PathFor(m.lines, "memory"))
    ensures Accepts(m, MemorySuite(arrayMib)) <==> CpuVerified(m) && m.toolReady && m.linux && FitsHost(m, arrayMib)
  {
  }

  /** The memory files are never read: no memory group, or one behind a dotted path. */
  predicate LimitsUnread(lines: seq<GroupLine>) {
    PathFor(lines, "memory").None? || DottedPath(PathFor(lines, "memory"))
  }

  /**
    A run that fits the host is accepted whatever the memory limits of its ancestors
    say, exactly when the CPU walk is verified and the memory files are never read.
   */
  lemma LimitsIgnoredIff(m: Machine, arrayMib: nat)
    requires m.toolReady && m.linux && FitsHost(m, arrayMib)
    ensures (forall tree: seq<string> -> MemoryFiles :: Accepts(m.(memory := tree), MemorySuite(arrayMib)))
       <==> CpuVerified(m) && LimitsUnread(m.lines)
  {
    var place := PlaceFor(m.lines, "memory");
    var broken: seq<string> -> MemoryFiles := (directory: seq<string>) => MemoryFiles(Some("x"), None);
    var m' := m.(memory := broken);
    assert CpuVerified(m') <==> CpuVerified(m);
    if place.Inside? { assert MemoryAt(place, broken, 0) == MemBroken(false); }
    forall tree: seq<string> -> MemoryFiles ensures CpuVerified(m.(memory := tree)) <==> CpuVerified(m) {
    }
  }

  /** Under the unified hierarchy a dotted path never gets that far: it is the CPU walk's path too. */
  lemma UnifiedDottedIsRefused(m: Machine, suite: Suite)
    requires exists i :: 0 <= i < |m.lines| && Unified(m.lines[i])
    requires DottedPath(PathFor(m.lines, "memory"))
    ensures !Accepts(m, suite)
  {
    UnifiedSharesPath(m.lines);
  }

  /** Legacy lines that do: `4:cpu:/a` and `5:memory:/x/../y`. */
  const LEGACY_LINES := [GroupLine("4", ["cpu"], ["", "a"]), GroupLine("5", ["memory"], ["", "x", "..", "y"])]

  lemma LegacyDottedPathAdmits(m: Machine, arrayMib: nat)
    requires m.lines == LEGACY_LINES && m.toolReady && m.linux
    requires m.cpu(["a"]) == m.cpu([]) == CpuFiles(None, None, None)
    ensures Accepts(m, MemorySuite(arrayMib)) <==> FitsHost(m, arrayMib)
  {
    hide Chosen, Filter, Dotted, FitsEverywhere;
    LegacyPaths();
    DottedMemoryPathAdmits(m, arrayMib);
    var place := PlaceFor(m.lines, "cpu");
    assert Directory(place, 0) == ["a"] && Directory(place, 1) == [];
  }

  lemma LegacyPaths()
    ensures PlaceFor(LEGACY_LINES, "cpu") == Inside(V1, ["a"])
    ensures DottedPath(PathFor(LEGACY_LINES, "memory"))
  {
    hide Chosen;
    var cpu, memory := LEGACY_LINES[0], LEGACY_LINES[1];
    TwoControllers(cpu, memory);
    assert cpu.path[..1] == [""] && cpu.path[..1][..0] == [];
    assert Filter(cpu.path, NonEmptyPart()) == ["a"];
    NotDotted(["a"]);
    var parts := Filter(memory.path, NonEmptyPart());
    FilterSound(memory.path, NonEmptyPart());
    assert memory.path[2] == ".." && ".." in parts;
    assert Dotted(parts) by {
      var i :| 0 <= i < |parts| && parts[i] == "..";
    }
  }
}
