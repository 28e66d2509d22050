/** `run_filesystem_storage`: the six phases, the integrity checks, and the cleanup of the run's root. */
module FilesystemRun {
  import opened Wrappers
  import opened Ordering
  import opened Filesystem

  /** The bytes alive in the tree. */
  ghost function Live(files: map<Path, Payload>): nat
    decreases |files.Keys|
  {
    if files == map[] then 0 else
      var p :| p in files.Keys;
      Fewer(files, p);
      |files[p]| + Live(files - {p})
  }

  lemma Fewer(files: map<Path, Payload>, p: Path)
    requires p in files
    ensures |(files - {p}).Keys| == |files.Keys| - 1
  {
    assert (files - {p}).Keys == files.Keys - {p};
  }

  /** Never more files than the profile declares, none longer than its payload. */
  ghost predicate Within(shape: Shape, files: map<Path, Payload>) {
    |files| <= shape.files && forall p :: p in files ==> |files[p]| <= shape.bytes
  }

  lemma {:induction false} LiveBound(files: map<Path, Payload>, bytes: nat)
    requires forall p :: p in files ==> |files[p]| <= bytes
    ensures Live(files) <= |files| * bytes
    decreases |files.Keys|
  {
    if files != map[] {
      var p :| p in files.Keys && Live(files) == |files[p]| + Live(files - {p});
      Fewer(files, p);
      LiveBound(files - {p}, bytes);
      var n := |files| - 1;
      assert n * bytes + bytes == (n + 1) * bytes;
    }
  }

  /** The payload alive at any moment fits the allowance that preflight accepted. */
  lemma LiveFitsAllowance(shape: Shape, files: map<Path, Payload>)
    requires shape.Bounded() && (shape.files + shape.durable) * shape.bytes <= shape.workspaceMib * 1024 * 1024
    requires Within(shape, files)
    ensures Live(files) <= shape.workspaceMib * 1024 * 1024
  {
    LiveBound(files, shape.bytes);
    ScaleUp(|files|, shape.files + shape.durable, shape.bytes);
  }

  lemma ScaleUp(n: nat, m: nat, k: nat)
    requires n <= m
    ensures n * k <= m * k
  {
    assert m * k == n * k + (m - n) * k;
  }

  lemma SmallerMap(files: map<Path, Payload>, dropped: set<Path>)
    ensures |files - dropped| <= |files|
  {
    assert (files - dropped).Keys == files.Keys - dropped;
    assert files.Keys == (files.Keys - dropped) + (files.Keys * dropped);
    assert |files.Keys| == |files.Keys - dropped| + |files.Keys * dropped|;
  }

  datatype Outcome = Returned | Raised

  /** The directories made so far; the first one brings the root with it. */
  ghost function FirstDirectories(count: nat): set<Path> {
    (set d: nat | d < count :: Dir(d)) + if count > 0 then {ROOT} else {}
  }

  lemma NextDirectory(d: nat)
    ensures Dir(d) !in FirstDirectories(d)
    ensures FirstDirectories(d + 1) == FirstDirectories(d) + {Dir(d), ROOT}
  {
    hide Dir;
    forall k: nat | k < d ensures Dir(k) != Dir(d) { DirsDistinct(k, d); }
    DirsDistinct(d, d);
  }

  lemma AllDirectories(count: nat)
    requires count > 0
    ensures ROOT in FirstDirectories(count) && DURABLE !in FirstDirectories(count)
    ensures forall d: nat :: d < count ==> Dir(d) in FirstDirectories(count)
    ensures forall p :: p in FirstDirectories(count) ==> |p| <= 1
  {
    forall k: nat ensures Dir(k) != DURABLE && |Dir(k)| == 1 { DirsDistinct(k, k); }
  }

  /** From the `from`-th on, the values read are the payloads of the first `count` files. */
  ghost predicate AllMatch(shape: Shape, blocks: Blocks, contents: seq<Payload>, from: nat, count: nat)
    requires shape.Bounded()
  {
    from + count <= |contents| && forall i: nat :: i < count ==> contents[from + i] == Content(blocks, i, shape.bytes)
  }

  lemma NoneMatches(shape: Shape, blocks: Blocks, contents: seq<Payload>)
    requires shape.Bounded()
    ensures AllMatch(shape, blocks, contents, |contents|, 0)
  {
  }

  lemma MatchPush(shape: Shape, blocks: Blocks, contents: seq<Payload>, value: Payload, from: nat, count: nat)
    requires shape.Bounded() && |contents| == from + count
    ensures AllMatch(shape, blocks, contents + [value], from, count + 1)
       <==> AllMatch(shape, blocks, contents, from, count) && value == Content(blocks, count, shape.bytes)
  {
    hide Content;
    var more := contents + [value];
    assert more[|contents|] == value && forall j :: 0 <= j < |contents| ==> more[j] == contents[j];
  }

  class Workspace {
    const shape: Shape
    const blocks: Blocks
    var dirs: set<Path>
    var files: map<Path, Payload>
    var steps: nat
    ghost var events: nat
    ghost var sizes: seq<nat>
    ghost var contents: seq<Payload>

    ghost predicate Valid()
      reads this
    {
      shape.Bounded() && Digest(blocks) && Within(shape, files)
    }

    constructor (shape: Shape, blocks: Blocks)
      requires shape.Bounded() && Digest(blocks)
      ensures Valid() && this.shape == shape && this.blocks == blocks
      ensures dirs == {} && files == map[] && steps == 0 && events == 0 && sizes == [] && contents == []
    {
      this.shape, this.blocks := shape, blocks;
      dirs, files, steps, events := {}, map[], 0, 0;
      sizes, contents := [], [];
    }

    // ---- The file system -----------------------------------------------------------

    /** An outside event, or not: an I/O error, a cancellation, a timeout. */
    method Disturbed() returns (yes: bool)
      modifies this`events
      ensures yes <==> events == old(events) + 1
      ensures !yes <==> events == old(events)
    {
      yes := *;
      if yes { events := events + 1; }
    }

    method MakeDirectory(path: Path) returns (ok: bool)
      modifies this`dirs, this`events
      ensures ok ==> path !in old(dirs) && path !in files && dirs == old(dirs) + {path, ROOT} && events == old(events)
      ensures !ok ==> events > old(events) || path in old(dirs) || path in files
    {
      var disturbed := Disturbed();
      if disturbed || path in dirs || path in files { return false; }
      dirs := dirs + {path, ROOT};
      ok := true;
    }

    /** `open("xb")` and `write`; an interrupted write may leave part of the payload. */
    method CreateFile(path: Path, payload: Payload) returns (ok: bool)
      requires Valid() && |payload| <= shape.bytes && |files| < shape.files
      modifies this`files, this`events
      ensures Valid()
      ensures ok ==> path !in old(files) && files == old(files)[path := payload] && events == old(events)
      ensures ok ==> |files| == old(|files|) + 1
      ensures !ok ==> events > old(events) || path in old(files) || path in dirs || |path| == 0 || path[..|path| - 1] !in dirs
    {
      if path in files || path in dirs || |path| == 0 || path[..|path| - 1] !in dirs { return false; }
      var disturbed := Disturbed();
      if disturbed {
        var cut: int := *;
        if 0 <= cut <= |payload| { files := files[path := payload[..cut]]; }
        return false;
      }
      files := files[path := payload];
      ok := true;
    }

    /** `sizes` and `contents` are history: what every completed `stat` and read returned. */
    method SizeOf(path: Path) returns (size: Option<nat>)
      modifies this`events, this`sizes
      ensures sizes == if size.Some? then old(sizes) + [size.value] else old(sizes)
      ensures size.Some? ==> path in files && size.value == |files[path]|
      ensures size.None? ==> path !in files || events > old(events)
      ensures events >= old(events)
    {
      if path !in files { return None; }
      var disturbed := Disturbed();
      if disturbed { return None; }
      size := Some(|files[path]|);
      sizes := sizes + [size.value];
    }

    /** Storage that returns other bytes than were written is an outside event too. */
    method ReadFile(path: Path) returns (value: Option<Payload>)
      modifies this`events, this`contents
      ensures contents == if value.Some? then old(contents) + [value.value] else old(contents)
      ensures value.Some? && events == old(events) ==> path in files && value.value == files[path]
      ensures value.None? ==> path !in files || events > old(events)
      ensures events >= old(events)
    {
      if path !in files { return None; }
      var disturbed := Disturbed();
      if disturbed {
        var corrupted: bool, other: Payload := *, *;
        if !corrupted { return None; }
        contents := contents + [other];
        return Some(other);
      }
      value := Some(files[path]);
      contents := contents + [value.value];
    }

    method RenameFile(source: Path, target: Path) returns (ok: bool)
      requires Valid() && target !in files
      modifies this`files, this`events
      ensures Valid() && |files| == old(|files|)
      ensures ok ==> source in old(files) && files == (old(files) - {source})[target := old(files)[source]] && events == old(events)
      ensures !ok ==> files == old(files) && (source !in files || events > old(events))
    {
      if source !in files { return false; }
      var disturbed := Disturbed();
      if disturbed { return false; }
      Fewer(files, source);
      files := (files - {source})[target := files[source]];
      ok := true;
    }

    method DeleteFile(path: Path) returns (ok: bool)
      requires Valid()
      modifies this`files, this`events
      ensures Valid()
      ensures ok ==> path in old(files) && files == old(files) - {path} && events == old(events)
      ensures !ok ==> files == old(files) && (path !in files || events > old(events))
    {
      if path !in files { return false; }
      var disturbed := Disturbed();
      if disturbed { return false; }
      Fewer(files, path);
      files := files - {path};
      ok := true;
    }

    /** `shutil.rmtree`, whose failure is swallowed: the root and any part of its content may remain. */
    method RemoveTree()
      requires Valid()
      modifies this`dirs, this`files, this`events
      ensures Valid()
      ensures events == old(events) ==> dirs == {} && files == map[]
      ensures ROOT in old(dirs) && ROOT !in dirs ==> dirs == {} && files == map[]
      ensures events >= old(events)
    {
      var disturbed := Disturbed();
      if disturbed {
        var kept: set<Path> := *;
        SmallerMap(files, kept);
        dirs := dirs * (kept + {ROOT});
        files := files - kept;
        return;
      }
      dirs, files := {}, map[];
    }

    method CompleteStep() returns (go: bool)
      modifies this`steps, this`events
      ensures steps == old(steps) + 1
      ensures go <==> events == old(events)
      ensures events >= old(events)
    {
      steps := steps + 1;
      var disturbed := Disturbed();
      go := !disturbed;
    }

    // ---- The phases ---------------------------------------------------------------------

    /** Every directory a file of the workload is created in exists, and no other path is a directory. */
    ghost predicate Ready()
      reads this
      requires shape.Bounded()
    {
      && ROOT in dirs && DURABLE in dirs && (forall d: nat :: d < shape.directories ==> Dir(d) in dirs)
      && (forall p :: p in dirs ==> |p| <= 1)
    }

    method MakeDirectories() returns (ok: bool)
      requires Valid() && dirs == {} && files == map[]
      modifies this`dirs, this`events
      ensures events >= old(events) && (!ok ==> events > old(events))
      ensures ok ==> Ready()
    {
      hide Within, Digest, Dir;
      for d := 0 to shape.directories
        invariant dirs == FirstDirectories(d)
        invariant files == map[] && events >= old(events)
      {
        NextDirectory(d);
        ok := MakeDirectory(Dir(d));
        if !ok { return; }
      }
      AllDirectories(shape.directories);
      ok := MakeDirectory(DURABLE);
    }

    lemma ParentReady(place: Place, i: nat)
      requires Valid() && Ready()
      ensures var path := At(shape, place, i); |path| == 2 && path[..1] in dirs && path !in dirs
    {
      SmallParent(shape, i);
      var d: nat := i % shape.directories;
      assert Dir(d) in dirs;
      assert At(shape, Durably, i)[..1] == DURABLE;
    }

    /** The two create phases: small files over the directories, durable files in their own. */
    method CreateAll(place: Place, count: nat) returns (ok: bool)
      requires Valid() && Ready() && files == map[] && count <= shape.files && (place == Renaming(0) || place.Durably?)
      modifies this`files, this`events, this`steps
      ensures Valid() && events >= old(events)
      ensures !ok ==> events > old(events)
      ensures ok ==> Holds(shape, blocks, files, place, 0, count) && steps == old(steps) + 1
    {
      hide Holds, At, Within, Digest, Content;
      HoldsNothing(shape, blocks, place, 0);
      for i := 0 to count
        invariant Valid() && |files| == i && Holds(shape, blocks, files, place, 0, i)
        invariant events >= old(events) && steps == old(steps)
      {
        var disturbed := Disturbed();
        if disturbed { return false; }
        ContentSize(blocks, i, shape.bytes);
        Created(shape, blocks, files, place, i);
        ParentReady(place, i);
        ok := CreateFile(At(shape, place, i), Content(blocks, i, shape.bytes));
        if !ok { return; }
      }
      ok := CompleteStep();
    }

    method StatAll() returns (ok: bool)
      requires Valid() && Holds(shape, blocks, files, Renaming(0), 0, shape.files) && sizes == []
      modifies this`events, this`steps, this`sizes
      ensures events >= old(events) && (!ok ==> events > old(events))
      ensures ok ==> steps == old(steps) + 1
      ensures ok ==> |sizes| == shape.files && forall i :: 0 <= i < |sizes| ==> sizes[i] == shape.bytes
    {
      hide Holds, Within, Content;
      for i := 0 to shape.files
        invariant events >= old(events) && steps == old(steps)
        invariant |sizes| == i && forall k :: 0 <= k < i ==> sizes[k] == shape.bytes
      {
        var disturbed := Disturbed();
        if disturbed { return false; }
        FileThere(Renaming(0), shape.files, i);
        assert At(shape, Renaming(0), i) == shape.Small(i);
        ContentSize(blocks, i, shape.bytes);
        var size := SizeOf(shape.Small(i));
        if size != Some(shape.bytes) { return false; }
      }
      ok := CompleteStep();
    }

    lemma FileThere(place: Place, count: nat, i: nat)
      requires Valid() && Holds(shape, blocks, files, place, 0, count) && i < count
      ensures At(shape, place, i) in files && files[At(shape, place, i)] == Content(blocks, i, shape.bytes)
    {
      assert At(shape, place, i) in Paths(shape, place, 0, count);
    }

    /** Reads every file back; a mismatch needs an outside event, and none is overlooked. */
    method VerifyAll(place: Place, count: nat) returns (mismatches: nat, completed: bool)
      requires Valid() && Holds(shape, blocks, files, place, 0, count)
      modifies this`events, this`contents
      ensures events >= old(events)
      ensures events == old(events) ==> completed && mismatches == 0
      ensures old(contents) <= contents
      ensures completed ==> |contents| == old(|contents|) + count
      ensures completed ==> (mismatches == 0 <==> AllMatch(shape, blocks, contents, old(|contents|), count))
    {
      hide Holds, Within, At, Content, AllMatch, Digest;
      mismatches := 0;
      NoneMatches(shape, blocks, contents);
      for i := 0 to count
        invariant events >= old(events) && (events == old(events) ==> mismatches == 0)
        invariant old(contents) <= contents && |contents| == old(|contents|) + i
        invariant mismatches == 0 <==> AllMatch(shape, blocks, contents, old(|contents|), i)
      {
        FileThere(place, count, i);
        var disturbed := Disturbed();
        if disturbed { return mismatches, false; }
        ghost var before := contents;
        var value := ReadFile(At(shape, place, i));
        if value.None? { return mismatches, false; }
        MatchPush(shape, blocks, before, value.value, old(|contents|), i);
        if value.value != Content(blocks, i, shape.bytes) { mismatches := mismatches + 1; }
      }
      completed := true;
    }

    method RenameAll() returns (ok: bool)
      requires Valid() && Holds(shape, blocks, files, Renaming(0), 0, shape.files)
      modifies this`files, this`events, this`steps
      ensures Valid() && events >= old(events)
      ensures !ok ==> events > old(events)
      ensures ok ==> Holds(shape, blocks, files, Renaming(shape.files), 0, shape.files) && steps == old(steps) + 1
    {
      hide Holds, At, Within, Digest, Content;
      for i := 0 to shape.files
        invariant Valid() && Holds(shape, blocks, files, Renaming(i), 0, shape.files)
        invariant events >= old(events) && steps == old(steps)
      {
        var disturbed := Disturbed();
        if disturbed { return false; }
        RenamedOne(shape, blocks, files, i);
        ok := RenameFile(shape.Small(i), shape.Renamed(i));
        if !ok { return; }
      }
      ok := CompleteStep();
    }

    method DeleteAll() returns (ok: bool)
      requires Valid() && Holds(shape, blocks, files, Renaming(shape.files), 0, shape.files)
      modifies this`files, this`events, this`steps
      ensures Valid() && events >= old(events)
      ensures !ok ==> events > old(events)
      ensures ok ==> files == map[] && steps == old(steps) + 1
    {
      hide Holds, At, Within, Digest, Content;
      for i := 0 to shape.files
        invariant Valid() && Holds(shape, blocks, files, Renaming(shape.files), i, shape.files)
        invariant events >= old(events) && steps == old(steps)
      {
        var disturbed := Disturbed();
        if disturbed { return false; }
        DeletedOne(shape, blocks, files, i);
        ok := DeleteFile(shape.Renamed(i));
        if !ok { return; }
      }
      HoldsEmpty(shape, blocks, files, Renaming(shape.files), shape.files);
      ok := CompleteStep();
    }

    /** The small-file half of the `try` block. */
    method SmallPhases() returns (ok: bool)
      requires Valid() && Ready() && files == map[] && sizes == [] && contents == []
      modifies this`files, this`events, this`steps, this`sizes, this`contents
      ensures Valid() && events >= old(events) && (!ok ==> events > old(events))
      ensures ok ==> files == map[] && steps == old(steps) + 5
      ensures ok ==> |sizes| == shape.files && (forall i :: 0 <= i < |sizes| ==> sizes[i] == shape.bytes) && |contents| == shape.files && AllMatch(shape, blocks, contents, 0, shape.files)
    {
      hide Holds, Within, AllMatch;
      ok := CreateAll(Renaming(0), shape.files);
      if !ok { return; }
      ok := StatAll();
      if !ok { return; }
      var mismatches, completed := VerifyAll(Renaming(0), shape.files);
      if !completed { return false; }
      ok := CompleteStep();
      if !ok { return; }
      if mismatches > 0 { return false; }
      ok := RenameAll();
      if !ok { return; }
      ok := DeleteAll();
    }

    method DurablePhase() returns (ok: bool)
      requires Valid() && Ready() && files == map[]
      modifies this`files, this`events, this`steps, this`contents
      ensures Valid() && events >= old(events) && (!ok ==> events > old(events))
      ensures ok ==> steps == old(steps) + 1 && Holds(shape, blocks, files, Durably, 0, shape.durable)
      ensures old(contents) <= contents && (ok ==> |contents| == old(|contents|) + shape.durable)
      ensures ok ==> AllMatch(shape, blocks, contents, old(|contents|), shape.durable)
    {
      hide Holds, Within, AllMatch;
      ok := CreateAll(Durably, shape.durable);
      if !ok { return; }
      var mismatches, completed := VerifyAll(Durably, shape.durable);
      if !completed || mismatches > 0 { return false; }
      ok := true;
    }

    /**
      The whole workload. It raises only because of residual state or an outside
      event, never because two of its own paths collide; it returns normally only
      when nothing of the run is left on disk, all eight steps were completed, every
      file had its size and every file read back its payload.
     */
    method Execute() returns (outcome: Outcome)
      requires Valid() && steps == 0 && (ROOT !in dirs ==> dirs == {} && files == map[]) && sizes == [] && contents == []
      modifies this
      ensures Valid()
      ensures outcome.Returned? ==> ROOT !in dirs && files == map[] && steps == 8
      ensures outcome.Returned? ==> |sizes| == shape.files && forall i :: 0 <= i < |sizes| ==> sizes[i] == shape.bytes
      ensures outcome.Returned? ==>
        && |contents| == shape.files + shape.durable
        && (forall i: nat :: i < shape.files ==> contents[i] == Content(blocks, i, shape.bytes))
        && (forall i: nat :: i < shape.durable ==> contents[shape.files + i] == Content(blocks, i, shape.bytes))
      ensures outcome.Raised? ==> ROOT in old(dirs) || events > old(events)
      ensures ROOT in old(dirs) ==> outcome.Raised? && dirs == old(dirs) && files == old(files)
    {
      hide Holds, Within, Content;
      if ROOT in dirs { return Raised; }
      var pending := true;
      var ok := MakeDirectories();
      if ok {
        ok := CompleteStep();
        if ok {
          ok := SmallPhases();
          if ok {
            ok := DurablePhase();
            pending := !ok;
          }
        }
      }
      RemoveTree();
      if pending { return Raised; }
      if ROOT in dirs { return Raised; }
      ok := CompleteStep();
      outcome := if ok then Returned else Raised;
    }
  }
}
