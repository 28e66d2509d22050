/**
  The bounded small-file workload over an abstract file tree: names, phases,
  integrity checks and the cleanup that decides whether a result is returned.
  An operation fails on its own only for the reasons a file system gives (the
  path exists, its parent does not, it is missing); any other failure and any
  cancellation is an outside event, which the ghost counter `events` records.
 */
module Filesystem {
  import opened Wrappers
  import opened Decimals

  // ---- Names --------------------------------------------------------------------

  /** A path below the run's root. */
  type Path = seq<string>

  const ROOT: Path := []
  const DURABLE: Path := ["durable"]

  function DirName(d: nat): string { "d" + Padded(d, 2) }

  function Dir(d: nat): Path { [DirName(d)] }

  function Named(index: nat, width: nat, suffix: string): string { "f" + Padded(index, width) + suffix }

  lemma NamedInjective(a: nat, b: nat, width: nat, suffix: string)
    requires Named(a, width, suffix) == Named(b, width, suffix)
    ensures a == b
  {
    var x, y := Named(a, width, suffix), Named(b, width, suffix);
    assert x[1..|x| - |suffix|] == Padded(a, width) && y[1..|y| - |suffix|] == Padded(b, width);
    PaddedInjective(a, b, width);
  }

  lemma DirsDistinct(a: nat, b: nat)
    ensures Dir(a) == Dir(b) ==> a == b
    ensures Dir(a) != DURABLE && Dir(a) != ROOT
  {
    if Dir(a) == Dir(b) {
      assert DirName(a)[1..] == Padded(a, 2) && DirName(b)[1..] == Padded(b, 2);
      PaddedInjective(a, b, 2);
    }
    var digits := Padded(a, 2);
    assert |digits| >= 1 && '0' <= digits[0] <= '9';
    assert DirName(a)[1] == digits[0] && "durable"[1] == 'u';
  }

  // ---- The profile -----------------------------------------------------------------

  datatype Shape = Shape(files: int, bytes: int, directories: int, durable: int, workspaceMib: int) {
    predicate Bounded() {
      && 1 <= files <= 4096 && 512 <= bytes <= 16_384
      && 1 <= directories <= 64 && files % directories == 0
      && 1 <= durable <= 256 && durable <= files
    }

    function Small(i: nat): Path
      requires Bounded()
    {
      [DirName(i % directories), Named(i, 5, ".bin")]
    }

    function Renamed(i: nat): Path
      requires Bounded()
    {
      [DirName(i % directories), Named(i, 5, ".renamed")]
    }

    function Durable(i: nat): Path { ["durable", Named(i, 4, ".bin")] }
  }

  const RESERVE := 1024 * 1024 * 1024

  datatype Refusal = UnsafeShape | UnsafeDirectories | UnsafeDurable | UnsafeAllowance | NoSpace

  lemma Product(a: int, b: int)
    requires a >= 0 && b >= 0
    ensures a * b >= 0
  {
  }

  /** `filesystem_preflight`: an accepted profile fits the allowance and leaves a reserve on the disk. */
  method Preflight(shape: Shape, free: nat, total: nat) returns (r: Result<nat, Refusal>)
    ensures r.Ok? <==>
      && shape.Bounded()
      && (shape.files + shape.durable) * shape.bytes <= shape.workspaceMib * 1024 * 1024 <= 64 * 1024 * 1024
      && free - shape.workspaceMib * 1024 * 1024 >= RESERVE
      && free - shape.workspaceMib * 1024 * 1024 >= total * 5 / 100
    ensures r.Ok? ==> r.value == shape.workspaceMib * 1024 * 1024
  {
    if !(1 <= shape.files <= 4096) || !(512 <= shape.bytes <= 16_384) { return Err(UnsafeShape); }
    if !(1 <= shape.directories <= 64) || shape.files % shape.directories != 0 { return Err(UnsafeDirectories); }
    if !(1 <= shape.durable <= (if shape.files < 256 then shape.files else 256)) { return Err(UnsafeDurable); }
    var required := shape.workspaceMib * 1024 * 1024;
    var generated := (shape.files + shape.durable) * shape.bytes;
    Product(shape.files + shape.durable, shape.bytes);
    if !(generated <= required <= 64 * 1024 * 1024) { return Err(UnsafeAllowance); }
    var share := total * 5 / 100;
    var reserve := if RESERVE < share then share else RESERVE;
    if free - required < reserve { return Err(NoSpace); }
    r := Ok(required);
  }

  // ---- Payloads ----------------------------------------------------------------------

  type Payload = seq<nat>

  /** A digest block function: 32 bytes per block, as SHA-256 gives. */
  type Blocks = (nat, nat) -> Payload

  ghost predicate Digest(blocks: Blocks) { forall i: nat, c: nat :: |blocks(i, c)| == 32 }

  function Stream(blocks: Blocks, index: nat, count: nat): Payload {
    if count == 0 then [] else Stream(blocks, index, count - 1) + blocks(index, count - 1)
  }

  lemma {:induction false} StreamLength(blocks: Blocks, index: nat, count: nat)
    requires Digest(blocks)
    ensures |Stream(blocks, index, count)| == 32 * count
  {
    if count > 0 { StreamLength(blocks, index, count - 1); }
  }

  /** `deterministic_payload`: enough blocks, cut to the exact size. */
  function Content(blocks: Blocks, index: nat, size: nat): Payload {
    var s := Stream(blocks, index, (size + 31) / 32);
    if |s| < size then s else s[..size]
  }

  lemma ContentSize(blocks: Blocks, index: nat, size: nat)
    requires Digest(blocks)
    ensures |Content(blocks, index, size)| == size
  {
    StreamLength(blocks, index, (size + 31) / 32);
  }

  lemma {:induction false} StreamBlock(blocks: Blocks, index: nat, count: nat, c: nat)
    requires Digest(blocks) && c < count
    ensures |Stream(blocks, index, count)| == 32 * count
    ensures Stream(blocks, index, count)[32 * c..32 * c + 32] == blocks(index, c)
  {
    StreamLength(blocks, index, count);
    StreamLength(blocks, index, count - 1);
    if c < count - 1 {
      StreamBlock(blocks, index, count - 1, c);
    }
  }

  /** The payload is the digest blocks of its index, one after the other. */
  lemma ContentIsBlocks(blocks: Blocks, index: nat, size: nat, c: nat)
    requires Digest(blocks) && 32 * c < size
    ensures |Content(blocks, index, size)| == size
    ensures 32 * c + 32 <= size ==> Content(blocks, index, size)[32 * c..32 * c + 32] == blocks(index, c)
    ensures 32 * c + 32 > size ==> Content(blocks, index, size)[32 * c..] == blocks(index, c)[..size - 32 * c]
  {
    ContentSize(blocks, index, size);
    var count := (size + 31) / 32;
    StreamBlock(blocks, index, count, c);
    var s := Stream(blocks, index, count);
    hide Stream;
    assert Content(blocks, index, size) == s[..size];
    if 32 * c + 32 > size { assert s[..size][32 * c..] == s[32 * c..32 * c + 32][..size - 32 * c]; }
  }

  // ---- Every directory gets its share ---------------------------------------------------

  function InDir(shape: Shape, d: nat, upto: nat): set<nat>
    requires shape.Bounded()
  {
    set i: nat | i < upto && i % shape.directories == d
  }

  lemma {:induction false} RoundsFill(shape: Shape, d: nat, rounds: nat)
    requires shape.Bounded() && d < shape.directories
    ensures |InDir(shape, d, rounds * shape.directories)| == rounds
  {
    if rounds == 0 {
      assert InDir(shape, d, 0) == {};
    } else {
      RoundsFill(shape, d, rounds - 1);
      var n: nat, base: nat := shape.directories, (rounds - 1) * shape.directories;
      assert rounds * n == base + n;
      forall i: nat ensures i in InDir(shape, d, base + n) <==> i in InDir(shape, d, base) || i == base + d {
        if base <= i < base + n { Residue(i - base, rounds - 1, n); }
        if i == base + d { Residue(d, rounds - 1, n); }
      }
      assert InDir(shape, d, base + n) == InDir(shape, d, base) + {base + d};
    }
  }

  lemma OnlyZeroIsBetween(k: int, n: int)
    requires n > 0
    ensures k >= 1 ==> k * n >= n
    ensures k <= -1 ==> k * n <= -n
  {
    assert k * n == n + (k - 1) * n && k * n == -n + (k + 1) * n;
  }

  lemma Apart(x: nat, m: nat, s: nat, q: nat, r: nat, n: nat)
    requires x == m * n + s && x == q * n + r && s < n && r < n
    ensures s == r
  {
    assert (q - m) * n == q * n - m * n;
    OnlyZeroIsBetween(q - m, n);
  }

  lemma Residue(r: nat, q: nat, n: nat)
    requires r < n
    ensures (q * n + r) % n == r
  {
    var x := q * n + r;
    assert x == (x / n) * n + x % n;
    Apart(x, x / n, x % n, q, r, n);
  }

  /** The files of the create phase spread evenly: each directory receives `files / directories`. */
  lemma DirectoriesShareEvenly(shape: Shape, d: nat)
    requires shape.Bounded() && d < shape.directories
    ensures |InDir(shape, d, shape.files)| == shape.files / shape.directories
    ensures forall i: nat :: i in InDir(shape, d, shape.files) <==> i < shape.files && shape.Small(i)[..1] == Dir(d)
  {
    RoundsFill(shape, d, shape.files / shape.directories);
    assert shape.files == (shape.files / shape.directories) * shape.directories;
    forall i: nat ensures i in InDir(shape, d, shape.files) <==> i < shape.files && shape.Small(i)[..1] == Dir(d) {
      SmallParent(shape, i);
      DirsDistinct(i % shape.directories, d);
    }
  }

  lemma SmallParent(shape: Shape, i: nat)
    requires shape.Bounded()
    ensures shape.Small(i)[..1] == Dir(i % shape.directories) && shape.Renamed(i)[..1] == Dir(i % shape.directories)
  {
  }

  // ---- Where the files are --------------------------------------------------------------

  /** The small files with the first `done` of them renamed, or the durable files. */
  datatype Place = Renaming(done: nat) | Durably

  function At(shape: Shape, place: Place, k: nat): Path
    requires shape.Bounded()
  {
    match place
    case Renaming(done) => if k < done then shape.Renamed(k) else shape.Small(k)
    case Durably => shape.Durable(k)
  }

  lemma SuffixesDiffer(shape: Shape, i: nat, j: nat)
    requires shape.Bounded()
    ensures shape.Small(i) != shape.Renamed(j)
  {
    var a, b := shape.Small(i)[1], shape.Renamed(j)[1];
    assert a[|a| - 1] == 'n' && b[|b| - 1] == 'd';
  }

  lemma NoCollision(shape: Shape, place: Place, k: nat, place': Place, j: nat)
    requires shape.Bounded() && (place.Durably? <==> place'.Durably?)
    ensures At(shape, place, k) == At(shape, place', j) ==> k == j
  {
    if At(shape, place, k) == At(shape, place', j) {
      if place.Durably? {
        NamedInjective(k, j, 4, ".bin");
      } else if (k < place.done) == (j < place'.done) {
        NamedInjective(k, j, 5, if k < place.done then ".renamed" else ".bin");
      } else if k < place.done {
        SuffixesDiffer(shape, j, k);
      } else {
        SuffixesDiffer(shape, k, j);
      }
    }
  }

  /** The paths of files `from .. upto`. */
  ghost function Paths(shape: Shape, place: Place, from: nat, upto: nat): set<Path>
    requires shape.Bounded()
  {
    set k: nat | from <= k < upto :: At(shape, place, k)
  }

  /** Exactly the files `from .. upto` exist, each at its place with its own payload. */
  ghost predicate Holds(shape: Shape, blocks: Blocks, files: map<Path, Payload>, place: Place, from: nat, upto: nat)
    requires shape.Bounded()
  {
    && files.Keys == Paths(shape, place, from, upto)
    && forall k: nat :: from <= k < upto ==> files[At(shape, place, k)] == Content(blocks, k, shape.bytes)
  }

  lemma HoldsNothing(shape: Shape, blocks: Blocks, place: Place, from: nat)
    requires shape.Bounded()
    ensures Holds(shape, blocks, map[], place, from, from)
  {
  }

  lemma HoldsEmpty(shape: Shape, blocks: Blocks, files: map<Path, Payload>, place: Place, from: nat)
    requires shape.Bounded() && Holds(shape, blocks, files, place, from, from)
    ensures files == map[]
  {
    assert files.Keys == {};
  }

  lemma Created(shape: Shape, blocks: Blocks, files: map<Path, Payload>, place: Place, upto: nat)
    requires shape.Bounded() && Holds(shape, blocks, files, place, 0, upto)
    ensures At(shape, place, upto) !in files
    ensures Holds(shape, blocks, files[At(shape, place, upto) := Content(blocks, upto, shape.bytes)], place, 0, upto + 1)
  {
    hide At;
    forall k: nat | k < upto ensures At(shape, place, k) != At(shape, place, upto) {
      NoCollision(shape, place, k, place, upto);
    }
    var more := files[At(shape, place, upto) := Content(blocks, upto, shape.bytes)];
    assert more.Keys == Paths(shape, place, 0, upto + 1) by {
      forall p ensures p in more.Keys <==> p in Paths(shape, place, 0, upto + 1) {
        if p in more.Keys && p != At(shape, place, upto) {
          var k: nat :| k < upto && p == At(shape, place, k);
        }
      }
    }
  }

  lemma PathsMove(shape: Shape, i: nat, upto: nat)
    requires shape.Bounded() && i < upto
    ensures shape.Small(i) in Paths(shape, Renaming(i), 0, upto) && shape.Renamed(i) !in Paths(shape, Renaming(i), 0, upto)
    ensures Paths(shape, Renaming(i + 1), 0, upto)
         == Paths(shape, Renaming(i), 0, upto) - {shape.Small(i)} + {shape.Renamed(i)}
  {
    var before, after := Renaming(i), Renaming(i + 1);
    assert At(shape, before, i) == shape.Small(i) && At(shape, after, i) == shape.Renamed(i);
    SuffixesDiffer(shape, i, i);
    forall k: nat | k < upto && k != i
      ensures At(shape, after, k) == At(shape, before, k)
      ensures At(shape, before, k) != shape.Small(i) && At(shape, before, k) != shape.Renamed(i)
    {
      NoCollision(shape, before, k, before, i);
      NoCollision(shape, before, k, after, i);
    }
    hide At;
    forall p ensures p in Paths(shape, after, 0, upto)
                     <==> p in Paths(shape, before, 0, upto) - {shape.Small(i)} + {shape.Renamed(i)}
    {
      if p in Paths(shape, before, 0, upto) && p != shape.Small(i) {
        var k: nat :| k < upto && p == At(shape, before, k);
        assert p == At(shape, after, k);
      }
    }
  }

  lemma RenamedOne(shape: Shape, blocks: Blocks, files: map<Path, Payload>, i: nat)
    requires shape.Bounded() && i < shape.files && Holds(shape, blocks, files, Renaming(i), 0, shape.files)
    ensures shape.Small(i) in files && shape.Renamed(i) !in files
    ensures Holds(shape, blocks, (files - {shape.Small(i)})[shape.Renamed(i) := files[shape.Small(i)]],
                  Renaming(i + 1), 0, shape.files)
  {
    var before, after := Renaming(i), Renaming(i + 1);
    PathsMove(shape, i, shape.files);
    var more := (files - {shape.Small(i)})[shape.Renamed(i) := files[shape.Small(i)]];
    assert more.Keys == Paths(shape, after, 0, shape.files);
    forall k: nat | k < shape.files ensures more[At(shape, after, k)] == Content(blocks, k, shape.bytes) {
      if k == i {
        assert At(shape, before, i) == shape.Small(i);
      } else {
        assert At(shape, after, k) == At(shape, before, k);
        NoCollision(shape, before, k, before, i);
        NoCollision(shape, before, k, after, i);
      }
    }
  }

  lemma DeletedOne(shape: Shape, blocks: Blocks, files: map<Path, Payload>, i: nat)
    requires shape.Bounded() && i < shape.files && Holds(shape, blocks, files, Renaming(shape.files), i, shape.files)
    ensures shape.Renamed(i) in files
    ensures Holds(shape, blocks, files - {shape.Renamed(i)}, Renaming(shape.files), i + 1, shape.files)
  {
    var place := Renaming(shape.files);
    assert At(shape, place, i) == shape.Renamed(i);
    forall k: nat | i < k < shape.files ensures At(shape, place, k) != shape.Renamed(i) {
      NoCollision(shape, place, k, place, i);
    }
    hide At;
    var less := files - {shape.Renamed(i)};
    assert less.Keys == Paths(shape, place, i + 1, shape.files) by {
      forall p ensures p in less.Keys <==> p in Paths(shape, place, i + 1, shape.files) {
        if p in less.Keys {
          var k: nat :| i <= k < shape.files && p == At(shape, place, k);
          assert k != i;
        }
      }
    }
  }
}
