/** Artifact manifests: canonical identity, finalization and validation. */
module Manifest {
  import opened Base
  import opened ChunkStore
  import opened Paths
  import opened Sorting

  const DEFAULT_CHUNK_SIZE := 4 * 1024 * 1024
  const CURRENT_SCHEMA := 1
  const INT64_LIMIT := 0x8000_0000_0000_0000

  datatype ChunkRef = ChunkRef(hash: Hash, offset: int, size: int)

  datatype FileEntry = FileEntry(path: string, size: int, mode: string, chunks: seq<ChunkRef>)

  datatype Artifact = Artifact(schemaVersion: int, artifactID: string, name: string, version: string,
                               chunkSize: int, totalSize: int, files: seq<FileEntry>)

  /** Two's-complement wrap-around of 64-bit sums. */
  function Wrap(x: int): int {
    (x + INT64_LIMIT) % (2 * INT64_LIMIT) - INT64_LIMIT
  }

  function Add64(a: int, b: int): int {
    Wrap(a + b)
  }

  predicate IsInt64(x: int) {
    -INT64_LIMIT <= x < INT64_LIMIT
  }

  // --- Order of paths ---

  function FileLess(f: FileEntry, g: FileEntry): bool {
    StrLess(f.path, g.path)
  }

  lemma FileLessIsOrder()
    ensures Order(FileLess)
  {
    forall f, g ensures FileLess(f, g) ==> !FileLess(g, f) {
      StrLessAsymmetric(f.path, g.path);
    }
    forall f, g, h | !FileLess(g, f) && !FileLess(h, g) ensures !FileLess(h, f) {
      StrLessNegTransitive(f.path, g.path, h.path);
    }
  }

  function SortFiles(files: seq<FileEntry>): seq<FileEntry> {
    Sort(FileLess, files)
  }

  ghost predicate DistinctPaths(files: seq<FileEntry>) {
    forall i, j :: 0 <= i < j < |files| ==> files[i].path != files[j].path
  }

  /** Whatever order a correct sort leaves equal keys in, distinct paths have one sorted arrangement. */
  lemma SortedFilesAreUnique(files: seq<FileEntry>, sorted: seq<FileEntry>)
    requires DistinctPaths(files) && multiset(sorted) == multiset(files) && Ordered(FileLess, sorted)
    ensures sorted == SortFiles(files)
  {
    FileLessIsOrder();
    SortOrders(FileLess, files);
    SortPermutes(FileLess, files);
    MultisetMembers(sorted, files);
    forall f, g | f in sorted && g in sorted && !FileLess(f, g) && !FileLess(g, f) ensures f == g {
      StrLessAsymmetric(f.path, g.path);
      assert f in files && g in files;
    }
    OrderedIsUnique(FileLess, sorted, SortFiles(files));
  }

  // --- Identity ---

  /** The digest of the canonical encoding is a parameter. */
  type Digest = Artifact -> string

  function Canonical(m: Artifact): Artifact {
    m.(artifactID := "", files := SortFiles(m.files))
  }

  function ComputeID(digest: Digest, m: Artifact): string {
    digest(Canonical(m))
  }

  /** Reordering the files of a manifest with distinct paths leaves its ID unchanged. */
  lemma ReorderingKeepsID(digest: Digest, m: Artifact, files: seq<FileEntry>)
    requires DistinctPaths(m.files) && multiset(files) == multiset(m.files)
    ensures ComputeID(digest, m.(files := files)) == ComputeID(digest, m)
  {
    FileLessIsOrder();
    SortOrders(FileLess, files);
    SortPermutes(FileLess, files);
    SortedFilesAreUnique(m.files, SortFiles(files));
  }

  /** Where the digest does not collide, equal IDs mean equal manifests up to the order of files. */
  lemma SameIDSameContent(digest: Digest, m: Artifact, n: Artifact)
    requires digest(Canonical(m)) == digest(Canonical(n)) ==> Canonical(m) == Canonical(n)
    requires DistinctPaths(m.files)
    ensures ComputeID(digest, m) == ComputeID(digest, n) <==>
              multiset(m.files) == multiset(n.files) &&
                m.(artifactID := "", files := []) == n.(artifactID := "", files := [])
  {
    SortPermutes(FileLess, m.files);
    SortPermutes(FileLess, n.files);
    if multiset(m.files) == multiset(n.files) &&
      m.(artifactID := "", files := []) == n.(artifactID := "", files := []) {
      ReorderingKeepsID(digest, m, n.files);
      assert Canonical(m.(files := n.files)) == Canonical(n);
    }
  }

  // --- Sums of sizes ---

  function TotalSize(files: seq<FileEntry>): int {
    if files == [] then 0 else TotalSize(files[..|files| - 1]) + files[|files| - 1].size
  }

  lemma {:induction false} TotalSizeInsert(f: FileEntry, files: seq<FileEntry>)
    ensures TotalSize(Insert(FileLess, f, files)) == TotalSize(files) + f.size
    decreases |files|
  {
    if files == [] || !FileLess(f, files[|files| - 1]) {
      assert (files + [f])[..|files|] == files;
    } else {
      var rest := files[..|files| - 1];
      TotalSizeInsert(f, rest);
      assert (Insert(FileLess, f, rest) + [files[|files| - 1]])[..|Insert(FileLess, f, rest)|]
        == Insert(FileLess, f, rest);
    }
  }

  lemma {:induction false} TotalSizeSorted(files: seq<FileEntry>)
    ensures TotalSize(SortFiles(files)) == TotalSize(files)
    decreases |files|
  {
    if files != [] {
      TotalSizeSorted(files[..|files| - 1]);
      TotalSizeInsert(files[|files| - 1], SortFiles(files[..|files| - 1]));
    }
  }

  function ChunkBytes(chunks: seq<ChunkRef>): int {
    if chunks == [] then 0 else ChunkBytes(chunks[..|chunks| - 1]) + chunks[|chunks| - 1].size
  }

  // --- Validation ---

  predicate IsSpace(c: char) {
    c in {'\t', '\n', '\U{000B}', '\U{000C}', '\r', ' ', '\U{0085}', '\U{00A0}', '\U{1680}', '\U{2028}', '\U{2029}',
      '\U{202F}', '\U{205F}', '\U{3000}'}
    || '\U{2000}' <= c <= '\U{200A}'
  }

  predicate Blank(s: string) {
    forall c :: c in s ==> IsSpace(c)
  }

  /** The checks on a file's chunk list; offsets are compared with the wrapped running sum. */
  ghost predicate ChunksOk(chunks: seq<ChunkRef>) {
    forall i :: 0 <= i < |chunks| ==>
      ValidName(chunks[i].hash) && chunks[i].size >= 0 && chunks[i].offset == Wrap(ChunkBytes(chunks[..i]))
  }

  ghost predicate FileOk(f: FileEntry) {
    ValidManifestPath(f.path) && ChunksOk(f.chunks) && f.size == Wrap(ChunkBytes(f.chunks))
  }

  ghost predicate FilesOk(files: seq<FileEntry>) {
    && (forall f :: f in files ==> FileOk(f))
    && DistinctPaths(files)
  }

  ghost predicate Valid(digest: Digest, m: Artifact) {
    && m.schemaVersion == CURRENT_SCHEMA && !Blank(m.name) && !Blank(m.version) && m.chunkSize > 0 && m.files != []
    && FilesOk(m.files)
    && m.totalSize == Wrap(TotalSize(m.files))
    && m.artifactID == ComputeID(digest, m)
  }

  lemma WrapSum(a: int, b: int)
    ensures Add64(Wrap(a), b) == Wrap(a + b)
  {
  }

  lemma WrapRange(x: int)
    ensures IsInt64(Wrap(x))
    ensures IsInt64(x) ==> Wrap(x) == x
  {
  }

  method HasText(s: string) returns (r: bool)
    ensures r <==> !Blank(s)
  {
    for i := 0 to |s|
      invariant forall k :: 0 <= k < i ==> IsSpace(s[k])
    {
      if !IsSpace(s[i]) {
        return true;
      }
    }
    return false;
  }

  method ValidateChunks(chunks: seq<ChunkRef>) returns (ok: bool, total: int)
    ensures ok <==> ChunksOk(chunks)
    ensures ok ==> total == Wrap(ChunkBytes(chunks))
  {
    total := 0;
    for i := 0 to |chunks|
      invariant total == Wrap(ChunkBytes(chunks[..i]))
      invariant forall k :: 0 <= k < i ==>
        ValidName(chunks[k].hash) && chunks[k].size >= 0 && chunks[k].offset == Wrap(ChunkBytes(chunks[..k]))
    {
      var c := chunks[i];
      if !ValidName(c.hash) || c.size < 0 || c.offset != total {
        return false, 0;
      }
      assert chunks[..i + 1][..i] == chunks[..i];
      WrapSum(ChunkBytes(chunks[..i]), c.size);
      total := Add64(total, c.size);
    }
    assert chunks[..|chunks|] == chunks;
    ok := true;
  }

  method ValidateFile(f: FileEntry) returns (ok: bool)
    ensures ok <==> FileOk(f)
  {
    if !ValidManifestPath(f.path) {
      return false;
    }
    var good, bytes := ValidateChunks(f.chunks);
    return good && bytes == f.size;
  }

  lemma TotalSnoc(files: seq<FileEntry>, i: nat)
    requires i < |files|
    ensures Add64(Wrap(TotalSize(files[..i])), files[i].size) == Wrap(TotalSize(files[..i + 1]))
  {
    assert files[..i + 1][..i] == files[..i];
    WrapSum(TotalSize(files[..i]), files[i].size);
  }

  function PathsOf(files: seq<FileEntry>): set<string> {
    set f | f in files :: f.path
  }

  lemma DistinctSnoc(files: seq<FileEntry>, f: FileEntry)
    ensures DistinctPaths(files + [f]) <==> DistinctPaths(files) && f.path !in PathsOf(files)
  {
    var t := files + [f];
    assert t[|files|] == f && forall k :: 0 <= k < |files| ==> t[k] == files[k];
    if f.path in PathsOf(files) {
      var k :| 0 <= k < |files| && files[k].path == f.path;
      assert t[k].path == t[|files|].path;
    }
  }

  lemma FilesOkSnoc(files: seq<FileEntry>, i: nat)
    requires i < |files|
    ensures FilesOk(files[..i + 1]) <==>
              FilesOk(files[..i]) && FileOk(files[i]) && files[i].path !in PathsOf(files[..i])
    ensures PathsOf(files[..i + 1]) == PathsOf(files[..i]) + {files[i].path}
  {
    assert files[..i + 1] == files[..i] + [files[i]];
    DistinctSnoc(files[..i], files[i]);
  }

  lemma FilesOkPrefix(files: seq<FileEntry>, i: nat)
    requires i <= |files| && FilesOk(files)
    ensures FilesOk(files[..i])
  {
  }

  method ValidateFiles(files: seq<FileEntry>) returns (ok: bool, total: int)
    ensures ok <==> FilesOk(files)
    ensures ok ==> total == Wrap(TotalSize(files))
  {
    total := 0;
    var seen: set<string> := {};
    for i := 0 to |files|
      invariant total == Wrap(TotalSize(files[..i]))
      invariant seen == PathsOf(files[..i])
      invariant FilesOk(files[..i])
    {
      FilesOkSnoc(files, i);
      var f := files[i];
      var good := ValidateFile(f);
      if !good || f.path in seen {
        if FilesOk(files) {
          FilesOkPrefix(files, i + 1);
        }
        return false, 0;
      }
      seen := seen + {f.path};
      TotalSnoc(files, i);
      total := Add64(total, f.size);
    }
    assert files[..|files|] == files;
    ok := true;
  }

  method Validate(digest: Digest, m: Artifact) returns (ok: bool)
    ensures ok <==> Valid(digest, m)
  {
    if m.schemaVersion != CURRENT_SCHEMA || m.chunkSize <= 0 || m.files == [] {
      return false;
    }
    var named := HasText(m.name);
    var versioned := HasText(m.version);
    if !named || !versioned {
      return false;
    }
    var good, total := ValidateFiles(m.files);
    return good && total == m.totalSize && m.artifactID == ComputeID(digest, m);
  }

  // --- What a valid file means ---

  /** The chunks tile [0, size): each starts where the ones before it end, and together they fill the file. */
  ghost predicate Tiles(f: FileEntry) {
    && (forall i :: 0 <= i < |f.chunks| ==> f.chunks[i].size >= 0 && f.chunks[i].offset == ChunkBytes(f.chunks[..i]))
    && f.size == ChunkBytes(f.chunks)
  }

  lemma {:induction false} ChunkBytesGrow(chunks: seq<ChunkRef>, i: nat)
    requires i <= |chunks| && forall k :: 0 <= k < |chunks| ==> chunks[k].size >= 0
    ensures 0 <= ChunkBytes(chunks[..i]) <= ChunkBytes(chunks)
    decreases |chunks|
  {
    if chunks == [] {
      assert chunks[..i] == [];
    } else if i == |chunks| {
      assert chunks[..i] == chunks;
      ChunkBytesGrow(chunks[..|chunks| - 1], 0);
    } else {
      assert chunks[..|chunks| - 1][..i] == chunks[..i];
      ChunkBytesGrow(chunks[..|chunks| - 1], i);
    }
  }

  /** A file that passes validation is tiled by its chunks exactly when their sizes sum to less than 2^63. */
  lemma ValidFileTiles(f: FileEntry)
    requires FileOk(f)
    ensures Tiles(f) <==> ChunkBytes(f.chunks) < INT64_LIMIT
  {
    WrapRange(ChunkBytes(f.chunks));
    ChunkBytesGrow(f.chunks, 0);
    if ChunkBytes(f.chunks) < INT64_LIMIT {
      forall i | 0 <= i < |f.chunks| ensures f.chunks[i].offset == ChunkBytes(f.chunks[..i]) {
        OffsetIsSum(f.chunks, i);
      }
    }
  }

  lemma OffsetIsSum(chunks: seq<ChunkRef>, i: nat)
    requires ChunksOk(chunks) && i < |chunks| && ChunkBytes(chunks) < INT64_LIMIT
    ensures chunks[i].offset == ChunkBytes(chunks[..i])
  {
    ChunkBytesGrow(chunks, i);
    WrapRange(ChunkBytes(chunks[..i]));
  }

  /** Beyond that the wrapped sums let a file through that claims to be empty and is not. */
  lemma OverflowingFilePasses(h: Hash) returns (f: FileEntry)
    requires ValidName(h)
    ensures FileOk(f) && !Tiles(f) && f.size == 0
  {
    var big := INT64_LIMIT - 1;
    var a, b, c := ChunkRef(h, 0, big), ChunkRef(h, big, big), ChunkRef(h, -2, 2);
    var chunks := [a, b, c];
    assert chunks[..0] == [] && chunks[..1] == [a] && chunks[..2] == [a, b] && [a, b][..1] == [a] && [a][..0] == [];
    assert ChunkBytes([a]) == ChunkBytes([a][..0]) + big == big;
    assert ChunkBytes([a, b]) == ChunkBytes([a, b][..1]) + big == 2 * big;
    assert ChunkBytes(chunks) == ChunkBytes(chunks[..2]) + 2 == 2 * INT64_LIMIT;
    f := FileEntry("x", 0, "", chunks);
    PlainPath();
  }

  lemma PlainPath()
    ensures ValidManifestPath("x")
  {
    SplitPiece("x");
    assert Components("x") == ["x"];
    ValidPathIsInside("x");
  }

  // --- Finalization ---

  function NormalizeFiles(files: seq<FileEntry>): seq<FileEntry> {
    seq(|files|, i requires 0 <= i < |files| => files[i].(path := NormalizePath(files[i].path)))
  }

  /** Everything but the ID. */
  function Prepared(m: Artifact): Artifact {
    m.(schemaVersion := if m.schemaVersion == 0 then CURRENT_SCHEMA else m.schemaVersion,
       chunkSize := if m.chunkSize == 0 then DEFAULT_CHUNK_SIZE else m.chunkSize,
       totalSize := Wrap(TotalSize(m.files)),
       files := SortFiles(NormalizeFiles(m.files)))
  }

  function Finalized(digest: Digest, m: Artifact): Artifact {
    Prepared(m).(artifactID := ComputeID(digest, Prepared(m)))
  }

  lemma {:induction false} NormalizedTotal(files: seq<FileEntry>)
    ensures TotalSize(NormalizeFiles(files)) == TotalSize(files)
    decreases |files|
  {
    if files != [] {
      var n := |files| - 1;
      assert NormalizeFiles(files)[..n] == NormalizeFiles(files[..n]);
      NormalizedTotal(files[..n]);
    }
  }

  /** Distinct paths, said of the multiset of files. */
  ghost predicate DistinctAsCounts(files: multiset<FileEntry>) {
    forall f, g :: f in files && g in files && f.path == g.path ==> f == g && files[f] == 1
  }

  lemma DistinctCounts(files: seq<FileEntry>)
    requires DistinctPaths(files)
    ensures DistinctAsCounts(multiset(files))
  {
    forall f, g | f in multiset(files) && g in multiset(files) && f.path == g.path
      ensures f == g && multiset(files)[f] == 1
    {
      var i :| 0 <= i < |files| && files[i] == f;
      assert g in files;
      assert files == files[..i] + [f] + files[i + 1..];
      assert f !in files[..i] && f !in files[i + 1..];
    }
  }

  lemma CountsDistinct(files: seq<FileEntry>)
    requires DistinctAsCounts(multiset(files))
    ensures DistinctPaths(files)
  {
    forall i, j | 0 <= i < j < |files| ensures files[i].path != files[j].path {
      var f := files[i];
      assert files == files[..j] + files[j..];
      assert files[..j][i] == f && files[j..][0] == files[j];
      assert f in files[..j] && files[j] in files[j..];
      assert multiset(files) == multiset(files[..j]) + multiset(files[j..]);
    }
  }

  lemma PermutedDistinct(a: seq<FileEntry>, b: seq<FileEntry>)
    requires multiset(a) == multiset(b)
    ensures DistinctPaths(a) <==> DistinctPaths(b)
  {
    if DistinctPaths(a) {
      DistinctCounts(a);
      CountsDistinct(b);
    } else if DistinctPaths(b) {
      DistinctCounts(b);
      CountsDistinct(a);
    }
  }

  /** What the caller must have got right for `Finalize` to yield a valid manifest. */
  ghost predicate WellMade(m: Artifact) {
    && (m.schemaVersion == 0 || m.schemaVersion == CURRENT_SCHEMA)
    && !Blank(m.name) && !Blank(m.version) && m.chunkSize >= 0 && m.files != []
    && FilesWellMade(m.files)
  }

  /** Every path stays inside and no two have the same normal form; every file is the size of its chunk list. */
  ghost predicate FilesWellMade(files: seq<FileEntry>) {
    && (forall i :: 0 <= i < |files| ==> FileWellMade(files[i]))
    && (forall i, j :: 0 <= i < j < |files| ==> NormalizePath(files[i].path) != NormalizePath(files[j].path))
  }

  ghost predicate FileWellMade(f: FileEntry) {
    Inside(f.path) && ChunksOk(f.chunks) && f.size == Wrap(ChunkBytes(f.chunks))
  }

  lemma NormalizedFileOk(f: FileEntry)
    ensures FileOk(f.(path := NormalizePath(f.path))) <==> FileWellMade(f)
  {
    NormalizedPath(f.path);
  }

  lemma PermutedFilesOk(a: seq<FileEntry>, b: seq<FileEntry>)
    requires multiset(a) == multiset(b)
    ensures FilesOk(a) <==> FilesOk(b)
  {
    PermutedDistinct(a, b);
    MultisetMembers(a, b);
  }

  lemma NormalizedFilesOk(files: seq<FileEntry>)
    ensures FilesOk(NormalizeFiles(files)) <==> FilesWellMade(files)
  {
    var ns := NormalizeFiles(files);
    forall i | 0 <= i < |files| ensures FileOk(ns[i]) <==> FileWellMade(files[i]) {
      NormalizedFileOk(files[i]);
    }
    assert forall i :: 0 <= i < |files| ==> ns[i] in ns && ns[i].path == NormalizePath(files[i].path);
  }

  /** Finalize followed by Validate succeeds if and only if the manifest was well made. */
  lemma FinalizedIsValid(digest: Digest, m: Artifact)
    ensures Valid(digest, Finalized(digest, m)) <==> WellMade(m)
  {
    FinalizedFields(digest, m);
    NormalizedFilesOk(m.files);
    SortPermutes(FileLess, NormalizeFiles(m.files));
    PermutedFilesOk(Finalized(digest, m).files, NormalizeFiles(m.files));
  }

  /** Total and ID come out right whatever the manifest holds. */
  lemma FinalizedFields(digest: Digest, m: Artifact)
    ensures var fin := Finalized(digest, m);
            && fin.totalSize == Wrap(TotalSize(fin.files)) && fin.artifactID == ComputeID(digest, fin)
            && |fin.files| == |m.files|
  {
    var ns := NormalizeFiles(m.files);
    FileLessIsOrder();
    SortOrders(FileLess, ns);
    SortOfOrdered(FileLess, SortFiles(ns));
    SortPermutes(FileLess, ns);
    NormalizedTotal(m.files);
    TotalSizeSorted(ns);
  }

  /** The loop over the files: paths normalized in place, sizes summed. */
  method NormalizeAll(input: seq<FileEntry>) returns (files: seq<FileEntry>, total: int)
    ensures files == NormalizeFiles(input) && total == Wrap(TotalSize(input))
  {
    files, total := input, 0;
    for i := 0 to |input|
      invariant |files| == |input|
      invariant forall k :: 0 <= k < i ==> files[k] == NormalizeFiles(input)[k]
      invariant forall k :: i <= k < |input| ==> files[k] == input[k]
      invariant total == Wrap(TotalSize(input[..i]))
    {
      files := files[i := files[i].(path := NormalizePath(files[i].path))];
      TotalSnoc(input, i);
      total := Add64(total, input[i].size);
    }
    assert input[..|input|] == input;
  }

  /** The manifest object a publisher fills in and finalizes in place. */
  class ArtifactManifest {
    const digest: Digest
    var schemaVersion: int
    var artifactID: string
    var name: string
    var version: string
    var chunkSize: int
    var totalSize: int
    var files: seq<FileEntry>

    constructor (digest: Digest, name: string, version: string, chunkSize: int, files: seq<FileEntry>)
      ensures this.digest == digest
      ensures Value() == Artifact(CURRENT_SCHEMA, "", name, version, chunkSize, 0, files)
    {
      this.digest := digest;
      this.schemaVersion, this.artifactID, this.name, this.version := CURRENT_SCHEMA, "", name, version;
      this.chunkSize, this.totalSize, this.files := chunkSize, 0, files;
    }

    function Value(): Artifact
      reads this
    {
      Artifact(schemaVersion, artifactID, name, version, chunkSize, totalSize, files)
    }

    method Finalize()
      modifies this
      ensures Value() == Finalized(digest, old(Value()))
    {
      Prepare();
      artifactID := ComputeID(digest, Value());
    }

    /** The defaults, the normalized paths, the total and the sort. */
    method Prepare()
      modifies this
      ensures Value() == Prepared(old(Value()))
      ensures schemaVersion == if old(schemaVersion) == 0 then 1 else old(schemaVersion)
      ensures chunkSize == if old(chunkSize) == 0 then 4 * 1024 * 1024 else old(chunkSize)
      ensures artifactID == old(artifactID) && name == old(name) && version == old(version)
    {
      if schemaVersion == 0 {
        schemaVersion := CURRENT_SCHEMA;
      }
      if chunkSize == 0 {
        chunkSize := DEFAULT_CHUNK_SIZE;
      }
      var total;
      files, total := NormalizeAll(files);
      totalSize := total;
      files := SortFiles(files);
    }
  }

  // --- Chunk hashes ---

  function RefsOf(files: seq<FileEntry>): seq<ChunkRef> {
    if files == [] then [] else RefsOf(files[..|files| - 1]) + files[|files| - 1].chunks
  }

  /** Every hash of the manifest, each once. */
  method AllChunkHashes(m: Artifact) returns (hashes: seq<Hash>)
    ensures NoDup(hashes)
    ensures Elems(hashes) == set c | c in RefsOf(m.files) :: c.hash
  {
    hashes := [];
    var seen: set<Hash> := {};
    for i := 0 to |m.files|
      invariant NoDup(hashes) && Elems(hashes) == seen == set c | c in RefsOf(m.files[..i]) :: c.hash
    {
      var f := m.files[i];
      assert m.files[..i + 1][..i] == m.files[..i];
      assert f.chunks[..0] == [];
      assert RefsOf(m.files[..i]) + f.chunks[..0] == RefsOf(m.files[..i]);
      for j := 0 to |f.chunks|
        invariant NoDup(hashes) && Elems(hashes) == seen == set c | c in RefsOf(m.files[..i]) + f.chunks[..j] :: c.hash
      {
        var h := f.chunks[j].hash;
        assert RefsOf(m.files[..i]) + f.chunks[..j + 1] == RefsOf(m.files[..i]) + f.chunks[..j] + [f.chunks[j]];
        assert (set c | c in RefsOf(m.files[..i]) + f.chunks[..j + 1] :: c.hash) == seen + {h};
        if h !in seen {
          seen := seen + {h};
          hashes := hashes + [h];
        }
      }
      assert f.chunks[..|f.chunks|] == f.chunks;
    }
    assert m.files[..|m.files|] == m.files;
  }
}
