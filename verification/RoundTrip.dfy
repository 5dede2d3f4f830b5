/** The whole way of a file tree: published on one node, fetched by another from any mix of peers and origin,
    materialized there by copy, and audited. */
module RoundTrip {
  import opened Base
  import opened ChunkStore
  import opened Sorting
  import opened Paths
  import opened Manifest
  import opened Chunker
  import opened Publisher
  import opened Tree
  import opened Materializer
  import opened Verifier
  import SyncScan
  import Node
  import NodeSafety
  import NodeFetch
  import D = NodeDelivery

  // --- One file from its pieces ---

  /** The chunk map has every piece under its name. */
  ghost predicate HasPieces(sha: Bytes -> Hash, chunks: Chunks, pieces: seq<Bytes>) {
    forall i :: 0 <= i < |pieces| ==>
      ValidName(sha(pieces[i])) && sha(pieces[i]) in chunks && chunks[sha(pieces[i])] == pieces[i]
  }

  lemma PieceIsGood(sha: Bytes -> Hash, chunks: Chunks, p: Bytes, offset: int)
    requires ValidName(sha(p)) && sha(p) in chunks && chunks[sha(p)] == p
    ensures var r := ChunkRef(sha(p), offset, |p|); GoodRef(sha, chunks, r) && Part(chunks, r) == p
  {
    assert p[..|p|] == p;
  }

  lemma {:induction false} AssemblesPieces(sha: Bytes -> Hash, chunks: Chunks, pieces: seq<Bytes>)
    requires HasPieces(sha, chunks, pieces)
    ensures GoodRefs(sha, chunks, Refs(sha, pieces)) && Content(chunks, Refs(sha, pieces)) == Concat(pieces)
    decreases |pieces|
  {
    if pieces != [] {
      var low, p := pieces[..|pieces| - 1], pieces[|pieces| - 1];
      AssemblesPieces(sha, chunks, low);
      PieceIsGood(sha, chunks, p, |Concat(low)|);
      assert Refs(sha, pieces)[..|Refs(sha, low)|] == Refs(sha, low);
    }
  }

  lemma RefsMatch(sha: Bytes -> Hash, pieces: seq<Bytes>, i: nat)
    requires i < |pieces|
    ensures |Refs(sha, pieces)| == |pieces| && ChunkMatches(sha, Bytes_(Concat(pieces)), Refs(sha, pieces)[i])
  {
    RefsAt(sha, pieces, i);
    PieceAt(pieces, i);
    MatchesThere(sha, Concat(pieces), |Concat(pieces[..i])|, pieces[i]);
  }

  lemma MatchesThere(sha: Bytes -> Hash, data: Bytes, a: nat, b: Bytes)
    requires a + |b| <= |data| && data[a..a + |b|] == b
    ensures ChunkMatches(sha, Bytes_(data), ChunkRef(sha(b), a, |b|))
  {
  }

  /** The bytes a reference of a chunking covers in a file of the right length. */
  lemma RefCovers(sha: Bytes -> Hash, pieces: seq<Bytes>, data: Bytes, i: nat)
    requires i < |pieces| && |data| == |Concat(pieces)|
    ensures |Refs(sha, pieces)| == |pieces|
    ensures var a := |Concat(pieces[..i])|;
            a + |pieces[i]| <= |data| && BytesOf(Bytes_(data), Refs(sha, pieces)[i]) == data[a..a + |pieces[i]|]
  {
    RefsAt(sha, pieces, i);
    PieceAt(pieces, i);
  }

  ghost function SlicesOf(data: Bytes): iset<Bytes> {
    iset a, z | 0 <= a <= z <= |data| :: data[a..z]
  }

  ghost function PiecesOf(pieces: seq<Bytes>): iset<Bytes> {
    iset p | p in pieces
  }

  ghost predicate Audited(sha: Bytes -> Hash, pieces: seq<Bytes>, data: Bytes) {
    && |data| == |Concat(pieces)| && |Refs(sha, pieces)| == |pieces|
    && forall k :: 0 <= k < |pieces| ==> ChunkMatches(sha, Bytes_(data), Refs(sha, pieces)[k])
  }

  lemma SliceIsPiece(sha: Bytes -> Hash, pieces: seq<Bytes>, data: Bytes, i: nat)
    requires Audited(sha, pieces, data) && i < |pieces| && NoCollision(sha, PiecesOf(pieces) + SlicesOf(data))
    ensures var a := |Concat(pieces[..i])|; a + |pieces[i]| <= |data| && data[a..a + |pieces[i]|] == pieces[i]
  {
    RefCovers(sha, pieces, data, i);
    RefsAt(sha, pieces, i);
    var a := |Concat(pieces[..i])|;
    assert data[a..a + |pieces[i]|] in SlicesOf(data) && pieces[i] in PiecesOf(pieces);
    assert ChunkMatches(sha, Bytes_(data), Refs(sha, pieces)[i]);
  }

  lemma {:induction false} SlicesDecide(sha: Bytes -> Hash, pieces: seq<Bytes>, data: Bytes, i: nat)
    requires Audited(sha, pieces, data) && i <= |pieces|
    requires NoCollision(sha, PiecesOf(pieces) + SlicesOf(data))
    ensures |Concat(pieces[..i])| <= |data| && data[..|Concat(pieces[..i])|] == Concat(pieces[..i])
    decreases i
  {
    if i > 0 {
      SlicesDecide(sha, pieces, data, i - 1);
      SliceIsPiece(sha, pieces, data, i - 1);
      var a := |Concat(pieces[..i - 1])|;
      assert pieces[..i][..i - 1] == pieces[..i - 1];
      assert data[..a + |pieces[i - 1]|] == data[..a] + pieces[i - 1];
    }
  }

  /** A file passes the audit of a chunking exactly if it is the chunked file. */
  lemma AuditDecides(sha: Bytes -> Hash, pieces: seq<Bytes>, f: FileEntry, data: Bytes)
    requires f.chunks == Refs(sha, pieces) && f.size == |Concat(pieces)|
    requires NoCollision(sha, PiecesOf(pieces) + SlicesOf(data))
    ensures FileMatches(sha, f, Bytes_(data)) <==> data == Concat(pieces)
  {
    RefsBytes(sha, pieces);
    if FileMatches(sha, f, Bytes_(data)) {
      SlicesDecide(sha, pieces, data, |pieces|);
      assert pieces[..|pieces|] == pieces;
      assert data[..|data|] == data;
    }
    if data == Concat(pieces) {
      forall i | 0 <= i < |f.chunks| ensures ChunkMatches(sha, Bytes_(data), f.chunks[i]) {
        RefsMatch(sha, pieces, i);
      }
    }
  }

  lemma FirstPiece(src: SourceFile, n: nat)
    requires n > 0 && src.size == |src.content|
    ensures var pieces := FilePieces(src, n);
            pieces != [] && (src.content == [] ==> pieces == [[]]) && (src.content != [] ==> |pieces[0]| > 0)
  {
    PiecesChunk(src.content, n);
  }

  /** A directory passes only for an empty file, and only if its reported size is zero. */
  lemma DirectoryAudit(sha: Bytes -> Hash, pieces: seq<Bytes>, f: FileEntry, x: Found)
    requires f.chunks == Refs(sha, pieces) && f.size == |Concat(pieces)| && x.Directory?
    requires pieces != [] && (Concat(pieces) == [] ==> pieces == [[]]) && (Concat(pieces) != [] ==> |pieces[0]| > 0)
    ensures FileMatches(sha, f, x) <==> x == Directory(0) && Concat(pieces) == []
  {
    RefsAt(sha, pieces, 0);
    assert pieces[..0] == [];
    if Concat(pieces) != [] {
      assert !ChunkMatches(sha, x, f.chunks[0]);
    }
  }

  // --- The manifest and its sources ---

  /** A published tree: what was listed and read, and under which settings. */
  datatype Publication = Publication(sha: Bytes -> Hash, digest: Digest, n: nat, name: string, version: string,
      srcs: seq<SourceFile>)

  ghost predicate Succeeded(p: Publication) {
    && p.n > 0 && CanPublish(p.sha, p.digest, p.n, p.name, p.version, p.srcs)
    && forall i :: 0 <= i < |p.srcs| ==> |p.srcs[i].content| < INT64_LIMIT
  }

  function ManifestOf(p: Publication): Artifact
    requires p.n > 0
  {
    Finalized(p.digest, Draft(p.sha, p.n, p.name, p.version, p.srcs))
  }

  /** The manifest's entry for source `i`. */
  function EntryOf(p: Publication, i: nat): FileEntry
    requires p.n > 0 && i < |p.srcs|
  {
    var f := EntryFor(p.sha, p.n, p.srcs[i]);
    f.(path := NormalizePath(f.path))
  }

  function Listed(p: Publication): seq<FileEntry>
    requires p.n > 0
  {
    NormalizeFiles(Entries(p.sha, p.n, p.srcs))
  }

  lemma SameFiles(p: Publication)
    requires p.n > 0
    ensures forall f :: f in ManifestOf(p).files <==> f in Listed(p)
    ensures |Listed(p)| == |p.srcs| && forall i :: 0 <= i < |p.srcs| ==> Listed(p)[i] == EntryOf(p, i)
  {
    SortPermutes(FileLess, Listed(p));
    MultisetMembers(ManifestOf(p).files, Listed(p));
  }

  lemma EntryWellMade(p: Publication, i: nat)
    requires Succeeded(p) && i < |p.srcs|
    ensures FileWellMade(EntryFor(p.sha, p.n, p.srcs[i]))
  {
    assert Draft(p.sha, p.n, p.name, p.version, p.srcs).files[i] == EntryFor(p.sha, p.n, p.srcs[i]);
  }

  /** Every source has its entry, which lands where the source's path says. */
  lemma EntryOfSource(p: Publication, i: nat)
    requires Succeeded(p) && i < |p.srcs|
    ensures EntryOf(p, i) in ManifestOf(p).files
    ensures KeyOf(EntryOf(p, i)) == Components(p.srcs[i].path) && ValidManifestPath(EntryOf(p, i).path)
    ensures EntryOf(p, i).path == Join(Components(p.srcs[i].path))
  {
    SameFiles(p);
    EntryWellMade(p, i);
    NormalizedPath(p.srcs[i].path);
  }

  lemma PiecesOfSource(p: Publication, i: nat)
    requires Succeeded(p) && i < |p.srcs|
    ensures Concat(FilePieces(p.srcs[i], p.n)) == p.srcs[i].content && p.srcs[i].size == |p.srcs[i].content|
    ensures forall j :: 0 <= j < |FilePieces(p.srcs[i], p.n)| ==> ValidName(p.sha(FilePieces(p.srcs[i], p.n)[j]))
  {
    EntryWellMade(p, i);
    EntryIsWellMade(p.sha, p.n, p.srcs[i]);
    FilePiecesWhole(p.srcs[i], p.n);
  }

  lemma SourceOfEntry(p: Publication, f: FileEntry) returns (i: nat)
    requires p.n > 0 && f in ManifestOf(p).files
    ensures i < |p.srcs| && f == EntryOf(p, i)
  {
    SameFiles(p);
    i :| 0 <= i < |Listed(p)| && Listed(p)[i] == f;
  }

  /** No two files of the manifest land in the same place. */
  lemma DistinctKeys(p: Publication, a: FileEntry, b: FileEntry)
    requires Succeeded(p) && a in ManifestOf(p).files && b in ManifestOf(p).files && KeyOf(a) == KeyOf(b)
    ensures a.path == b.path
  {
    var i := SourceOfEntry(p, a);
    var j := SourceOfEntry(p, b);
    EntryOfSource(p, i);
    EntryOfSource(p, j);
  }

  lemma PublishedIsValid(p: Publication)
    requires Succeeded(p)
    ensures Valid(p.digest, ManifestOf(p))
  {
    FinalizedIsValid(p.digest, Draft(p.sha, p.n, p.name, p.version, p.srcs));
  }

  // --- Fetched chunks ---

  /** A chunk map that verified everything it committed and has every chunk the publication names. */
  ghost predicate Delivered(p: Publication, chunks: Chunks)
    requires p.n > 0
  {
    && (forall h :: h in chunks ==> p.sha(chunks[h]) == h)
    && forall i :: 0 <= i < |p.srcs| ==>
         forall j :: 0 <= j < |FilePieces(p.srcs[i], p.n)| ==> p.sha(FilePieces(p.srcs[i], p.n)[j]) in chunks
  }

  ghost function Seen(p: Publication, chunks: Chunks): iset<Bytes>
    requires p.n > 0
  {
    (iset i, b | 0 <= i < |p.srcs| && b in FilePieces(p.srcs[i], p.n) :: b) + (iset h | h in chunks :: chunks[h])
  }

  lemma FetchedIsSource(p: Publication, chunks: Chunks, i: nat)
    requires Succeeded(p) && Delivered(p, chunks) && NoCollision(p.sha, Seen(p, chunks)) && i < |p.srcs|
    ensures HasPieces(p.sha, chunks, FilePieces(p.srcs[i], p.n))
  {
    var pieces := FilePieces(p.srcs[i], p.n);
    PiecesOfSource(p, i);
    forall j | 0 <= j < |pieces| ensures p.sha(pieces[j]) in chunks && chunks[p.sha(pieces[j])] == pieces[j] {
      var h := p.sha(pieces[j]);
      assert h in chunks;
      assert pieces[j] in pieces;
      assert pieces[j] in Seen(p, chunks) && chunks[h] in Seen(p, chunks);
    }
  }

  /** From the delivered chunks every file of the manifest can be assembled, and it is the source file. */
  lemma DeliveredAssembles(p: Publication, chunks: Chunks, i: nat)
    requires Succeeded(p) && Delivered(p, chunks) && NoCollision(p.sha, Seen(p, chunks)) && i < |p.srcs|
    ensures Assembles(p.sha, chunks, EntryOf(p, i)) && Content(chunks, EntryOf(p, i).chunks) == p.srcs[i].content
  {
    PiecesOfSource(p, i);
    FetchedIsSource(p, chunks, i);
    AssemblesPieces(p.sha, chunks, FilePieces(p.srcs[i], p.n));
    RefsBytes(p.sha, FilePieces(p.srcs[i], p.n));
  }

  lemma DeliveredCanMaterialize(p: Publication, chunks: Chunks, fs: Fs, overwrite: bool)
    requires Succeeded(p) && Delivered(p, chunks) && NoCollision(p.sha, Seen(p, chunks))
    ensures CanMaterialize(p.sha, ManifestOf(p).files, chunks, fs, overwrite, {}) <==>
              Free(fs, overwrite, KeysOf(ManifestOf(p).files))
  {
    forall f | f in ManifestOf(p).files ensures Assembles(p.sha, chunks, f) {
      var i := SourceOfEntry(p, f);
      DeliveredAssembles(p, chunks, i);
    }
  }

  // --- The tree ---

  /** Every source file is in the tree, byte for byte. */
  ghost predicate Reproduced(p: Publication, fs: Fs) {
    forall i :: 0 <= i < |p.srcs| ==>
      Components(p.srcs[i].path) in fs.files && fs.files[Components(p.srcs[i].path)] == p.srcs[i].content
  }

  lemma NoLaterKey(p: Publication, k: nat)
    requires Succeeded(p) && k < |ManifestOf(p).files|
    ensures KeyOf(ManifestOf(p).files[k]) !in KeysOf(ManifestOf(p).files[k + 1..])
  {
    var files := ManifestOf(p).files;
    PublishedIsValid(p);
    if KeyOf(files[k]) in KeysOf(files[k + 1..]) {
      var j :| 0 <= j < |files[k + 1..]| && KeyOf(files[k + 1..][j]) == KeyOf(files[k]);
      DistinctKeys(p, files[k], files[k + 1 + j]);
    }
  }

  lemma {:induction false} ListedRefHasFile(files: seq<FileEntry>, r: ChunkRef) returns (k: nat)
    requires r in RefsOf(files)
    ensures k < |files| && r in files[k].chunks
    decreases |files|
  {
    k := |files| - 1;
    if r !in files[k].chunks {
      k := ListedRefHasFile(files[..k], r);
    }
  }

  lemma {:induction false} RefIsListed(files: seq<FileEntry>, k: nat, r: ChunkRef)
    requires k < |files| && r in files[k].chunks
    ensures r in RefsOf(files)
    decreases |files|
  {
    if k < |files| - 1 {
      RefIsListed(files[..|files| - 1], k, r);
    }
  }

  function Names(p: Publication): seq<ChunkRef>
    requires p.n > 0
  {
    RefsOf(ManifestOf(p).files)
  }

  /** The manifest names every piece of every source. */
  lemma PieceIsNamed(p: Publication, i: nat, j: nat)
    requires p.n > 0 && i < |p.srcs| && j < |FilePieces(p.srcs[i], p.n)|
    ensures var pieces := FilePieces(p.srcs[i], p.n);
            var refs := Refs(p.sha, pieces);
            j < |refs| && refs[j] in Names(p) && refs[j].hash == p.sha(pieces[j]) && refs[j].size == |pieces[j]|
  {
    var pieces := FilePieces(p.srcs[i], p.n);
    var k := EntryIsAt(p, i);
    RefsAt(p.sha, pieces, j);
    assert EntryOf(p, i).chunks == Refs(p.sha, pieces);
    RefIsListed(ManifestOf(p).files, k, Refs(p.sha, pieces)[j]);
  }

  lemma EntryIsAt(p: Publication, i: nat) returns (k: nat)
    requires p.n > 0 && i < |p.srcs|
    ensures k < |ManifestOf(p).files| && ManifestOf(p).files[k] == EntryOf(p, i)
  {
    SameFiles(p);
    assert Listed(p)[i] in ManifestOf(p).files;
    k :| 0 <= k < |ManifestOf(p).files| && ManifestOf(p).files[k] == EntryOf(p, i);
  }

  lemma HeldIsSource(p: Publication, chunks: Chunks, fs: Fs)
    requires Succeeded(p) && HoldsFiles(chunks, ManifestOf(p).files, fs)
    requires forall i :: 0 <= i < |p.srcs| ==> Content(chunks, EntryOf(p, i).chunks) == p.srcs[i].content
    ensures Reproduced(p, fs)
  {
    forall i | 0 <= i < |p.srcs|
      ensures Components(p.srcs[i].path) in fs.files && fs.files[Components(p.srcs[i].path)] == p.srcs[i].content
    {
      EntryOfSource(p, i);
      var k := EntryIsAt(p, i);
      NoLaterKey(p, k);
    }
  }

  // --- Any chunks ---

  /** What the materializer checks the digest of, and the pieces of the sources. */
  ghost function Used(p: Publication, chunks: Chunks): iset<Bytes>
    requires p.n > 0
  {
    (iset i, b | 0 <= i < |p.srcs| && b in FilePieces(p.srcs[i], p.n) :: b)
    + (iset r | r in Names(p) && GoodRef(p.sha, chunks, r) :: Part(chunks, r))
  }

  /** The chunk under the piece's name begins with the piece. */
  ghost predicate Covers(sha: Bytes -> Hash, chunks: Chunks, b: Bytes) {
    sha(b) in chunks && |b| <= |chunks[sha(b)]| && chunks[sha(b)][..|b|] == b
  }

  lemma ContentSnoc(chunks: Chunks, refs: seq<ChunkRef>, r: ChunkRef)
    ensures Content(chunks, refs + [r]) == Content(chunks, refs) + Part(chunks, r)
  {
    assert (refs + [r])[..|refs|] == refs;
  }

  lemma RefsSnoc(sha: Bytes -> Hash, low: seq<Bytes>, b: Bytes)
    ensures Refs(sha, low + [b]) == Refs(sha, low) + [ChunkRef(sha(b), |Concat(low)|, |b|)]
    ensures Concat(low + [b]) == Concat(low) + b
  {
    assert (low + [b])[..|low|] == low;
  }

  lemma {:induction false} ContentIsConcat(sha: Bytes -> Hash, chunks: Chunks, pieces: seq<Bytes>)
    requires forall b :: b in pieces ==> Covers(sha, chunks, b)
    ensures Content(chunks, Refs(sha, pieces)) == Concat(pieces)
    decreases |pieces|
  {
    if pieces != [] {
      var low, b := Unsnoc(pieces);
      assert b in pieces;
      ContentIsConcat(sha, chunks, low);
      ContentOneMore(sha, chunks, low, b);
    }
  }

  lemma ContentOneMore(sha: Bytes -> Hash, chunks: Chunks, low: seq<Bytes>, b: Bytes)
    requires Content(chunks, Refs(sha, low)) == Concat(low) && Covers(sha, chunks, b)
    ensures Content(chunks, Refs(sha, low + [b])) == Concat(low + [b])
  {
    RefsSnoc(sha, low, b);
    ContentSnoc(chunks, Refs(sha, low), ChunkRef(sha(b), |Concat(low)|, |b|));
  }

  lemma PieceIsUsed(p: Publication, chunks: Chunks, i: nat, j: nat)
    requires p.n > 0 && i < |p.srcs| && j < |FilePieces(p.srcs[i], p.n)|
    ensures FilePieces(p.srcs[i], p.n)[j] in Used(p, chunks)
  {
    var pieces := FilePieces(p.srcs[i], p.n);
    assert pieces[j] in pieces;
  }

  lemma PartIsUsed(p: Publication, chunks: Chunks, r: ChunkRef)
    requires p.n > 0 && r in Names(p) && GoodRef(p.sha, chunks, r)
    ensures Part(chunks, r) in Used(p, chunks)
  {
  }

  lemma SamePart(sha: Bytes -> Hash, chunks: Chunks, r: ChunkRef, b: Bytes, used: iset<Bytes>)
    requires NoCollision(sha, used) && GoodRef(sha, chunks, r) && b in used && Part(chunks, r) in used
    requires r.hash == sha(b) && r.size == |b|
    ensures Covers(sha, chunks, b)
  {
  }

  lemma GoodPartIsPiece(p: Publication, chunks: Chunks, i: nat, j: nat)
    requires Succeeded(p) && NoCollision(p.sha, Used(p, chunks)) && i < |p.srcs| && j < |FilePieces(p.srcs[i], p.n)|
    requires GoodRefs(p.sha, chunks, Refs(p.sha, FilePieces(p.srcs[i], p.n)))
    ensures Covers(p.sha, chunks, FilePieces(p.srcs[i], p.n)[j])
  {
    PieceIsNamed(p, i, j);
    var pieces := FilePieces(p.srcs[i], p.n);
    var r := Refs(p.sha, pieces)[j];
    PieceIsUsed(p, chunks, i, j);
    PartIsUsed(p, chunks, r);
    SamePart(p.sha, chunks, r, pieces[j], Used(p, chunks));
  }

  /** From whatever chunks a published file can be assembled, it is the source file. */
  lemma AssembledIsSource(p: Publication, chunks: Chunks, i: nat)
    requires Succeeded(p) && NoCollision(p.sha, Used(p, chunks)) && i < |p.srcs|
    requires GoodRefs(p.sha, chunks, EntryOf(p, i).chunks)
    ensures Content(chunks, EntryOf(p, i).chunks) == p.srcs[i].content
  {
    var pieces := FilePieces(p.srcs[i], p.n);
    assert EntryOf(p, i).chunks == Refs(p.sha, pieces);
    PiecesOfSource(p, i);
    forall b | b in pieces ensures Covers(p.sha, chunks, b) {
      var j :| 0 <= j < |pieces| && pieces[j] == b;
      GoodPartIsPiece(p, chunks, i, j);
    }
    ContentIsConcat(p.sha, chunks, pieces);
  }

  /** For any chunk map whatever, so also after evictions: a publication that can be materialized is materialized
      right, every source file byte for byte. */
  lemma MaterializedIsSource(p: Publication, chunks: Chunks, fs: Fs)
    requires Succeeded(p) && NoCollision(p.sha, Used(p, chunks)) && HoldsFiles(chunks, ManifestOf(p).files, fs)
    requires forall f :: f in ManifestOf(p).files ==> GoodRefs(p.sha, chunks, f.chunks)
    ensures Reproduced(p, fs)
  {
    forall i | 0 <= i < |p.srcs| ensures Content(chunks, EntryOf(p, i).chunks) == p.srcs[i].content {
      EntryOfSource(p, i);
      AssembledIsSource(p, chunks, i);
    }
    HeldIsSource(p, chunks, fs);
  }

  /** Of delivered chunks the materializer reads nothing but the pieces. */
  lemma DeliveredIsUsed(p: Publication, chunks: Chunks)
    requires Succeeded(p) && Delivered(p, chunks) && NoCollision(p.sha, Seen(p, chunks))
    ensures NoCollision(p.sha, Used(p, chunks))
  {
    forall b | b in Used(p, chunks) ensures b in Seen(p, chunks) {
      if r :| r in Names(p) && GoodRef(p.sha, chunks, r) && Part(chunks, r) == b {
        var k := ListedRefHasFile(ManifestOf(p).files, r);
        var i := SourceOfEntry(p, ManifestOf(p).files[k]);
        DeliveredRefIsPiece(p, chunks, i, r);
      }
    }
  }

  lemma DeliveredRefIsPiece(p: Publication, chunks: Chunks, i: nat, r: ChunkRef)
    requires Succeeded(p) && Delivered(p, chunks) && NoCollision(p.sha, Seen(p, chunks)) && i < |p.srcs|
    requires r in EntryOf(p, i).chunks
    ensures Part(chunks, r) in Seen(p, chunks)
  {
    var pieces := FilePieces(p.srcs[i], p.n);
    FetchedIsSource(p, chunks, i);
    var j := RefOfPieces(p.sha, chunks, pieces, r);
    assert pieces[j] in pieces;
  }

  lemma RefOfPieces(sha: Bytes -> Hash, chunks: Chunks, pieces: seq<Bytes>, r: ChunkRef) returns (j: nat)
    requires r in Refs(sha, pieces) && HasPieces(sha, chunks, pieces)
    ensures j < |pieces| && Part(chunks, r) == pieces[j]
  {
    RefsBytes(sha, pieces);
    j :| 0 <= j < |pieces| && Refs(sha, pieces)[j] == r;
    RefsAt(sha, pieces, j);
    PieceIsGood(sha, chunks, pieces[j], r.offset);
  }

  /** The audit of one published file is exact: it passes with the source's bytes, and otherwise only where an
      empty file is a directory of reported size zero. */
  lemma AuditIsExact(p: Publication, fs: Fs, destDir: string, dirSize: int, i: nat)
    requires Succeeded(p) && Usable(destDir) && i < |p.srcs|
    requires var x := Probe(fs, dirSize, Components(p.srcs[i].path));
             x.Bytes_? ==> NoCollision(p.sha, PiecesOf(FilePieces(p.srcs[i], p.n)) + SlicesOf(x.data))
    ensures Passes(p.sha, destDir, fs, dirSize, EntryOf(p, i)) <==>
            var x := Probe(fs, dirSize, Components(p.srcs[i].path));
            x == Bytes_(p.srcs[i].content) || (x == Directory(0) && p.srcs[i].content == [])
  {
    var pieces, f := FilePieces(p.srcs[i], p.n), EntryOf(p, i);
    EntryOfSource(p, i);
    PiecesOfSource(p, i);
    SafeJoinIsBelow(destDir, f.path);
    var x := Probe(fs, dirSize, KeyOf(f));
    if x.Bytes_? {
      AuditDecides(p.sha, pieces, f, x.data);
    } else if x.Directory? {
      FirstPiece(p.srcs[i], p.n);
      DirectoryAudit(p.sha, pieces, f, x);
    }
  }

  lemma SourcePasses(p: Publication, fs: Fs, destDir: string, dirSize: int, i: nat)
    requires Succeeded(p) && Usable(destDir) && Reproduced(p, fs) && i < |p.srcs|
    ensures Passes(p.sha, destDir, fs, dirSize, EntryOf(p, i))
  {
    var pieces, f := FilePieces(p.srcs[i], p.n), EntryOf(p, i);
    EntryOfSource(p, i);
    PiecesOfSource(p, i);
    SafeJoinIsBelow(destDir, f.path);
    RefsBytes(p.sha, pieces);
    forall j | 0 <= j < |f.chunks| ensures ChunkMatches(p.sha, Bytes_(Concat(pieces)), f.chunks[j]) {
      RefsMatch(p.sha, pieces, j);
    }
  }

  lemma ReproducedPasses(p: Publication, fs: Fs, destDir: string, dirSize: int)
    requires Succeeded(p) && Usable(destDir) && Reproduced(p, fs)
    ensures forall f :: f in ManifestOf(p).files ==> Passes(p.sha, destDir, fs, dirSize, f)
  {
    forall f | f in ManifestOf(p).files ensures Passes(p.sha, destDir, fs, dirSize, f) {
      var i := SourceOfEntry(p, f);
      SourcePasses(p, fs, destDir, dirSize, i);
    }
  }

  // --- End to end ---

  /** The plan of a sync is what the scan finds on the node's disk. */
  function MissingIn(p: Publication, k: D.History): set<Hash>
    requires p.n > 0 && D.Scanned(k).Some?
  {
    SyncScan.Missing(D.Scanned(k).value.chunks, Names(p))
  }

  function SkippedIn(p: Publication, k: D.History): set<Hash>
    requires p.n > 0 && D.Scanned(k).Some?
  {
    SyncScan.Skipped(D.Scanned(k).value.chunks, Names(p))
  }

  /** A sync of the publication ended without an error, in a run in which anything may have been evicted. */
  ghost predicate Fetched(p: Publication, k: D.History, chunks: Chunks)
    requires p.n > 0
  {
    && k.c.sha == p.sha && D.Scanned(k).Some? && D.Ends(k, MissingIn(p, k), SkippedIn(p, k))
    && chunks == D.Outcome(k, MissingIn(p, k), SkippedIn(p, k)).value.chunks
  }

  /** None of the publication's own chunks was evicted after the scan. */
  ghost predicate Undisturbed(p: Publication, k: D.History)
    requires p.n > 0
  {
    D.Scanned(k).Some? && D.Succeeds(k, MissingIn(p, k), SkippedIn(p, k))
  }

  /** However the node's threads, peers and origin behave, a sync that ends without an error has delivered the
      publication, unless one of its chunks was evicted after the scan. */
  lemma SyncDelivers(p: Publication, k: D.History, chunks: Chunks)
    requires p.n > 0 && Fetched(p, k, chunks) && Undisturbed(p, k)
    ensures Delivered(p, chunks)
  {
    var missing, skipped := MissingIn(p, k), SkippedIn(p, k);
    SyncScan.PlanCovers(D.Scanned(k).value.chunks, Names(p));
    D.SyncDelivers(k, missing, skipped);
    NodeSafety.EveryRunIsSafe(k.s0, k.c, k.before + D.Tail(k, missing, skipped));
    forall i, j | 0 <= i < |p.srcs| && 0 <= j < |FilePieces(p.srcs[i], p.n)|
      ensures p.sha(FilePieces(p.srcs[i], p.n)[j]) in chunks
    {
      PieceIsNamed(p, i, j);
      var r := Refs(p.sha, FilePieces(p.srcs[i], p.n))[j];
      assert r.hash in missing + skipped;
    }
  }

  /** Materialize a published manifest from any chunks whatever, and audit if that worked: then every source file is
      reproduced byte for byte, and the report says that all files are valid.  From delivered chunks it works exactly
      if the targets are free. */
  method MaterializeVerify(sha: Bytes -> Hash, digest: Digest, ghost p: Publication, m: Artifact, chunks: Chunks,
      fs: Fs, destDir: string, overwrite: bool, dirSize: int)
    returns (ok: bool, report: Option<Report>, fs': Fs)
    requires p.sha == sha && p.digest == digest && Succeeded(p) && m == ManifestOf(p)
    requires NoCollision(p.sha, Used(p, chunks)) && WellFormed(fs) && Usable(destDir)
    ensures ok ==> Reproduced(p, fs') && After(fs, fs', KeysOf(m.files)) && report.Some?
    ensures ok ==> report.value.allValid && report.value.validFiles == report.value.totalFiles == |p.srcs|
    ensures Spares(fs, fs', KeysOf(m.files))
    ensures Delivered(p, chunks) && NoCollision(p.sha, Seen(p, chunks)) ==>
              (ok <==> Free(fs, overwrite, KeysOf(m.files)))
  {
    report := None;
    PublishedIsValid(p);
    if Delivered(p, chunks) && NoCollision(p.sha, Seen(p, chunks)) {
      DeliveredCanMaterialize(p, chunks, fs, overwrite);
    }
    ok, fs' := Materialize(sha, digest, m, chunks, fs, destDir, overwrite, {}, |m.files|);
    if !ok {
      return;
    }
    MaterializedIsSource(p, chunks, fs');
    report := Audit(sha, digest, p, m, fs', destDir, dirSize);
  }

  method Audit(sha: Bytes -> Hash, digest: Digest, ghost p: Publication, m: Artifact, fs: Fs, destDir: string,
      dirSize: int)
    returns (report: Option<Report>)
    requires p.sha == sha && p.digest == digest && Succeeded(p) && m == ManifestOf(p)
    requires Usable(destDir) && Reproduced(p, fs)
    ensures report.Some? && report.value.allValid
    ensures report.value.validFiles == report.value.totalFiles == |p.srcs|
  {
    PublishedIsValid(p);
    ReproducedPasses(p, fs, destDir, dirSize);
    report := VerifyMaterializedDirectory(sha, digest, m, fs, destDir, dirSize);
    FinalizedFields(p.digest, Draft(p.sha, p.n, p.name, p.version, p.srcs));
  }

  /** Publish on one node; scan the disk of another and sync it, in any run of its threads with any evictions, to an
      end without an error; materialize there, audit.  If the materializer reports success, every source file is
      reproduced byte for byte and the report says that all files are valid; and it does report success if none of
      the chunks was evicted after the scan and the targets are free. */
  method PublishSyncVerify(a: Publisher, srcs: seq<SourceFile>, name: string, version: string, b: Store,
      ghost k: D.History, chunks: Chunks, fs: Fs, destDir: string, overwrite: bool, dirSize: int)
    returns (items: seq<SyncScan.WorkItem>, ok: bool, report: Option<Report>, fs': Fs)
    requires a.cache.Valid() && Succeeded(Publication(a.cache.sha, a.digest, a.chunkSize, name, version, srcs))
    requires var p := Publication(a.cache.sha, a.digest, a.chunkSize, name, version, srcs);
             && Fetched(p, k, chunks) && b.chunks == D.Scanned(k).value.chunks && NoCollision(p.sha, Used(p, chunks))
             && WellFormed(fs) && Usable(destDir)
    requires b != a.cache
    modifies a.cache
    ensures var p := Publication(a.cache.sha, a.digest, a.chunkSize, name, version, srcs);
            && (set x | x in items :: x.hash) == SyncScan.Missing(b.chunks, Names(p))
            && Spares(fs, fs', KeysOf(ManifestOf(p).files))
    ensures var p := Publication(a.cache.sha, a.digest, a.chunkSize, name, version, srcs);
            ok ==> Reproduced(p, fs') && After(fs, fs', KeysOf(ManifestOf(p).files)) && report.Some?
    ensures ok ==> report.value.allValid && report.value.validFiles == report.value.totalFiles == |srcs|
    ensures var p := Publication(a.cache.sha, a.digest, a.chunkSize, name, version, srcs);
            Undisturbed(p, k) && NoCollision(p.sha, Seen(p, chunks)) ==>
              (ok <==> Free(fs, overwrite, KeysOf(ManifestOf(p).files)))
  {
    ghost var p := Publication(a.cache.sha, a.digest, a.chunkSize, name, version, srcs);
    var r := a.Publish(srcs, name, version);
    var skipped;
    items, skipped := SyncScan.Scan(b, r.value);
    if Undisturbed(p, k) {
      SyncDelivers(p, k, chunks);
    }
    ok, report, fs' := MaterializeVerify(a.cache.sha, a.digest, p, r.value, chunks, fs, destDir, overwrite, dirSize);
  }

  // --- The premises can be met ---

  const ONE: Bytes := [1]

  /** A tree of one file of one byte; the digest tells it from everything else. */
  function OneByteFile(name: Hash, other: Hash): Publication {
    Publication((b: Bytes) => if b == ONE then name else other, (m: Artifact) => name, 1, "a", "1",
                [SourceFile("x", 1, "", ONE, false)])
  }

  lemma OneByteFileSucceeds(name: Hash, other: Hash)
    requires ValidName(name)
    ensures Succeeded(OneByteFile(name, other)) && FilePieces(OneByteFile(name, other).srcs[0], 1) == [ONE]
  {
    var p := OneByteFile(name, other);
    PlainPath();
    ValidPathIsInside("x");
    EntryIsWellMade(p.sha, 1, p.srcs[0]);
    assert Entries(p.sha, 1, p.srcs)[0] == EntryFor(p.sha, 1, p.srcs[0]);
    assert "a"[0] in "a" && "1"[0] in "1" && !IsSpace('a') && !IsSpace('1');
  }

  /** An empty node that fetches one chunk: start, take the item, one attempt at a peer, count, quit. */
  lemma FetchingSync(c: Node.Config, name: Hash) returns (k: D.History)
    requires ValidName(name) && c.sha(ONE) == name && c.tries(name) == 1
    ensures k.c == c && D.Scanned(k) == Some(k.s0) && k.s0.chunks == map[]
    ensures D.Succeeds(k, {name}, {}) && D.Outcome(k, {name}, {}).value.chunks == map[name := ONE]
  {
    var s0 := Node.State(map[], map[], map[], None, 0, {}, {}, {}, map[], map[]);
    var s3, work := WorkOnOne(s0, c, name);
    k := D.History(s0, c, [], [], 0, {0}, {}, work);
    var start := Node.StartSync(0, {0}, {name}, {}, {});
    assert k.before + D.Tail(k, {name}, {}) == [start] + work;
  }

  lemma WorkOnOne(s0: Node.State, c: Node.Config, name: Hash) returns (s3: Node.State, work: seq<Node.Action>)
    requires ValidName(name) && c.sha(ONE) == name && c.tries(name) == 1
    requires s0 == Node.State(map[], map[], map[], None, 0, {}, {}, {}, map[], map[])
    ensures Node.Exec(s0, c, [Node.StartSync(0, {0}, {name}, {}, {})] + work) == Some(s3) && NodeFetch.OwnSteps(work, 0)
    ensures s3.chunks == map[name := ONE] && s3.threads == map[0 := Node.Thread(Node.Worker(0), Node.Stopped)]
    ensures 0 in s3.syncs && !s3.syncs[0].err
  {
    var start := Node.StartSync(0, {0}, {name}, {}, {});
    var s1 := TakesOne(s0, c, name);
    var s2, mid := FetchesOne(s1, c, name);
    var last;
    s3, last := CountsOne(s2, c, name);
    var take := Node.By(0, Node.Take(name));
    ThreeRuns(s0, c, [start, take], s1, mid, s2, last);
    work := [take] + mid + last;
    Regrouped(start, take, mid, last);
  }

  lemma Regrouped(start: Node.Action, take: Node.Action, mid: seq<Node.Action>, last: seq<Node.Action>)
    ensures [start] + ([take] + mid + last) == [start, take] + mid + last
  {
  }

  lemma ThreeRuns(s0: Node.State, c: Node.Config, a: seq<Node.Action>, s1: Node.State, b: seq<Node.Action>,
      s2: Node.State, d: seq<Node.Action>)
    requires Node.Exec(s0, c, a) == Some(s1) && Node.Exec(s1, c, b) == Some(s2)
    ensures Node.Exec(s0, c, a + b + d) == Node.Exec(s2, c, d)
  {
    Node.ExecConcat(s0, c, a, b);
    Node.ExecConcat(s0, c, a + b, d);
  }

  lemma TakesOne(s0: Node.State, c: Node.Config, name: Hash) returns (s1: Node.State)
    requires s0 == Node.State(map[], map[], map[], None, 0, {}, {}, {}, map[], map[])
    ensures Node.Exec(s0, c, [Node.StartSync(0, {0}, {name}, {}, {}), Node.By(0, Node.Take(name))]) == Some(s1)
    ensures s1.threads == map[0 := Node.Thread(Node.Worker(0), Node.Chose(name, c.tries(name)))]
    ensures s1.chunks == map[] == s1.partials && s1.holder == map[] && s1.mutex == None && 0 in s1.syncs
    ensures s1.syncs[0] == Node.Sync({name}, {}, {}, {}, {}, [name], false, 0, 0, 0, {})
  {
    var start, take := Node.StartSync(0, {0}, {name}, {}, {}), Node.By(0, Node.Take(name));
    var s := Node.Apply(s0, c, start);
    assert s.threads == map[0 := Node.Thread(Node.Worker(0), Node.Idle)];
    s1 := Node.Apply(s, c, take);
    NodeFetch.ExecOne(s0, c, start);
    NodeFetch.ExecThen(s0, c, [start], s, take);
    assert [start] + [take] == [start, take];
  }

  lemma FetchesOne(s1: Node.State, c: Node.Config, name: Hash) returns (s2: Node.State, run: seq<Node.Action>)
    requires ValidName(name) && c.sha(ONE) == name && s1.chunks == map[] && s1.holder == map[] && s1.mutex == None
    requires s1.threads == map[0 := Node.Thread(Node.Worker(0), Node.Chose(name, 1))]
    ensures Node.Exec(s1, c, run) == Some(s2) && NodeFetch.OwnSteps(run, 0)
    ensures s2.chunks == map[name := ONE] && s2.syncs == s1.syncs
    ensures s2.threads == map[0 := Node.Thread(Node.Worker(0), Node.Got(name, Node.Peer(0)))]
  {
    run := NodeFetch.PeerRun(s1, c, 0, true, ONE, NodeFetch.Commit);
    NodeFetch.PutDisk(c.sha, NodeFetch.DiskOf(s1), name, ONE);
    s2 := Node.Exec(s1, c, run).value;
  }

  lemma CountsOne(s2: Node.State, c: Node.Config, name: Hash) returns (s3: Node.State, run: seq<Node.Action>)
    requires s2.threads == map[0 := Node.Thread(Node.Worker(0), Node.Got(name, Node.Peer(0)))] && 0 in s2.syncs
    requires s2.syncs[0] == Node.Sync({name}, {}, {}, {}, {}, [name], false, 0, 0, 0, {})
    ensures Node.Exec(s2, c, run) == Some(s3) && NodeFetch.OwnSteps(run, 0) && s3.chunks == s2.chunks
    ensures s3.threads == map[0 := Node.Thread(Node.Worker(0), Node.Stopped)] && 0 in s3.syncs && !s3.syncs[0].err
  {
    var count, quit := Node.By(0, Node.Count), Node.By(0, Node.Quit);
    var s := Node.Apply(s2, c, count);
    s3 := Node.Apply(s, c, quit);
    NodeFetch.ExecOne(s2, c, count);
    NodeFetch.ExecThen(s2, c, [count], s, quit);
    run := [count] + [quit];
  }

  lemma OneName(name: Hash, other: Hash, r: ChunkRef)
    requires ValidName(name) && r in Names(OneByteFile(name, other))
    ensures r == ChunkRef(name, 0, 1)
  {
    var p := OneByteFile(name, other);
    var k := ListedRefHasFile(ManifestOf(p).files, r);
    var i := SourceOfEntry(p, ManifestOf(p).files[k]);
    OneByteFileSucceeds(name, other);
    RefsOfOne(p.sha, ONE);
    assert i == 0 && EntryOf(p, 0).chunks == Refs(p.sha, FilePieces(p.srcs[0], p.n));
  }

  lemma RefsOfOne(sha: Bytes -> Hash, b: Bytes)
    ensures Refs(sha, [b]) == [ChunkRef(sha(b), 0, |b|)]
  {
    RefsSnoc(sha, [], b);
    assert [] + [b] == [b] && Refs(sha, []) == [] && Concat([]) == [];
  }

  lemma OnePlan(name: Hash, other: Hash)
    requires ValidName(name)
    ensures var refs := Names(OneByteFile(name, other));
            SyncScan.Missing(map[], refs) == {name} && SyncScan.Skipped(map[], refs) == {}
  {
    var p := OneByteFile(name, other);
    var refs := Names(p);
    forall r | r in refs ensures r == ChunkRef(name, 0, 1) {
      OneName(name, other, r);
    }
    var r := SomeName(name, other);
    PlanOfOne(refs, r);
  }

  lemma SomeName(name: Hash, other: Hash) returns (r: ChunkRef)
    requires ValidName(name)
    ensures r in Names(OneByteFile(name, other))
  {
    var p := OneByteFile(name, other);
    OneByteFileSucceeds(name, other);
    PieceIsNamed(p, 0, 0);
    r := Refs(p.sha, FilePieces(p.srcs[0], p.n))[0];
  }

  lemma PlanOfOne(refs: seq<ChunkRef>, r: ChunkRef)
    requires r in refs && forall x :: x in refs ==> x == r
    ensures SyncScan.Missing(map[], refs) == {r.hash} && SyncScan.Skipped(map[], refs) == {}
  {
    assert !SyncScan.Reusable(map[], r);
    assert r.hash in SyncScan.Missing(map[], refs);
  }

  /** A worker of an empty node fetches the one chunk of a published tree; all premises of the round trip hold. */
  lemma PremisesCanBeMet(name: Hash, other: Hash) returns (k: D.History)
    requires ValidName(name) && name != other
    ensures var p, chunks: Chunks := OneByteFile(name, other), map[name := ONE];
            && Succeeded(p) && Fetched(p, k, chunks) && Undisturbed(p, k)
            && NoCollision(p.sha, Used(p, chunks)) && NoCollision(p.sha, Seen(p, chunks))
    ensures Free(Fs(map[], {}), true, KeysOf(ManifestOf(OneByteFile(name, other)).files))
  {
    var p, chunks: Chunks := OneByteFile(name, other), map[name := ONE];
    OneByteFileSucceeds(name, other);
    k := FetchingSync(Node.Config(p.sha, 1, (h: Hash) => 1), name);
    OnePlan(name, other);
    SyncDelivers(p, k, chunks);
    OneIsSeen(name, other);
    DeliveredIsUsed(p, chunks);
    OneTarget(name, other);
  }

  lemma OneIsSeen(name: Hash, other: Hash)
    requires ValidName(name)
    ensures NoCollision(OneByteFile(name, other).sha, Seen(OneByteFile(name, other), map[name := ONE]))
  {
    OneByteFileSucceeds(name, other);
    forall b | b in Seen(OneByteFile(name, other), map[name := ONE]) ensures b == ONE {
    }
  }

  lemma OneTarget(name: Hash, other: Hash)
    requires ValidName(name)
    ensures Free(Fs(map[], {}), true, KeysOf(ManifestOf(OneByteFile(name, other)).files))
  {
    var p := OneByteFile(name, other);
    OneByteFileSucceeds(name, other);
    forall key | key in KeysOf(ManifestOf(p).files) ensures |key| == 1 {
      var f :| f in ManifestOf(p).files && KeyOf(f) == key;
      var i := SourceOfEntry(p, f);
      EntryOfSource(p, i);
      PlainComponents();
    }
  }

  lemma PlainComponents()
    ensures Components("x") == ["x"]
  {
    SplitPiece("x");
  }
}
