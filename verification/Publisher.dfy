/** Publishing a file tree: chunk every file into the cache and write the manifest. */
module Publisher {
  import opened Base
  import opened ChunkStore
  import opened Paths
  import opened Manifest
  import opened Chunker

  /** A listed file: `size` is what the listing said, `content` what reading delivers; `broken` if opening or reading
      fails. */
  datatype SourceFile = SourceFile(path: string, size: int, mode: string, content: Bytes, broken: bool)

  /** An empty file is one empty piece. */
  function FilePieces(src: SourceFile, n: nat): seq<Bytes>
    requires n > 0
  {
    if src.content != [] then Pieces(src.content, n) else if src.size == 0 then [[]] else []
  }

  function EntryFor(sha: Bytes -> Hash, n: nat, src: SourceFile): FileEntry
    requires n > 0
  {
    FileEntry(src.path, src.size, if src.mode == "" then "0644" else src.mode, Refs(sha, FilePieces(src, n)))
  }

  function Entries(sha: Bytes -> Hash, n: nat, srcs: seq<SourceFile>): seq<FileEntry>
    requires n > 0
  {
    seq(|srcs|, i requires 0 <= i < |srcs| => EntryFor(sha, n, srcs[i]))
  }

  function Draft(sha: Bytes -> Hash, n: nat, name: string, version: string, srcs: seq<SourceFile>): Artifact
    requires n > 0
  {
    Artifact(CURRENT_SCHEMA, "", name, version, n, 0, Entries(sha, n, srcs))
  }

  ghost predicate CanPublish(sha: Bytes -> Hash, digest: Digest, n: nat, name: string, version: string,
      srcs: seq<SourceFile>)
    requires n > 0
  {
    && srcs != [] && (forall i :: 0 <= i < |srcs| ==> !srcs[i].broken)
    && WellMade(Draft(sha, n, name, version, srcs))
    && ValidName(Finalized(digest, Draft(sha, n, name, version, srcs)).artifactID)
  }

  lemma RefOk(sha: Bytes -> Hash, pieces: seq<Bytes>, i: nat)
    requires i < |pieces| && |Concat(pieces)| < INT64_LIMIT
    ensures |Refs(sha, pieces)| == |pieces|
    ensures var r := Refs(sha, pieces)[i];
            r.hash == sha(pieces[i]) && r.size >= 0 && r.offset == Wrap(ChunkBytes(Refs(sha, pieces)[..i]))
  {
    RefsTile(sha, pieces, i);
    RefsAt(sha, pieces, i);
    PieceAt(pieces, i);
    WrapRange(ChunkBytes(Refs(sha, pieces)[..i]));
  }

  lemma RefsOk(sha: Bytes -> Hash, pieces: seq<Bytes>)
    requires |Concat(pieces)| < INT64_LIMIT
    ensures ChunksOk(Refs(sha, pieces)) <==> forall i :: 0 <= i < |pieces| ==> ValidName(sha(pieces[i]))
  {
    RefsBytes(sha, pieces);
    NamesOfOkRefs(sha, pieces);
    OkRefsOfNames(sha, pieces);
  }

  lemma NamesOfOkRefs(sha: Bytes -> Hash, pieces: seq<Bytes>)
    requires |Refs(sha, pieces)| == |pieces|
    ensures ChunksOk(Refs(sha, pieces)) ==> forall i :: 0 <= i < |pieces| ==> ValidName(sha(pieces[i]))
  {
    var refs := Refs(sha, pieces);
    if ChunksOk(refs) {
      forall i | 0 <= i < |pieces| ensures ValidName(sha(pieces[i])) {
        RefsAt(sha, pieces, i);
        assert ValidName(refs[i].hash);
      }
    }
  }

  lemma OkRefsOfNames(sha: Bytes -> Hash, pieces: seq<Bytes>)
    requires |Concat(pieces)| < INT64_LIMIT && |Refs(sha, pieces)| == |pieces|
    ensures (forall i :: 0 <= i < |pieces| ==> ValidName(sha(pieces[i]))) ==> ChunksOk(Refs(sha, pieces))
  {
    var refs := Refs(sha, pieces);
    if forall i :: 0 <= i < |pieces| ==> ValidName(sha(pieces[i])) {
      forall i | 0 <= i < |refs|
        ensures ValidName(refs[i].hash) && refs[i].size >= 0 && refs[i].offset == Wrap(ChunkBytes(refs[..i]))
      {
        RefOk(sha, pieces, i);
      }
    }
  }

  /** What is wrong with a file's entry can only be its path, its listed size, or a digest that is no name. */
  lemma EntryIsWellMade(sha: Bytes -> Hash, n: nat, src: SourceFile)
    requires n > 0 && |src.content| < INT64_LIMIT
    ensures FileWellMade(EntryFor(sha, n, src)) <==>
            && Inside(src.path) && src.size == |src.content|
            && forall i :: 0 <= i < |FilePieces(src, n)| ==> ValidName(sha(FilePieces(src, n)[i]))
  {
    FilePiecesWhole(src, n);
    RefsBytes(sha, FilePieces(src, n));
    RefsOk(sha, FilePieces(src, n));
    WrapRange(|src.content|);
  }

  lemma EmptyPiece()
    ensures var none: seq<Bytes> := [[]]; none[..0] == [] && Concat(none) == []
  {
    var none: seq<Bytes> := [[]];
    assert none[..0] == [];
  }

  lemma FilePiecesWhole(src: SourceFile, n: nat)
    requires n > 0
    ensures src.content != [] || src.size == 0 ==> FilePieces(src, n) != []
    ensures Concat(FilePieces(src, n)) == src.content
  {
    PiecesChunk(src.content, n);
    EmptyPiece();
  }

  /** Nothing already there was lost or changed. */
  ghost predicate Grown(was: map<Hash, Bytes>, now: map<Hash, Bytes>) {
    forall h :: h in was ==> h in now && now[h] == was[h]
  }

  class Publisher {
    const cache: Store
    const digest: Digest
    const chunkSize: nat

    constructor (cache: Store, digest: Digest, chunkSize: int)
      ensures this.cache == cache && this.digest == digest
      ensures this.chunkSize == (if chunkSize <= 0 then DEFAULT_CHUNK_SIZE else chunkSize) && this.chunkSize > 0
    {
      this.cache, this.digest := cache, digest;
      this.chunkSize := if chunkSize <= 0 then DEFAULT_CHUNK_SIZE else chunkSize;
    }

    /** Puts one piece unless its name is already cached. */
    method StorePiece(data: Bytes) returns (ok: bool)
      requires cache.Valid()
      modifies cache
      ensures cache.Valid() && Grown(old(cache.chunks), cache.chunks)
      ensures ok <==> ValidName(cache.sha(data))
      ensures ok ==> cache.sha(data) in cache.chunks
    {
      ok := cache.HasValidCommittedChunk(cache.sha(data), 0);
      if !ok {
        ok := cache.PutChunk(cache.sha(data), data);
      }
    }

    /** What the chunking of one file calls for every chunk: cache it and note its reference. */
    method StorePieces(ghost pieces: seq<Bytes>, chunks: seq<Chunk>) returns (ok: bool, refs: seq<ChunkRef>)
      requires cache.Valid() && chunks == Chunks(cache.sha, pieces)
      modifies cache
      ensures cache.Valid() && Grown(old(cache.chunks), cache.chunks)
      ensures ok ==> refs == Refs(cache.sha, pieces) && forall i :: 0 <= i < |refs| ==> refs[i].hash in cache.chunks
      ensures !ok ==> Unnameable(cache.sha, pieces)
    {
      refs := [];
      RefsBytes(cache.sha, pieces);
      for i := 0 to |chunks|
        invariant cache.Valid() && Grown(old(cache.chunks), cache.chunks)
        invariant refs == Refs(cache.sha, pieces)[..i] && forall k :: 0 <= k < i ==> refs[k].hash in cache.chunks
      {
        RefsAt(cache.sha, pieces, i);
        ok := StorePiece(chunks[i].data);
        if !ok {
          return;
        }
        refs := refs + [ChunkRef(chunks[i].hash, chunks[i].offset, chunks[i].size)];
      }
      ok := true;
    }

    /** Chunks one file into the cache and lists the references. */
    method PublishFile(src: SourceFile) returns (ok: bool, f: FileEntry)
      requires cache.Valid() && chunkSize > 0
      modifies cache
      ensures cache.Valid() && Grown(old(cache.chunks), cache.chunks)
      ensures ok ==> !src.broken && f == EntryFor(cache.sha, chunkSize, src)
      ensures ok ==> f.path == src.path && f.size == src.size && f.mode == if src.mode == "" then "0644" else src.mode
      ensures !ok ==> src.broken || Unnameable(cache.sha, Pieces(src.content, chunkSize))
      ensures ok ==> HasRefs(cache.chunks, f)
    {
      var chunks, whole := ChunkStream(cache.sha, src.content, chunkSize, src.broken);
      f := FileEntry(src.path, src.size, if src.mode == "" then "0644" else src.mode, []);
      var refs;
      ok, refs := StorePieces(Pieces(src.content, chunkSize), chunks);
      if !ok {
        return;
      }
      if !whole {
        return false, f;
      }
      RefsBytes(cache.sha, Pieces(src.content, chunkSize));
      PiecesChunk(src.content, chunkSize);
      if |refs| == 0 && src.size == 0 {
        EmptyFile(cache.sha, chunkSize, src);
        var stored := StorePiece([]);
        refs := [ChunkRef(cache.sha([]), 0, 0)];
      }
      f := f.(chunks := refs);
    }

    /** The loop over the listed files. */
    method PublishFiles(srcs: seq<SourceFile>) returns (ok: bool, files: seq<FileEntry>)
      requires cache.Valid() && chunkSize > 0
      modifies cache
      ensures cache.Valid() && Grown(old(cache.chunks), cache.chunks)
      ensures ok ==> files == Entries(cache.sha, chunkSize, srcs) && forall i :: 0 <= i < |srcs| ==> !srcs[i].broken
      ensures !ok ==> exists i ::
                0 <= i < |srcs| && (srcs[i].broken || Unnameable(cache.sha, Pieces(srcs[i].content, chunkSize)))
      ensures ok ==> HasAll(cache.chunks, files)
    {
      files := [];
      for i := 0 to |srcs|
        invariant cache.Valid() && Grown(old(cache.chunks), cache.chunks)
        invariant files == Entries(cache.sha, chunkSize, srcs)[..i] && forall k :: 0 <= k < i ==> !srcs[k].broken
        invariant HasAll(cache.chunks, files)
      {
        ghost var was := cache.chunks;
        var f;
        ok, f := PublishFile(srcs[i]);
        if !ok {
          return;
        }
        GrownHasAll(was, cache.chunks, files, f);
        files := files + [f];
      }
      ok := true;
    }

    /** Succeeds exactly if `CanPublish`; the manifest is then the finalized draft, it is valid, and every chunk it
        names is in the cache.  Nothing that was cached is lost, whatever happens. */
    method Publish(srcs: seq<SourceFile>, name: string, version: string) returns (r: Result<Artifact>)
      requires cache.Valid() && chunkSize > 0
      modifies cache
      ensures cache.Valid() && Grown(old(cache.chunks), cache.chunks)
      ensures r.Ok? <==> CanPublish(cache.sha, digest, chunkSize, name, version, srcs)
      ensures r.Ok? ==>
                r.value == Finalized(digest, Draft(cache.sha, chunkSize, name, version, srcs)) && Valid(digest, r.value)
      ensures r.Ok? ==> forall i :: 0 <= i < |srcs| ==> HoldsAll(cache.chunks, Entries(cache.sha, chunkSize, srcs)[i])
    {
      if |srcs| == 0 {
        return Err("no files found");
      }
      var ok, files := PublishFiles(srcs);
      if !ok {
        NotWellMade(cache.sha, chunkSize, name, version, srcs);
        return Err("failed to chunk file");
      }
      var m := new ArtifactManifest(digest, name, version, chunkSize, files);
      FinalizedIsValid(digest, m.Value());
      m.Finalize();
      var valid := Validate(digest, m.Value());
      if !valid || !ValidName(m.artifactID) {
        return Err("failed to save manifest");
      }
      AllNamed(cache.chunks, files);
      r := Ok(m.Value());
    }
  }

  /** Some piece has a digest that is no chunk name. */
  ghost predicate Unnameable(sha: Bytes -> Hash, pieces: seq<Bytes>) {
    exists i :: 0 <= i < |pieces| && !ValidName(sha(pieces[i]))
  }

  ghost predicate HoldsAll(chunks: map<Hash, Bytes>, f: FileEntry) {
    forall j :: 0 <= j < |f.chunks| ==> f.chunks[j].hash in chunks
  }

  /** The same for the references that name a chunk; a failure to cache the empty chunk is ignored. */
  ghost predicate HasRefs(chunks: map<Hash, Bytes>, f: FileEntry) {
    forall j :: 0 <= j < |f.chunks| && ValidName(f.chunks[j].hash) ==> f.chunks[j].hash in chunks
  }

  ghost predicate HasAll(chunks: map<Hash, Bytes>, files: seq<FileEntry>) {
    forall f :: f in files ==> HasRefs(chunks, f)
  }

  lemma AllNamed(chunks: map<Hash, Bytes>, files: seq<FileEntry>)
    requires HasAll(chunks, files) && FilesWellMade(files)
    ensures forall i :: 0 <= i < |files| ==> HoldsAll(chunks, files[i])
  {
    forall i | 0 <= i < |files| ensures HoldsAll(chunks, files[i]) {
      assert FileWellMade(files[i]) && files[i] in files;
    }
  }

  lemma GrownHasAll(was: map<Hash, Bytes>, now: map<Hash, Bytes>, files: seq<FileEntry>, f: FileEntry)
    requires Grown(was, now) && HasAll(was, files) && HasRefs(now, f)
    ensures HasAll(now, files + [f])
  {
  }

  lemma NotWellMade(sha: Bytes -> Hash, n: nat, name: string, version: string, srcs: seq<SourceFile>)
    requires n > 0 && exists i :: 0 <= i < |srcs| && (srcs[i].broken || Unnameable(sha, Pieces(srcs[i].content, n)))
    ensures (exists i :: 0 <= i < |srcs| && srcs[i].broken) || !WellMade(Draft(sha, n, name, version, srcs))
  {
    var i :| 0 <= i < |srcs| && (srcs[i].broken || Unnameable(sha, Pieces(srcs[i].content, n)));
    if !srcs[i].broken {
      ShortName(sha, n, srcs[i]);
      assert Draft(sha, n, name, version, srcs).files[i] == EntryFor(sha, n, srcs[i]);
    }
  }

  lemma ShortName(sha: Bytes -> Hash, n: nat, src: SourceFile)
    requires n > 0 && Unnameable(sha, Pieces(src.content, n))
    ensures !FileWellMade(EntryFor(sha, n, src))
  {
    var i :| 0 <= i < |Pieces(src.content, n)| && !ValidName(sha(Pieces(src.content, n)[i]));
    RefsAt(sha, Pieces(src.content, n), i);
  }

  lemma EmptyFile(sha: Bytes -> Hash, n: nat, src: SourceFile)
    requires n > 0 && src.size == 0 && Pieces(src.content, n) == []
    ensures EntryFor(sha, n, src).chunks == [ChunkRef(sha([]), 0, 0)]
  {
    PiecesChunk(src.content, n);
    EmptyPiece();
  }
}
