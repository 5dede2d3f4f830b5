/** Rebuilding the files of a manifest from cached chunks, by copy, and auditing the result. */
module Materializer {
  import opened Base
  import opened ChunkStore
  import opened Paths
  import opened Manifest
  import opened Tree

  type Chunks = map<Hash, Bytes>

  // --- One file ---

  /** The cached chunk has at least the bytes the reference asks for, and those hash to its name. */
  ghost predicate GoodRef(sha: Bytes -> Hash, chunks: Chunks, r: ChunkRef) {
    ValidName(r.hash) && r.hash in chunks && 0 <= r.size <= |chunks[r.hash]| && sha(chunks[r.hash][..r.size]) == r.hash
  }

  ghost predicate GoodRefs(sha: Bytes -> Hash, chunks: Chunks, refs: seq<ChunkRef>) {
    forall i :: 0 <= i < |refs| ==> GoodRef(sha, chunks, refs[i])
  }

  function Part(chunks: Chunks, r: ChunkRef): Bytes {
    if r.hash in chunks && 0 <= r.size <= |chunks[r.hash]| then chunks[r.hash][..r.size] else []
  }

  function Content(chunks: Chunks, refs: seq<ChunkRef>): Bytes {
    if refs == [] then [] else Content(chunks, refs[..|refs| - 1]) + Part(chunks, refs[|refs| - 1])
  }

  /** A file can be assembled: every chunk is good and together they have the declared size. */
  ghost predicate Assembles(sha: Bytes -> Hash, chunks: Chunks, f: FileEntry) {
    GoodRefs(sha, chunks, f.chunks) && ChunkBytes(f.chunks) == f.size
  }

  lemma {:induction false} ContentLength(sha: Bytes -> Hash, chunks: Chunks, refs: seq<ChunkRef>)
    requires GoodRefs(sha, chunks, refs)
    ensures |Content(chunks, refs)| == ChunkBytes(refs)
    decreases |refs|
  {
    if refs != [] {
      ContentLength(sha, chunks, refs[..|refs| - 1]);
    }
  }

  /** The copy loop: `n` bytes of each chunk, checked for length and digest; then the total. */
  method Assemble(sha: Bytes -> Hash, chunks: Chunks, f: FileEntry) returns (ok: bool, data: Bytes, remove: bool)
    ensures ok <==> Assembles(sha, chunks, f)
    ensures ok ==> data == Content(chunks, f.chunks) && !remove
  {
    data, remove := [], false;
    for i := 0 to |f.chunks|
      invariant GoodRefs(sha, chunks, f.chunks[..i]) && data == Content(chunks, f.chunks[..i])
    {
      var r := f.chunks[i];
      assert f.chunks[..i + 1][..i] == f.chunks[..i];
      if !ValidName(r.hash) || r.hash !in chunks {
        return false, data, false;
      }
      var n := Min(if r.size < 0 then 0 else r.size, |chunks[r.hash]|);
      var part := chunks[r.hash][..n];
      if n != r.size {
        return false, data + part, false;
      }
      if sha(part) != r.hash {
        return false, data + part, true;
      }
      data := data + part;
    }
    assert f.chunks[..|f.chunks|] == f.chunks;
    ContentLength(sha, chunks, f.chunks);
    ok := |data| == f.size;
  }

  // --- The whole manifest ---

  /** Where a file lands below the destination. */
  function KeyOf(f: FileEntry): Key {
    Components(f.path)
  }

  function KeysOf(files: seq<FileEntry>): set<Key> {
    set f | f in files :: KeyOf(f)
  }

  predicate Usable(destDir: string) {
    Clean(destDir) != "." && Clean(destDir) != "/"
  }

  /** Everything a materialization needs; `refused` are the targets the system will not open. */
  ghost predicate CanMaterialize(sha: Bytes -> Hash, files: seq<FileEntry>, chunks: Chunks, fs: Fs, overwrite: bool,
      refused: set<Key>) {
    && (forall f :: f in files ==> Assembles(sha, chunks, f) && KeyOf(f) !in refused)
    && Free(fs, overwrite, KeysOf(files))
  }

  /** The last file with a given key decides what the key holds. */
  ghost predicate HoldsFiles(chunks: Chunks, files: seq<FileEntry>, fs: Fs) {
    forall i :: 0 <= i < |files| && KeyOf(files[i]) !in KeysOf(files[i + 1..]) ==>
      KeyOf(files[i]) in fs.files && fs.files[KeyOf(files[i])] == Content(chunks, files[i].chunks)
  }

  /** No file but the targets is changed, added or removed. */
  ghost predicate Spares(was: Fs, fs: Fs, targets: set<Key>) {
    forall k :: k !in targets ==> Lookup(fs.files, k) == Lookup(was.files, k)
  }

  lemma KeysSnoc(files: seq<FileEntry>, i: nat)
    requires i < |files|
    ensures KeysOf(files[..i + 1]) == KeysOf(files[..i]) + {KeyOf(files[i])}
  {
    assert files[..i + 1] == files[..i] + [files[i]];
  }

  lemma KeysOfPrefix(files: seq<FileEntry>, i: nat)
    requires i <= |files|
    ensures KeysOf(files[..i]) <= KeysOf(files)
  {
  }

  lemma CanPrefix(sha: Bytes -> Hash, files: seq<FileEntry>, chunks: Chunks, fs: Fs, overwrite: bool, refused: set<Key>,
      i: nat)
    requires i <= |files| && CanMaterialize(sha, files, chunks, fs, overwrite, refused)
    ensures CanMaterialize(sha, files[..i], chunks, fs, overwrite, refused)
  {
    KeysOfPrefix(files, i);
    FreeSubset(fs, overwrite, KeysOf(files[..i]), KeysOf(files));
  }

  lemma CanSnoc(sha: Bytes -> Hash, files: seq<FileEntry>, chunks: Chunks, fs: Fs, overwrite: bool, refused: set<Key>,
      i: nat)
    requires i < |files| && CanMaterialize(sha, files[..i], chunks, fs, overwrite, refused)
    ensures CanMaterialize(sha, files[..i + 1], chunks, fs, overwrite, refused) <==>
            && Assembles(sha, chunks, files[i]) && KeyOf(files[i]) !in refused
            && Free(fs, overwrite, KeysOf(files[..i]) + {KeyOf(files[i])})
  {
    KeysSnoc(files, i);
    assert files[..i + 1] == files[..i] + [files[i]];
  }

  lemma HoldsSnoc(chunks: Chunks, files: seq<FileEntry>, i: nat, fs: Fs, fs': Fs)
    requires i < |files| && HoldsFiles(chunks, files[..i], fs)
    requires KeyOf(files[i]) in fs'.files && fs'.files[KeyOf(files[i])] == Content(chunks, files[i].chunks)
    requires forall k :: k in KeysOf(files[..i]) && k != KeyOf(files[i]) ==>
               k in fs.files && k in fs'.files && fs'.files[k] == fs.files[k]
    ensures HoldsFiles(chunks, files[..i + 1], fs')
  {
    var all, low := files[..i + 1], files[..i];
    forall j | 0 <= j < |all| && KeyOf(all[j]) !in KeysOf(all[j + 1..])
      ensures KeyOf(all[j]) in fs'.files && fs'.files[KeyOf(all[j])] == Content(chunks, all[j].chunks)
    {
      if j < i {
        var f := all[j];
        assert all[j + 1..] == low[j + 1..] + [files[i]];
        assert files[i] in all[j + 1..] && low[j] == f && f in low;
        assert KeyOf(f) !in KeysOf(low[j + 1..]) && KeyOf(f) in KeysOf(low) && KeyOf(f) != KeyOf(files[i]);
      }
    }
  }

  lemma TargetIsPlaced(digest: Digest, m: Artifact, i: nat, destDir: string)
    requires Valid(digest, m) && i < |m.files|
    ensures KeyOf(m.files[i]) != [] && (SafeJoin(destDir, m.files[i].path).Some? <==> Usable(destDir))
  {
    var f := m.files[i];
    assert f in m.files && FileOk(f);
    SafeJoinIsBelow(destDir, f.path);
    ValidPathIsInside(f.path);
  }

  lemma FailsForGood(sha: Bytes -> Hash, files: seq<FileEntry>, chunks: Chunks, fs: Fs, overwrite: bool,
      refused: set<Key>, i: nat)
    requires i <= |files| && !CanMaterialize(sha, files[..i], chunks, fs, overwrite, refused)
    ensures !CanMaterialize(sha, files, chunks, fs, overwrite, refused)
  {
    if CanMaterialize(sha, files, chunks, fs, overwrite, refused) {
      CanPrefix(sha, files, chunks, fs, overwrite, refused, i);
    }
  }

  /** Succeeds exactly if the manifest is valid, the destination is usable, every file can be assembled and
      no target is in the way of another or of what is there; then every file holds its chunks' bytes and
      nothing else in the tree has changed.  Even a failure touches no file but the targets.  The destination itself
      is refused if `[]` is; the context is found cancelled before file `cancelAt`, if there are so many. */
  method Materialize(sha: Bytes -> Hash, digest: Digest, m: Artifact, chunks: Chunks, fs: Fs, destDir: string,
      overwrite: bool, refused: set<Key>, cancelAt: nat)
    returns (ok: bool, fs': Fs)
    requires WellFormed(fs)
    ensures ok <==> && Valid(digest, m) && [] !in refused && |m.files| <= cancelAt && Usable(destDir)
                    && CanMaterialize(sha, m.files, chunks, fs, overwrite, refused)
    ensures ok ==> After(fs, fs', KeysOf(m.files)) && HoldsFiles(chunks, m.files, fs')
    ensures Spares(fs, fs', KeysOf(m.files))
  {
    var valid := Validate(digest, m);
    if !valid || [] in refused {
      return false, fs;
    }
    ok, fs' := MaterializeFiles(sha, digest, m, chunks, fs, destDir, overwrite, refused, cancelAt);
  }

  /** The loop over the files of a valid manifest. */
  method MaterializeFiles(sha: Bytes -> Hash, ghost digest: Digest, m: Artifact, chunks: Chunks, fs: Fs,
      destDir: string, overwrite: bool, refused: set<Key>, cancelAt: nat)
    returns (ok: bool, fs': Fs)
    requires WellFormed(fs) && Valid(digest, m)
    ensures ok <==> && |m.files| <= cancelAt && Usable(destDir)
                    && CanMaterialize(sha, m.files, chunks, fs, overwrite, refused)
    ensures ok ==> After(fs, fs', KeysOf(m.files)) && HoldsFiles(chunks, m.files, fs')
    ensures Spares(fs, fs', KeysOf(m.files))
  {
    fs' := fs;
    for i := 0 to |m.files|
      invariant CanMaterialize(sha, m.files[..i], chunks, fs, overwrite, refused)
      invariant After(fs, fs', KeysOf(m.files[..i])) && HoldsFiles(chunks, m.files[..i], fs')
      invariant Spares(fs, fs', KeysOf(m.files))
      invariant i > 0 ==> Usable(destDir) && i <= cancelAt
    {
      if i == cancelAt {
        return false, fs';
      }
      TargetIsPlaced(digest, m, i, destDir);
      if SafeJoin(destDir, m.files[i].path).None? {
        return false, fs';
      }
      var done;
      done, fs' := MaterializeNext(sha, m.files, i, chunks, fs, fs', overwrite, refused);
      SparesMore(fs, fs', m.files, i + 1);
      if !done {
        FailsForGood(sha, m.files, chunks, fs, overwrite, refused, i + 1);
        return false, fs';
      }
    }
    assert m.files[..|m.files|] == m.files;
    ok := true;
  }

  lemma SparesMore(was: Fs, fs: Fs, files: seq<FileEntry>, i: nat)
    requires i <= |files| && Spares(was, fs, KeysOf(files[..i]))
    ensures Spares(was, fs, KeysOf(files))
  {
    KeysOfPrefix(files, i);
  }

  method MaterializeNext(sha: Bytes -> Hash, files: seq<FileEntry>, i: nat, chunks: Chunks, ghost was: Fs, fs: Fs,
      overwrite: bool, refused: set<Key>)
    returns (ok: bool, fs': Fs)
    requires WellFormed(was) && i < |files| && KeyOf(files[i]) != []
    requires CanMaterialize(sha, files[..i], chunks, was, overwrite, refused)
    requires After(was, fs, KeysOf(files[..i])) && HoldsFiles(chunks, files[..i], fs)
    ensures ok <==> CanMaterialize(sha, files[..i + 1], chunks, was, overwrite, refused)
    ensures ok ==> After(was, fs', KeysOf(files[..i + 1])) && HoldsFiles(chunks, files[..i + 1], fs')
    ensures Spares(was, fs', KeysOf(files[..i + 1]))
  {
    KeysSnoc(files, i);
    var f, k := files[i], KeyOf(files[i]);
    CanSnoc(sha, files, chunks, was, overwrite, refused, i);
    OpenedWhenFree(was, fs, overwrite, KeysOf(files[..i]), k);
    NothingWrittenSpares(was, fs, KeysOf(files[..i]), k);
    if k in refused || Opened(fs, overwrite, k).None? {
      return false, fs;
    }
    var data, remove;
    ok, data, remove := Assemble(sha, chunks, f);
    AttemptSpares(was, fs, overwrite, KeysOf(files[..i]), k, data);
    fs' := Written(Opened(fs, overwrite, k).value, k, data);
    if remove {
      fs' := fs'.(files := fs'.files - {k});
    }
    if ok {
      WrittenAfter(was, fs, overwrite, KeysOf(files[..i]), k, data);
      HoldsSnoc(chunks, files, i, fs, fs');
    }
  }

  lemma NothingWrittenSpares(was: Fs, fs: Fs, targets: set<Key>, k: Key)
    requires After(was, fs, targets)
    ensures Spares(was, fs, targets + {k})
  {
  }

  /** Opening and writing a target, and removing it again, touches no other file. */
  lemma AttemptSpares(was: Fs, fs: Fs, overwrite: bool, targets: set<Key>, k: Key, data: Bytes)
    requires After(was, fs, targets) && k != [] && Opened(fs, overwrite, k).Some?
    ensures var fs' := Written(Opened(fs, overwrite, k).value, k, data);
            Spares(was, fs', targets + {k}) && Spares(was, fs'.(files := fs'.files - {k}), targets + {k})
  {
    OpenedShape(fs, overwrite, k);
  }
}
