/** The scan with which a sync begins: which chunks of the manifest must be fetched, each once, and which are reused. */
module SyncScan {
  import opened Base
  import opened Sorting
  import opened ChunkStore
  import opened Manifest

  datatype WorkItem = WorkItem(hash: Hash, path: string, offset: int, size: int)

  /** The chunk is committed with the size the reference gives. */
  predicate Reusable(chunks: map<Hash, Bytes>, r: ChunkRef) {
    HasCommitted(chunks, r.hash, r.size)
  }

  function Missing(chunks: map<Hash, Bytes>, refs: seq<ChunkRef>): set<Hash> {
    set r | r in refs && !Reusable(chunks, r) :: r.hash
  }

  function Skipped(chunks: map<Hash, Bytes>, refs: seq<ChunkRef>): set<Hash> {
    set r | r in refs && Reusable(chunks, r) :: r.hash
  }

  function Reused(chunks: map<Hash, Bytes>, refs: seq<ChunkRef>): seq<ChunkRef> {
    Filter(r => Reusable(chunks, r), refs)
  }

  /** The plan leaves out no hash of the manifest, fetches what is not there or has another size than the reference
      says, and skips only what is on the disk. */
  lemma PlanCovers(chunks: map<Hash, Bytes>, refs: seq<ChunkRef>)
    ensures Missing(chunks, refs) + Skipped(chunks, refs) == set r | r in refs :: r.hash
    ensures Skipped(chunks, refs) <= chunks.Keys
    ensures forall r :: r in refs && (r.hash !in chunks || (r.size > 0 && |chunks[r.hash]| != r.size)) ==>
              r.hash in Missing(chunks, refs)
    ensures forall h :: h in Missing(chunks, refs) && h in chunks && ValidName(h) ==>
              exists r :: r in refs && r.hash == h && |chunks[h]| != r.size
  {
  }

  /** The item is one of the manifest's references. */
  ghost predicate IsFrom(files: seq<FileEntry>, item: WorkItem) {
    exists f, r :: f in files && r in f.chunks && item == WorkItem(r.hash, f.path, r.offset, r.size)
  }

  ghost predicate ScanOk(chunks: map<Hash, Bytes>, files: seq<FileEntry>, refs: seq<ChunkRef>,
                         items: seq<WorkItem>, seen: set<Hash>, skipped: nat)
  {
    && (forall i, j :: 0 <= i < j < |items| ==> items[i].hash != items[j].hash)
    && (forall i :: 0 <= i < |items| ==> IsFrom(files, items[i]))
    && seen == Missing(chunks, refs) == (set x | x in items :: x.hash)
    && skipped == |Reused(chunks, refs)|
  }

  lemma ScanOneMore(chunks: map<Hash, Bytes>, files: seq<FileEntry>, refs: seq<ChunkRef>,
                    items: seq<WorkItem>, seen: set<Hash>, skipped: nat, f: FileEntry, r: ChunkRef)
    requires ScanOk(chunks, files, refs, items, seen, skipped) && f in files && r in f.chunks
    ensures Reusable(chunks, r) ==> ScanOk(chunks, files, refs + [r], items, seen, skipped + 1)
    ensures !Reusable(chunks, r) && r.hash in seen ==> ScanOk(chunks, files, refs + [r], items, seen, skipped)
    ensures !Reusable(chunks, r) && r.hash !in seen ==>
              var item := WorkItem(r.hash, f.path, r.offset, r.size);
              ScanOk(chunks, files, refs + [r], items + [item], seen + {r.hash}, skipped)
  {
    FilterSnoc(x => Reusable(chunks, x), refs, r);
    var item := WorkItem(r.hash, f.path, r.offset, r.size);
    assert Missing(chunks, refs + [r]) == Missing(chunks, refs) + if Reusable(chunks, r) then {} else {r.hash};
    assert (set x | x in items + [item] :: x.hash) == (set x | x in items :: x.hash) + {r.hash};
    assert IsFrom(files, item);
  }

  /** The work items have distinct hashes, exactly those of the references that cannot be reused; every reference is
      reused, or its hash is among them. */
  method Scan(store: Store, m: Artifact) returns (items: seq<WorkItem>, skipped: nat)
    ensures forall i, j :: 0 <= i < j < |items| ==> items[i].hash != items[j].hash
    ensures forall i :: 0 <= i < |items| ==> IsFrom(m.files, items[i])
    ensures (set x | x in items :: x.hash) == Missing(store.chunks, RefsOf(m.files))
    ensures skipped == |Reused(store.chunks, RefsOf(m.files))|
  {
    items, skipped := [], 0;
    var seen: set<Hash> := {};
    for i := 0 to |m.files|
      invariant ScanOk(store.chunks, m.files, RefsOf(m.files[..i]), items, seen, skipped)
    {
      var f := m.files[i];
      assert m.files[..i + 1][..i] == m.files[..i];
      items, seen, skipped := ScanFile(store, m.files, RefsOf(m.files[..i]), f, items, seen, skipped);
    }
    assert m.files[..|m.files|] == m.files;
  }

  method ScanFile(store: Store, ghost files: seq<FileEntry>, ghost refs: seq<ChunkRef>, f: FileEntry,
                  items0: seq<WorkItem>, seen0: set<Hash>, skipped0: nat)
    returns (items: seq<WorkItem>, seen: set<Hash>, skipped: nat)
    requires f in files && ScanOk(store.chunks, files, refs, items0, seen0, skipped0)
    ensures ScanOk(store.chunks, files, refs + f.chunks, items, seen, skipped)
  {
    items, seen, skipped := items0, seen0, skipped0;
    assert refs + f.chunks[..0] == refs;
    for j := 0 to |f.chunks|
      invariant ScanOk(store.chunks, files, refs + f.chunks[..j], items, seen, skipped)
    {
      var r := f.chunks[j];
      ScanOneMore(store.chunks, files, refs + f.chunks[..j], items, seen, skipped, f, r);
      assert refs + f.chunks[..j + 1] == refs + f.chunks[..j] + [r];
      var have := store.HasValidCommittedChunk(r.hash, r.size);
      if have {
        skipped := skipped + 1;
      } else if r.hash !in seen {
        seen := seen + {r.hash};
        items := items + [WorkItem(r.hash, f.path, r.offset, r.size)];
      }
    }
    assert f.chunks[..|f.chunks|] == f.chunks;
  }
}
