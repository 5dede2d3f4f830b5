/** The quota manager: reference-counted pins, least-recently-used eviction between two watermarks, and
    the index file it restarts from. */
module Quota {
  import opened Base
  import opened ChunkStore
  import opened Manifest
  import opened Eviction

  datatype Index = Index(chunks: map<Hash, Meta>, pins: map<string, seq<Hash>>)

  const NO_META := Meta(0, 0, 0)

  function MetaIn<K>(chunks: map<K, Meta>, h: K): Meta {
    if h in chunks then chunks[h] else NO_META
  }

  function MetaOf(idx: Index, h: Hash): Meta {
    MetaIn(idx.chunks, h)
  }

  // --- The invariant ---

  ghost function PinsOf(pins: map<string, seq<Hash>>, h: Hash): set<string> {
    set id | id in pins && h in pins[id]
  }

  /** Each hash's reference count is the number of pinned artifacts that list it. */
  ghost predicate Consistent(idx: Index) {
    && (forall h :: MetaOf(idx, h).refCount == |PinsOf(idx.pins, h)|)
    && (forall id :: id in idx.pins ==> NoDup(idx.pins[id]))
  }

  // --- What each operation does to the index ---

  function Touched(idx: Index, h: Hash, size: int, now: int): Index {
    var meta := MetaOf(idx, h);
    idx.(chunks := idx.chunks[h := meta.(size := if size > 0 then size else meta.size, lastAccess := now)])
  }

  function FilledSize<K>(meta: Meta, h: K, disk: map<K, Bytes>): int {
    if meta.size > 0 || h !in disk then meta.size else |disk[h]|
  }

  function Referenced<K>(meta: Meta, h: K, disk: map<K, Bytes>): Meta {
    meta.(size := FilledSize(meta, h, disk), refCount := meta.refCount + 1)
  }

  /** The count goes down `k` times, and never from or below zero. */
  function Dereferenced(meta: Meta, k: nat): Meta {
    if meta.refCount <= 0 then meta else meta.(refCount := if meta.refCount > k then meta.refCount - k else 0)
  }

  ghost function Raised<K>(chunks: map<K, Meta>, hashes: seq<K>, disk: map<K, Bytes>): map<K, Meta> {
    map h | h in chunks.Keys + Elems(hashes) ::
      if h in hashes then Referenced(MetaIn(chunks, h), h, disk) else chunks[h]
  }

  ghost function Lowered<K>(chunks: map<K, Meta>, hashes: seq<K>): map<K, Meta> {
    map h | h in chunks.Keys + Elems(hashes) :: Dereferenced(MetaIn(chunks, h), multiset(hashes)[h])
  }

  ghost function Pinned(idx: Index, id: string, hashes: seq<Hash>, disk: map<Hash, Bytes>): Index {
    if id in idx.pins then idx else Index(Raised(idx.chunks, hashes, disk), idx.pins[id := hashes])
  }

  ghost function Unpinned(idx: Index, id: string): Index {
    Index(Lowered(idx.chunks, if id in idx.pins then idx.pins[id] else []), idx.pins - {id})
  }

  /** Startup: the saved index plus an entry for every chunk file it does not know. */
  function Reconciled(saved: Index, disk: map<Hash, Bytes>, now: int): Index {
    saved.(chunks := map h | h in saved.chunks.Keys + disk.Keys ::
      if h in saved.chunks then saved.chunks[h] else Meta(|disk[h]|, now, 0))
  }

  function Dropped(idx: Index, gone: set<Hash>): Index {
    idx.(chunks := idx.chunks - gone)
  }

  // --- Each operation keeps it ---

  lemma TouchKeeps(idx: Index, h: Hash, size: int, now: int)
    requires Consistent(idx)
    ensures Consistent(Touched(idx, h, size, now))
  {
    var idx' := Touched(idx, h, size, now);
    forall g ensures MetaOf(idx', g).refCount == |PinsOf(idx'.pins, g)| {
      assert MetaOf(idx', g).refCount == MetaOf(idx, g).refCount;
    }
  }

  lemma PinsOfPinned(pins: map<string, seq<Hash>>, id: string, hashes: seq<Hash>, h: Hash)
    requires id !in pins
    ensures |PinsOf(pins[id := hashes], h)| == |PinsOf(pins, h)| + (if h in hashes then 1 else 0)
  {
    assert PinsOf(pins[id := hashes], h) == if h in hashes then PinsOf(pins, h) + {id} else PinsOf(pins, h);
  }

  lemma CountOfPinned(idx: Index, id: string, hashes: seq<Hash>, disk: map<Hash, Bytes>, h: Hash)
    requires id !in idx.pins
    ensures MetaOf(Pinned(idx, id, hashes, disk), h).refCount
              == MetaOf(idx, h).refCount + (if h in hashes then 1 else 0)
  {
  }

  lemma PinKeeps(idx: Index, id: string, hashes: seq<Hash>, disk: map<Hash, Bytes>)
    requires Consistent(idx) && NoDup(hashes)
    ensures Consistent(Pinned(idx, id, hashes, disk))
  {
    if id !in idx.pins {
      var pins' := idx.pins[id := hashes];
      forall h ensures MetaOf(Pinned(idx, id, hashes, disk), h).refCount == |PinsOf(pins', h)| {
        PinsOfPinned(idx.pins, id, hashes, h);
        CountOfPinned(idx, id, hashes, disk, h);
      }
    }
  }

  lemma CountOfUnpinned(idx: Index, id: string, h: Hash)
    requires Consistent(idx)
    ensures var n := MetaOf(idx, h).refCount;
            MetaOf(Unpinned(idx, id), h).refCount == if id in idx.pins && h in idx.pins[id] && n > 0 then n - 1 else n
  {
    var hashes := if id in idx.pins then idx.pins[id] else [];
    NoDupCounts(hashes, h);
    assert h in hashes <==> h in Elems(hashes);
  }

  lemma UnpinKeeps(idx: Index, id: string)
    requires Consistent(idx)
    ensures Consistent(Unpinned(idx, id))
  {
    var idx' := Unpinned(idx, id);
    forall h ensures MetaOf(idx', h).refCount == |PinsOf(idx'.pins, h)| {
      assert PinsOf(idx'.pins, h) == PinsOf(idx.pins, h) - {id};
      assert id in PinsOf(idx.pins, h) <==> id in idx.pins && h in idx.pins[id];
      CountOfUnpinned(idx, id, h);
    }
  }

  lemma DropKeeps(idx: Index, gone: set<Hash>)
    requires Consistent(idx) && forall h :: h in gone && h in idx.chunks ==> idx.chunks[h].refCount <= 0
    ensures Consistent(Dropped(idx, gone))
  {
    forall h ensures MetaOf(Dropped(idx, gone), h).refCount == |PinsOf(idx.pins, h)| {
      assert MetaOf(idx, h).refCount == |PinsOf(idx.pins, h)|;
    }
  }

  /** A restart neither breaks nor repairs the reference counts, whatever the index file holds. */
  lemma RestartKeeps(saved: Index, disk: map<Hash, Bytes>, now: int)
    ensures Consistent(Reconciled(saved, disk, now)) <==> Consistent(saved)
  {
    forall h ensures MetaOf(Reconciled(saved, disk, now), h).refCount == MetaOf(saved, h).refCount {
    }
  }

  // --- Access times ---

  /** A chunk used later than every other is evicted only if every other one that could go has gone: whatever a
      fair eviction removes from the touched index. */
  lemma TouchedGoesLast(idx: Index, h: Hash, size: int, now: int, gone: set<Hash>, low: int, held: set<Hash>)
    requires forall g :: g in idx.chunks && g != h ==> idx.chunks[g].lastAccess < now
    requires FairEviction(Touched(idx, h, size, now).chunks, gone, low, held) && h in gone
    ensures forall g :: g in idx.chunks && g != h && idx.chunks[g].refCount <= 0 && g !in held ==> g in gone
  {
    var was := Touched(idx, h, size, now).chunks;
    forall g | g in idx.chunks && g != h && idx.chunks[g].refCount <= 0 && g !in held ensures g in gone {
      assert was[g] == idx.chunks[g] && was[h].lastAccess == now;
      assert g !in gone ==> g in Unreferenced(was) - gone - held;
    }
  }

  // --- Pin and unpin ---

  /** A first pin adds one reference for every listed hash, leaves access times and known sizes alone, and gives a
      chunk of unknown size the length of its file; nothing else changes. */
  lemma PinRaises(idx: Index, id: string, hashes: seq<Hash>, disk: map<Hash, Bytes>, h: Hash)
    requires id !in idx.pins
    ensures var was, now := MetaOf(idx, h), MetaOf(Pinned(idx, id, hashes, disk), h);
            && now.lastAccess == was.lastAccess
            && now.refCount == was.refCount + (if h in hashes then 1 else 0)
            && (h !in hashes || was.size > 0 || h !in disk ==> now.size == was.size)
            && (h in hashes && was.size <= 0 && h in disk ==> now.size == |disk[h]|)
    ensures Pinned(idx, id, hashes, disk).pins == idx.pins[id := hashes]
  {
  }

  /** An unpin takes back one reference for every listing of the hash and goes no lower than zero; sizes, access
      times and other artifacts stay as they were. */
  lemma UnpinLowers(idx: Index, id: string, h: Hash)
    requires id in idx.pins
    ensures var was, now := MetaOf(idx, h), MetaOf(Unpinned(idx, id), h);
            && now.size == was.size && now.lastAccess == was.lastAccess
            && (was.refCount <= 0 ==> now.refCount == was.refCount)
            && (was.refCount > 0 ==>
                  var n := multiset(idx.pins[id])[h];
                  now.refCount == if was.refCount > n then was.refCount - n else 0)
    ensures Unpinned(idx, id).pins == idx.pins - {id}
  {
    var hashes := idx.pins[id];
    assert h !in hashes ==> multiset(hashes)[h] == 0;
  }

  lemma PinIsIdempotent(idx: Index, id: string, hashes: seq<Hash>, again: seq<Hash>, disk: map<Hash, Bytes>)
    ensures Pinned(Pinned(idx, id, hashes, disk), id, again, disk) == Pinned(idx, id, hashes, disk)
  {
  }

  /** Unpinning right after pinning restores the pins, every reference count and every access time, and
      forgets no entry; what stays behind are entries for hashes that were not indexed, and filled-in sizes. */
  lemma UnpinUndoesPin(idx: Index, id: string, hashes: seq<Hash>, disk: map<Hash, Bytes>)
    requires Consistent(idx) && NoDup(hashes) && id !in idx.pins
    ensures var back := Unpinned(Pinned(idx, id, hashes, disk), id);
            && back.pins == idx.pins
            && back.chunks.Keys == idx.chunks.Keys + Elems(hashes)
            && forall h ::
                 var meta := MetaOf(idx, h);
                 MetaOf(back, h) == meta.(size := if h in hashes then FilledSize(meta, h, disk) else meta.size)
  {
    var mid := Pinned(idx, id, hashes, disk);
    var back := Unpinned(mid, id);
    assert back.pins == idx.pins;
    forall h
      ensures var meta := MetaOf(idx, h);
              MetaOf(back, h) == meta.(size := if h in hashes then FilledSize(meta, h, disk) else meta.size)
    {
      assert MetaOf(idx, h).refCount >= 0;
      NoDupCounts(hashes, h);
    }
  }

  /** No chunk of a pinned artifact may be evicted. */
  lemma PinnedIsReferenced(idx: Index, id: string, h: Hash)
    requires Consistent(idx) && id in idx.pins && h in idx.pins[id]
    ensures h in idx.chunks && idx.chunks[h].refCount > 0
  {
    assert id in PinsOf(idx.pins, h);
    assert |PinsOf(idx.pins, h)| > 0;
    assert MetaOf(idx, h).refCount > 0;
  }

  // --- Every run ---

  datatype Op =
    | Touch(h: Hash, size: int, now: int)
    | Pin(id: string, hashes: seq<Hash>, disk: map<Hash, Bytes>)
    | Unpin(id: string)
    | Evict(gone: set<Hash>)
    | Flush
    | Restart(diskNow: map<Hash, Bytes>, at: int)

  datatype State = State(idx: Index, saved: Index)

  /** Pin, unpin and evict write the index file; touch leaves that to a later flush; a restart goes back to the file. */
  ghost predicate CanDo(s: State, op: Op) {
    match op
    case Pin(_, hashes, _) => NoDup(hashes)
    case Evict(gone) => forall h :: h in gone ==> h in s.idx.chunks && s.idx.chunks[h].refCount <= 0
    case _ => true
  }

  ghost function Do(s: State, op: Op): State {
    match op
    case Touch(h, size, now) => s.(idx := Touched(s.idx, h, size, now))
    case Pin(id, hashes, disk) => var i := Pinned(s.idx, id, hashes, disk); State(i, i)
    case Unpin(id) => var i := Unpinned(s.idx, id); State(i, i)
    case Evict(gone) => var i := Dropped(s.idx, gone); State(i, i)
    case Flush => State(s.idx, s.idx)
    case Restart(disk, now) => var i := Reconciled(s.saved, disk, now); State(i, i)
  }

  ghost predicate CanRun(s: State, ops: seq<Op>)
    decreases |ops|
  {
    ops == [] || (CanDo(s, ops[0]) && CanRun(Do(s, ops[0]), ops[1..]))
  }

  ghost function RunOps(s: State, ops: seq<Op>): State
    decreases |ops|
  {
    if ops == [] then s else RunOps(Do(s, ops[0]), ops[1..])
  }

  lemma StepKeeps(s: State, op: Op)
    requires Consistent(s.idx) && Consistent(s.saved) && CanDo(s, op)
    ensures Consistent(Do(s, op).idx) && Consistent(Do(s, op).saved)
  {
    match op
    case Touch(h, size, now) => TouchKeeps(s.idx, h, size, now);
    case Pin(id, hashes, disk) => PinKeeps(s.idx, id, hashes, disk);
    case Unpin(id) => UnpinKeeps(s.idx, id);
    case Evict(gone) => DropKeeps(s.idx, gone);
    case Flush =>
    case Restart(disk, now) => RestartKeeps(s.saved, disk, now);
  }

  /** Over every run of touches, pins, unpins, evictions, flushes and restarts the counts equal the pins;
      so every chunk of every pinned artifact is still indexed and still counted. */
  lemma {:induction false} RunKeepsCounts(s: State, ops: seq<Op>)
    requires Consistent(s.idx) && Consistent(s.saved) && CanRun(s, ops)
    ensures Consistent(RunOps(s, ops).idx) && Consistent(RunOps(s, ops).saved)
    ensures forall id, h :: id in RunOps(s, ops).idx.pins && h in RunOps(s, ops).idx.pins[id] ==>
              h in RunOps(s, ops).idx.chunks && RunOps(s, ops).idx.chunks[h].refCount > 0
    decreases |ops|
  {
    if ops != [] {
      StepKeeps(s, ops[0]);
      RunKeepsCounts(Do(s, ops[0]), ops[1..]);
    } else {
      forall id, h | id in s.idx.pins && h in s.idx.pins[id] ensures h in s.idx.chunks && s.idx.chunks[h].refCount > 0 {
        PinnedIsReferenced(s.idx, id, h);
      }
    }
  }

  // --- The manager ---

  /** The pin loop: one more reference for every listed hash, and its size filled in from disk if unknown. */
  method RaiseCounts<K(==,!new)>(was: map<K, Meta>, hashes: seq<K>, disk: map<K, Bytes>) returns (chunks: map<K, Meta>)
    requires NoDup(hashes)
    ensures chunks == Raised(was, hashes, disk)
  {
    chunks := was;
    for i := 0 to |hashes|
      invariant chunks.Keys == was.Keys + Elems(hashes[..i])
      invariant forall h :: h in chunks ==>
                  chunks[h] == if h in hashes[..i] then Referenced(MetaIn(was, h), h, disk) else was[h]
    {
      var h := hashes[i];
      assert h !in hashes[..i] && hashes[..i + 1] == hashes[..i] + [h];
      var meta := MetaIn(chunks, h);
      if meta.size <= 0 && h in disk {
        meta := meta.(size := |disk[h]|);
      }
      chunks := chunks[h := meta.(refCount := meta.refCount + 1)];
    }
    assert hashes[..|hashes|] == hashes;
  }

  /** The listed hashes have been lowered, each as often as it is listed. */
  ghost predicate LoweredBy<K(!new)>(was: map<K, Meta>, hashes: seq<K>, chunks: map<K, Meta>) {
    && chunks.Keys == was.Keys + Elems(hashes)
    && forall h :: h in chunks ==> chunks[h] == Dereferenced(MetaIn(was, h), multiset(hashes)[h])
  }

  lemma LoweredOneMore<K(!new)>(was: map<K, Meta>, hashes: seq<K>, chunks: map<K, Meta>, h: K)
    requires LoweredBy(was, hashes, chunks)
    ensures LoweredBy(was, hashes + [h], chunks[h := Dereferenced(MetaIn(chunks, h), 1)])
  {
    assert Elems(hashes + [h]) == Elems(hashes) + {h};
    assert multiset(hashes + [h]) == multiset(hashes) + multiset{h};
    assert h !in hashes ==> multiset(hashes)[h] == 0;
    var next := chunks[h := Dereferenced(MetaIn(chunks, h), 1)];
    forall g | g in next ensures next[g] == Dereferenced(MetaIn(was, g), multiset(hashes + [h])[g]) {
      assert g != h ==> g in chunks && next[g] == chunks[g];
    }
  }

  lemma LoweredNext<K(!new)>(was: map<K, Meta>, hashes: seq<K>, i: nat, chunks: map<K, Meta>)
    requires i < |hashes| && LoweredBy(was, hashes[..i], chunks)
    ensures LoweredBy(was, hashes[..i + 1], chunks[hashes[i] := Dereferenced(MetaIn(chunks, hashes[i]), 1)])
  {
    LoweredOneMore(was, hashes[..i], chunks, hashes[i]);
    assert hashes[..i + 1] == hashes[..i] + [hashes[i]];
  }

  lemma LoweredIsLowered<K(!new)>(was: map<K, Meta>, hashes: seq<K>, chunks: map<K, Meta>)
    requires LoweredBy(was, hashes, chunks)
    ensures chunks == Lowered(was, hashes)
  {
  }

  /** The unpin loop: one reference less for every listed hash, as often as it is listed, never below zero. */
  method LowerCounts<K(==,!new)>(was: map<K, Meta>, hashes: seq<K>) returns (chunks: map<K, Meta>)
    ensures chunks == Lowered(was, hashes)
  {
    chunks := was;
    for i := 0 to |hashes|
      invariant LoweredBy(was, hashes[..i], chunks)
    {
      var h := hashes[i];
      LoweredNext(was, hashes, i, chunks);
      var meta := MetaIn(chunks, h);
      if meta.refCount > 0 {
        meta := meta.(refCount := meta.refCount - 1);
      }
      assert meta == Dereferenced(MetaIn(chunks, h), 1);
      chunks := chunks[h := meta];
    }
    assert hashes[..|hashes|] == hashes;
    LoweredIsLowered(was, hashes, chunks);
  }

  function OnFile(file: Option<Index>): Index {
    if file.Some? then file.value else Index(map[], map[])
  }

  /** The startup loop over the chunk directory. */
  method Reconcile(saved: Index, disk: map<Hash, Bytes>, now: int) returns (idx: Index)
    ensures idx == Reconciled(saved, disk, now)
  {
    var chunks := saved.chunks;
    var left := disk.Keys;
    while left != {}
      invariant left <= disk.Keys && ReconciledBut(saved.chunks, disk, now, left, chunks)
      decreases |left|
    {
      var h :| h in left;
      ReconciledOneMore(saved.chunks, disk, now, left, chunks, h);
      if h !in chunks {
        chunks := chunks[h := Meta(|disk[h]|, now, 0)];
      }
      left := left - {h};
    }
    ReconciledAll(saved, disk, now, chunks);
    idx := saved.(chunks := chunks);
  }

  /** The chunk files but those in `left` have been looked at. */
  ghost predicate ReconciledBut(saved: map<Hash, Meta>, disk: map<Hash, Bytes>, now: int, left: set<Hash>,
      chunks: map<Hash, Meta>) {
    && chunks.Keys == saved.Keys + (disk.Keys - left)
    && forall h :: h in chunks ==> chunks[h] == if h in saved then saved[h] else Meta(|disk[h]|, now, 0)
  }

  lemma ReconciledOneMore(saved: map<Hash, Meta>, disk: map<Hash, Bytes>, now: int, left: set<Hash>,
      chunks: map<Hash, Meta>, h: Hash)
    requires left <= disk.Keys && h in left && ReconciledBut(saved, disk, now, left, chunks)
    ensures ReconciledBut(saved, disk, now, left - {h},
              if h in chunks then chunks else chunks[h := Meta(|disk[h]|, now, 0)])
  {
  }

  lemma ReconciledAll(saved: Index, disk: map<Hash, Bytes>, now: int, chunks: map<Hash, Meta>)
    requires ReconciledBut(saved.chunks, disk, now, {}, chunks)
    ensures saved.(chunks := chunks) == Reconciled(saved, disk, now)
  {
    var all := Reconciled(saved, disk, now).chunks;
    assert chunks.Keys == all.Keys;
    forall h | h in chunks ensures chunks[h] == all[h] {
    }
  }

  class QuotaManager {
    const cache: Store
    const high: int     // bytes at which eviction starts
    const low: int      // bytes it aims for
    var idx: Index
    var saved: Index    // the index file
    var dirty: bool

    /** Only access times and sizes wait for a flush: an index that is not dirty is the one on file. */
    ghost predicate Synced()
      reads this
    {
      !dirty ==> saved == idx
    }

    /** Startup from whatever index file and chunk directory there are; without a readable file, from no entries. */
    constructor (cache: Store, high: int, low: int, file: Option<Index>, now: int)
      ensures this.cache == cache && this.high == high && this.low == low && Synced()
      ensures idx == saved == Reconciled(OnFile(file), cache.chunks, now) && !dirty
      ensures Consistent(idx) <==> Consistent(OnFile(file))
      ensures file.Some? ==> idx.pins == file.value.pins && forall h :: h in file.value.chunks ==>
                h in idx.chunks && idx.chunks[h] == file.value.chunks[h]
      ensures forall h :: h in cache.chunks && (file.None? || h !in file.value.chunks) ==>
                h in idx.chunks && idx.chunks[h] == Meta(|cache.chunks[h]|, now, 0)
      ensures forall h :: h in idx.chunks ==> h in cache.chunks || (file.Some? && h in file.value.chunks)
    {
      this.cache, this.high, this.low := cache, high, low;
      var i := Reconcile(OnFile(file), cache.chunks, now);
      this.idx, this.saved, this.dirty := i, i, false;
      new;
      RestartKeeps(OnFile(file), cache.chunks, now);
    }

    method SaveIndex()
      modifies this`saved, this`dirty
      ensures saved == idx && !dirty
    {
      saved := idx;
      dirty := false;
    }

    /** Whatever happened before, a restart after a flush loses nothing. */
    method FlushIndex()
      requires Synced()
      modifies this`saved, this`dirty
      ensures Synced() && saved == idx && !dirty
    {
      if dirty {
        SaveIndex();
      }
    }

    method TouchChunk(h: Hash, size: int, now: int)
      modifies this`idx, this`dirty
      ensures idx == Touched(old(idx), h, size, now) && dirty && Synced()
      ensures h in idx.chunks && idx.chunks[h].lastAccess == now
      ensures size > 0 ==> idx.chunks[h].size == size
      ensures size <= 0 ==> idx.chunks[h].size == if h in old(idx).chunks then old(idx).chunks[h].size else 0
      ensures idx.chunks[h].refCount == if h in old(idx).chunks then old(idx).chunks[h].refCount else 0
      ensures idx.chunks - {h} == old(idx).chunks - {h} && idx.pins == old(idx).pins
    {
      var meta := MetaOf(idx, h);
      if size > 0 {
        meta := meta.(size := size);
      }
      idx := idx.(chunks := idx.chunks[h := meta.(lastAccess := now)]);
      dirty := true;
    }

    method PinArtifact(m: Artifact)
      modifies this`idx, this`saved, this`dirty
      ensures old(Consistent(idx)) ==> Consistent(idx)
      ensures saved == idx && Synced()
      ensures exists hashes :: NoDup(hashes) && Elems(hashes) == (set c | c in RefsOf(m.files) :: c.hash)
                && idx == Pinned(old(idx), m.artifactID, hashes, cache.chunks)
    {
      var hashes := AllChunkHashes(m);
      if Consistent(idx) {
        PinKeeps(idx, m.artifactID, hashes, cache.chunks);
      }
      if m.artifactID in idx.pins {
        assert idx == Pinned(idx, m.artifactID, hashes, cache.chunks);
        SaveIndex();
        return;
      }
      var chunks := RaiseCounts(idx.chunks, hashes, cache.chunks);
      idx := Index(chunks, idx.pins[m.artifactID := hashes]);
      SaveIndex();
    }

    method UnpinArtifact(id: string)
      modifies this`idx, this`saved, this`dirty
      ensures old(Consistent(idx)) ==> Consistent(idx)
      ensures saved == idx && Synced() && idx == Unpinned(old(idx), id)
    {
      if Consistent(idx) {
        UnpinKeeps(idx, id);
      }
      var hashes := if id in idx.pins then idx.pins[id] else [];
      var chunks := LowerCounts(idx.chunks, hashes);
      idx := Index(chunks, idx.pins - {id});
      SaveIndex();
    }

    /** `stuck` are the files the system refuses to delete.  Below the high mark nothing happens; otherwise
        the eviction is fair, removes the same hashes from disk and index, and keeps the counts. */
    method MaybeEvict(stuck: set<Hash>) returns (evicted: nat, ghost gone: set<Hash>)
      requires cache.Valid() && Synced()
      modifies this`idx, this`saved, this`dirty, cache`chunks
      ensures cache.Valid() && Synced() && (old(Consistent(idx)) ==> Consistent(idx))
      ensures idx == Dropped(old(idx), gone) && cache.chunks == old(cache.chunks) - gone
      ensures evicted == |gone| && gone <= old(idx.chunks.Keys)
      ensures Total(old(idx.chunks)) < high ==> gone == {} && saved == old(saved) && dirty == old(dirty)
      ensures Total(old(idx.chunks)) >= high ==> saved == idx && !dirty
      ensures Total(old(idx.chunks)) >= high ==>
        FairEviction(old(idx.chunks), gone, low, Undeletable(old(idx.chunks), stuck))
      ensures forall h :: h in gone ==> old(idx).chunks[h].refCount <= 0 && h !in stuck && ValidName(h)
      ensures forall h, g :: h in gone && g in idx.chunks && Removable(idx.chunks, g, stuck) ==>
                old(idx).chunks[h].lastAccess <= idx.chunks[g].lastAccess
      ensures Total(old(idx.chunks)) >= high ==>
                Total(idx.chunks) <= low || forall g :: g in idx.chunks ==> !Removable(idx.chunks, g, stuck)
      ensures gone != {} ==> exists h :: h in gone && Total(idx.chunks) + old(idx).chunks[h].size > low
    {
      gone, evicted := {}, 0;
      assert old(idx.chunks) - gone == old(idx.chunks) && old(cache.chunks) - gone == old(cache.chunks);
      var used := SumSizes(idx.chunks);
      if used < high {
        return;
      }
      var list := SortByAccess(idx.chunks, Unreferenced(idx.chunks));
      WholeSweep(Holdings(), list, low, stuck);
      evicted, gone := EvictLoop(list, used, stuck);
      WhatFairMeans(old(idx.chunks), gone, low, stuck);
      SaveIndex();
    }

    /** The disk and the index, as the eviction loop changes them. */
    function Holdings(): Storage
      reads this, cache
    {
      Storage(idx, cache.chunks)
    }

    /** One candidate: its file goes, if there is one, and then its index entry; unless the file cannot be removed. */
    method EvictOne(h: Hash, used: int, stuck: set<Hash>) returns (left: int, removed: bool)
      requires cache.Valid()
      modifies this`idx, cache`chunks
      ensures cache.Valid() && (Holdings(), left, removed) == Tried(old(Holdings()), h, used, stuck)
    {
      if h in stuck || !ValidName(h) {
        return used, false;
      }
      assert h !in cache.chunks ==> cache.chunks - {h} == cache.chunks;
      var there := cache.DeleteChunk(h);
      left, removed := used - MetaOf(idx, h).size, true;
      idx := idx.(chunks := idx.chunks - {h});
    }

    /** The loop over the candidates. */
    method EvictLoop(list: seq<Hash>, total: int, stuck: set<Hash>) returns (evicted: nat, ghost gone: set<Hash>)
      requires cache.Valid()
      modifies this`idx, cache`chunks
      ensures cache.Valid() && Swept(Holdings(), gone, evicted) == Sweep(old(Holdings()), list, total, low, stuck)
    {
      var used, i := total, 0;
      gone, evicted := {}, 0;
      ghost var was := Holdings();
      assert list[0..] == list;
      while i < |list| && used > low
        invariant i <= |list| && cache.Valid()
        invariant Sweep(was, list, total, low, stuck)
               == Plus(gone, evicted, Sweep(Holdings(), list[i..], used, low, stuck))
      {
        SweepStep(Holdings(), list, i, used, low, stuck, gone, evicted);
        var removed;
        used, removed := EvictOne(list[i], used, stuck);
        gone := if removed then gone + {list[i]} else gone;
        evicted := if removed then evicted + 1 else evicted;
        i := i + 1;
      }
    }
  }

  datatype Storage = Storage(idx: Index, files: map<Hash, Bytes>)

  /** One candidate: it goes from disk and index, unless its file cannot be removed. */
  function Tried(x: Storage, h: Hash, used: int, stuck: set<Hash>): (Storage, int, bool) {
    if h in stuck || !ValidName(h) then (x, used, false)
    else (Storage(x.idx.(chunks := x.idx.chunks - {h}), x.files - {h}), used - MetaOf(x.idx, h).size, true)
  }

  /** What a sweep leaves, what it removed, and how many that were. */
  datatype Swept = Swept(x: Storage, gone: set<Hash>, n: nat)

  function Plus(gone: set<Hash>, n: nat, r: Swept): Swept {
    Swept(r.x, gone + r.gone, n + r.n)
  }

  /** The candidates in order, until the total is down to the target. */
  function Sweep(x: Storage, list: seq<Hash>, used: int, low: int, stuck: set<Hash>): Swept
    decreases |list|
  {
    if list == [] || used <= low then Swept(x, {}, 0)
    else
      var (next, left, removed) := Tried(x, list[0], used, stuck);
      Plus(if removed then {list[0]} else {}, if removed then 1 else 0, Sweep(next, list[1..], left, low, stuck))
  }

  lemma SweepStep(x: Storage, list: seq<Hash>, i: nat, used: int, low: int, stuck: set<Hash>, gone: set<Hash>, n: nat)
    requires i < |list| && used > low
    ensures var (next, left, removed) := Tried(x, list[i], used, stuck);
            var gone', n' := if removed then gone + {list[i]} else gone, if removed then n + 1 else n;
            var rest := Sweep(next, list[i + 1..], left, low, stuck);
            Plus(gone, n, Sweep(x, list[i..], used, low, stuck)) == Plus(gone', n', rest)
  {
    var (next, left, removed) := Tried(x, list[i], used, stuck);
    var rest := Sweep(next, list[i + 1..], left, low, stuck);
    assert list[i..][1..] == list[i + 1..];
    assert gone + ({list[i]} + rest.gone) == gone + {list[i]} + rest.gone;
    assert gone + ({} + rest.gone) == gone + rest.gone;
  }

  /** Where the eviction loop stands after `i` candidates, with `gone` removed from disk and index. */
  ghost predicate Evicting(was: Storage, now: Storage, list: seq<Hash>, i: nat, gone: set<Hash>, used: int, low: int,
      stuck: set<Hash>) {
    && now.idx.pins == was.idx.pins && now.files == was.files - gone
    && LoopState(was.idx.chunks, list, i, gone, now.idx.chunks, used, low, Undeletable(was.idx.chunks, stuck))
  }

  lemma EvictingNext(was: Storage, now: Storage, list: seq<Hash>, i: nat, gone: set<Hash>, used: int, low: int,
      stuck: set<Hash>)
    requires Evicting(was, now, list, i, gone, used, low, stuck) && i < |list| && used > low
    ensures var (next, left, removed) := Tried(now, list[i], used, stuck);
            && (removed ==> list[i] !in gone)
            && Evicting(was, next, list, i + 1, if removed then gone + {list[i]} else gone, left, low, stuck)
  {
    var h, held := list[i], Undeletable(was.idx.chunks, stuck);
    CandidateIsIndexed(was.idx.chunks, list, i);
    if h !in stuck && ValidName(h) {
      LoopEvicts(was.idx.chunks, list, i, gone, now.idx.chunks, used, low, held);
      RemoveOne(was.files, gone, h);
    } else {
      LoopSkips(was.idx.chunks, list, i, gone, now.idx.chunks, used, low, held);
    }
  }

  /** The sweep removes the same hashes from disk and index, counts them, and is fair. */
  lemma {:induction false} SweepIsFair(was: Storage, now: Storage, list: seq<Hash>, i: nat, gone: set<Hash>, used: int,
      low: int, stuck: set<Hash>)
    requires i <= |list| && Evicting(was, now, list, i, gone, used, low, stuck)
    ensures var r := Plus(gone, |gone|, Sweep(now, list[i..], used, low, stuck));
            && r.x == Storage(Dropped(was.idx, r.gone), was.files - r.gone) && r.n == |r.gone|
            && FairEviction(was.idx.chunks, r.gone, low, Undeletable(was.idx.chunks, stuck))
    decreases |list| - i
  {
    if i == |list| || used <= low {
      assert list[i..] == [] || used <= low;
      assert gone + {} == gone;
      EvictingEnds(was, now, list, i, gone, used, low, stuck);
    } else {
      var (next, left, removed) := Tried(now, list[i], used, stuck);
      SweepStep(now, list, i, used, low, stuck, gone, |gone|);
      EvictingNext(was, now, list, i, gone, used, low, stuck);
      SweepIsFair(was, next, list, i + 1, if removed then gone + {list[i]} else gone, left, low, stuck);
    }
  }

  lemma WholeSweep(was: Storage, list: seq<Hash>, low: int, stuck: set<Hash>)
    requires OldestFirst(was.idx.chunks, list) && Elems(list) == Unreferenced(was.idx.chunks)
    ensures var r := Sweep(was, list, Total(was.idx.chunks), low, stuck);
            && r.x == Storage(Dropped(was.idx, r.gone), was.files - r.gone) && r.n == |r.gone|
            && r.gone <= was.idx.chunks.Keys && (Consistent(was.idx) ==> Consistent(r.x.idx))
            && FairEviction(was.idx.chunks, r.gone, low, Undeletable(was.idx.chunks, stuck))
  {
    var used, r := Total(was.idx.chunks), Sweep(was, list, Total(was.idx.chunks), low, stuck);
    assert was.files - {} == was.files && list[0..] == list;
    LoopStarts(was.idx.chunks, list, low, Undeletable(was.idx.chunks, stuck));
    SweepIsFair(was, was, list, 0, {}, used, low, stuck);
    assert Plus({}, 0, r) == r;
    if Consistent(was.idx) {
      DropKeeps(was.idx, r.gone);
    }
  }

  lemma EvictingEnds(was: Storage, now: Storage, list: seq<Hash>, i: nat, gone: set<Hash>, used: int, low: int,
      stuck: set<Hash>)
    requires Evicting(was, now, list, i, gone, used, low, stuck) && (i == |list| || used <= low)
    ensures now == Storage(Dropped(was.idx, gone), was.files - gone)
    ensures FairEviction(was.idx.chunks, gone, low, Undeletable(was.idx.chunks, stuck))
  {
    LoopEnds(was.idx.chunks, list, i, gone, now.idx.chunks, used, low, Undeletable(was.idx.chunks, stuck));
  }

  lemma CandidateIsIndexed(chunks: map<Hash, Meta>, list: seq<Hash>, i: nat)
    requires i < |list| && Elems(list) == Unreferenced(chunks)
    ensures list[i] in chunks
  {
    assert list[i] in Elems(list);
  }

  /** Index entries whose file cannot be removed: the system refuses, or the name is not a chunk name. */
  ghost function Undeletable(chunks: map<Hash, Meta>, stuck: set<Hash>): set<Hash> {
    set h | h in chunks && (h in stuck || !ValidName(h))
  }

  /** Not pinned, and its file can be removed. */
  predicate Removable(chunks: map<Hash, Meta>, h: Hash, stuck: set<Hash>)
    requires h in chunks
  {
    chunks[h].refCount <= 0 && h !in stuck && ValidName(h)
  }

  lemma WhatFairMeans(was: map<Hash, Meta>, gone: set<Hash>, low: int, stuck: set<Hash>)
    requires FairEviction(was, gone, low, Undeletable(was, stuck))
    ensures forall h :: h in gone ==> h in was && Removable(was, h, stuck)
    ensures forall h, g :: h in gone && g in was - gone && Removable(was, g, stuck) ==>
              was[h].lastAccess <= was[g].lastAccess
    ensures Total(was - gone) <= low || forall g :: g in was - gone ==> !Removable(was, g, stuck)
    ensures gone != {} ==> exists h :: h in gone && Total(was - gone) + was[h].size > low
  {
    forall h, g | h in gone && g in was - gone && Removable(was, g, stuck)
      ensures was[h].lastAccess <= was[g].lastAccess
    {
      assert g in Unreferenced(was) - gone - Undeletable(was, stuck);
    }
    if Total(was - gone) > low {
      forall g | g in was - gone ensures !Removable(was, g, stuck) {
        assert was[g].refCount <= 0 ==> g in Unreferenced(was - gone);
      }
    }
    if gone != {} {
      var last :| LastNeeded(was, gone, low, last);
      assert last in gone && Total(was - gone) + was[last].size > low;
    }
  }

  lemma RemoveOne<V>(files: map<Hash, V>, gone: set<Hash>, h: Hash)
    ensures (files - gone) - {h} == files - (gone + {h})
  {
  }

  /** Touch a chunk, then evict: if it was used later than every other entry, it goes only when no other chunk that
      is unreferenced and removable is left. */
  method TouchThenEvict(q: QuotaManager, h: Hash, size: int, now: int, stuck: set<Hash>)
    returns (evicted: nat, ghost gone: set<Hash>)
    requires q.cache.Valid() && q.Synced()
    requires forall g :: g in q.idx.chunks && g != h ==> q.idx.chunks[g].lastAccess < now
    modifies q`idx, q`saved, q`dirty, q.cache`chunks
    ensures q.cache.Valid() && q.cache.chunks == old(q.cache.chunks) - gone
    ensures q.idx.chunks.Keys == old(q.idx).chunks.Keys + {h} - gone
    ensures h in gone ==>
              forall g :: g in q.idx.chunks && q.idx.chunks[g].refCount <= 0 ==> g in stuck || !ValidName(g)
  {
    q.TouchChunk(h, size, now);
    ghost var was := q.idx;
    evicted, gone := q.MaybeEvict(stuck);
    if h in gone {
      TouchedGoesLast(old(q.idx), h, size, now, gone, q.low, Undeletable(was.chunks, stuck));
    }
  }
}
