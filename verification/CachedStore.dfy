/** The read-through cache in front of the tracker's store, as the object that is called.  Writes go to the inner store
    and then invalidate; most heartbeats stop at the cache. */
module CachedStore {
  import opened Base
  import opened Sorting
  import opened TrackerStore
  import opened MetaCache
  import opened TrackerCache

  const SECOND_NS := 1_000_000_000

  class CachedStore {
    const inner: MemoryStore
    const cache: Memory<Val>
    const params: Params      // lifetime of entries, time between written heartbeats
    var lastHBFlush: map<NodeId, int>

    function State(): Tracker
      reads this, inner, cache
    {
      Tracker(inner.Value(), cache.items, lastHBFlush)
    }

    ghost predicate Valid()
      reads this, inner, cache
    {
      params.ttl > 0 && Agreed(State())
    }

    /** Whatever the cache already holds: the object is valid exactly if that agrees with the store. */
    constructor (inner: MemoryStore, cache: Memory<Val>, ttl: int)
      ensures this.inner == inner && this.cache == cache && lastHBFlush == map[]
      ensures params == Params(if ttl <= 0 then 10 * SECOND_NS else ttl, 5 * SECOND_NS)
      ensures Valid() <==> Coherent(inner.Value(), cache.items)
    {
      this.inner, this.cache := inner, cache;
      params := Params(if ttl <= 0 then 10 * SECOND_NS else ttl, 5 * SECOND_NS);
      lastHBFlush := map[];
    }

    // --- Writes ---

    method UpsertPeer(p: Peer, now: int)
      requires Valid()
      modifies inner`peers, cache`items
      ensures Valid() && State() == AfterUpsert(old(State()), p, now)
    {
      UpsertKeeps(State(), p, now);
      inner.UpsertPeer(p, now);
      cache.Delete(PeerKey(p.id));
      cache.Delete(PEERS_LIST);
    }

    method DeregisterPeer(id: NodeId)
      requires Valid()
      modifies inner, cache`items
      ensures Valid() && State() == AfterDeregister(old(State()), id)
      ensures inner.peers.Keys == old(inner.peers).Keys - {id}
      ensures forall i :: i in inner.peers ==> inner.peers[i] == old(inner.peers)[i]
      ensures forall a :: NodesOf(inner.seeds, a) == NodesOf(old(inner.seeds), a) - {id}
      ensures forall h :: NodesOf(inner.chunks, h) == NodesOf(old(inner.chunks), h) - {id}
      ensures inner.arts == old(inner.arts)
    {
      DeregisterKeeps(State(), id);
      inner.DeregisterPeer(id);
      cache.Delete(PeerKey(id));
      cache.Delete(PEERS_LIST);
      cache.DeletePrefix(SeedsKind);
      cache.DeletePrefix(LocateKind);
      cache.DeletePrefix(ChunksKind);
    }

    method PruneExpiredPeers(expiry: int, now: int) returns (n: nat)
      requires Valid()
      modifies inner, cache`items
      ensures Valid() && State() == AfterPrune(old(State()), expiry, now)
      ensures n == |old(inner.peers)| - |inner.peers|
      ensures forall i :: i in inner.peers <==> i in old(inner.peers) && now - old(inner.peers)[i].seen <= expiry
      ensures forall i :: i in inner.peers ==> inner.peers[i] == old(inner.peers)[i]
      ensures Purges(old(inner.seeds), inner.seeds, old(inner.peers), expiry, now)
      ensures Purges(old(inner.chunks), inner.chunks, old(inner.peers), expiry, now)
      ensures inner.arts == old(inner.arts)
    {
      PruneKeeps(State(), expiry, now);
      ForgottenNone(inner.Value());
      n := inner.PruneExpiredPeers(expiry, now);
      if n == 0 {
        return;
      }
      cache.Delete(PEERS_LIST);
      cache.DeletePrefix(PeerKind);
      cache.DeletePrefix(SeedsKind);
      cache.DeletePrefix(LocateKind);
      cache.DeletePrefix(ChunksKind);
    }

    method PutArtifact(id: string, rec: string)
      requires Valid()
      modifies inner`arts, cache`items
      ensures Valid() && State() == AfterPut(old(State()), id, rec)
    {
      PutKeeps(State(), id, rec);
      inner.PutArtifact(id, rec);
      cache.Delete(ArtifactKey(id));
    }

    method ReportSeed(artifact: string, node: NodeId)
      requires Valid()
      modifies inner`seeds, cache`items
      ensures Valid() && State() == AfterSeed(old(State()), artifact, node)
    {
      SeedKeeps(State(), artifact, node);
      inner.ReportSeed(artifact, node);
      cache.Delete(SeedsKey(artifact));
      cache.Delete(LocateKey(artifact));
    }

    method ReportChunks(node: NodeId, hashes: seq<Hash>, now: int) returns (n: nat)
      requires Valid()
      modifies inner`peers, inner`chunks, cache`items
      ensures Valid() && State() == AfterReport(old(State()), node, hashes, now) && n == |Filter(IsNamed, hashes)|
    {
      ReportKeeps(State(), node, hashes, now);
      n := inner.ReportChunks(node, hashes, now);
      ghost var items := cache.items;
      assert items - ChunkKeys(hashes[..0]) == items;
      for i := 0 to |hashes|
        invariant cache.items == items - ChunkKeys(hashes[..i])
        invariant inner.Value() == Reported(old(inner.Value()), node, hashes, now)
      {
        assert ChunkKeys(hashes[..i + 1]) == ChunkKeys(hashes[..i]) + {ChunksKey(hashes[i])};
        cache.Delete(ChunksKey(hashes[i]));
      }
      assert hashes[..|hashes|] == hashes;
    }

    /** The inner store sees a beat unless one was written through less than `every` ago and the node is cached. */
    method Heartbeat(id: NodeId, now: int) returns (ok: bool)
      requires Valid()
      modifies inner`peers, cache`items, this`lastHBFlush
      ensures Valid() && (State(), ok) == AfterBeat(params, old(State()), id, now)
      ensures cache.items - {PeerKey(id)} == old(cache.items) - {PeerKey(id)}
    {
      BeatKeeps(params, State(), id, now);
      BeatLeavesOthers(params, State(), id, now);
      CachedPeerIsFound(State(), id, now);
      var flush := id !in lastHBFlush || now - lastHBFlush[id] >= params.every;
      if flush {
        lastHBFlush := lastHBFlush[id := now];
      } else {
        var cached := RefreshCached(id, now);
        if cached {
          return true;
        }
      }
      ok := inner.Heartbeat(id, now);
      if !ok {
        return;
      }
      var found := RefreshCached(id, now);
    }

    /** Moves the heartbeat of a cached peer and gives the entry a new lifetime. */
    method RefreshCached(id: NodeId, now: int) returns (cached: bool)
      requires params.ttl > 0 && var v := Live(cache.items, PeerKey(id), now); v.Some? ==> v.value.PeerVal?
      modifies cache`items
      ensures cached == CachedPeer(old(cache.items), id, now).Some?
      ensures cached ==>
                var p := CachedPeer(old(cache.items), id, now).value;
                cache.items == Stored(old(cache.items), PeerKey(id), PeerVal(p.(seen := now)), now + params.ttl)
      ensures !cached ==> cache.items == Purged(old(cache.items), {PeerKey(id)}, now)
    {
      var v := cache.Get(PeerKey(id), now);
      cached := v.Some?;
      if cached {
        cache.Set(PeerKey(id), PeerVal(v.value.peer.(seen := now)), params.ttl, now);
      }
    }

    // --- Reads ---

    /** The inner store's answer, except that the heartbeat time may be another. */
    method GetPeer(id: NodeId, now: int) returns (p: Option<Peer>)
      requires Valid()
      modifies cache`items
      ensures Valid() && (State(), p) == ReadPeer(params, old(State()), id, now)
      ensures p.Some? == (id in inner.peers) && (p.Some? ==> SamePeer(p.value, inner.peers[id]))
    {
      ReadPeerAgrees(params, State(), id, now);
      CachedPeerIsFound(State(), id, now);
      var v := cache.Get(PeerKey(id), now);
      if v.Some? {
        return Some(v.value.peer);
      }
      p := Lookup(inner.peers, id);
      if p.Some? {
        cache.Set(PeerKey(id), PeerVal(p.value), params.ttl, now);
      }
    }

    /** All the inner store's peers if `expiry` is not positive; otherwise the unexpired part of a list that may be
        old in its heartbeat times. */
    method ListPeers(expiry: int, now: int) returns (out: map<NodeId, Peer>)
      requires Valid()
      modifies cache`items
      ensures Valid() && (State(), out) == ReadList(params, old(State()), expiry, now)
      ensures expiry <= 0 ==> SamePeers(out, inner.peers)
    {
      ReadListAgrees(params, State(), expiry, now);
      CachedListIsFound(State(), now);
      var v := cache.Get(PEERS_LIST, now);
      if v.Some? {
        out := FilterExpiry(v.value.peers, expiry, now);
        return;
      }
      var peers := FilterExpiry(inner.peers, 0, now);
      assert peers == inner.peers;
      cache.Set(PEERS_LIST, PeersVal(peers), params.ttl, now);
      out := FilterExpiry(peers, expiry, now);
    }

    method GetArtifact(id: string, now: int) returns (a: Option<string>)
      requires Valid()
      modifies cache`items
      ensures Valid() && (State(), a) == ReadArtifact(params, old(State()), id, now)
      ensures a == Lookup(inner.arts, id)
    {
      ReadArtifactAgrees(params, State(), id, now);
      CachedArtifactIsFound(State(), id, now);
      var v := cache.Get(ArtifactKey(id), now);
      if v.Some? {
        return Some(v.value.rec);
      }
      a := Lookup(inner.arts, id);
      if a.Some? {
        cache.Set(ArtifactKey(id), ArtifactVal(a.value), params.ttl, now);
      }
    }

    method ListSeeds(artifact: string, now: int) returns (ids: set<NodeId>)
      requires Valid()
      modifies cache`items
      ensures Valid() && (State(), ids) == ReadSeeds(params, old(State()), artifact, now)
      ensures ids == NodesOf(inner.seeds, artifact)
    {
      ReadIdsAgrees(params, State(), SeedsKey(artifact), NodesOf(inner.seeds, artifact), now);
      CachedIdsAreFound(State(), SeedsKey(artifact), now);
      var v := cache.Get(SeedsKey(artifact), now);
      if v.Some? {
        return v.value.ids;
      }
      ids := NodesOf(inner.seeds, artifact);
      cache.Set(SeedsKey(artifact), IdsVal(ids), params.ttl, now);
    }

    method LocateChunkNodes(h: Hash, now: int) returns (ids: set<NodeId>)
      requires Valid()
      modifies cache`items
      ensures Valid() && (State(), ids) == ReadNodes(params, old(State()), h, now)
      ensures ids == NodesOf(inner.chunks, h)
    {
      ReadIdsAgrees(params, State(), ChunksKey(h), NodesOf(inner.chunks, h), now);
      CachedIdsAreFound(State(), ChunksKey(h), now);
      var v := cache.Get(ChunksKey(h), now);
      if v.Some? {
        return v.value.ids;
      }
      ids := NodesOf(inner.chunks, h);
      cache.Set(ChunksKey(h), IdsVal(ids), params.ttl, now);
    }

    /** Every requested hash with the inner store's nodes, whether it was cached or not. */
    method LocateChunkNodesBatch(hashes: seq<Hash>, now: int) returns (out: map<Hash, set<NodeId>>)
      requires Valid()
      modifies cache`items
      ensures Valid() && (State(), out) == ReadNodesBatch(params, old(State()), hashes, now)
      ensures out == NodesFor(inner.chunks, hashes)
    {
      ReadNodesBatchAgrees(params, State(), hashes, now);
      if |hashes| == 0 {
        EmptyBatch(params, State(), now);
        return map[];
      }
      out := ReadNodeLists(hashes, now);
    }

    /** The three passes of a batch: look everything up, fetch what is missing, cache that. */
    method ReadNodeLists(hashes: seq<Hash>, now: int) returns (out: map<Hash, set<NodeId>>)
      requires Valid()
      modifies cache`items
      ensures var s, until := old(State()), now + params.ttl;
              cache.items == Refilled(s, ChunkKeys(hashes), NodeFills(s, hashes, now), now, until).items
      ensures out == NodeAnswers(old(State()), hashes, now)
    {
      var misses: seq<Hash>;
      out, misses := FindNodeLists(hashes, now);
      NodesAnswered(old(State()), hashes, misses, now);
      if |misses| == 0 {
        NothingRefilled(old(State()), ChunkKeys(hashes), NodeFills(old(State()), hashes, now), now, now + params.ttl);
        return;
      }
      var rest := FetchNodeLists(misses, now);
      out := out + rest;
    }

    method FindNodeLists(hashes: seq<Hash>, now: int) returns (out: map<Hash, set<NodeId>>, misses: seq<Hash>)
      requires Valid()
      modifies cache`items
      ensures cache.items == Purged(old(cache.items), ChunkKeys(hashes), now)
      ensures out == CachedAnswers(old(State()), hashes, now) && Missed(old(State()), hashes, misses, now)
    {
      var keys := seq(|hashes|, i requires 0 <= i < |hashes| => ChunksKey(hashes[i]));
      ChunkKeysOf(State(), hashes, keys, now);
      var got := cache.MGet(keys, now);
      out, misses := SplitNodes(hashes, got, old(State()), now);
    }

    method FetchNodeLists(misses: seq<Hash>, now: int) returns (rest: map<Hash, set<NodeId>>)
      requires params.ttl > 0
      modifies cache`items
      ensures rest == NodesFor(inner.chunks, misses)
      ensures cache.items == StoredAll(old(cache.items), NodeEntries(rest), now + params.ttl)
    {
      rest := inner.LocateChunkNodesBatch(misses);
      var vals := NodeVals(rest);
      cache.MSet(vals, params.ttl, now);
    }

    /** Exactly the known ids, with the inner store's records except for heartbeat times. */
    method GetPeersBatch(ids: seq<NodeId>, now: int) returns (out: map<NodeId, Peer>)
      requires Valid()
      modifies cache`items
      ensures Valid() && (State(), out) == ReadPeersBatch(params, old(State()), ids, now)
      ensures out.Keys == set id | id in ids && id in inner.peers
      ensures forall id :: id in ids && id in inner.peers ==> SamePeer(out[id], inner.peers[id])
    {
      ReadPeersBatchAgrees(params, State(), ids, now);
      if |ids| == 0 {
        EmptyBatch(params, State(), now);
        return map[];
      }
      out := ReadPeerRecords(ids, now);
    }

    method ReadPeerRecords(ids: seq<NodeId>, now: int) returns (out: map<NodeId, Peer>)
      requires Valid()
      modifies cache`items
      ensures var s, until := old(State()), now + params.ttl;
              cache.items == Refilled(s, PeerKeys(ids), PeerFills(s, ids, now), now, until).items
      ensures out == PeerAnswers(old(State()), ids, now)
    {
      var misses: seq<NodeId>;
      out, misses := FindPeers(ids, now);
      PeersAnswered(old(State()), ids, misses, now);
      if |misses| == 0 {
        NothingRefilled(old(State()), PeerKeys(ids), PeerFills(old(State()), ids, now), now, now + params.ttl);
        return;
      }
      var rest := FetchPeers(misses, now);
      out := out + rest;
    }

    method FindPeers(ids: seq<NodeId>, now: int) returns (out: map<NodeId, Peer>, misses: seq<NodeId>)
      requires Valid()
      modifies cache`items
      ensures cache.items == Purged(old(cache.items), PeerKeys(ids), now)
      ensures out == CachedPeers(old(State()), ids, now) && MissedPeers(old(State()), ids, misses, now)
    {
      var keys := seq(|ids|, i requires 0 <= i < |ids| => PeerKey(ids[i]));
      PeerKeysOf(State(), ids, keys, now);
      var got := cache.MGet(keys, now);
      out, misses := SplitPeers(ids, got, old(State()), now);
    }

    method FetchPeers(misses: seq<NodeId>, now: int) returns (rest: map<NodeId, Peer>)
      requires params.ttl > 0
      modifies cache`items
      ensures rest == Known(inner.peers, misses)
      ensures cache.items == StoredAll(old(cache.items), PeerEntries(rest), now + params.ttl)
    {
      rest := inner.GetPeersBatch(misses);
      var vals := PeerVals(rest);
      cache.MSet(vals, params.ttl, now);
    }
  }

  // --- What a lookup finds in a cache that agrees ---

  lemma CachedPeerIsFound(s: Tracker, id: NodeId, now: int)
    requires Agreed(s)
    ensures var v := Live(s.items, PeerKey(id), now);
            && (v.Some? ==> v.value.PeerVal? && CachedPeer(s.items, id, now) == Some(v.value.peer))
            && (v.Some? ==> Purged(s.items, {PeerKey(id)}, now) == s.items)
            && (v.None? ==> CachedPeer(s.items, id, now).None?)
    ensures Live(Purged(s.items, {PeerKey(id)}, now), PeerKey(id), now) == Live(s.items, PeerKey(id), now)
    ensures Purged(Purged(s.items, {PeerKey(id)}, now), {PeerKey(id)}, now) == Purged(s.items, {PeerKey(id)}, now)
  {
  }

  lemma CachedListIsFound(s: Tracker, now: int)
    requires Agreed(s)
    ensures var v := Live(s.items, PEERS_LIST, now);
            && (v.Some? ==> v.value.PeersVal? && CachedList(s.items, now) == Some(v.value.peers))
            && (v.Some? ==> Purged(s.items, {PEERS_LIST}, now) == s.items)
            && (v.None? ==> CachedList(s.items, now).None?)
  {
  }

  lemma CachedArtifactIsFound(s: Tracker, id: string, now: int)
    requires Agreed(s)
    ensures var v := Live(s.items, ArtifactKey(id), now);
            && (v.Some? ==> v.value.ArtifactVal? && CachedArtifact(s.items, id, now) == Some(v.value.rec))
            && (v.Some? ==> Purged(s.items, {ArtifactKey(id)}, now) == s.items)
            && (v.None? ==> CachedArtifact(s.items, id, now).None?)
  {
  }

  lemma CachedIdsAreFound(s: Tracker, k: Key, now: int)
    requires Agreed(s) && (k.kind == SeedsKind || k.kind == ChunksKind)
    ensures var v := Live(s.items, k, now);
            && (v.Some? ==> v.value.IdsVal? && CachedIds(s.items, k, now) == Some(v.value.ids))
            && (v.Some? ==> Purged(s.items, {k}, now) == s.items)
            && (v.None? ==> CachedIds(s.items, k, now).None?)
  {
  }

  // --- Batches ---

  ghost predicate GotNodes(s: Tracker, hashes: seq<Hash>, got: map<Key, Val>, now: int) {
    forall h :: h in hashes ==>
      && (ChunksKey(h) in got <==> CachedIds(s.items, ChunksKey(h), now).Some?)
      && (ChunksKey(h) in got ==> got[ChunksKey(h)] == IdsVal(CachedIds(s.items, ChunksKey(h), now).value))
  }

  lemma ChunkKeysOf(s: Tracker, hashes: seq<Hash>, keys: seq<Key>, now: int)
    requires Agreed(s) && |keys| == |hashes| && forall i :: 0 <= i < |hashes| ==> keys[i] == ChunksKey(hashes[i])
    ensures Elems(keys) == ChunkKeys(hashes)
    ensures GotNodes(s, hashes, map k | k in keys && Live(s.items, k, now).Some? :: Live(s.items, k, now).value, now)
  {
    forall h | h in hashes ensures ChunksKey(h) in keys {
      var i :| 0 <= i < |hashes| && hashes[i] == h;
      assert keys[i] == ChunksKey(h);
    }
    forall k | k in keys ensures k in ChunkKeys(hashes) {
      var i :| 0 <= i < |keys| && keys[i] == k;
      assert hashes[i] in hashes;
    }
    forall h | h in hashes
      ensures Live(s.items, ChunksKey(h), now).Some? ==> CachedIds(s.items, ChunksKey(h), now).Some?
    {
      CachedIdsAreFound(s, ChunksKey(h), now);
    }
  }

  ghost function CachedAnswers(s: Tracker, hashes: seq<Hash>, now: int): map<Hash, set<NodeId>> {
    map h | h in hashes && CachedIds(s.items, ChunksKey(h), now).Some? :: CachedIds(s.items, ChunksKey(h), now).value
  }

  /** Splits a batch into the answers the cache gave and the hashes it did not have. */
  method SplitNodes(hashes: seq<Hash>, got: map<Key, Val>, ghost s: Tracker, now: int)
    returns (out: map<Hash, set<NodeId>>, misses: seq<Hash>)
    requires GotNodes(s, hashes, got, now)
    ensures out == CachedAnswers(s, hashes, now)
    ensures Missed(s, hashes, misses, now)
  {
    out, misses := map[], [];
    for i := 0 to |hashes|
      invariant out == CachedAnswers(s, hashes[..i], now)
      invariant Elems(misses) == set h | h in hashes[..i] && CachedIds(s.items, ChunksKey(h), now).None?
    {
      var h := hashes[i];
      assert hashes[..i + 1] == hashes[..i] + [h];
      if ChunksKey(h) in got {
        out := out[h := got[ChunksKey(h)].ids];
      } else {
        assert Elems(misses + [h]) == Elems(misses) + {h};
        misses := misses + [h];
      }
    }
    assert hashes[..|hashes|] == hashes;
  }

  function NodeEntries(rest: map<Hash, set<NodeId>>): map<Key, Val> {
    map k | k in (set h | h in rest :: ChunksKey(h)) :: IdsVal(rest[k.name])
  }

  /** What goes into the cache for the hashes it did not have. */
  method NodeVals(rest: map<Hash, set<NodeId>>) returns (vals: map<Key, Val>)
    ensures vals == NodeEntries(rest)
  {
    vals := map[];
    var left := rest.Keys;
    while left != {}
      invariant left <= rest.Keys
      invariant vals == map k | k in (set h | h in rest && h !in left :: ChunksKey(h)) :: IdsVal(rest[k.name])
      decreases |left|
    {
      var h :| h in left;
      vals := vals[ChunksKey(h) := IdsVal(rest[h])];
      left := left - {h};
    }
  }

  ghost predicate Missed(s: Tracker, hashes: seq<Hash>, misses: seq<Hash>, now: int) {
    Elems(misses) == set h | h in hashes && CachedIds(s.items, ChunksKey(h), now).None?
  }

  lemma EntriesAreFills(s: Tracker, hashes: seq<Hash>, misses: seq<Hash>, now: int)
    requires Missed(s, hashes, misses, now)
    ensures NodeFills(s, hashes, now) == NodeEntries(NodesFor(s.db.chunks, misses))
  {
    assert forall h :: h in misses <==> h in Elems(misses);
    assert forall k :: k in (set h | h in NodesFor(s.db.chunks, misses) :: ChunksKey(h)) <==>
      k in ChunkKeys(hashes) && CachedIds(s.items, k, now).None?;
  }

  lemma CachedAndFetched(s: Tracker, hashes: seq<Hash>, misses: seq<Hash>, now: int)
    requires Missed(s, hashes, misses, now)
    ensures CachedAnswers(s, hashes, now) + NodesFor(s.db.chunks, misses) == NodeAnswers(s, hashes, now)
  {
    assert forall h :: h in misses <==> h in Elems(misses);
  }

  /** Cached answers, fetched answers and fills make up the whole batch. */
  lemma NodesAnswered(s: Tracker, hashes: seq<Hash>, misses: seq<Hash>, now: int)
    requires Missed(s, hashes, misses, now)
    ensures CachedAnswers(s, hashes, now) + NodesFor(s.db.chunks, misses) == NodeAnswers(s, hashes, now)
    ensures NodeFills(s, hashes, now) == NodeEntries(NodesFor(s.db.chunks, misses))
    ensures misses == [] ==>
              CachedAnswers(s, hashes, now) == NodeAnswers(s, hashes, now) && NodeFills(s, hashes, now) == map[]
  {
    CachedAndFetched(s, hashes, misses, now);
    EntriesAreFills(s, hashes, misses, now);
    if misses == [] {
      assert NodesFor(s.db.chunks, misses) == map[] && NodeEntries(map[]) == map[];
      assert CachedAnswers(s, hashes, now) + map[] == CachedAnswers(s, hashes, now);
    }
  }

  lemma NothingRefilled(s: Tracker, keys: set<Key>, vals: map<Key, Val>, now: int, until: int)
    requires vals == map[]
    ensures Refilled(s, keys, vals, now, until) == s.(items := Purged(s.items, keys, now))
  {
    assert StoredAll(Purged(s.items, keys, now), vals, until) == Purged(s.items, keys, now);
  }

  lemma EmptyBatch(c: Params, s: Tracker, now: int)
    ensures ReadNodesBatch(c, s, [], now) == (s, map[]) && ReadPeersBatch(c, s, [], now) == (s, map[])
  {
    assert ChunkKeys([]) == {} && PeerKeys([]) == {};
    assert Purged(s.items, {}, now) == s.items;
    NothingRefilled(s, {}, NodeFills(s, [], now), now, now + c.ttl);
    NothingRefilled(s, {}, PeerFills(s, [], now), now, now + c.ttl);
  }

  ghost predicate GotPeers(s: Tracker, ids: seq<NodeId>, got: map<Key, Val>, now: int) {
    forall id :: id in ids ==>
      && (PeerKey(id) in got <==> CachedPeer(s.items, id, now).Some?)
      && (PeerKey(id) in got ==> got[PeerKey(id)] == PeerVal(CachedPeer(s.items, id, now).value))
  }

  lemma PeerKeysOf(s: Tracker, ids: seq<NodeId>, keys: seq<Key>, now: int)
    requires Agreed(s) && |keys| == |ids| && forall i :: 0 <= i < |ids| ==> keys[i] == PeerKey(ids[i])
    ensures Elems(keys) == PeerKeys(ids)
    ensures GotPeers(s, ids, map k | k in keys && Live(s.items, k, now).Some? :: Live(s.items, k, now).value, now)
  {
    forall id | id in ids ensures PeerKey(id) in keys {
      var i :| 0 <= i < |ids| && ids[i] == id;
      assert keys[i] == PeerKey(id);
    }
    forall k | k in keys ensures k in PeerKeys(ids) {
      var i :| 0 <= i < |keys| && keys[i] == k;
      assert ids[i] in ids;
    }
    forall id | id in ids ensures Live(s.items, PeerKey(id), now).Some? ==> CachedPeer(s.items, id, now).Some? {
      CachedPeerIsFound(s, id, now);
    }
  }

  ghost function CachedPeers(s: Tracker, ids: seq<NodeId>, now: int): map<NodeId, Peer> {
    map id | id in ids && CachedPeer(s.items, id, now).Some? :: CachedPeer(s.items, id, now).value
  }

  method SplitPeers(ids: seq<NodeId>, got: map<Key, Val>, ghost s: Tracker, now: int)
    returns (out: map<NodeId, Peer>, misses: seq<NodeId>)
    requires GotPeers(s, ids, got, now)
    ensures out == CachedPeers(s, ids, now)
    ensures MissedPeers(s, ids, misses, now)
  {
    out, misses := map[], [];
    for i := 0 to |ids|
      invariant out == CachedPeers(s, ids[..i], now)
      invariant Elems(misses) == set id | id in ids[..i] && CachedPeer(s.items, id, now).None?
    {
      var id := ids[i];
      assert ids[..i + 1] == ids[..i] + [id];
      if PeerKey(id) in got {
        out := out[id := got[PeerKey(id)].peer];
      } else {
        assert Elems(misses + [id]) == Elems(misses) + {id};
        misses := misses + [id];
      }
    }
    assert ids[..|ids|] == ids;
  }

  function PeerEntries(rest: map<NodeId, Peer>): map<Key, Val> {
    map k | k in (set id | id in rest :: PeerKey(id)) :: PeerVal(rest[k.name])
  }

  method PeerVals(rest: map<NodeId, Peer>) returns (vals: map<Key, Val>)
    ensures vals == PeerEntries(rest)
  {
    vals := map[];
    var left := rest.Keys;
    while left != {}
      invariant left <= rest.Keys
      invariant vals == map k | k in (set id | id in rest && id !in left :: PeerKey(id)) :: PeerVal(rest[k.name])
      decreases |left|
    {
      var id :| id in left;
      vals := vals[PeerKey(id) := PeerVal(rest[id])];
      left := left - {id};
    }
  }

  ghost predicate MissedPeers(s: Tracker, ids: seq<NodeId>, misses: seq<NodeId>, now: int) {
    Elems(misses) == set id | id in ids && CachedPeer(s.items, id, now).None?
  }

  lemma PeerEntriesAreFills(s: Tracker, ids: seq<NodeId>, misses: seq<NodeId>, now: int)
    requires MissedPeers(s, ids, misses, now)
    ensures PeerFills(s, ids, now) == PeerEntries(Known(s.db.peers, misses))
  {
    assert forall id :: id in misses <==> id in Elems(misses);
    assert forall k :: k in (set id | id in Known(s.db.peers, misses) :: PeerKey(id)) <==>
      k in PeerKeys(ids) && CachedPeer(s.items, k.name, now).None? && k.name in s.db.peers;
  }

  lemma CachedAndKnown(s: Tracker, ids: seq<NodeId>, misses: seq<NodeId>, now: int)
    requires MissedPeers(s, ids, misses, now)
    ensures CachedPeers(s, ids, now) + Known(s.db.peers, misses) == PeerAnswers(s, ids, now)
  {
    assert forall id :: id in misses <==> id in Elems(misses);
  }

  lemma PeersAnswered(s: Tracker, ids: seq<NodeId>, misses: seq<NodeId>, now: int)
    requires MissedPeers(s, ids, misses, now)
    ensures CachedPeers(s, ids, now) + Known(s.db.peers, misses) == PeerAnswers(s, ids, now)
    ensures PeerFills(s, ids, now) == PeerEntries(Known(s.db.peers, misses))
    ensures misses == [] ==> CachedPeers(s, ids, now) == PeerAnswers(s, ids, now) && PeerFills(s, ids, now) == map[]
  {
    CachedAndKnown(s, ids, misses, now);
    PeerEntriesAreFills(s, ids, misses, now);
    if misses == [] {
      assert Known(s.db.peers, misses) == map[] && PeerEntries(map[]) == map[];
      assert CachedPeers(s, ids, now) + map[] == CachedPeers(s, ids, now);
    }
  }

  // --- Two runs of the object ---

  /** A store with the default settings in which one node has registered. */
  method Enrol(p: Peer, at: int) returns (store: CachedStore)
    ensures fresh(store) && fresh(store.inner) && fresh(store.cache) && store.Valid()
    ensures store.params == Params(10 * SECOND_NS, 5 * SECOND_NS) && store.State() == AfterUpsert(EMPTY_TRACKER, p, at)
  {
    var inner := new MemoryStore();
    var cache := new Memory<Val>(0);
    store := new CachedStore(inner, cache, 0);
    store.UpsertPeer(p, at);
  }

  /** With the default settings, a list cached at a node's registration leaves the node out 8 s later, though the
      node's beat of one second ago has reached the store. */
  method StaleListing(id: NodeId, status: string, info: string)
    returns (listed: map<NodeId, Peer>, known: map<NodeId, Peer>)
    requires id != ""
    ensures id !in listed && id in Recent(known, 5 * SECOND_NS, 108 * SECOND_NS)
  {
    var store := Enrol(Peer(id, status, info, 100 * SECOND_NS), 100 * SECOND_NS);
    var all := store.ListPeers(5 * SECOND_NS, 100 * SECOND_NS);
    ghost var entry := Entry(PeersVal(store.inner.peers), 110 * SECOND_NS);
    assert PEERS_LIST in store.cache.items && store.cache.items[PEERS_LIST] == entry;
    var ok := store.Heartbeat(id, 107 * SECOND_NS);
    assert PEERS_LIST in (store.cache.items - {PeerKey(id)}) && store.cache.items[PEERS_LIST] == entry;
    assert store.inner.peers[id].seen == 107 * SECOND_NS;
    listed := store.ListPeers(5 * SECOND_NS, 108 * SECOND_NS);
    known := store.inner.peers;
  }

  /** A node that beats every 4 s, each beat acknowledged, is pruned with an expiry of 7 s: its second beat stops at
      the cache, because someone has just looked the node up. */
  method PrunedWhileBeating(id: NodeId, status: string, info: string)
    returns (first: bool, second: bool, left: map<NodeId, Peer>)
    requires id != ""
    ensures first && second && id !in left
  {
    var store := Enrol(Peer(id, status, info, SECOND_NS), SECOND_NS);
    first := store.Heartbeat(id, SECOND_NS);
    assert store.inner.peers[id].seen == SECOND_NS && store.lastHBFlush[id] == SECOND_NS;
    var p := store.GetPeer(id, 5 * SECOND_NS);
    assert CachedPeer(store.cache.items, id, 5 * SECOND_NS).Some?;
    second := store.Heartbeat(id, 5 * SECOND_NS);
    assert id in Dead(store.inner.peers, 7 * SECOND_NS, 9 * SECOND_NS);
    var n := store.PruneExpiredPeers(7 * SECOND_NS, 9 * SECOND_NS);
    left := store.inner.peers;
  }
}
