/** The tracker as one value: the inner store, the read-through cache in front of it, and the record of heartbeats
    written through.  Each operation is a function; over every history of them the cache agrees with the store. */
module TrackerCache {
  import opened Base
  import opened TrackerStore
  import opened MetaCache

  datatype Val =
    | PeerVal(peer: Peer)
    | PeersVal(peers: map<NodeId, Peer>)
    | ArtifactVal(rec: string)
    | IdsVal(ids: set<NodeId>)

  type Cache = Items<Val>

  function PeerKey(id: NodeId): Key { Key(PeerKind, id) }
  const PEERS_LIST := Key(PeersListKind, "")
  function ArtifactKey(id: string): Key { Key(ArtifactKind, id) }
  function SeedsKey(id: string): Key { Key(SeedsKind, id) }
  function LocateKey(id: string): Key { Key(LocateKind, id) }
  function ChunksKey(h: Hash): Key { Key(ChunksKind, h) }

  /** Cache lifetime and the time between heartbeats that are written through. */
  datatype Params = Params(ttl: int, every: int)

  datatype Tracker = Tracker(db: Db, items: Cache, last: map<NodeId, int>)

  const EMPTY_TRACKER := Tracker(EMPTY, map[], map[])

  // --- What lookups give ---

  function CachedPeer(items: Cache, id: NodeId, now: int): Option<Peer> {
    var v := Live(items, PeerKey(id), now);
    if v.Some? && v.value.PeerVal? then Some(v.value.peer) else None
  }

  function CachedList(items: Cache, now: int): Option<map<NodeId, Peer>> {
    var v := Live(items, PEERS_LIST, now);
    if v.Some? && v.value.PeersVal? then Some(v.value.peers) else None
  }

  function CachedArtifact(items: Cache, id: string, now: int): Option<string> {
    var v := Live(items, ArtifactKey(id), now);
    if v.Some? && v.value.ArtifactVal? then Some(v.value.rec) else None
  }

  function CachedIds(items: Cache, k: Key, now: int): Option<set<NodeId>> {
    var v := Live(items, k, now);
    if v.Some? && v.value.IdsVal? then Some(v.value.ids) else None
  }

  // --- Writes: the store first, then what must be forgotten ---

  function AfterUpsert(s: Tracker, p: Peer, now: int): Tracker {
    s.(db := Upserted(s.db, p, now), items := s.items - {PeerKey(p.id)} - {PEERS_LIST})
  }

  /** Everything that names nodes, except for peers. */
  function WithoutNodeLists(items: Cache): Cache {
    WithoutKind(WithoutKind(WithoutKind(items, SeedsKind), LocateKind), ChunksKind)
  }

  function AfterDeregister(s: Tracker, id: NodeId): Tracker {
    s.(db := Forgotten(s.db, {id}), items := WithoutNodeLists(s.items - {PeerKey(id)} - {PEERS_LIST}))
  }

  function AfterPrune(s: Tracker, expiry: int, now: int): Tracker {
    var dead := Dead(s.db.peers, expiry, now);
    if dead == {} then s
    else s.(db := Forgotten(s.db, dead), items := WithoutNodeLists(WithoutKind(s.items - {PEERS_LIST}, PeerKind)))
  }

  function AfterPut(s: Tracker, id: string, rec: string): Tracker {
    s.(db := s.db.(arts := s.db.arts[id := rec]), items := s.items - {ArtifactKey(id)})
  }

  function AfterSeed(s: Tracker, artifact: string, node: NodeId): Tracker {
    s.(db := Seeded(s.db, artifact, node), items := s.items - {SeedsKey(artifact)} - {LocateKey(artifact)})
  }

  function ChunkKeys(hashes: seq<Hash>): set<Key> {
    set h | h in hashes :: ChunksKey(h)
  }

  function AfterReport(s: Tracker, node: NodeId, hashes: seq<Hash>, now: int): Tracker {
    s.(db := Reported(s.db, node, hashes, now), items := s.items - ChunkKeys(hashes))
  }

  // --- Heartbeats ---

  /** A heartbeat is written through when the last one written for this node is at least `every` old. */
  predicate Flushes(last: map<NodeId, int>, id: NodeId, every: int, now: int) {
    id !in last || now - last[id] >= every
  }

  /** What a heartbeat does to the store and to the record of flushes; `hit` tells whether the node was cached. */
  function BeatResult(db: Db, last: map<NodeId, int>, id: NodeId, every: int, now: int, hit: bool)
    : (Db, map<NodeId, int>, bool)
  {
    if Flushes(last, id, every, now) then (Beaten(db, id, now), last[id := now], id in db.peers)
    else if hit then (db, last, true)
    else (Beaten(db, id, now), last, id in db.peers)
  }

  /** A cached peer is refreshed, and lives on, unless the beat was written through for an unknown node. */
  function BeatItems(items: Cache, id: NodeId, flush: bool, known: bool, until: int, now: int): Cache {
    if flush && !known then items
    else if CachedPeer(items, id, now).Some? then
      Stored(items, PeerKey(id), PeerVal(CachedPeer(items, id, now).value.(seen := now)), until)
    else Purged(items, {PeerKey(id)}, now)
  }

  function AfterBeat(c: Params, s: Tracker, id: NodeId, now: int): (Tracker, bool) {
    var (db, last, ok) := BeatResult(s.db, s.last, id, c.every, now, CachedPeer(s.items, id, now).Some?);
    var items := BeatItems(s.items, id, Flushes(s.last, id, c.every, now), id in s.db.peers, now + c.ttl, now);
    (Tracker(db, items, last), ok)
  }

  // --- Reads: the cache first, then the store, and what is found there is cached ---

  function ReadPeer(c: Params, s: Tracker, id: NodeId, now: int): (Tracker, Option<Peer>) {
    if CachedPeer(s.items, id, now).Some? then (s, CachedPeer(s.items, id, now))
    else
      var items := Purged(s.items, {PeerKey(id)}, now);
      if id in s.db.peers
        then (s.(items := Stored(items, PeerKey(id), PeerVal(s.db.peers[id]), now + c.ttl)), Some(s.db.peers[id]))
      else (s.(items := items), None)
  }

  function ListedBy(s: Tracker, now: int): map<NodeId, Peer> {
    if CachedList(s.items, now).Some? then CachedList(s.items, now).value else s.db.peers
  }

  function ReadList(c: Params, s: Tracker, expiry: int, now: int): (Tracker, map<NodeId, Peer>) {
    var s' := if CachedList(s.items, now).Some? then s
              else
                var items := Purged(s.items, {PEERS_LIST}, now);
                s.(items := Stored(items, PEERS_LIST, PeersVal(s.db.peers), now + c.ttl));
    (s', Recent(ListedBy(s, now), expiry, now))
  }

  function ReadArtifact(c: Params, s: Tracker, id: string, now: int): (Tracker, Option<string>) {
    if CachedArtifact(s.items, id, now).Some? then (s, CachedArtifact(s.items, id, now))
    else
      var items := Purged(s.items, {ArtifactKey(id)}, now);
      if id in s.db.arts
        then (s.(items := Stored(items, ArtifactKey(id), ArtifactVal(s.db.arts[id]), now + c.ttl)), Some(s.db.arts[id]))
      else (s.(items := items), None)
  }

  /** Seeds or chunk nodes: `ids` is the store's answer, cached even if empty. */
  function ReadIds(c: Params, s: Tracker, k: Key, ids: set<NodeId>, now: int): (Tracker, set<NodeId>) {
    if CachedIds(s.items, k, now).Some? then (s, CachedIds(s.items, k, now).value)
    else (s.(items := Stored(Purged(s.items, {k}, now), k, IdsVal(ids), now + c.ttl)), ids)
  }

  function ReadSeeds(c: Params, s: Tracker, artifact: string, now: int): (Tracker, set<NodeId>) {
    ReadIds(c, s, SeedsKey(artifact), NodesOf(s.db.seeds, artifact), now)
  }

  function ReadNodes(c: Params, s: Tracker, h: Hash, now: int): (Tracker, set<NodeId>) {
    ReadIds(c, s, ChunksKey(h), NodesOf(s.db.chunks, h), now)
  }

  function NodeFills(s: Tracker, hashes: seq<Hash>, now: int): map<Key, Val> {
    map k | k in ChunkKeys(hashes) && CachedIds(s.items, k, now).None? :: IdsVal(NodesOf(s.db.chunks, k.name))
  }

  /** What a batch lookup of `keys` followed by storing `vals` leaves in the cache. */
  function Refilled(s: Tracker, keys: set<Key>, vals: map<Key, Val>, now: int, until: int): Tracker {
    s.(items := StoredAll(Purged(s.items, keys, now), vals, until))
  }

  function NodeAnswers(s: Tracker, hashes: seq<Hash>, now: int): map<Hash, set<NodeId>> {
    map h | h in hashes ::
      if CachedIds(s.items, ChunksKey(h), now).Some? then CachedIds(s.items, ChunksKey(h), now).value
        else NodesOf(s.db.chunks, h)
  }

  function ReadNodesBatch(c: Params, s: Tracker, hashes: seq<Hash>, now: int): (Tracker, map<Hash, set<NodeId>>) {
    (Refilled(s, ChunkKeys(hashes), NodeFills(s, hashes, now), now, now + c.ttl), NodeAnswers(s, hashes, now))
  }

  function PeerKeys(ids: seq<NodeId>): set<Key> {
    set id | id in ids :: PeerKey(id)
  }

  function PeerFills(s: Tracker, ids: seq<NodeId>, now: int): map<Key, Val> {
    map k | k in PeerKeys(ids) && CachedPeer(s.items, k.name, now).None? && k.name in s.db.peers ::
      PeerVal(s.db.peers[k.name])
  }

  function PeerAnswers(s: Tracker, ids: seq<NodeId>, now: int): map<NodeId, Peer> {
    map id | id in ids && (CachedPeer(s.items, id, now).Some? || id in s.db.peers) ::
      if CachedPeer(s.items, id, now).Some? then CachedPeer(s.items, id, now).value else s.db.peers[id]
  }

  function ReadPeersBatch(c: Params, s: Tracker, ids: seq<NodeId>, now: int): (Tracker, map<NodeId, Peer>) {
    (Refilled(s, PeerKeys(ids), PeerFills(s, ids, now), now, now + c.ttl), PeerAnswers(s, ids, now))
  }

  // --- Agreement of cache and store ---

  predicate SamePeer(p: Peer, q: Peer) {
    p.id == q.id && p.status == q.status && p.info == q.info
  }

  /** Same nodes, same records, except for the heartbeat times. */
  ghost predicate SamePeers(a: map<NodeId, Peer>, b: map<NodeId, Peer>) {
    a.Keys == b.Keys && forall id :: id in a ==> SamePeer(a[id], b[id])
  }

  ghost predicate Agrees(db: Db, k: Key, v: Val) {
    match k.kind
    case PeerKind => v.PeerVal? && k.name in db.peers && SamePeer(v.peer, db.peers[k.name])
    case PeersListKind => k == PEERS_LIST && v.PeersVal? && SamePeers(v.peers, db.peers)
    case ArtifactKind => v.ArtifactVal? && k.name in db.arts && v.rec == db.arts[k.name]
    case SeedsKind => v == IdsVal(NodesOf(db.seeds, k.name))
    case LocateKind => false
    case ChunksKind => v == IdsVal(NodesOf(db.chunks, k.name))
  }

  /** Every entry, expired or not, agrees with the store. */
  ghost predicate Coherent(db: Db, items: Cache) {
    forall k :: k in items ==> Agrees(db, k, items[k].value)
  }

  /** What a write must at least invalidate: every key whose answer it can change. */
  ghost predicate Untouched(db: Db, db': Db, k: Key) {
    match k.kind
    case PeerKind => k.name in db.peers ==> k.name in db'.peers && SamePeer(db.peers[k.name], db'.peers[k.name])
    case PeersListKind => k == PEERS_LIST ==> SamePeers(db.peers, db'.peers)
    case ArtifactKind => k.name in db.arts ==> k.name in db'.arts && db'.arts[k.name] == db.arts[k.name]
    case SeedsKind => NodesOf(db'.seeds, k.name) == NodesOf(db.seeds, k.name)
    case LocateKind => true
    case ChunksKind => NodesOf(db'.chunks, k.name) == NodesOf(db.chunks, k.name)
  }

  lemma WriteKeeps(db: Db, db': Db, items: Cache, items': Cache)
    requires Coherent(db, items) && SubMap(items', items)
    requires forall k :: k in items' ==> Untouched(db, db', k)
    ensures Coherent(db', items')
  {
    forall k | k in items' ensures Agrees(db', k, items'[k].value) {
      assert Agrees(db, k, items[k].value) && Untouched(db, db', k);
    }
  }

  /** Entries may expire or be swept at any time. */
  lemma ExpiryKeeps(db: Db, items: Cache, items': Cache)
    requires Coherent(db, items) && SubMap(items', items)
    ensures Coherent(db, items')
  {
  }

  lemma FillKeeps(db: Db, items: Cache, vals: map<Key, Val>, until: int)
    requires Coherent(db, items) && forall k :: k in vals ==> Agrees(db, k, vals[k])
    ensures Coherent(db, StoredAll(items, vals, until))
  {
  }

  lemma BeatTouchesNothing(db: Db, id: NodeId, now: int, k: Key)
    ensures Untouched(db, Beaten(db, id, now), k)
  {
  }

  lemma UpsertTouches(db: Db, p: Peer, now: int, k: Key)
    requires k != PeerKey(p.id) && k != PEERS_LIST
    ensures Untouched(db, Upserted(db, p, now), k)
  {
  }

  lemma ForgetTouches(db: Db, ids: set<NodeId>, k: Key)
    requires k.kind != SeedsKind && k.kind != ChunksKind && k != PEERS_LIST && (k.kind == PeerKind ==> k.name !in ids)
    ensures Untouched(db, Forgotten(db, ids), k)
  {
  }

  lemma SeedTouches(db: Db, artifact: string, node: NodeId, k: Key)
    requires k != SeedsKey(artifact)
    ensures Untouched(db, Seeded(db, artifact, node), k)
  {
  }

  lemma ReportTouches(db: Db, node: NodeId, hashes: seq<Hash>, now: int, k: Key)
    requires k.kind == ChunksKind ==> k.name !in hashes
    ensures Untouched(db, Reported(db, node, hashes, now), k)
  {
    BeatTouchesNothing(db, node, now, k);
  }

  lemma PutTouches(db: Db, id: string, rec: string, k: Key)
    requires k != ArtifactKey(id)
    ensures Untouched(db, db.(arts := db.arts[id := rec]), k)
  {
  }

  // --- Every write keeps it ---

  ghost predicate Agreed(s: Tracker) {
    Coherent(s.db, s.items)
  }

  lemma UpsertKeeps(s: Tracker, p: Peer, now: int)
    requires Agreed(s)
    ensures Agreed(AfterUpsert(s, p, now))
  {
    var s' := AfterUpsert(s, p, now);
    forall k | k in s'.items ensures Untouched(s.db, s'.db, k) {
      UpsertTouches(s.db, p, now, k);
    }
    WriteKeeps(s.db, s'.db, s.items, s'.items);
  }

  lemma DeregisterKeeps(s: Tracker, id: NodeId)
    requires Agreed(s)
    ensures Agreed(AfterDeregister(s, id))
  {
    var s' := AfterDeregister(s, id);
    forall k | k in s'.items ensures Untouched(s.db, s'.db, k) {
      ForgetTouches(s.db, {id}, k);
    }
    WriteKeeps(s.db, s'.db, s.items, s'.items);
  }

  lemma PruneKeeps(s: Tracker, expiry: int, now: int)
    requires Agreed(s)
    ensures Agreed(AfterPrune(s, expiry, now))
  {
    var s' := AfterPrune(s, expiry, now);
    var dead := Dead(s.db.peers, expiry, now);
    if dead != {} {
      forall k | k in s'.items ensures Untouched(s.db, s'.db, k) {
        ForgetTouches(s.db, dead, k);
      }
      WriteKeeps(s.db, s'.db, s.items, s'.items);
    }
  }

  lemma PutKeeps(s: Tracker, id: string, rec: string)
    requires Agreed(s)
    ensures Agreed(AfterPut(s, id, rec))
  {
    var s' := AfterPut(s, id, rec);
    forall k | k in s'.items ensures Untouched(s.db, s'.db, k) {
      PutTouches(s.db, id, rec, k);
    }
    WriteKeeps(s.db, s'.db, s.items, s'.items);
  }

  lemma SeedKeeps(s: Tracker, artifact: string, node: NodeId)
    requires Agreed(s)
    ensures Agreed(AfterSeed(s, artifact, node))
  {
    var s' := AfterSeed(s, artifact, node);
    forall k | k in s'.items ensures Untouched(s.db, s'.db, k) {
      SeedTouches(s.db, artifact, node, k);
    }
    WriteKeeps(s.db, s'.db, s.items, s'.items);
  }

  lemma ReportKeeps(s: Tracker, node: NodeId, hashes: seq<Hash>, now: int)
    requires Agreed(s)
    ensures Agreed(AfterReport(s, node, hashes, now))
  {
    var s' := AfterReport(s, node, hashes, now);
    forall k | k in s'.items ensures Untouched(s.db, s'.db, k) {
      assert k.kind == ChunksKind && k.name in hashes ==> ChunksKey(k.name) in ChunkKeys(hashes);
      ReportTouches(s.db, node, hashes, now, k);
    }
    WriteKeeps(s.db, s'.db, s.items, s'.items);
  }

  lemma BeatKeeps(c: Params, s: Tracker, id: NodeId, now: int)
    requires Agreed(s)
    ensures Agreed(AfterBeat(c, s, id, now).0)
  {
    var s' := AfterBeat(c, s, id, now).0;
    forall k | k in s.items ensures Untouched(s.db, s'.db, k) {
      BeatTouchesNothing(s.db, id, now, k);
    }
    WriteKeeps(s.db, s'.db, s.items, s.items);
  }

  /** A heartbeat changes no entry but the node's own. */
  lemma BeatLeavesOthers(c: Params, s: Tracker, id: NodeId, now: int)
    ensures AfterBeat(c, s, id, now).0.items - {PeerKey(id)} == s.items - {PeerKey(id)}
  {
  }

  // --- Every read keeps it, and answers what the store would ---

  lemma ReadPeerAgrees(c: Params, s: Tracker, id: NodeId, now: int)
    requires Agreed(s)
    ensures var (s', p) := ReadPeer(c, s, id, now);
            Agreed(s') && p.Some? == (id in s.db.peers) && (p.Some? ==> SamePeer(p.value, s.db.peers[id]))
  {
  }

  lemma ReadListAgrees(c: Params, s: Tracker, expiry: int, now: int)
    requires Agreed(s)
    ensures Agreed(ReadList(c, s, expiry, now).0) && SamePeers(ListedBy(s, now), s.db.peers)
    ensures expiry <= 0 ==> SamePeers(ReadList(c, s, expiry, now).1, s.db.peers)
  {
  }

  lemma ReadArtifactAgrees(c: Params, s: Tracker, id: string, now: int)
    requires Agreed(s)
    ensures var (s', a) := ReadArtifact(c, s, id, now); Agreed(s') && a == Lookup(s.db.arts, id)
  {
  }

  lemma ReadIdsAgrees(c: Params, s: Tracker, k: Key, ids: set<NodeId>, now: int)
    requires Agreed(s) && Agrees(s.db, k, IdsVal(ids))
    ensures var (s', r) := ReadIds(c, s, k, ids, now); Agreed(s') && r == ids
  {
  }

  lemma CachedIdsAgree(s: Tracker, h: Hash, now: int)
    requires Agreed(s)
    ensures CachedIds(s.items, ChunksKey(h), now).Some? ==>
              CachedIds(s.items, ChunksKey(h), now).value == NodesOf(s.db.chunks, h)
  {
  }

  lemma CachedPeerAgrees(s: Tracker, id: NodeId, now: int)
    requires Agreed(s)
    ensures CachedPeer(s.items, id, now).Some? ==>
              id in s.db.peers && SamePeer(CachedPeer(s.items, id, now).value, s.db.peers[id])
  {
  }

  lemma BatchKeeps(c: Params, s: Tracker, keys: set<Key>, vals: map<Key, Val>, now: int)
    requires Agreed(s) && forall k :: k in vals ==> Agrees(s.db, k, vals[k])
    ensures Coherent(s.db, StoredAll(Purged(s.items, keys, now), vals, now + c.ttl))
  {
    ExpiryKeeps(s.db, s.items, Purged(s.items, keys, now));
    FillKeeps(s.db, Purged(s.items, keys, now), vals, now + c.ttl);
  }

  lemma ReadNodesBatchAgrees(c: Params, s: Tracker, hashes: seq<Hash>, now: int)
    requires Agreed(s)
    ensures Agreed(ReadNodesBatch(c, s, hashes, now).0)
    ensures ReadNodesBatch(c, s, hashes, now).1 == NodesFor(s.db.chunks, hashes)
  {
    BatchKeeps(c, s, ChunkKeys(hashes), NodeFills(s, hashes, now), now);
    NodeAnswersAgree(s, hashes, now);
  }

  lemma NodeAnswersAgree(s: Tracker, hashes: seq<Hash>, now: int)
    requires Agreed(s)
    ensures NodeAnswers(s, hashes, now) == NodesFor(s.db.chunks, hashes)
  {
    var a, b := NodeAnswers(s, hashes, now), NodesFor(s.db.chunks, hashes);
    assert a.Keys == b.Keys;
    forall h | h in a ensures a[h] == b[h] {
      CachedIdsAgree(s, h, now);
    }
  }

  lemma ReadPeersBatchAgrees(c: Params, s: Tracker, ids: seq<NodeId>, now: int)
    requires Agreed(s)
    ensures Agreed(ReadPeersBatch(c, s, ids, now).0)
    ensures ReadPeersBatch(c, s, ids, now).1.Keys == set id | id in ids && id in s.db.peers
    ensures forall id :: id in ids && id in s.db.peers ==>
              SamePeer(ReadPeersBatch(c, s, ids, now).1[id], s.db.peers[id])
  {
    BatchKeeps(c, s, PeerKeys(ids), PeerFills(s, ids, now), now);
    forall id
      ensures CachedPeer(s.items, id, now).Some? ==>
                id in s.db.peers && SamePeer(CachedPeer(s.items, id, now).value, s.db.peers[id])
    {
      CachedPeerAgrees(s, id, now);
    }
  }

  // --- Right after a node is removed no read names it ---

  /** No read at `now`, single or batched, names the node. */
  ghost predicate Unnamed(c: Params, s: Tracker, id: NodeId, now: int) {
    && (forall a :: id !in ReadSeeds(c, s, a, now).1)
    && (forall h :: id !in ReadNodes(c, s, h, now).1)
    && (forall hashes, h :: h in ReadNodesBatch(c, s, hashes, now).1 ==> id !in ReadNodesBatch(c, s, hashes, now).1[h])
    && ReadPeer(c, s, id, now).1 == None
    && (forall ids :: id !in ReadPeersBatch(c, s, ids, now).1)
    && id !in ReadList(c, s, 0, now).1
  }

  lemma RemovedIsUnnamed(c: Params, s: Tracker, id: NodeId, now: int)
    requires Agreed(s) && id !in s.db.peers
    requires forall a :: id !in NodesOf(s.db.seeds, a)
    requires forall h :: id !in NodesOf(s.db.chunks, h)
    ensures Unnamed(c, s, id, now)
  {
    forall a ensures id !in ReadSeeds(c, s, a, now).1 {
      ReadIdsAgrees(c, s, SeedsKey(a), NodesOf(s.db.seeds, a), now);
    }
    forall h ensures id !in ReadNodes(c, s, h, now).1 {
      ReadIdsAgrees(c, s, ChunksKey(h), NodesOf(s.db.chunks, h), now);
    }
    forall hashes, h | h in ReadNodesBatch(c, s, hashes, now).1
      ensures id !in ReadNodesBatch(c, s, hashes, now).1[h]
    {
      ReadNodesBatchAgrees(c, s, hashes, now);
    }
    ReadPeerAgrees(c, s, id, now);
    forall ids ensures id !in ReadPeersBatch(c, s, ids, now).1 {
      ReadPeersBatchAgrees(c, s, ids, now);
    }
    ReadListAgrees(c, s, 0, now);
  }

  lemma DeregisteredIsUnnamed(c: Params, s: Tracker, id: NodeId, now: int)
    requires Agreed(s)
    ensures Unnamed(c, AfterDeregister(s, id), id, now)
  {
    DeregisterKeeps(s, id);
    RemovedIsUnnamed(c, AfterDeregister(s, id), id, now);
  }

  lemma PrunedIsUnnamed(c: Params, s: Tracker, expiry: int, at: int, id: NodeId, now: int)
    requires Agreed(s) && id in s.db.peers && at - s.db.peers[id].seen > expiry
    ensures Unnamed(c, AfterPrune(s, expiry, at), id, now)
  {
    PruneKeeps(s, expiry, at);
    assert id in Dead(s.db.peers, expiry, at);
    RemovedIsUnnamed(c, AfterPrune(s, expiry, at), id, now);
  }

  // --- Histories ---

  datatype Op =
    | Upsert(p: Peer)
    | Beat(id: NodeId)
    | Deregister(gone: NodeId)
    | Prune(expiry: int)
    | Put(art: string, rec: string)
    | Seed(artifact: string, seeder: NodeId)
    | Report(node: NodeId, hashes: seq<Hash>)
    | GetPeer(peer: NodeId)
    | List(within: int)
    | GetArtifact(wanted: string)
    | GetSeeds(seeded: string)
    | GetNodes(h: Hash)
    | GetNodesBatch(hs: seq<Hash>)
    | GetPeersBatch(ids: seq<NodeId>)
    | Lose(keys: set<Key>)            // entries expire or are swept

  datatype Event = Event(op: Op, at: int)

  function Do(c: Params, s: Tracker, e: Event): Tracker {
    match e.op
    case Upsert(p) => AfterUpsert(s, p, e.at)
    case Beat(id) => AfterBeat(c, s, id, e.at).0
    case Deregister(id) => AfterDeregister(s, id)
    case Prune(expiry) => AfterPrune(s, expiry, e.at)
    case Put(a, rec) => AfterPut(s, a, rec)
    case Seed(a, n) => AfterSeed(s, a, n)
    case Report(n, hashes) => AfterReport(s, n, hashes, e.at)
    case GetPeer(id) => ReadPeer(c, s, id, e.at).0
    case List(expiry) => ReadList(c, s, expiry, e.at).0
    case GetArtifact(a) => ReadArtifact(c, s, a, e.at).0
    case GetSeeds(a) => ReadSeeds(c, s, a, e.at).0
    case GetNodes(h) => ReadNodes(c, s, h, e.at).0
    case GetNodesBatch(hs) => ReadNodesBatch(c, s, hs, e.at).0
    case GetPeersBatch(ids) => ReadPeersBatch(c, s, ids, e.at).0
    case Lose(keys) => s.(items := s.items - keys)
  }

  function Exec(c: Params, s: Tracker, run: seq<Event>): Tracker
    decreases |run|
  {
    if run == [] then s else Exec(c, Do(c, s, run[0]), run[1..])
  }

  lemma DoKeeps(c: Params, s: Tracker, e: Event)
    requires Agreed(s)
    ensures Agreed(Do(c, s, e))
  {
    match e.op
    case Upsert(p) => UpsertKeeps(s, p, e.at);
    case Beat(id) => BeatKeeps(c, s, id, e.at);
    case Deregister(id) => DeregisterKeeps(s, id);
    case Prune(expiry) => PruneKeeps(s, expiry, e.at);
    case Put(a, rec) => PutKeeps(s, a, rec);
    case Seed(a, n) => SeedKeeps(s, a, n);
    case Report(n, hashes) => ReportKeeps(s, n, hashes, e.at);
    case GetPeer(id) => ReadPeerAgrees(c, s, id, e.at);
    case List(expiry) => ReadListAgrees(c, s, expiry, e.at);
    case GetArtifact(a) => ReadArtifactAgrees(c, s, a, e.at);
    case GetSeeds(a) => ReadIdsAgrees(c, s, SeedsKey(a), NodesOf(s.db.seeds, a), e.at);
    case GetNodes(h) => ReadIdsAgrees(c, s, ChunksKey(h), NodesOf(s.db.chunks, h), e.at);
    case GetNodesBatch(hs) => ReadNodesBatchAgrees(c, s, hs, e.at);
    case GetPeersBatch(ids) => ReadPeersBatchAgrees(c, s, ids, e.at);
    case Lose(keys) => ExpiryKeeps(s.db, s.items, s.items - keys);
  }

  lemma {:induction false} RunKeeps(c: Params, s: Tracker, run: seq<Event>)
    requires Agreed(s)
    ensures Agreed(Exec(c, s, run))
    decreases |run|
  {
    if run != [] {
      DoKeeps(c, s, run[0]);
      RunKeeps(c, Do(c, s, run[0]), run[1..]);
    }
  }

  /** After any history of operations, expiries and sweeps, artifact, seed and chunk-node reads through the cache,
      single or batched, are the store's answers, and peer reads are except for the heartbeat time; a peer found
      through the cache is in the store. */
  lemma ReadsAgree(c: Params, run: seq<Event>, now: int, id: NodeId, a: string, h: Hash, hashes: seq<Hash>,
      ids: seq<NodeId>)
    ensures var s := Exec(c, EMPTY_TRACKER, run);
            && ReadArtifact(c, s, a, now).1 == Lookup(s.db.arts, a)
            && ReadSeeds(c, s, a, now).1 == NodesOf(s.db.seeds, a)
            && ReadNodes(c, s, h, now).1 == NodesOf(s.db.chunks, h)
            && ReadNodesBatch(c, s, hashes, now).1 == NodesFor(s.db.chunks, hashes)
    ensures var s := Exec(c, EMPTY_TRACKER, run);
            var p, ps := ReadPeer(c, s, id, now).1, ReadPeersBatch(c, s, ids, now).1;
            && p.Some? == (id in s.db.peers) && (p.Some? ==> SamePeer(p.value, s.db.peers[id]))
            && ps.Keys == (set i | i in ids && i in s.db.peers)
            && (forall i :: i in ids && i in s.db.peers ==> SamePeer(ps[i], s.db.peers[i]))
            && SamePeers(ReadList(c, s, 0, now).1, s.db.peers)
  {
    var s := Exec(c, EMPTY_TRACKER, run);
    RunKeeps(c, EMPTY_TRACKER, run);
    ReadArtifactAgrees(c, s, a, now);
    ReadIdsAgrees(c, s, SeedsKey(a), NodesOf(s.db.seeds, a), now);
    ReadIdsAgrees(c, s, ChunksKey(h), NodesOf(s.db.chunks, h), now);
    ReadNodesBatchAgrees(c, s, hashes, now);
    ReadPeerAgrees(c, s, id, now);
    ReadPeersBatchAgrees(c, s, ids, now);
    ReadListAgrees(c, s, 0, now);
  }
}
