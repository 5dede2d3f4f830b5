/** The tracker's in-memory store: peers, artifacts, seeds and chunk locations.  The clock is a parameter of
    every operation; lists come as sets, since their order is that of map iteration. */
module TrackerStore {
  import opened Base
  import opened Sorting

  type NodeId = string

  /** `seen` is the last heartbeat, 0 if the caller left it unset. */
  datatype Peer = Peer(id: NodeId, status: string, info: string, seen: int)

  datatype Db = Db(
    peers: map<NodeId, Peer>,
    arts: map<string, string>,
    seeds: map<string, set<NodeId>>,
    chunks: map<Hash, set<NodeId>>)

  const EMPTY := Db(map[], map[], map[], map[])

  function NodesOf(m: map<string, set<NodeId>>, k: string): set<NodeId> {
    if k in m then m[k] else {}
  }

  function Defaulted(p: Peer, now: int): Peer {
    p.(seen := if p.seen == 0 then now else p.seen, status := if p.status == "" then "HEALTHY" else p.status)
  }

  function Upserted(db: Db, p: Peer, now: int): Db {
    if p.id == "" then db else db.(peers := db.peers[p.id := Defaulted(p, now)])
  }

  function Beaten(db: Db, id: NodeId, now: int): Db {
    if id in db.peers then db.(peers := db.peers[id := db.peers[id].(seen := now)]) else db
  }

  function WithoutNodes(m: map<string, set<NodeId>>, ids: set<NodeId>): map<string, set<NodeId>> {
    map k | k in m :: m[k] - ids
  }

  /** The nodes leave the peer table, every seed list and every chunk's node list. */
  function Forgotten(db: Db, ids: set<NodeId>): Db {
    db.(peers := db.peers - ids, seeds := WithoutNodes(db.seeds, ids), chunks := WithoutNodes(db.chunks, ids))
  }

  function Dead(peers: map<NodeId, Peer>, expiry: int, now: int): set<NodeId> {
    set id | id in peers && now - peers[id].seen > expiry
  }

  /** The peers heard from within `expiry`; all of them if `expiry` is not positive. */
  function Recent(peers: map<NodeId, Peer>, expiry: int, now: int): map<NodeId, Peer> {
    map id | id in peers && (expiry <= 0 || now - peers[id].seen <= expiry) :: peers[id]
  }

  function Seeded(db: Db, artifact: string, node: NodeId): Db {
    db.(seeds := db.seeds[artifact := NodesOf(db.seeds, artifact) + {node}])
  }

  function Located(chunks: map<Hash, set<NodeId>>, node: NodeId, hs: set<Hash>): map<Hash, set<NodeId>> {
    map h | h in chunks.Keys + hs :: if h in hs then NodesOf(chunks, h) + {node} else chunks[h]
  }

  /** The nodes of every requested hash. */
  function NodesFor(chunks: map<Hash, set<NodeId>>, hashes: seq<Hash>): map<Hash, set<NodeId>> {
    map h | h in hashes :: NodesOf(chunks, h)
  }

  /** The records of the requested peers that are known. */
  function Known(peers: map<NodeId, Peer>, ids: seq<NodeId>): map<NodeId, Peer> {
    map id | id in ids && id in peers :: peers[id]
  }

  predicate IsNamed(h: Hash) {
    h != ""
  }

  function Named(hashes: seq<Hash>): set<Hash> {
    set h | h in hashes && IsNamed(h)
  }

  function Reported(db: Db, node: NodeId, hashes: seq<Hash>, now: int): Db {
    Beaten(db, node, now).(chunks := Located(db.chunks, node, Named(hashes)))
  }

  /** The same lists without the peers not heard from within `expiry`. */
  ghost predicate Purges(was: map<string, set<NodeId>>, lists: map<string, set<NodeId>>, peers: map<NodeId, Peer>,
      expiry: int, now: int)
  {
    && lists.Keys == was.Keys
    && forall k :: k in lists ==>
         forall i :: i in lists[k] <==> i in was[k] && !(i in peers && now - peers[i].seen > expiry)
  }

  // --- Loops over maps ---

  /** Deletes one node from every list. */
  method DropNode(m: map<string, set<NodeId>>, id: NodeId) returns (out: map<string, set<NodeId>>)
    ensures out == WithoutNodes(m, {id})
  {
    out := m;
    var left := m.Keys;
    while left != {}
      invariant left <= m.Keys == out.Keys
      invariant forall k :: k in m ==> out[k] == if k in left then m[k] else m[k] - {id}
      decreases |left|
    {
      var k :| k in left;
      out := out[k := out[k] - {id}];
      left := left - {k};
    }
  }

  lemma WithoutBoth(m: map<string, set<NodeId>>, a: set<NodeId>, b: set<NodeId>)
    ensures WithoutNodes(WithoutNodes(m, a), b) == WithoutNodes(m, a + b)
  {
    forall k | k in m ensures m[k] - a - b == m[k] - (a + b) {
    }
  }

  lemma WithoutNone(m: map<string, set<NodeId>>)
    ensures WithoutNodes(m, {}) == m
  {
    forall k | k in m ensures m[k] - {} == m[k] {
    }
  }

  lemma ForgottenBoth(db: Db, a: set<NodeId>, b: set<NodeId>)
    ensures Forgotten(Forgotten(db, a), b) == Forgotten(db, a + b)
  {
    WithoutBoth(db.seeds, a, b);
    WithoutBoth(db.chunks, a, b);
    assert db.peers - a - b == db.peers - (a + b);
  }

  lemma ForgottenNone(db: Db)
    ensures Forgotten(db, {}) == db
  {
    WithoutNone(db.seeds);
    WithoutNone(db.chunks);
    assert db.peers - {} == db.peers;
  }

  /** Exactly the peers not heard from within `expiry` go, from the table and from every list. */
  lemma WhatPruningDoes(db: Db, expiry: int, now: int)
    ensures var db' := Forgotten(db, Dead(db.peers, expiry, now));
            && (forall i :: i in db'.peers <==> i in db.peers && now - db.peers[i].seen <= expiry)
            && (forall i :: i in db'.peers ==> db'.peers[i] == db.peers[i])
            && |Dead(db.peers, expiry, now)| == |db.peers| - |db'.peers|
            && Purges(db.seeds, db'.seeds, db.peers, expiry, now)
            && Purges(db.chunks, db'.chunks, db.peers, expiry, now)
  {
    PrunedPeers(db.peers, expiry, now);
    PrunedLists(db.seeds, db.peers, expiry, now);
    PrunedLists(db.chunks, db.peers, expiry, now);
  }

  lemma PrunedPeers(peers: map<NodeId, Peer>, expiry: int, now: int)
    ensures var left := peers - Dead(peers, expiry, now);
            && (forall i :: i in left <==> i in peers && now - peers[i].seen <= expiry)
            && |Dead(peers, expiry, now)| == |peers| - |left|
  {
    var dead := Dead(peers, expiry, now);
    var left := peers - dead;
    assert peers.Keys == left.Keys + dead && left.Keys !! dead;
  }

  lemma PrunedLists(m: map<string, set<NodeId>>, peers: map<NodeId, Peer>, expiry: int, now: int)
    ensures Purges(m, WithoutNodes(m, Dead(peers, expiry, now)), peers, expiry, now)
  {
  }

  method CollectDead(peers: map<NodeId, Peer>, expiry: int, now: int) returns (dead: set<NodeId>)
    ensures dead == Dead(peers, expiry, now)
  {
    dead := {};
    var left := peers.Keys;
    while left != {}
      invariant left <= peers.Keys && dead == Dead(peers, expiry, now) - left
      decreases |left|
    {
      var id :| id in left;
      if now - peers[id].seen > expiry {
        dead := dead + {id};
      }
      left := left - {id};
    }
  }

  method FilterExpiry(peers: map<NodeId, Peer>, expiry: int, now: int) returns (out: map<NodeId, Peer>)
    ensures out == Recent(peers, expiry, now)
  {
    if expiry <= 0 {
      return peers;
    }
    out := map[];
    var left := peers.Keys;
    while left != {}
      invariant left <= peers.Keys && out == Recent(peers, expiry, now) - left
      decreases |left|
    {
      var id :| id in left;
      if now - peers[id].seen <= expiry {
        out := out[id := peers[id]];
      }
      left := left - {id};
    }
  }

  lemma LocatedOneMore(chunks: map<Hash, set<NodeId>>, node: NodeId, hs: set<Hash>, h: Hash)
    ensures var m := Located(chunks, node, hs); m[h := NodesOf(m, h) + {node}] == Located(chunks, node, hs + {h})
  {
    var m := Located(chunks, node, hs);
    assert NodesOf(m, h) + {node} == NodesOf(chunks, h) + {node};
  }

  lemma NamedSnoc(hashes: seq<Hash>, i: nat)
    requires i < |hashes|
    ensures Named(hashes[..i + 1]) == Named(hashes[..i]) + (if hashes[i] == "" then {} else {hashes[i]})
    ensures |Filter(IsNamed, hashes[..i + 1])| == |Filter(IsNamed, hashes[..i])| + (if hashes[i] == "" then 0 else 1)
  {
    FilterSnoc(IsNamed, hashes[..i], hashes[i]);
    assert hashes[..i + 1] == hashes[..i] + [hashes[i]];
  }

  method AddLocations(chunks: map<Hash, set<NodeId>>, node: NodeId, hashes: seq<Hash>)
    returns (out: map<Hash, set<NodeId>>, n: nat)
    ensures out == Located(chunks, node, Named(hashes)) && n == |Filter(IsNamed, hashes)|
  {
    out, n := chunks, 0;
    for i := 0 to |hashes|
      invariant out == Located(chunks, node, Named(hashes[..i])) && n == |Filter(IsNamed, hashes[..i])|
    {
      NamedSnoc(hashes, i);
      if hashes[i] != "" {
        LocatedOneMore(chunks, node, Named(hashes[..i]), hashes[i]);
        out := out[hashes[i] := NodesOf(out, hashes[i]) + {node}];
        n := n + 1;
      }
    }
    assert hashes[..|hashes|] == hashes;
  }

  // --- The store ---

  class MemoryStore {
    var peers: map<NodeId, Peer>
    var arts: map<string, string>
    var seeds: map<string, set<NodeId>>
    var chunks: map<Hash, set<NodeId>>

    function Value(): Db
      reads this
    {
      Db(peers, arts, seeds, chunks)
    }

    constructor ()
      ensures Value() == EMPTY
    {
      peers, arts, seeds, chunks := map[], map[], map[], map[];
    }

    method UpsertPeer(p: Peer, now: int)
      modifies this`peers
      ensures Value() == Upserted(old(Value()), p, now)
      ensures p.id == "" ==> peers == old(peers)
      ensures p.id != "" ==> peers.Keys == old(peers).Keys + {p.id}
      ensures forall id :: id in old(peers) && id != p.id ==> id in peers && peers[id] == old(peers)[id]
      ensures p.id != "" ==>
                var q := peers[p.id];
                && q.id == p.id && q.info == p.info
                && q.status == (if p.status == "" then "HEALTHY" else p.status)
                && q.seen == (if p.seen == 0 then now else p.seen)
    {
      if p.id == "" {
        return;
      }
      var q := p;
      if q.seen == 0 {
        q := q.(seen := now);
      }
      if q.status == "" {
        q := q.(status := "HEALTHY");
      }
      peers := peers[p.id := q];
    }

    method Heartbeat(id: NodeId, now: int) returns (ok: bool)
      modifies this`peers
      ensures Value() == Beaten(old(Value()), id, now) && ok == (id in old(peers))
      ensures peers.Keys == old(peers).Keys
      ensures forall i :: i in peers ==> peers[i] == if i == id then old(peers)[i].(seen := now) else old(peers)[i]
    {
      ok := id in peers;
      if ok {
        peers := peers[id := peers[id].(seen := now)];
      }
    }

    method DeregisterPeer(id: NodeId)
      modifies this
      ensures Value() == Forgotten(old(Value()), {id})
      ensures peers.Keys == old(peers).Keys - {id} && forall i :: i in peers ==> peers[i] == old(peers)[i]
      ensures seeds.Keys == old(seeds).Keys && forall a :: a in seeds ==> seeds[a] == old(seeds)[a] - {id}
      ensures chunks.Keys == old(chunks).Keys && forall h :: h in chunks ==> chunks[h] == old(chunks)[h] - {id}
      ensures arts == old(arts)
    {
      peers := peers - {id};
      seeds := DropNode(seeds, id);
      chunks := DropNode(chunks, id);
    }

    method PruneExpiredPeers(expiry: int, now: int) returns (n: nat)
      modifies this
      ensures var dead := Dead(old(peers), expiry, now); Value() == Forgotten(old(Value()), dead) && n == |dead|
      ensures forall i :: i in peers <==> i in old(peers) && now - old(peers)[i].seen <= expiry
      ensures forall i :: i in peers ==> peers[i] == old(peers)[i]
      ensures n == |old(peers)| - |peers|
      ensures Purges(old(seeds), seeds, old(peers), expiry, now) && Purges(old(chunks), chunks, old(peers), expiry, now)
      ensures arts == old(arts)
    {
      WhatPruningDoes(Value(), expiry, now);
      var dead := CollectDead(peers, expiry, now);
      DeregisterEach(dead);
      n := |dead|;
    }

    method DeregisterEach(ids: set<NodeId>)
      modifies this
      ensures Value() == Forgotten(old(Value()), ids)
    {
      var left := ids;
      ForgottenNone(Value());
      assert ids - left == {};
      while left != {}
        invariant left <= ids && Value() == Forgotten(old(Value()), ids - left)
        decreases |left|
      {
        var id :| id in left;
        ForgottenBoth(old(Value()), ids - left, {id});
        assert ids - left + {id} == ids - (left - {id});
        DeregisterPeer(id);
        left := left - {id};
      }
      assert ids - left == ids;
    }

    method PutArtifact(id: string, rec: string)
      modifies this`arts
      ensures Value() == old(Value()).(arts := old(arts)[id := rec])
    {
      arts := arts[id := rec];
    }

    method ReportSeed(artifact: string, node: NodeId)
      modifies this`seeds
      ensures Value() == Seeded(old(Value()), artifact, node)
      ensures forall a, n :: n in NodesOf(seeds, a) <==> n in NodesOf(old(seeds), a) || (a == artifact && n == node)
    {
      if artifact !in seeds {
        seeds := seeds[artifact := {}];
      }
      seeds := seeds[artifact := seeds[artifact] + {node}];
    }

    method ReportChunks(node: NodeId, hashes: seq<Hash>, now: int) returns (n: nat)
      modifies this`peers, this`chunks
      ensures Value() == Reported(old(Value()), node, hashes, now)
      ensures n == |Filter(IsNamed, hashes)|
      ensures peers.Keys == old(peers).Keys
      ensures forall i :: i in peers ==> peers[i] == if i == node then old(peers)[i].(seen := now) else old(peers)[i]
      ensures forall h, i :: i in NodesOf(chunks, h) <==>
                i in NodesOf(old(chunks), h) || (i == node && h in hashes && h != "")
    {
      if node in peers {
        peers := peers[node := peers[node].(seen := now)];
      }
      chunks, n := AddLocations(chunks, node, hashes);
    }

    method LocateChunkNodesBatch(hashes: seq<Hash>) returns (out: map<Hash, set<NodeId>>)
      ensures out == NodesFor(chunks, hashes)
    {
      out := map[];
      for i := 0 to |hashes|
        invariant out == NodesFor(chunks, hashes[..i])
      {
        out := out[hashes[i] := NodesOf(chunks, hashes[i])];
      }
      assert hashes[..|hashes|] == hashes;
    }

    method GetPeersBatch(ids: seq<NodeId>) returns (out: map<NodeId, Peer>)
      ensures out == Known(peers, ids)
    {
      out := map[];
      for i := 0 to |ids|
        invariant out == Known(peers, ids[..i])
      {
        if ids[i] in peers {
          out := out[ids[i] := peers[ids[i]]];
        }
      }
      assert ids[..|ids|] == ids;
    }
  }
}
