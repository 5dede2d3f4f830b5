/** The tracker's answers in terms of what it was told: over every history of operations, expiries and sweeps, each read
    through the cache is what the reports, registrations and removals so far say. */
module TrackerHistory {
  import opened Base
  import opened TrackerStore
  import opened MetaCache
  import opened TrackerCache
  import opened Liveness

  /** The event takes the node out: it leaves, or it is pruned after more than `expiry` without a beat in the store. */
  ghost predicate Removes(s: Tracker, e: Event, n: NodeId) {
    || e.op == Deregister(n)
    || (e.op.Prune? && n in s.db.peers && e.at - s.db.peers[n].seen > e.op.expiry)
  }

  function Before(c: Params, run: seq<Event>, j: nat): Tracker
    requires j <= |run|
  {
    Exec(c, EMPTY_TRACKER, run[..j])
  }

  /** Nothing after event `i` takes the node out. */
  ghost predicate Stays(c: Params, run: seq<Event>, n: NodeId, i: nat) {
    forall j :: i < j < |run| ==> !Removes(Before(c, run, j), run[j], n)
  }

  /** Some event said it of the node, and nothing has taken the node out since. */
  ghost predicate Stands(c: Params, run: seq<Event>, says: Event -> bool, n: NodeId) {
    exists i :: 0 <= i < |run| && says(run[i]) && Stays(c, run, n, i)
  }

  function SeedOf(a: string, n: NodeId): Event -> bool {
    (e: Event) => e.op == Seed(a, n)
  }

  function HolderOf(h: Hash, n: NodeId): Event -> bool {
    (e: Event) => e.op.Report? && e.op.node == n && h != "" && h in e.op.hashes
  }

  function Registers(n: NodeId): Event -> bool {
    (e: Event) => e.op.Upsert? && e.op.p.id == n && n != ""
  }

  // --- One event more ---

  lemma DoLast(c: Params, run: seq<Event>, e: Event)
    ensures Exec(c, EMPTY_TRACKER, run + [e]) == Do(c, Exec(c, EMPTY_TRACKER, run), e)
  {
    ExecConcat(c, EMPTY_TRACKER, run, [e]);
    var s := Exec(c, EMPTY_TRACKER, run);
    assert Exec(c, s, [e]) == Exec(c, Do(c, s, e), []);
  }

  lemma StaysOneMore(c: Params, run: seq<Event>, e: Event, n: NodeId, i: nat)
    requires i < |run|
    ensures Stays(c, run + [e], n, i) <==> Stays(c, run, n, i) && !Removes(Exec(c, EMPTY_TRACKER, run), e, n)
  {
    var more := run + [e];
    forall j | 0 <= j <= |run| ensures more[..j] == run[..j] {
    }
    assert run[..|run|] == run;
    if Stays(c, more, n, i) {
      assert !Removes(Before(c, more, |run|), more[|run|], n);
      forall j | i < j < |run| ensures !Removes(Before(c, run, j), run[j], n) {
        assert !Removes(Before(c, more, j), more[j], n);
      }
    }
  }

  lemma StandsOneMore(c: Params, run: seq<Event>, e: Event, says: Event -> bool, n: NodeId)
    ensures Stands(c, run + [e], says, n) <==>
              says(e) || (Stands(c, run, says, n) && !Removes(Exec(c, EMPTY_TRACKER, run), e, n))
  {
    var more := run + [e];
    if says(e) {
      assert more[|run|] == e && Stays(c, more, n, |run|);
    } else if i :| 0 <= i < |more| && says(more[i]) && Stays(c, more, n, i) {
      StaysOneMore(c, run, e, n, i);
      assert says(run[i]);
    } else if i :| 0 <= i < |run| && says(run[i]) && Stays(c, run, n, i) {
      StaysOneMore(c, run, e, n, i);
      assert says(more[i]);
    }
  }

  /** What an event does to the store; beats change no more than heartbeat times, reads nothing. */
  ghost predicate Effect(db: Db, e: Event, db': Db) {
    match e.op
    case Upsert(p) => db' == Upserted(db, p, e.at)
    case Beat(id) =>
      SamePeers(db'.peers, db.peers) && db'.arts == db.arts && db'.seeds == db.seeds && db'.chunks == db.chunks
    case Deregister(id) => db' == Forgotten(db, {id})
    case Prune(expiry) => db' == Forgotten(db, Dead(db.peers, expiry, e.at))
    case Put(a, rec) => db' == db.(arts := db.arts[a := rec])
    case Seed(a, n) => db' == Seeded(db, a, n)
    case Report(n, hashes) => db' == Reported(db, n, hashes, e.at)
    case _ => db' == db
  }

  lemma EffectOf(c: Params, s: Tracker, e: Event)
    ensures Effect(s.db, e, Do(c, s, e).db)
  {
    if e.op.Prune? {
      ForgottenNone(s.db);
    }
  }

  lemma SeedsAfter(s: Tracker, e: Event, db': Db, a: string, n: NodeId)
    requires Effect(s.db, e, db')
    ensures n in NodesOf(db'.seeds, a) <==> SeedOf(a, n)(e) || (n in NodesOf(s.db.seeds, a) && !Removes(s, e, n))
  {
  }

  lemma HoldersAfter(s: Tracker, e: Event, db': Db, h: Hash, n: NodeId)
    requires Effect(s.db, e, db')
    ensures n in NodesOf(db'.chunks, h) <==> HolderOf(h, n)(e) || (n in NodesOf(s.db.chunks, h) && !Removes(s, e, n))
  {
  }

  lemma PeersAfter(s: Tracker, e: Event, db': Db, n: NodeId)
    requires Effect(s.db, e, db')
    ensures n in db'.peers <==> Registers(n)(e) || (n in s.db.peers && !Removes(s, e, n))
  {
  }

  // --- Every history ---

  lemma {:induction false} WhoIsWhere(c: Params, run: seq<Event>, a: string, h: Hash, n: NodeId)
    ensures var db := Exec(c, EMPTY_TRACKER, run).db;
            && (n in NodesOf(db.seeds, a) <==> Stands(c, run, SeedOf(a, n), n))
            && (n in NodesOf(db.chunks, h) <==> Stands(c, run, HolderOf(h, n), n))
            && (n in db.peers <==> Stands(c, run, Registers(n), n))
    decreases |run|
  {
    if run != [] {
      var past, e := Unsnoc(run);
      WhoIsWhere(c, past, a, h, n);
      DoLast(c, past, e);
      var s := Exec(c, EMPTY_TRACKER, past);
      EffectOf(c, s, e);
      SeedsAfter(s, e, Do(c, s, e).db, a, n);
      HoldersAfter(s, e, Do(c, s, e).db, h, n);
      PeersAfter(s, e, Do(c, s, e).db, n);
      StandsOneMore(c, past, e, SeedOf(a, n), n);
      StandsOneMore(c, past, e, HolderOf(h, n), n);
      StandsOneMore(c, past, e, Registers(n), n);
    }
  }

  /** A seed or chunk read names a node, and a peer read finds it, exactly if it was reported or registered and has not
      been taken out since. */
  lemma ReadsSayWhatWasSaid(c: Params, run: seq<Event>, now: int, a: string, h: Hash, hashes: seq<Hash>, n: NodeId)
    requires h in hashes
    ensures var s := Exec(c, EMPTY_TRACKER, run);
            && (n in ReadSeeds(c, s, a, now).1 <==> Stands(c, run, SeedOf(a, n), n))
            && (n in ReadNodes(c, s, h, now).1 <==> Stands(c, run, HolderOf(h, n), n))
            && h in ReadNodesBatch(c, s, hashes, now).1
            && (n in ReadNodesBatch(c, s, hashes, now).1[h] <==> Stands(c, run, HolderOf(h, n), n))
            && (ReadPeer(c, s, n, now).1.Some? <==> Stands(c, run, Registers(n), n))
            && (n in ReadPeersBatch(c, s, [n], now).1 <==> Stands(c, run, Registers(n), n))
            && (n in ReadList(c, s, 0, now).1 <==> Stands(c, run, Registers(n), n))
  {
    ReadsAgree(c, run, now, n, a, h, hashes, [n]);
    WhoIsWhere(c, run, a, h, n);
  }

  // --- Last writes ---

  predicate PutsAt(e: Event, a: string) {
    e.op.Put? && e.op.art == a
  }

  /** The last record put under this name. */
  ghost predicate LastPut(run: seq<Event>, a: string, rec: string) {
    exists i :: 0 <= i < |run| && run[i].op == Put(a, rec) && forall j :: i < j < |run| ==> !PutsAt(run[j], a)
  }

  lemma ArtifactAfter(db: Db, e: Event, db': Db, a: string)
    requires Effect(db, e, db')
    ensures Lookup(db'.arts, a) == if PutsAt(e, a) then Some(e.op.rec) else Lookup(db.arts, a)
  {
  }

  lemma LastPutOneMore(run: seq<Event>, e: Event, a: string, rec: string)
    ensures LastPut(run + [e], a, rec) <==> if PutsAt(e, a) then e.op.rec == rec else LastPut(run, a, rec)
  {
    var more := run + [e];
    assert more[|run|] == e;
    if LastPut(run, a, rec) && !PutsAt(e, a) {
      var i :| 0 <= i < |run| && run[i].op == Put(a, rec) && forall j :: i < j < |run| ==> !PutsAt(run[j], a);
      assert more[i].op == Put(a, rec);
    }
    if LastPut(more, a, rec) {
      var i :| 0 <= i < |more| && more[i].op == Put(a, rec) && forall j :: i < j < |more| ==> !PutsAt(more[j], a);
      if i < |run| {
        assert run[i].op == Put(a, rec) && forall j :: i < j < |run| ==> run[j] == more[j];
      }
    }
  }

  lemma {:induction false} ArtifactIsLastPut(c: Params, run: seq<Event>, a: string, rec: string)
    ensures Lookup(Exec(c, EMPTY_TRACKER, run).db.arts, a) == Some(rec) <==> LastPut(run, a, rec)
    decreases |run|
  {
    if run != [] {
      var past, e := Unsnoc(run);
      ArtifactIsLastPut(c, past, a, rec);
      DoLast(c, past, e);
      var s := Exec(c, EMPTY_TRACKER, past);
      EffectOf(c, s, e);
      ArtifactAfter(s.db, e, Do(c, s, e).db, a);
      LastPutOneMore(past, e, a, rec);
    }
  }

  /** Reading an artifact through the cache gives the last record put under its name. */
  lemma ReadsLastPut(c: Params, run: seq<Event>, now: int, a: string, rec: string)
    ensures ReadArtifact(c, Exec(c, EMPTY_TRACKER, run), a, now).1 == Some(rec) <==> LastPut(run, a, rec)
  {
    ReadsAgree(c, run, now, "", a, "", [], []);
    ArtifactIsLastPut(c, run, a, rec);
  }

  // --- Last registrations ---

  /** The record a registration leaves, apart from its heartbeat time. */
  predicate IsRecordOf(q: Peer, p: Peer) {
    q.id == p.id && q.info == p.info && q.status == if p.status == "" then "HEALTHY" else p.status
  }

  lemma RecordAfter(s: Tracker, e: Event, db': Db, n: NodeId)
    requires Effect(s.db, e, db') && n in db'.peers
    ensures if Registers(n)(e) then IsRecordOf(db'.peers[n], e.op.p)
            else n in s.db.peers && SamePeer(db'.peers[n], s.db.peers[n])
  {
  }

  /** Event `i` is the last that registered the node, and it has not been taken out since. */
  ghost predicate LastRegistered(c: Params, run: seq<Event>, n: NodeId, i: nat) {
    && i < |run| && Registers(n)(run[i]) && Stays(c, run, n, i)
    && forall j :: i < j < |run| ==> !Registers(n)(run[j])
  }

  lemma {:induction false} RecordIsLastRegistered(c: Params, run: seq<Event>, n: NodeId) returns (i: nat)
    requires n in Exec(c, EMPTY_TRACKER, run).db.peers
    ensures LastRegistered(c, run, n, i) && IsRecordOf(Exec(c, EMPTY_TRACKER, run).db.peers[n], run[i].op.p)
    decreases |run|
  {
    var past, e := Unsnoc(run);
    var s := Exec(c, EMPTY_TRACKER, past);
    DoLast(c, past, e);
    EffectOf(c, s, e);
    PeersAfter(s, e, Do(c, s, e).db, n);
    RecordAfter(s, e, Do(c, s, e).db, n);
    if Registers(n)(e) {
      i := |past|;
    } else {
      i := RecordIsLastRegistered(c, past, n);
      StaysOneMore(c, past, e, n, i);
    }
  }

  /** A peer read gives what the node last registered with, apart from the heartbeat time. */
  lemma ReadsLastRegistered(c: Params, run: seq<Event>, now: int, n: NodeId) returns (i: nat)
    requires ReadPeer(c, Exec(c, EMPTY_TRACKER, run), n, now).1.Some?
    ensures LastRegistered(c, run, n, i)
    ensures IsRecordOf(ReadPeer(c, Exec(c, EMPTY_TRACKER, run), n, now).1.value, run[i].op.p)
  {
    ReadsAgree(c, run, now, n, "", "", [], []);
    i := RecordIsLastRegistered(c, run, n);
  }
}
