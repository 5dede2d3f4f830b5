/** Peer liveness in the tracker.  The cache keeps most heartbeats from the store and hands out old lists of peers, yet
    a node that beats often enough is never pruned and is in every list; both bounds are exact. */
module Liveness {
  import opened Base
  import opened TrackerStore
  import opened MetaCache
  import opened TrackerCache

  /** The cache's settings and the registry's peer expiry. */
  datatype Settings = Settings(params: Params, expiry: int)

  /** What the registry asks of the store: registrations carry the time, pruning and listing use its expiry. */
  predicate ByRegistry(c: Settings, e: Event) {
    match e.op
    case Upsert(p) => p.id != "" && p.seen == e.at
    case Prune(expiry) => expiry == c.expiry
    case List(expiry) => expiry == c.expiry
    case _ => true
  }

  /** A run of registry operations in which time does not go back. */
  predicate Timely(c: Settings, run: seq<Event>, from: int)
    decreases |run|
  {
    run == [] || (from <= run[0].at && ByRegistry(c, run[0]) && Timely(c, run[1..], run[0].at))
  }

  lemma {:induction false} ExecConcat(c: Params, s: Tracker, a: seq<Event>, b: seq<Event>)
    ensures Exec(c, s, a + b) == Exec(c, Exec(c, s, a), b)
    decreases |a|
  {
    if a == [] {
      assert a + b == b;
    } else {
      assert (a + b)[1..] == a[1..] + b;
      ExecConcat(c, Do(c, s, a[0]), a[1..], b);
    }
  }

  // --- Times ---

  /** Nothing is in the future, and the store has heard of a node no earlier than the last flush on record. */
  ghost predicate TimesOk(peers: map<NodeId, Peer>, last: map<NodeId, int>, now: int) {
    && (forall id :: id in peers ==> peers[id].seen <= now)
    && (forall id :: id in last ==> last[id] <= now)
    && (forall id :: id in peers && id in last ==> last[id] <= peers[id].seen)
  }

  /** Peers that stay are never heard of earlier than before. */
  ghost predicate NoEarlier(was: map<NodeId, Peer>, peers: map<NodeId, Peer>) {
    forall id :: id in was && id in peers ==> was[id].seen <= peers[id].seen
  }

  ghost predicate TimesMoveOn(s: Tracker, s': Tracker, at: int) {
    TimesOk(s'.db.peers, s'.last, at) && NoEarlier(s.db.peers, s'.db.peers)
  }

  lemma TimesPut(peers: map<NodeId, Peer>, last: map<NodeId, int>, q: Peer, id: NodeId, now: int)
    requires TimesOk(peers, last, now) && now <= q.seen
    ensures TimesOk(peers[id := q], last, q.seen) && TimesOk(peers[id := q], last[id := q.seen], q.seen)
    ensures NoEarlier(peers, peers[id := q])
  {
  }

  lemma TimesUnknown(peers: map<NodeId, Peer>, last: map<NodeId, int>, id: NodeId, at: int, now: int)
    requires TimesOk(peers, last, now) && now <= at && id !in peers
    ensures TimesOk(peers, last[id := at], at)
  {
  }

  lemma BeatTimes(db: Db, last: map<NodeId, int>, id: NodeId, every: int, at: int, hit: bool, now: int)
    requires TimesOk(db.peers, last, now) && now <= at
    ensures var (db', last', _) := BeatResult(db, last, id, every, at, hit);
            TimesOk(db'.peers, last', at) && NoEarlier(db.peers, db'.peers) && db'.peers.Keys == db.peers.Keys
  {
    if id in db.peers {
      TimesPut(db.peers, last, db.peers[id].(seen := at), id, now);
    } else {
      TimesUnknown(db.peers, last, id, at, now);
    }
  }

  lemma ReadTimes(c: Settings, s: Tracker, e: Event)
    requires !e.op.Upsert? && !e.op.Beat? && !e.op.Deregister? && !e.op.Prune? && !e.op.Report?
    ensures var s' := Do(c.params, s, e); s'.db.peers == s.db.peers && s'.last == s.last
  {
  }

  lemma ForgetTimes(s: Tracker, s': Tracker, ids: set<NodeId>, at: int, now: int)
    requires TimesOk(s.db.peers, s.last, now) && now <= at && s'.db.peers == s.db.peers - ids && s'.last == s.last
    ensures TimesMoveOn(s, s', at)
  {
  }

  lemma ReportTimes(s: Tracker, id: NodeId, hashes: seq<Hash>, at: int, now: int)
    requires TimesOk(s.db.peers, s.last, now) && now <= at
    ensures TimesMoveOn(s, AfterReport(s, id, hashes, at), at)
  {
    if id in s.db.peers {
      TimesPut(s.db.peers, s.last, s.db.peers[id].(seen := at), id, now);
    }
  }

  lemma DoTimes(c: Settings, s: Tracker, e: Event, now: int)
    requires TimesOk(s.db.peers, s.last, now) && now <= e.at && ByRegistry(c, e)
    ensures TimesMoveOn(s, Do(c.params, s, e), e.at)
  {
    match e.op
    case Upsert(p) => TimesPut(s.db.peers, s.last, Defaulted(p, e.at), p.id, now);
    case Beat(id) => BeatTimes(s.db, s.last, id, c.params.every, e.at, CachedPeer(s.items, id, e.at).Some?, now);
    case Deregister(id) => ForgetTimes(s, AfterDeregister(s, id), {id}, e.at, now);
    case Prune(expiry) =>
      var dead := Dead(s.db.peers, expiry, e.at);
      assert dead == {} ==> s.db.peers - dead == s.db.peers;
      ForgetTimes(s, AfterPrune(s, expiry, e.at), dead, e.at, now);
    case Report(id, hashes) => ReportTimes(s, id, hashes, e.at, now);
    case _ => ReadTimes(c, s, e);
  }

  // --- The cached list ---

  /** The cached list is the one that was there, and nobody came or went. */
  ghost predicate ListKept(s: Tracker, s': Tracker) {
    && PEERS_LIST in s.items && PEERS_LIST in s'.items && s'.items[PEERS_LIST] == s.items[PEERS_LIST]
    && s'.db.peers.Keys == s.db.peers.Keys
  }

  /** The cached list has just been filled. */
  ghost predicate ListFilled(s: Tracker, s': Tracker, until: int) {
    PEERS_LIST in s'.items && s'.items[PEERS_LIST] == Entry(PeersVal(s.db.peers), until) && s'.db == s.db
  }

  lemma BeatKeepsList(c: Params, s: Tracker, id: NodeId, now: int)
    ensures var s' := AfterBeat(c, s, id, now).0; PEERS_LIST in s'.items ==> ListKept(s, s')
  {
    var s' := AfterBeat(c, s, id, now).0;
    assert s'.items == BeatItems(s.items, id, Flushes(s.last, id, c.every, now), id in s.db.peers, now + c.ttl, now);
    assert s'.db.peers.Keys == s.db.peers.Keys;
  }

  /** How an event can leave a list in the cache. */
  lemma ListAfter(c: Settings, s: Tracker, e: Event)
    ensures var s' := Do(c.params, s, e);
            PEERS_LIST in s'.items ==> ListKept(s, s') || (e.op.List? && ListFilled(s, s', e.at + c.params.ttl))
  {
    match e.op
    case Beat(id) => BeatKeepsList(c.params, s, id, e.at);
    case Upsert(_) =>
    case Deregister(_) =>
    case Prune(_) =>
    case Report(id, hashes) => assert AfterReport(s, id, hashes, e.at).db.peers.Keys == s.db.peers.Keys;
    case _ => ReadTimes(c, s, e);
  }

  /** The cached list's times are at most the store's. */
  ghost predicate ListIsOld(s: Tracker) {
    PEERS_LIST in s.items && s.items[PEERS_LIST].value.PeersVal? ==>
      NoEarlier(s.items[PEERS_LIST].value.peers, s.db.peers)
  }

  lemma ListStaysOld(c: Settings, s: Tracker, e: Event, now: int)
    requires Agreed(s) && ListIsOld(s) && TimesOk(s.db.peers, s.last, now) && now <= e.at && ByRegistry(c, e)
    ensures ListIsOld(Do(c.params, s, e))
  {
    DoTimes(c, s, e, now);
    ListAfter(c, s, e);
    var s' := Do(c.params, s, e);
    if PEERS_LIST in s'.items && PEERS_LIST in s.items && s'.items[PEERS_LIST] == s.items[PEERS_LIST] {
      assert Agrees(s.db, PEERS_LIST, s.items[PEERS_LIST].value);
    }
  }

  ghost predicate Sane(s: Tracker, now: int) {
    Agreed(s) && TimesOk(s.db.peers, s.last, now) && ListIsOld(s)
  }

  lemma KeepsSane(c: Settings, s: Tracker, e: Event, now: int)
    requires Sane(s, now) && now <= e.at && ByRegistry(c, e)
    ensures Sane(Do(c.params, s, e), e.at)
  {
    DoKeeps(c.params, s, e);
    DoTimes(c, s, e, now);
    ListStaysOld(c, s, e, now);
  }

  function LastTime(run: seq<Event>, from: int): int {
    if run == [] then from else run[|run| - 1].at
  }

  lemma {:induction false} RunKeepsSane(c: Settings, s: Tracker, run: seq<Event>, from: int)
    requires Sane(s, from) && Timely(c, run, from)
    ensures Sane(Exec(c.params, s, run), LastTime(run, from))
    decreases |run|
  {
    if run != [] {
      KeepsSane(c, s, run[0], from);
      RunKeepsSane(c, Do(c.params, s, run[0]), run[1..], run[0].at);
    }
  }

  lemma EmptyIsSane(from: int)
    ensures Sane(EMPTY_TRACKER, from)
  {
  }

  /** In every registry run, a listing through the cache can only leave nodes out: whoever it names, the store would
      name too. */
  lemma ListingOnlyOmits(c: Settings, run: seq<Event>, from: int, now: int)
    requires Timely(c, run, from)
    ensures var s := Exec(c.params, EMPTY_TRACKER, run);
            ReadList(c.params, s, c.expiry, now).1.Keys <= Recent(s.db.peers, c.expiry, now).Keys
  {
    var s := Exec(c.params, EMPTY_TRACKER, run);
    EmptyIsSane(from);
    RunKeepsSane(c, EMPTY_TRACKER, run, from);
    ReadListAgrees(c.params, s, c.expiry, now);
  }

  // --- A node that beats ---

  /** The node is in the store, heard of later than `since - every`. */
  ghost predicate Alive(c: Settings, s: Tracker, id: NodeId, since: int) {
    id in s.db.peers && s.db.peers[id].seen > since - c.params.every
  }

  predicate Renews(e: Event, id: NodeId) {
    e.op == Beat(id) || (e.op.Upsert? && e.op.p.id == id)
  }

  /** At every event of the run the node's last beat or registration is at most `period` ago; nobody deregisters it. */
  predicate BeatsEvery(run: seq<Event>, id: NodeId, period: int, since: int)
    decreases |run|
  {
    run == [] ||
    (&& run[0].at - since <= period && run[0].op != Deregister(id)
     && BeatsEvery(run[1..], id, period, if Renews(run[0], id) then run[0].at else since))
  }

  /** An acknowledged heartbeat at `at` leaves the store's time for the node later than `at - every`. */
  lemma AckIsRecent(c: Settings, s: Tracker, id: NodeId, at: int, now: int)
    requires Sane(s, now) && now <= at && c.params.every > 0 && AfterBeat(c.params, s, id, at).1
    ensures Alive(c, AfterBeat(c.params, s, id, at).0, id, at)
    ensures AfterBeat(c.params, s, id, at).0.db.peers[id].seen <= at
  {
    CachedPeerAgrees(s, id, at);
    BeatTimes(s.db, s.last, id, c.params.every, at, CachedPeer(s.items, id, at).Some?, now);
  }

  lemma StepKeepsAlive(c: Settings, s: Tracker, e: Event, id: NodeId, since: int, period: int, now: int)
    requires Sane(s, now) && now <= e.at && ByRegistry(c, e) && c.params.every > 0 && Alive(c, s, id, since)
    requires period + c.params.every <= c.expiry + 1 && e.at - since <= period && e.op != Deregister(id)
    ensures Alive(c, Do(c.params, s, e), id, if Renews(e, id) then e.at else since)
    ensures e.op == Beat(id) ==> AfterBeat(c.params, s, id, e.at).1
  {
    if e.op == Beat(id) {
      AckIsRecent(c, s, id, e.at, now);
    } else {
      DoTimes(c, s, e, now);
    }
  }

  // --- In the list ---

  /** A cached list has the node, with a time no older than what the node's period and the cache can add up to. */
  ghost predicate Listed(c: Settings, s: Tracker, id: NodeId, period: int) {
    PEERS_LIST in s.items ==>
      var e := s.items[PEERS_LIST];
      && e.value.PeersVal? && id in e.value.peers
      && e.value.peers[id].seen > e.expiresAt - c.params.ttl - period - c.params.every
  }

  lemma StepKeepsListed(c: Settings, s: Tracker, e: Event, id: NodeId, since: int, period: int)
    requires Alive(c, s, id, since) && Listed(c, s, id, period) && e.at - since <= period
    ensures Listed(c, Do(c.params, s, e), id, period)
  {
    ListAfter(c, s, e);
  }

  lemma ListingHas(c: Settings, s: Tracker, id: NodeId, since: int, period: int, at: int)
    requires Alive(c, s, id, since) && Listed(c, s, id, period) && at - since <= period && c.params.ttl > 0
    requires period + c.params.every + c.params.ttl <= c.expiry + 1
    ensures id in ReadList(c.params, s, c.expiry, at).1
  {
  }

  // --- Every run ---

  /** Every heartbeat of the node is acknowledged. */
  predicate AllAcked(c: Settings, s: Tracker, run: seq<Event>, id: NodeId)
    decreases |run|
  {
    run == [] ||
    (&& (run[0].op == Beat(id) ==> AfterBeat(c.params, s, id, run[0].at).1)
     && AllAcked(c, Do(c.params, s, run[0]), run[1..], id))
  }

  /** Every list of peers names the node. */
  predicate AlwaysListed(c: Settings, s: Tracker, run: seq<Event>, id: NodeId)
    decreases |run|
  {
    run == [] ||
    (&& (run[0].op.List? ==> id in ReadList(c.params, s, c.expiry, run[0].at).1)
     && AlwaysListed(c, Do(c.params, s, run[0]), run[1..], id))
  }

  /** A node that beats at least every `period` stays in the store over every run, and every one of its beats is
      acknowledged, if `period + every <= expiry + 1` in clock ticks. */
  lemma {:induction false} SteadyNodeStays(c: Settings, s: Tracker, run: seq<Event>, id: NodeId, since: int,
      period: int, now: int)
    requires Sane(s, now) && Timely(c, run, now) && c.params.every > 0 && Alive(c, s, id, since)
    requires period + c.params.every <= c.expiry + 1 && BeatsEvery(run, id, period, since)
    ensures id in Exec(c.params, s, run).db.peers && AllAcked(c, s, run, id)
    decreases |run|
  {
    if run != [] {
      var s' := Do(c.params, s, run[0]);
      KeepsSane(c, s, run[0], now);
      StepKeepsAlive(c, s, run[0], id, since, period, now);
      SteadyNodeStays(c, s', run[1..], id, if Renews(run[0], id) then run[0].at else since, period, run[0].at);
    }
  }

  /** And it is in every list of peers, cached or not, if also `period + every + ttl <= expiry + 1`. */
  lemma {:induction false} SteadyNodeIsListed(c: Settings, s: Tracker, run: seq<Event>, id: NodeId, since: int,
      period: int, now: int)
    requires Sane(s, now) && Timely(c, run, now) && c.params.every > 0 && c.params.ttl > 0
    requires Alive(c, s, id, since) && Listed(c, s, id, period)
    requires period + c.params.every + c.params.ttl <= c.expiry + 1 && BeatsEvery(run, id, period, since)
    ensures AlwaysListed(c, s, run, id)
    decreases |run|
  {
    if run != [] {
      var s' := Do(c.params, s, run[0]);
      if run[0].op.List? {
        ListingHas(c, s, id, since, period, run[0].at);
      }
      KeepsSane(c, s, run[0], now);
      StepKeepsAlive(c, s, run[0], id, since, period, now);
      StepKeepsListed(c, s, run[0], id, since, period);
      SteadyNodeIsListed(c, s', run[1..], id, if Renews(run[0], id) then run[0].at else since, period, run[0].at);
    }
  }

  /** Both for a node that registers after any history of the tracker. */
  lemma RegisteredNodeStays(c: Settings, before: seq<Event>, from: int, p: Peer, at: int, run: seq<Event>, period: int)
    requires Timely(c, before, from) && LastTime(before, from) <= at && Timely(c, run, at)
    requires c.params.every > 0 && p.id != "" && p.seen == at
    requires period + c.params.every <= c.expiry + 1 && BeatsEvery(run, p.id, period, at)
    ensures var s := Do(c.params, Exec(c.params, EMPTY_TRACKER, before), Event(Upsert(p), at));
            && p.id in Exec(c.params, s, run).db.peers && AllAcked(c, s, run, p.id)
            && (c.params.ttl > 0 && period + c.params.every + c.params.ttl <= c.expiry + 1 ==>
                 AlwaysListed(c, s, run, p.id))
  {
    EmptyIsSane(from);
    RunKeepsSane(c, EMPTY_TRACKER, before, from);
    var s0 := Exec(c.params, EMPTY_TRACKER, before);
    var s := AfterUpsert(s0, p, at);
    KeepsSane(c, s0, Event(Upsert(p), at), LastTime(before, from));
    SteadyNodeStays(c, s, run, p.id, at, period, at);
    if c.params.ttl > 0 && period + c.params.every + c.params.ttl <= c.expiry + 1 {
      SteadyNodeIsListed(c, s, run, p.id, at, period, at);
    }
  }

  // --- The bounds are exact ---

  function Next(t: int, period: int, end: int): int {
    if t + period < end then t + period else end
  }

  /** Someone looks the node up just before each of its beats, from `t` to `end`: none of them is written through. */
  function Suppressed(id: NodeId, t: int, period: int, end: int): seq<Event>
    requires period >= 1
    decreases end - t
  {
    if t >= end then []
    else
      var u := Next(t, period, end);
      [Event(GetPeer(id), u), Event(Beat(id), u)] + Suppressed(id, u, period, end)
  }

  /** The beats alone. */
  function Beats(id: NodeId, t: int, period: int, end: int): seq<Event>
    requires period >= 1
    decreases end - t
  {
    if t >= end then []
    else
      var u := Next(t, period, end);
      [Event(Beat(id), u)] + Beats(id, u, period, end)
  }

  /** The store last heard of the node at time 1, when its beat was written through. */
  ghost predicate Quiet(s: Tracker, id: NodeId) {
    id in s.db.peers && s.db.peers[id].seen == 1 && id in s.last && s.last[id] == 1 && PEERS_LIST !in s.items
  }

  lemma LookupFills(c: Params, s: Tracker, id: NodeId, u: int)
    requires Quiet(s, id) && c.ttl > 0
    ensures var s' := ReadPeer(c, s, id, u).0; Quiet(s', id) && CachedPeer(s'.items, id, u).Some?
  {
  }

  lemma BeatIsSuppressed(c: Params, s: Tracker, id: NodeId, u: int)
    requires Quiet(s, id) && CachedPeer(s.items, id, u).Some? && u - 1 < c.every
    ensures Quiet(AfterBeat(c, s, id, u).0, id)
  {
  }

  lemma {:induction false} StaysQuiet(c: Params, s: Tracker, id: NodeId, t: int, period: int, end: int)
    requires Quiet(s, id) && c.ttl > 0 && period >= 1 && end <= c.every
    ensures Quiet(Exec(c, s, Suppressed(id, t, period, end)), id)
    decreases end - t
  {
    if t < end {
      var u := Next(t, period, end);
      var rest := Suppressed(id, u, period, end);
      var s1 := ReadPeer(c, s, id, u).0;
      var s2 := AfterBeat(c, s1, id, u).0;
      LookupFills(c, s, id, u);
      BeatIsSuppressed(c, s1, id, u);
      ExecTwo(c, s, Event(GetPeer(id), u), Event(Beat(id), u), rest);
      StaysQuiet(c, s2, id, u, period, end);
    }
  }

  lemma PairIsSteady(c: Settings, id: NodeId, t: int, u: int, period: int, op: Op, rest: seq<Event>)
    requires t <= u <= t + period && BeatsEvery(rest, id, period, u) && Timely(c, rest, u)
    requires op == GetPeer(id) || op == List(c.expiry)
    ensures var run := [Event(op, u), Event(Beat(id), u)] + rest;
            BeatsEvery(run, id, period, t) && Timely(c, run, t)
  {
    var run := [Event(op, u), Event(Beat(id), u)] + rest;
    assert run[1..] == [Event(Beat(id), u)] + rest && run[1..][1..] == rest;
  }

  /** The node beats every `period` up to `end`, so it still does if what follows does from there. */
  lemma {:induction false} SuppressedIsSteady(c: Settings, id: NodeId, t: int, period: int, end: int, after: seq<Event>)
    requires period >= 1 && t <= end && BeatsEvery(after, id, period, end) && Timely(c, after, end)
    ensures BeatsEvery(Suppressed(id, t, period, end) + after, id, period, t)
    ensures Timely(c, Suppressed(id, t, period, end) + after, t)
    decreases end - t
  {
    if t >= end {
      assert Suppressed(id, t, period, end) + after == after;
    } else {
      var u := Next(t, period, end);
      var rest := Suppressed(id, u, period, end) + after;
      SuppressedIsSteady(c, id, u, period, end, after);
      PairIsSteady(c, id, t, u, period, GetPeer(id), rest);
      assert Suppressed(id, t, period, end) + after == [Event(GetPeer(id), u), Event(Beat(id), u)] + rest;
    }
  }

  lemma {:induction false} BeatsAreSteady(c: Settings, id: NodeId, t: int, period: int, end: int, after: seq<Event>)
    requires period >= 1 && t <= end && BeatsEvery(after, id, period, end) && Timely(c, after, end)
    ensures BeatsEvery(Beats(id, t, period, end) + after, id, period, t)
    ensures Timely(c, Beats(id, t, period, end) + after, t)
    decreases end - t
  {
    if t >= end {
      assert Beats(id, t, period, end) + after == after;
    } else {
      var u := Next(t, period, end);
      var rest := Beats(id, u, period, end) + after;
      BeatsAreSteady(c, id, u, period, end, after);
      assert Beats(id, t, period, end) + after == [Event(Beat(id), u)] + rest;
    }
  }

  /** Registered and heard of at 1, then quiet until `every`. */
  function QuietRun(c: Settings, p: Peer, period: int): seq<Event>
    requires period >= 1
  {
    [Event(Beat(p.id), 1)] + Suppressed(p.id, 1, period, c.params.every)
  }

  lemma QuietRunIsQuiet(c: Settings, p: Peer, period: int)
    requires period >= 1 && p.id != "" && p.seen == 1 && c.params.ttl > 0
    ensures Quiet(Exec(c.params, Do(c.params, EMPTY_TRACKER, Event(Upsert(p), 1)), QuietRun(c, p, period)), p.id)
  {
    var s := AfterUpsert(EMPTY_TRACKER, p, 1);
    var s1 := AfterBeat(c.params, s, p.id, 1).0;
    assert Quiet(s1, p.id);
    StaysQuiet(c.params, s1, p.id, 1, period, c.params.every);
    assert QuietRun(c, p, period)[1..] == Suppressed(p.id, 1, period, c.params.every);
  }

  lemma QuietRunIsSteady(c: Settings, p: Peer, period: int, after: seq<Event>)
    requires period >= 1 && c.params.every >= 1
    requires BeatsEvery(after, p.id, period, c.params.every) && Timely(c, after, c.params.every)
    ensures BeatsEvery(QuietRun(c, p, period) + after, p.id, period, 1) && Timely(c, QuietRun(c, p, period) + after, 1)
  {
    SuppressedIsSteady(c, p.id, 1, period, c.params.every, after);
    assert QuietRun(c, p, period) + after
        == [Event(Beat(p.id), 1)] + (Suppressed(p.id, 1, period, c.params.every) + after);
  }

  /** The bound of `SteadyNodeStays` is exact for every period: beyond it, some run of a node that registers, beats
      every `period` and is looked up before each beat prunes it. */
  lemma PruneBoundIsTight(c: Settings, p: Peer, period: int) returns (run: seq<Event>)
    requires period >= 1 && c.params.every >= 1 && c.params.ttl > 0 && p.id != "" && p.seen == 1
    requires period + c.params.every > c.expiry + 1
    ensures Timely(c, run, 1) && BeatsEvery(run, p.id, period, 1)
    ensures p.id !in Exec(c.params, Do(c.params, EMPTY_TRACKER, Event(Upsert(p), 1)), run).db.peers
  {
    var s := Do(c.params, EMPTY_TRACKER, Event(Upsert(p), 1));
    var prune := Event(Prune(c.expiry), c.params.every + period);
    QuietRunIsQuiet(c, p, period);
    QuietRunIsSteady(c, p, period, [prune]);
    run := QuietRun(c, p, period) + [prune];
    ExecConcat(c.params, s, QuietRun(c, p, period), [prune]);
    var q := Exec(c.params, s, QuietRun(c, p, period));
    assert Exec(c.params, q, [prune]) == AfterPrune(q, c.expiry, c.params.every + period);
    assert p.id in Dead(q.db.peers, c.expiry, c.params.every + period);
  }

  /** Beats leave a cached list as it is. */
  lemma {:induction false} BeatsKeepList(c: Params, s: Tracker, id: NodeId, t: int, period: int, end: int)
    requires PEERS_LIST in s.items && period >= 1
    ensures var s' := Exec(c, s, Beats(id, t, period, end));
            PEERS_LIST in s'.items && s'.items[PEERS_LIST] == s.items[PEERS_LIST]
    decreases end - t
  {
    if t < end {
      var u := Next(t, period, end);
      var s' := AfterBeat(c, s, id, u).0;
      assert PEERS_LIST in s'.items && s'.items[PEERS_LIST] == s.items[PEERS_LIST];
      BeatsKeepList(c, s', id, u, period, end);
      assert Beats(id, t, period, end)[1..] == Beats(id, u, period, end);
    }
  }

  /** From a quiet state: a list is cached, and the node goes on beating for as long as the list lives. */
  function ListedRun(c: Settings, id: NodeId, period: int): seq<Event>
    requires period >= 1
  {
    var t := c.params.every + period;
    [Event(List(c.expiry), t), Event(Beat(id), t)] + Beats(id, t, period, t + c.params.ttl)
  }

  lemma QuietList(c: Settings, s: Tracker, id: NodeId, t: int) returns (s': Tracker)
    requires Quiet(s, id)
    ensures s' == Do(c.params, Do(c.params, s, Event(List(c.expiry), t)), Event(Beat(id), t))
    ensures PEERS_LIST in s'.items && s'.items[PEERS_LIST] == Entry(PeersVal(s.db.peers), t + c.params.ttl)
  {
    var s1 := ReadList(c.params, s, c.expiry, t).0;
    s' := AfterBeat(c.params, s1, id, t).0;
    assert s1.items[PEERS_LIST] == Entry(PeersVal(s.db.peers), t + c.params.ttl);
  }

  lemma ExecTwo(c: Params, s: Tracker, a: Event, b: Event, rest: seq<Event>)
    ensures Exec(c, s, [a, b] + rest) == Exec(c, Do(c, Do(c, s, a), b), rest)
  {
    var run := [a, b] + rest;
    assert run[1..][1..] == rest;
  }

  lemma OldEntryLeavesOut(c: Settings, s: Tracker, was: map<NodeId, Peer>, id: NodeId, at: int)
    requires PEERS_LIST in s.items && s.items[PEERS_LIST] == Entry(PeersVal(was), at)
    requires c.expiry > 0 && id in was && at - was[id].seen > c.expiry
    ensures id !in ReadList(c.params, s, c.expiry, at).1
  {
  }

  lemma QuietListRun(c: Settings, s: Tracker, id: NodeId, t: int, rest: seq<Event>) returns (s': Tracker)
    requires Quiet(s, id)
    ensures Exec(c.params, s, [Event(List(c.expiry), t), Event(Beat(id), t)] + rest) == Exec(c.params, s', rest)
    ensures PEERS_LIST in s'.items && s'.items[PEERS_LIST] == Entry(PeersVal(s.db.peers), t + c.params.ttl)
  {
    s' := QuietList(c, s, id, t);
    ExecTwo(c.params, s, Event(List(c.expiry), t), Event(Beat(id), t), rest);
  }

  lemma ListedRunState(c: Settings, s: Tracker, id: NodeId, period: int) returns (s': Tracker)
    requires Quiet(s, id) && period >= 1
    ensures s' == Exec(c.params, s, ListedRun(c, id, period)) && PEERS_LIST in s'.items
    ensures s'.items[PEERS_LIST] == Entry(PeersVal(s.db.peers), c.params.every + period + c.params.ttl)
  {
    var t := c.params.every + period;
    var beats := Beats(id, t, period, t + c.params.ttl);
    var s1 := QuietListRun(c, s, id, t, beats);
    s' := Exec(c.params, s1, beats);
    BeatsKeepList(c.params, s1, id, t, period, t + c.params.ttl);
  }

  lemma OldListLeavesOut(c: Settings, s: Tracker, id: NodeId, period: int)
    requires Quiet(s, id) && period >= 1 && c.expiry > 0
    requires period + c.params.every + c.params.ttl > c.expiry + 1
    ensures var t := c.params.every + period + c.params.ttl;
            id !in ReadList(c.params, Exec(c.params, s, ListedRun(c, id, period)), c.expiry, t).1
  {
    var s' := ListedRunState(c, s, id, period);
    OldEntryLeavesOut(c, s', s.db.peers, id, c.params.every + period + c.params.ttl);
  }

  lemma ListedRunIsSteady(c: Settings, id: NodeId, period: int, after: seq<Event>)
    requires period >= 1 && c.params.ttl > 0
    requires var t := c.params.every + period + c.params.ttl; BeatsEvery(after, id, period, t) && Timely(c, after, t)
    ensures BeatsEvery(ListedRun(c, id, period) + after, id, period, c.params.every)
    ensures Timely(c, ListedRun(c, id, period) + after, c.params.every)
  {
    var t := c.params.every + period;
    BeatsAreSteady(c, id, t, period, t + c.params.ttl, after);
    var rest := Beats(id, t, period, t + c.params.ttl) + after;
    PairIsSteady(c, id, c.params.every, t, period, List(c.expiry), rest);
    assert ListedRun(c, id, period) + after == [Event(List(c.expiry), t), Event(Beat(id), t)] + rest;
  }

  /** The bound of `SteadyNodeIsListed` is exact for every period too: beyond it, some run of a node that beats every
      `period` ends at a time when the list of peers, read through the cache, leaves the node out. */
  lemma ListBoundIsTight(c: Settings, p: Peer, period: int) returns (run: seq<Event>, at: int)
    requires period >= 1 && c.params.every >= 1 && c.params.ttl > 0 && c.expiry > 0 && p.id != "" && p.seen == 1
    requires period + c.params.every + c.params.ttl > c.expiry + 1
    ensures var all := run + [Event(List(c.expiry), at)]; Timely(c, all, 1) && BeatsEvery(all, p.id, period, 1)
    ensures var s := Exec(c.params, Do(c.params, EMPTY_TRACKER, Event(Upsert(p), 1)), run);
            p.id !in ReadList(c.params, s, c.expiry, at).1
  {
    var s := Do(c.params, EMPTY_TRACKER, Event(Upsert(p), 1));
    var quiet, listed := QuietRun(c, p, period), ListedRun(c, p.id, period);
    at := c.params.every + period + c.params.ttl;
    var last := [Event(List(c.expiry), at)];
    run := quiet + listed;
    QuietRunIsQuiet(c, p, period);
    OldListLeavesOut(c, Exec(c.params, s, quiet), p.id, period);
    ExecConcat(c.params, s, quiet, listed);
    ListedRunIsSteady(c, p.id, period, last);
    QuietRunIsSteady(c, p, period, listed + last);
    assert run + last == quiet + (listed + last);
  }
}
