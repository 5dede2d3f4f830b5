/** Peer statistics: in-flight caps, the circuit breaker, moving averages, and the ranking built on them. */
module Scheduler {
  import opened Base
  import opened Sorting
  import opened Ranking

  const UNTRUSTED_AFTER := 3
  const UNTRUSTED_FOR := 900_000_000_000   // 15 minutes in nanoseconds
  const SECOND: real := 1000000000.0

  datatype Stats = Stats(rtt: int, throughput: real, inflight: int, failures: int, untrustedAt: Option<int>)

  const FRESH := Stats(0, 0.0, 0, 0, None)

  // --- What one call does to the record of one address ---

  function Begun(st: Stats, maxInflight: int): (Stats, bool) {
    if st.inflight >= maxInflight then (st, false) else (st.(inflight := st.inflight + 1), true)
  }

  function Blend(average: int, sample: int): int {
    if average == 0 then sample else (7 * average + sample) / 8
  }

  function BlendRate(average: real, sample: real): real {
    if average == 0.0 then sample else average * 0.875 + sample * 0.125
  }

  function Rate(nbytes: int, d: int): real
    requires d > 0
  {
    nbytes as real * SECOND / d as real
  }

  function Sampled(st: Stats, nbytes: int, d: int): Stats {
    if d <= 0 then st
    else
      var rate := if nbytes > 0 then BlendRate(st.throughput, Rate(nbytes, d)) else st.throughput;
      st.(rtt := Blend(st.rtt, d), throughput := rate)
  }

  function Ended(st: Stats, nbytes: int, d: int, ok: bool, now: int): Stats {
    var s1 := Sampled(st.(inflight := if st.inflight > 0 then st.inflight - 1 else st.inflight), nbytes, d);
    if ok then s1.(failures := 0)
    else s1.(failures := s1.failures + 1,
             untrustedAt := if s1.failures + 1 >= UNTRUSTED_AFTER then Some(now) else s1.untrustedAt)
  }

  predicate Untrusted(st: Stats, now: int) {
    st.untrustedAt.Some? && now - st.untrustedAt.value < UNTRUSTED_FOR
  }

  predicate Expires(st: Stats, now: int) {
    st.untrustedAt.Some? && now - st.untrustedAt.value >= UNTRUSTED_FOR
  }

  /** Ranking forgives a peer whose penalty has run out. */
  function Ranked(st: Stats, now: int): Stats {
    if Expires(st, now) then st.(untrustedAt := None, failures := 0) else st
  }

  // --- Histories of one address ---

  datatype Event =
    | Begin(granted: bool)
    | End(nbytes: int, d: int, ok: bool, now: int)
    | Rank(now: int)

  function After(maxInflight: int, es: seq<Event>): Stats {
    if es == [] then FRESH
    else
      var st := After(maxInflight, es[..|es| - 1]);
      match es[|es| - 1]
      case Begin(_) => Begun(st, maxInflight).0
      case End(nbytes, d, ok, now) => Ended(st, nbytes, d, ok, now)
      case Rank(now) => Ranked(st, now)
  }

  /** Granted begins that have not ended. */
  function Open(es: seq<Event>): int {
    if es == [] then 0
    else Open(es[..|es| - 1]) + match es[|es| - 1]
                                case Begin(granted) => if granted then 1 else 0
                                case End(_, _, _, _) => -1
                                case Rank(_) => 0
  }

  /** A history the engine can produce: each end belongs to an open begin, and begins are answered by the scheduler. */
  ghost predicate Paired(maxInflight: int, es: seq<Event>) {
    es == [] ||
    (var past := es[..|es| - 1];
     && Paired(maxInflight, past)
     && match es[|es| - 1]
        case Begin(granted) => granted == Begun(After(maxInflight, past), maxInflight).1
        case End(_, _, _, _) => Open(past) > 0
        case Rank(_) => true)
  }

  /** The failed ends since the last success or forgiveness. */
  function FailureRun(maxInflight: int, es: seq<Event>): nat {
    if es == [] then 0
    else
      var past := es[..|es| - 1];
      match es[|es| - 1]
      case Begin(_) => FailureRun(maxInflight, past)
      case End(_, _, ok, _) => if ok then 0 else FailureRun(maxInflight, past) + 1
      case Rank(now) => if Expires(After(maxInflight, past), now) then 0 else FailureRun(maxInflight, past)
  }

  function Durations(es: seq<Event>): seq<int> {
    if es == [] then []
    else
      var e := es[|es| - 1];
      Durations(es[..|es| - 1]) + if e.End? && e.d > 0 then [e.d] else []
  }

  function Rates(es: seq<Event>): seq<real> {
    if es == [] then []
    else
      var e := es[|es| - 1];
      Rates(es[..|es| - 1]) + if e.End? && e.d > 0 && e.nbytes > 0 then [Rate(e.nbytes, e.d)] else []
  }

  ghost predicate Between(x: int, samples: seq<int>) {
    if samples == [] then x == 0
    else (exists i :: 0 <= i < |samples| && samples[i] <= x) && (exists i :: 0 <= i < |samples| && x <= samples[i])
  }

  ghost predicate BetweenRates(x: real, samples: seq<real>) {
    if samples == [] then x == 0.0
    else (exists i :: 0 <= i < |samples| && samples[i] <= x) && (exists i :: 0 <= i < |samples| && x <= samples[i])
  }

  lemma BlendStaysBetween(average: int, samples: seq<int>, d: int)
    requires Between(average, samples) && d > 0 && forall i :: 0 <= i < |samples| ==> samples[i] > 0
    ensures Between(Blend(average, d), samples + [d])
  {
    var all := samples + [d];
    assert all[|samples|] == d;
    if samples != [] {
      var lo :| 0 <= lo < |samples| && samples[lo] <= average;
      var hi :| 0 <= hi < |samples| && average <= samples[hi];
      assert all[lo] == samples[lo] && all[hi] == samples[hi];
      var b := Blend(average, d);
      assert (if average <= d then average else d) <= b <= (if average <= d then d else average);
      assert all[if average <= d then lo else |samples|] <= b;
      assert b <= all[if average <= d then |samples| else hi];
    }
  }

  lemma BlendRateStaysBetween(average: real, samples: seq<real>, r: real)
    requires BetweenRates(average, samples) && r > 0.0 && forall i :: 0 <= i < |samples| ==> samples[i] > 0.0
    ensures BetweenRates(BlendRate(average, r), samples + [r])
  {
    var all := samples + [r];
    assert all[|samples|] == r;
    if samples != [] {
      var lo :| 0 <= lo < |samples| && samples[lo] <= average;
      var hi :| 0 <= hi < |samples| && average <= samples[hi];
      assert all[lo] == samples[lo] && all[hi] == samples[hi];
      var b := BlendRate(average, r);
      assert all[if average <= r then lo else |samples|] <= b;
      assert b <= all[if average <= r then |samples| else hi];
    }
  }

  /** Over every paired history: in-flight is exactly the open pairs and within the cap, and the failure
      count is exactly the current run of failures. */
  lemma {:induction false} HistoryOfPeer(maxInflight: int, es: seq<Event>)
    requires maxInflight > 0 && Paired(maxInflight, es)
    ensures var st := After(maxInflight, es);
            && 0 <= st.inflight == Open(es) <= maxInflight
            && st.failures == FailureRun(maxInflight, es)
    decreases |es|
  {
    if es != [] {
      HistoryOfPeer(maxInflight, es[..|es| - 1]);
    }
  }

  lemma AveragesAfter(maxInflight: int, es: seq<Event>)
    requires es != []
    ensures var st, st', e := After(maxInflight, es[..|es| - 1]), After(maxInflight, es), es[|es| - 1];
            && st'.rtt == (if e.End? && e.d > 0 then Blend(st.rtt, e.d) else st.rtt)
            && st'.throughput == (if e.End? && e.d > 0 && e.nbytes > 0
                                  then BlendRate(st.throughput, Rate(e.nbytes, e.d)) else st.throughput)
  {
  }

  /** Over every history the round-trip average lies between the smallest and the largest sample. */
  lemma {:induction false} RttStaysBetween(maxInflight: int, es: seq<Event>)
    ensures Between(After(maxInflight, es).rtt, Durations(es))
    ensures forall i :: 0 <= i < |Durations(es)| ==> Durations(es)[i] > 0
    decreases |es|
  {
    if es != [] {
      var past, e := es[..|es| - 1], es[|es| - 1];
      RttStaysBetween(maxInflight, past);
      AveragesAfter(maxInflight, es);
      if e.End? && e.d > 0 {
        BlendStaysBetween(After(maxInflight, past).rtt, Durations(past), e.d);
      } else {
        assert Durations(es) == Durations(past);
      }
    }
  }

  /** The same for the throughput average. */
  lemma {:induction false} ThroughputStaysBetween(maxInflight: int, es: seq<Event>)
    ensures BetweenRates(After(maxInflight, es).throughput, Rates(es))
    ensures forall i :: 0 <= i < |Rates(es)| ==> Rates(es)[i] > 0.0
    decreases |es|
  {
    if es != [] {
      var past, e := es[..|es| - 1], es[|es| - 1];
      ThroughputStaysBetween(maxInflight, past);
      AveragesAfter(maxInflight, es);
      if e.End? && e.d > 0 && e.nbytes > 0 {
        RateIsPositive(e.nbytes, e.d);
        BlendRateStaysBetween(After(maxInflight, past).throughput, Rates(past), Rate(e.nbytes, e.d));
      } else {
        assert Rates(es) == Rates(past);
      }
    }
  }

  lemma RateIsPositive(nbytes: int, d: int)
    requires nbytes > 0 && d > 0
    ensures Rate(nbytes, d) > 0.0
  {
  }

  // --- Weights ---

  /** `e` `k` times after `es`. */
  function Repeated(es: seq<Event>, e: Event, k: nat): seq<Event> {
    if k == 0 then es else Repeated(es, e, k - 1) + [e]
  }

  /** Seven eighths of it, `k` times over. */
  function Faded(distance: real, k: nat): real {
    if k == 0 then distance else Faded(distance, k - 1) * 7.0 / 8.0
  }

  /** Old samples fade by an eighth with each new one: after `k` equal samples seven eighths to the `k` of the distance
      from them is left. */
  lemma {:induction false} ThroughputApproaches(maxInflight: int, es: seq<Event>, e: Event, target: real, k: nat)
    requires e.End? && e.d > 0 && e.nbytes > 0 && After(maxInflight, es).throughput > 0.0
    requires target == e.nbytes as real * 1000000000.0 / e.d as real
    ensures var now := After(maxInflight, Repeated(es, e, k)).throughput;
            now > 0.0 && now - target == Faded(After(maxInflight, es).throughput - target, k)
  {
    if k > 0 {
      ThroughputApproaches(maxInflight, es, e, target, k - 1);
      SampleMovesThroughput(maxInflight, Repeated(es, e, k - 1), e, target);
    }
  }

  lemma SampleMovesThroughput(maxInflight: int, es: seq<Event>, e: Event, target: real)
    requires e.End? && e.d > 0 && e.nbytes > 0 && After(maxInflight, es).throughput > 0.0
    requires target == e.nbytes as real * 1000000000.0 / e.d as real
    ensures var was, now := After(maxInflight, es).throughput, After(maxInflight, es + [e]).throughput;
            now > 0.0 && now - target == (was - target) * 7.0 / 8.0
  {
    AveragesAfter(maxInflight, es + [e]);
    assert (es + [e])[..|es|] == es;
    RateIsPositive(e.nbytes, e.d);
  }

  /** One sample moves the round-trip average an eighth of the way, rounded down; the first is taken as it is. */
  lemma RttApproaches(maxInflight: int, es: seq<Event>, e: Event)
    requires e.End? && e.d > 0
    ensures var was, now := After(maxInflight, es).rtt, After(maxInflight, es + [e]).rtt;
            if was == 0 then now == e.d else 7 * was + e.d - 8 < 8 * now <= 7 * was + e.d
  {
    AveragesAfter(maxInflight, es + [e]);
    assert (es + [e])[..|es|] == es;
  }

  /** The breaker opens only on a failure that makes at least three in a row, and is reset only by forgiveness. */
  lemma BreakerOpensOnThirdFailure(maxInflight: int, es: seq<Event>)
    requires maxInflight > 0 && es != [] && Paired(maxInflight, es)
    ensures var e := es[|es| - 1];
            var was, now := After(maxInflight, es[..|es| - 1]).untrustedAt, After(maxInflight, es).untrustedAt;
            && (e.End? && !e.ok && FailureRun(maxInflight, es) >= UNTRUSTED_AFTER ==> now == Some(e.now))
            && (now != was ==>
                 (e.End? && !e.ok && FailureRun(maxInflight, es) >= UNTRUSTED_AFTER) || (e.Rank? && now == None))
  {
    HistoryOfPeer(maxInflight, es);
    HistoryOfPeer(maxInflight, es[..|es| - 1]);
  }

  // --- Ranking ---

  type Distance = PeerInfo -> int

  function StatsOf(stats: map<string, Stats>, addr: string): Stats {
    if addr in stats then stats[addr] else FRESH
  }

  /** Nearer, then less busy, then faster, then quicker to answer, then by node id. */
  predicate BetterPeer(stats: map<string, Stats>, dist: Distance, p: PeerInfo, q: PeerInfo) {
    var a, b := StatsOf(stats, p.address), StatsOf(stats, q.address);
    if dist(p) != dist(q) then dist(p) < dist(q)
    else if a.inflight != b.inflight then a.inflight < b.inflight
    else if a.throughput != b.throughput then a.throughput > b.throughput
    else if a.rtt != b.rtt then a.rtt < b.rtt
    else StrLess(p.nodeID, q.nodeID)
  }

  function Better(stats: map<string, Stats>, dist: Distance): (PeerInfo, PeerInfo) -> bool {
    (p: PeerInfo, q: PeerInfo) => BetterPeer(stats, dist, p, q)
  }

  lemma BetterIsOrder(stats: map<string, Stats>, dist: Distance)
    ensures Order(Better(stats, dist))
  {
    forall p, q ensures Better(stats, dist)(p, q) ==> !Better(stats, dist)(q, p) {
      StrLessAsymmetric(p.nodeID, q.nodeID);
    }
    forall p, q, r | !Better(stats, dist)(q, p) && !Better(stats, dist)(r, q) ensures !Better(stats, dist)(r, p) {
      if !StrLess(q.nodeID, p.nodeID) && !StrLess(r.nodeID, q.nodeID) {
        StrLessNegTransitive(p.nodeID, q.nodeID, r.nodeID);
      }
    }
  }

  /** `p` may stand before `q`: nearer; or as near and no busier; or also as busy and no slower; or also as fast and
      no slower to answer; or alike in all of that, with a node id that is not greater. */
  ghost predicate MayPrecede(stats: map<string, Stats>, dist: Distance, p: PeerInfo, q: PeerInfo) {
    var a, b := StatsOf(stats, p.address), StatsOf(stats, q.address);
    && dist(p) <= dist(q)
    && (dist(p) == dist(q) ==> a.inflight <= b.inflight)
    && (dist(p) == dist(q) && a.inflight == b.inflight ==> a.throughput >= b.throughput)
    && (dist(p) == dist(q) && a.inflight == b.inflight && a.throughput == b.throughput ==> a.rtt <= b.rtt)
    && (dist(p) == dist(q) && a.inflight == b.inflight && a.throughput == b.throughput && a.rtt == b.rtt ==>
          !StrLess(q.nodeID, p.nodeID))
  }

  lemma NotWorseMayPrecede(stats: map<string, Stats>, dist: Distance, p: PeerInfo, q: PeerInfo)
    ensures !Better(stats, dist)(q, p) <==> MayPrecede(stats, dist, p, q)
  {
  }

  lemma RankedMayPrecede(stats: map<string, Stats>, dist: Distance, pool: seq<PeerInfo>)
    ensures var out := Sort(Better(stats, dist), pool);
            && multiset(out) == multiset(pool)
            && forall i, j :: 0 <= i < j < |out| ==> MayPrecede(stats, dist, out[i], out[j])
  {
    var out := Sort(Better(stats, dist), pool);
    BetterIsOrder(stats, dist);
    SortOrders(Better(stats, dist), pool);
    SortPermutes(Better(stats, dist), pool);
    forall i, j | 0 <= i < j < |out| ensures MayPrecede(stats, dist, out[i], out[j]) {
      NotWorseMayPrecede(stats, dist, out[i], out[j]);
    }
  }

  /** The peer's circuit breaker opened less than fifteen minutes ago. */
  predicate Shunned(stats: map<string, Stats>, p: PeerInfo, now: int) {
    var at := StatsOf(stats, p.address).untrustedAt;
    at.Some? && now - at.value < 15 * 60 * 1_000_000_000
  }

  /** With an address, and not shunned unless all the peers with an address are. */
  ghost predicate IsCandidate(stats: map<string, Stats>, peers: seq<PeerInfo>, now: int, x: PeerInfo) {
    && x.address != ""
    && ((exists p :: p in peers && p.address != "" && !Shunned(stats, p, now)) ==> !Shunned(stats, x, now))
  }

  function Trusts(stats: map<string, Stats>, now: int): PeerInfo -> bool {
    (p: PeerInfo) => p.address != "" && !Untrusted(StatsOf(stats, p.address), now)
  }

  function Distrusts(stats: map<string, Stats>, now: int): PeerInfo -> bool {
    (p: PeerInfo) => p.address != "" && Untrusted(StatsOf(stats, p.address), now)
  }

  /** The trusted peers, or the untrusted ones if no trusted one remains. */
  function Pool(stats: map<string, Stats>, peers: seq<PeerInfo>, now: int): seq<PeerInfo> {
    var trusted := Filter(Trusts(stats, now), peers);
    if trusted == [] then Filter(Distrusts(stats, now), peers) else trusted
  }

  /** Two statistics tables that differ at most in forgiven failures rank peers alike. */
  ghost predicate SameLoads(a: map<string, Stats>, b: map<string, Stats>) {
    forall addr ::
      var s, t := StatsOf(a, addr), StatsOf(b, addr);
      s.inflight == t.inflight && s.throughput == t.throughput && s.rtt == t.rtt
  }

  function Addresses(peers: seq<PeerInfo>): set<string> {
    set p | p in peers && p.address != "" :: p.address
  }

  /** The record after a penalty of at least fifteen minutes ago is forgiven; any other record as it is. */
  function Forgiven(st: Stats, now: int): Stats {
    if st.untrustedAt.Some? && now - st.untrustedAt.value >= 15 * 60 * 1_000_000_000
    then st.(untrustedAt := None, failures := 0) else st
  }

  /** `b` is `a` with the penalties that have run out forgiven, at these addresses. */
  ghost predicate Forgives(a: map<string, Stats>, b: map<string, Stats>, addrs: set<string>, now: int) {
    forall x :: StatsOf(b, x) == if x in addrs then Forgiven(StatsOf(a, x), now) else StatsOf(a, x)
  }

  lemma ForgivesStep(a: map<string, Stats>, b: map<string, Stats>, peers: seq<PeerInfo>, p: PeerInfo, now: int)
    requires Forgives(a, b, Addresses(peers), now) && p.address != ""
    ensures Forgives(a, b[p.address := Ranked(StatsOf(b, p.address), now)], Addresses(peers + [p]), now)
    ensures Untrusted(StatsOf(b, p.address), now) == Untrusted(StatsOf(a, p.address), now)
    ensures Untrusted(StatsOf(b, p.address), now) ==> Forgives(a, b, Addresses(peers + [p]), now)
  {
    var addr := p.address;
    assert Addresses(peers + [p]) == Addresses(peers) + {addr};
    var b' := b[addr := Ranked(StatsOf(b, addr), now)];
    forall x ensures x != addr ==> StatsOf(b', x) == StatsOf(b, x) {
    }
  }

  lemma ForgivesNobody(a: map<string, Stats>, b: map<string, Stats>, peers: seq<PeerInfo>, p: PeerInfo, now: int)
    requires Forgives(a, b, Addresses(peers), now) && p.address == ""
    ensures Forgives(a, b, Addresses(peers + [p]), now)
  {
    assert Addresses(peers + [p]) == Addresses(peers);
  }

  lemma ForgivenRanksAlike(a: map<string, Stats>, b: map<string, Stats>, addrs: set<string>, now: int)
    requires Forgives(a, b, addrs, now)
    ensures SameLoads(a, b)
  {
  }

  class PeerScheduler {
    const maxInflight: int
    var stats: map<string, Stats>

    constructor (maxInflight: int)
      ensures this.maxInflight == (if maxInflight <= 0 then 4 else maxInflight) && stats == map[]
    {
      this.maxInflight := if maxInflight <= 0 then 4 else maxInflight;
      stats := map[];
    }

    method BeginDownload(addr: string) returns (ok: bool)
      modifies this
      ensures var (st, granted) := Begun(StatsOf(old(stats), addr), maxInflight);
              ok == granted && stats == old(stats)[addr := st]
    {
      var st := StatsOf(stats, addr);
      if st.inflight >= maxInflight {
        stats := stats[addr := st];
        return false;
      }
      stats := stats[addr := st.(inflight := st.inflight + 1)];
      return true;
    }

    method EndDownload(addr: string, nbytes: int, d: int, ok: bool, now: int)
      modifies this
      ensures stats == old(stats)[addr := Ended(StatsOf(old(stats), addr), nbytes, d, ok, now)]
    {
      var st := StatsOf(stats, addr);
      if st.inflight > 0 {
        st := st.(inflight := st.inflight - 1);
      }
      if d > 0 {
        st := st.(rtt := if st.rtt == 0 then d else (7 * st.rtt + d) / 8);
        if nbytes > 0 {
          var sample := nbytes as real * SECOND / d as real;
          st := st.(throughput := if st.throughput == 0.0 then sample else st.throughput * 0.875 + sample * 0.125);
        }
      }
      if ok {
        stats := stats[addr := st.(failures := 0)];
        return;
      }
      st := st.(failures := st.failures + 1);
      if st.failures >= UNTRUSTED_AFTER {
        st := st.(untrustedAt := Some(now));
      }
      stats := stats[addr := st];
    }

    /** One pass over the candidates: forgive, then sort the trusted ones, or the untrusted if none is trusted. */
    method RankPeers(dist: Distance, peers: seq<PeerInfo>, now: int) returns (pool: seq<PeerInfo>)
      modifies this
      ensures pool == Sort(Better(old(stats), dist), Pool(old(stats), peers, now))
      ensures Forgives(old(stats), stats, Addresses(peers), now)
      ensures forall i, j :: 0 <= i < j < |pool| ==> MayPrecede(old(stats), dist, pool[i], pool[j])
      ensures forall x :: multiset(pool)[x] == if IsCandidate(old(stats), peers, now, x) then multiset(peers)[x] else 0
    {
      pool := CollectPeers(peers, now);
      ForgivenRanksAlike(old(stats), stats, Addresses(peers), now);
      SortAlike(old(stats), stats, dist, pool);
      RankedMayPrecede(old(stats), dist, pool);
      forall x ensures multiset(pool)[x] == if IsCandidate(old(stats), peers, now, x) then multiset(peers)[x] else 0 {
        PoolCounts(old(stats), peers, now, x);
      }
      pool := Sort(Better(stats, dist), pool);
    }

    method CollectPeers(peers: seq<PeerInfo>, now: int) returns (pool: seq<PeerInfo>)
      modifies this
      ensures pool == Pool(old(stats), peers, now)
      ensures Forgives(old(stats), stats, Addresses(peers), now)
    {
      var trusted: seq<PeerInfo>, untrusted: seq<PeerInfo> := [], [];
      ghost var was := stats;
      for i := 0 to |peers|
        invariant trusted == Filter(Trusts(was, now), peers[..i])
        invariant untrusted == Filter(Distrusts(was, now), peers[..i])
        invariant Forgives(was, stats, Addresses(peers[..i]), now)
      {
        var p := peers[i];
        assert peers[..i + 1] == peers[..i] + [p];
        FilterSnoc(Trusts(was, now), peers[..i], p);
        FilterSnoc(Distrusts(was, now), peers[..i], p);
        if p.address != "" {
          ForgivesStep(was, stats, peers[..i], p, now);
          var st := StatsOf(stats, p.address);
          if Untrusted(st, now) {
            untrusted := untrusted + [p];
          } else {
            if Expires(st, now) {
              st := st.(untrustedAt := None, failures := 0);
            }
            stats := stats[p.address := st];
            trusted := trusted + [p];
          }
        } else {
          ForgivesNobody(was, stats, peers[..i], p, now);
        }
      }
      assert peers[..|peers|] == peers;
      pool := if |trusted| == 0 then untrusted else trusted;
    }
  }

  lemma {:induction false} InsertAlike(a: map<string, Stats>, b: map<string, Stats>, dist: Distance, p: PeerInfo,
      s: seq<PeerInfo>)
    requires SameLoads(a, b)
    ensures Insert(Better(a, dist), p, s) == Insert(Better(b, dist), p, s)
    decreases |s|
  {
    if s != [] {
      InsertAlike(a, b, dist, p, s[..|s| - 1]);
    }
  }

  lemma {:induction false} SortAlike(a: map<string, Stats>, b: map<string, Stats>, dist: Distance, s: seq<PeerInfo>)
    requires SameLoads(a, b)
    ensures Sort(Better(a, dist), s) == Sort(Better(b, dist), s)
    decreases |s|
  {
    if s != [] {
      SortAlike(a, b, dist, s[..|s| - 1]);
      InsertAlike(a, b, dist, s[|s| - 1], Sort(Better(a, dist), s[..|s| - 1]));
    }
  }

  /** Ranking and then sorting by assigned load gives a permutation of the pool, ordered by load first and
      by distance, in-flight, throughput, round trip and node id among equal loads. */
  lemma RankThenAssign(stats: map<string, Stats>, dist: Distance, peers: seq<PeerInfo>, now: int, loads: Loads)
    ensures var out := Sort(LessAssigned(loads), Sort(Better(stats, dist), Pool(stats, peers, now)));
            && multiset(out) == multiset(Pool(stats, peers, now))
            && Lexicographic(LessAssigned(loads), Better(stats, dist), out)
            && forall i, j :: 0 <= i < j < |out| ==>
                 && LoadOf(loads, out[i]) <= LoadOf(loads, out[j])
                 && (LoadOf(loads, out[i]) == LoadOf(loads, out[j]) ==> MayPrecede(stats, dist, out[i], out[j]))
  {
    var pool := Pool(stats, peers, now);
    BetterIsOrder(stats, dist);
    LessAssignedIsOrder(loads);
    SortOrders(Better(stats, dist), pool);
    SortPermutes(Better(stats, dist), pool);
    SortPermutes(LessAssigned(loads), Sort(Better(stats, dist), pool));
    SortLexicographic(LessAssigned(loads), Better(stats, dist), Sort(Better(stats, dist), pool));
    var out := Sort(LessAssigned(loads), Sort(Better(stats, dist), pool));
    forall i, j | 0 <= i < j < |out|
      ensures && LoadOf(loads, out[i]) <= LoadOf(loads, out[j])
              && (LoadOf(loads, out[i]) == LoadOf(loads, out[j]) ==> MayPrecede(stats, dist, out[i], out[j]))
    {
      NotWorseMayPrecede(stats, dist, out[i], out[j]);
      assert !LessAssigned(loads)(out[j], out[i]);
      assert LessAssigned(loads)(out[i], out[j]) <==> LoadOf(loads, out[i]) < LoadOf(loads, out[j]);
    }
  }

  /** How often each peer is in the pool: those with an address that are not shunned, or if there is none, those with
      an address, each as often as it was given. */
  lemma PoolCounts(stats: map<string, Stats>, peers: seq<PeerInfo>, now: int, x: PeerInfo)
    ensures multiset(Pool(stats, peers, now))[x] == if IsCandidate(stats, peers, now, x) then multiset(peers)[x] else 0
  {
    var trusted := Filter(Trusts(stats, now), peers);
    FilterCounts(Trusts(stats, now), peers, x);
    FilterCounts(Distrusts(stats, now), peers, x);
    if p :| p in peers && p.address != "" && !Shunned(stats, p, now) {
      FilterCounts(Trusts(stats, now), peers, p);
      assert p in multiset(peers) && p in multiset(trusted);
    } else {
      FilterKeeps(Trusts(stats, now), peers);
      assert trusted != [] ==> trusted[0] in trusted;
      assert x in peers <==> x in multiset(peers);
    }
  }

  /** The candidates are all trusted, or all untrusted because no peer is trusted. */
  lemma PoolIsTrusted(stats: map<string, Stats>, peers: seq<PeerInfo>, now: int)
    ensures forall p :: p in Pool(stats, peers, now) ==> p in peers && p.address != ""
    ensures (forall p :: p in Pool(stats, peers, now) ==> !Untrusted(StatsOf(stats, p.address), now))
         || (forall p :: p in peers && p.address != "" ==> Untrusted(StatsOf(stats, p.address), now))
    ensures forall p :: p in peers && p.address != "" && !Untrusted(StatsOf(stats, p.address), now) ==>
              p in Pool(stats, peers, now)
  {
    FilterKeeps(Trusts(stats, now), peers);
    FilterKeeps(Distrusts(stats, now), peers);
    FilterFinds(Trusts(stats, now), peers);
  }
}
