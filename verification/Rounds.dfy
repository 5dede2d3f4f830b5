/** One round of a fetch over the scheduler: which candidates are admitted, and what becomes of the in-flight counts. */
module Rounds {
  import opened Base
  import opened ChunkStore
  import opened Ranking
  import opened Scheduler
  import Fetch

  ghost predicate CountsOk(stats: map<string, Stats>) {
    forall addr :: StatsOf(stats, addr).inflight >= 0
  }

  ghost predicate SameInflight(a: map<string, Stats>, b: map<string, Stats>) {
    forall addr :: StatsOf(b, addr).inflight == StatsOf(a, addr).inflight
  }

  /** An end undoes the count of the begin it belongs to, however the download went. */
  lemma EndUndoesBegin(st: Stats, maxInflight: int, nbytes: int, d: int, ok: bool, now: int)
    requires st.inflight >= 0 && Begun(st, maxInflight).1
    ensures Ended(Begun(st, maxInflight).0, nbytes, d, ok, now).inflight == st.inflight
  {
  }

  /** When candidate `i` is looked at, how long its download takes, and how many bytes it claims. */
  datatype Course = Course(clock: nat -> int, took: nat -> int, claimed: nat -> int)

  /** A candidate is tried exactly if it has an address, is trusted at that moment and is below its cap. */
  predicate Admitted(stats: map<string, Stats>, maxInflight: int, p: PeerInfo, now: int) {
    && p.address != "" && !Untrusted(StatsOf(stats, p.address), now)
    && StatsOf(stats, p.address).inflight < maxInflight
  }

  /** The statistics after one candidate whose download, if there was one, ended with `ok`. */
  function Tried(stats: map<string, Stats>, maxInflight: int, p: PeerInfo, course: Course, i: nat, ok: bool)
    : map<string, Stats>
  {
    var st := StatsOf(stats, p.address);
    if p.address == "" || Untrusted(st, course.clock(i)) then stats
    else
      var (begun, granted) := Begun(st, maxInflight);
      var end := course.clock(i) + course.took(i);
      stats[p.address := if granted then Ended(begun, course.claimed(i), course.took(i), ok, end) else begun]
  }

  /** The statistics candidate `k` meets, when none before it succeeded. */
  function Before(stats: map<string, Stats>, maxInflight: int, ranked: seq<PeerInfo>, course: Course, k: nat)
    : map<string, Stats>
    requires k <= |ranked|
  {
    if k == 0 then stats
    else Tried(Before(stats, maxInflight, ranked, course, k - 1), maxInflight, ranked[k - 1], course, k - 1, false)
  }

  /** What the scheduler makes of candidate `i`. */
  function CandidateAt(stats: map<string, Stats>, maxInflight: int, ranked: seq<PeerInfo>, talk: PeerInfo -> Fetch.Peer,
      course: Course, i: nat): Fetch.Candidate
    requires i < |ranked|
  {
    var now := Before(stats, maxInflight, ranked, course, i);
    Fetch.Candidate(Admitted(now, maxInflight, ranked[i], course.clock(i)), talk(ranked[i]))
  }

  ghost predicate Admits(stats: map<string, Stats>, maxInflight: int, ranked: seq<PeerInfo>,
      talk: PeerInfo -> Fetch.Peer, course: Course, round: seq<Fetch.Candidate>) {
    && |round| <= |ranked|
    && forall i :: 0 <= i < |round| ==> round[i] == CandidateAt(stats, maxInflight, ranked, talk, course, i)
  }

  /** Whether it is tried or not, a candidate leaves every in-flight count as it was. */
  lemma TriedKeepsInflight(stats: map<string, Stats>, maxInflight: int, p: PeerInfo, course: Course, i: nat, ok: bool)
    requires CountsOk(stats)
    ensures SameInflight(stats, Tried(stats, maxInflight, p, course, i, ok))
  {
    var st := StatsOf(stats, p.address);
    if Begun(st, maxInflight).1 {
      EndUndoesBegin(st, maxInflight, course.claimed(i), course.took(i), ok, course.clock(i) + course.took(i));
    }
  }

  /** Candidate `i` follows the others, and leaves what the next one meets. */
  lemma OneMoreCandidate(stats: map<string, Stats>, maxInflight: int, ranked: seq<PeerInfo>,
      talk: PeerInfo -> Fetch.Peer, course: Course, round: seq<Fetch.Candidate>, now: map<string, Stats>)
    requires CountsOk(stats) && |round| < |ranked| && SameInflight(stats, now)
    requires Admits(stats, maxInflight, ranked, talk, course, round)
    requires now == Before(stats, maxInflight, ranked, course, |round|)
    ensures var next := CandidateAt(stats, maxInflight, ranked, talk, course, |round|);
            Admits(stats, maxInflight, ranked, talk, course, round + [next])
    ensures Tried(now, maxInflight, ranked[|round|], course, |round|, false)
         == Before(stats, maxInflight, ranked, course, |round| + 1)
    ensures forall ok :: SameInflight(stats, Tried(now, maxInflight, ranked[|round|], course, |round|, ok))
  {
    TriedKeepsInflight(now, maxInflight, ranked[|round|], course, |round|, false);
    TriedKeepsInflight(now, maxInflight, ranked[|round|], course, |round|, true);
  }

  /** One candidate: skipped exactly if it is not `Admitted`, and then without effect on the disk; otherwise one
      attempt between begin and end. */
  method TryOne(sched: PeerScheduler, store: Store, h: Hash, size: int, p: PeerInfo, peer: Fetch.Peer, course: Course,
      i: nat)
    returns (admitted: bool, ok: bool)
    requires store.Valid() && ValidName(h)
    modifies sched, store
    ensures store.Valid() && sched.stats == Tried(old(sched.stats), sched.maxInflight, p, course, i, ok)
    ensures admitted <==> Admitted(old(sched.stats), sched.maxInflight, p, course.clock(i))
    ensures admitted ==> (store.Value(), ok) == Fetch.PeerAttempt(store.sha, old(store.Value()), h, size, peer)
    ensures !admitted ==> store.Value() == old(store.Value()) && !ok
  {
    admitted, ok := false, false;
    if p.address == "" || Untrusted(StatsOf(sched.stats, p.address), course.clock(i)) {
      return;
    }
    admitted := sched.BeginDownload(p.address);
    if !admitted {
      return;
    }
    ok := Fetch.DownloadFromPeer(store, h, size, peer);
    sched.EndDownload(p.address, course.claimed(i), course.took(i), ok, course.clock(i) + course.took(i));
  }

  /** The loop over the ranked candidates, which stops at the first success.  Each is tried exactly if it has an
      address, is trusted and is below its cap when its turn comes; the round leaves every in-flight count as it was,
      and the disk is as `Fetch.RoundResult` says for those that were tried. */
  method TryCandidates(sched: PeerScheduler, store: Store, h: Hash, size: int, ranked: seq<PeerInfo>,
      talk: PeerInfo -> Fetch.Peer, course: Course)
    returns (ok: bool, ghost round: seq<Fetch.Candidate>)
    requires store.Valid() && ValidName(h) && CountsOk(sched.stats)
    modifies sched, store
    ensures store.Valid() && SameInflight(old(sched.stats), sched.stats)
    ensures Admits(old(sched.stats), sched.maxInflight, ranked, talk, course, round)
    ensures !ok ==> |round| == |ranked|
    ensures !ok ==> sched.stats == Before(old(sched.stats), sched.maxInflight, ranked, course, |ranked|)
    ensures ok ==> round != [] && round[|round| - 1].admitted
    ensures ok ==>
              var k := |round| - 1;
              var met := Before(old(sched.stats), sched.maxInflight, ranked, course, k);
              sched.stats == Tried(met, sched.maxInflight, ranked[k], course, k, true)
    ensures (store.Value(), ok) == Fetch.RoundResult(store.sha, old(store.Value()), h, size, round)
  {
    ok, round := false, [];
    ghost var was, d := sched.stats, store.Value();
    for i := 0 to |ranked|
      invariant store.Valid() && SameInflight(was, sched.stats) && !ok && |round| == i
      invariant sched.stats == Before(was, sched.maxInflight, ranked, course, i)
      invariant Admits(was, sched.maxInflight, ranked, talk, course, round)
      invariant (store.Value(), false) == Fetch.RoundResult(store.sha, d, h, size, round)
    {
      ghost var next := CandidateAt(was, sched.maxInflight, ranked, talk, course, i);
      OneMoreCandidate(was, sched.maxInflight, ranked, talk, course, round, sched.stats);
      RoundSnoc(store.sha, d, h, size, round, next);
      var admitted;
      admitted, ok := TryOne(sched, store, h, size, ranked[i], talk(ranked[i]), course, i);
      round := round + [next];
      if ok {
        return;
      }
    }
  }

  lemma {:induction false} RoundSnoc(sha: Bytes -> Hash, d: Disk, h: Hash, size: int, round: seq<Fetch.Candidate>,
      next: Fetch.Candidate)
    requires !Fetch.RoundResult(sha, d, h, size, round).1
    ensures var d1 := Fetch.RoundResult(sha, d, h, size, round).0;
            Fetch.RoundResult(sha, d, h, size, round + [next]) ==
            if next.admitted then Fetch.PeerAttempt(sha, d1, h, size, next.peer) else (d1, false)
    decreases |round|
  {
    if round == [] {
      assert round + [next] == [next];
      assert [next][1..] == [];
    } else {
      assert (round + [next])[1..] == round[1..] + [next];
      var d' := if round[0].admitted then Fetch.PeerAttempt(sha, d, h, size, round[0].peer).0 else d;
      RoundSnoc(sha, d', h, size, round[1..], next);
    }
  }
}
