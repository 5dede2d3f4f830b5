/** What the counters of a sync say about the run: which hashes its workers got from peers and which from the origin,
    told from the steps alone. */
module NodeCounts {
  import opened Base
  import opened Node
  import opened NodeSafety
  import opened NodePool

  /** The latest step of one thread that is of some kind. */
  function Latest(run: seq<Action>, t: Tid, kind: Step -> bool): (r: Option<Step>)
    ensures r.Some? ==> kind(r.value)
    decreases |run|
  {
    if run == [] then None
    else
      var a := run[|run| - 1];
      if a.By? && a.t == t && kind(a.step) then Some(a.step) else Latest(run[..|run| - 1], t, kind)
  }

  predicate Picks(step: Step) {
    step.Take?
  }

  predicate Routes(step: Step) {
    step.TryPeer? || step.TryOrigin?
  }

  /** One of these threads counts a hash it turned to this route for last. */
  predicate CountsBy(run: seq<Action>, a: Action, ts: set<Tid>, route: Step) {
    && a.By? && a.step.Count? && a.t in ts
    && Latest(run, a.t, Routes) == Some(route) && Latest(run, a.t, Picks).Some?
  }

  /** The hashes these threads counted, in order, each the latest its thread had picked. */
  function FetchedBy(run: seq<Action>, ts: set<Tid>, route: Step): seq<Hash>
    decreases |run|
  {
    if run == [] then []
    else
      var past, a := run[..|run| - 1], run[|run| - 1];
      var rest := FetchedBy(past, ts, route);
      if CountsBy(past, a, ts, route) then rest + [Latest(past, a.t, Picks).value.h] else rest
  }

  lemma OneMore(run: seq<Action>, a: Action, t: Tid, ts: set<Tid>, kind: Step -> bool, route: Step)
    ensures Latest(run + [a], t, kind)
         == if a.By? && a.t == t && kind(a.step) then Some(a.step) else Latest(run, t, kind)
    ensures FetchedBy(run + [a], ts, route)
         == FetchedBy(run, ts, route)
          + if CountsBy(run, a, ts, route) then [Latest(run, a.t, Picks).value.h] else []
  {
    assert (run + [a])[..|run|] == run;
  }

  // --- A thread's place tells what it picked and where it turned ---

  ghost predicate PlaceTells(pc: Pc, pick: Option<Step>, route: Option<Step>) {
    && (Work(pc).Some? ==> pick == Some(Take(Work(pc).value)))
    && (HasVia(pc) || pc.Got? ==> route == Some(if pc.via.Peer? then TryPeer else TryOrigin))
    && (pc.WantSlot? || pc.FreeSlot? ==> route == Some(TryOrigin))
  }

  ghost predicate ThreadTells(run: seq<Action>, th: Thread, t: Tid) {
    th.role.Worker? ==> PlaceTells(th.pc, Latest(run, t, Picks), Latest(run, t, Routes))
  }

  /** Threads that do not exist yet have done nothing. */
  ghost predicate Tells(run: seq<Action>, s: State) {
    && (forall t :: t in s.threads ==> ThreadTells(run, s.threads[t], t))
    && (forall t, kind :: t !in s.threads ==> Latest(run, t, kind) == None)
  }

  lemma PlaceAfterStep(s: State, c: Config, th: Thread, step: Step, pick: Option<Step>, route: Option<Step>)
    requires StepEnabled(s, c, th, step) && th.role.Worker? && PlaceTells(th.pc, pick, route)
    requires !th.pc.Scanning? && !th.pc.Unlinked? && (HasVia(th.pc) || th.pc.Got? ==> !th.pc.via.Put?)
    ensures PlaceTells(NextPc(s, c, th.pc, step),
              if Picks(step) then Some(step) else pick, if Routes(step) then Some(step) else route)
  {
  }

  lemma TellsAfter(s: State, c: Config, run: seq<Action>, a: Action)
    requires RoleInv(s) && Tells(run, s) && Enabled(s, c, a)
    ensures Tells(run + [a], Apply(s, c, a))
  {
    var s' := Apply(s, c, a);
    forall t | t in s'.threads ensures ThreadTells(run + [a], s'.threads[t], t) {
      OneMore(run, a, t, {}, Picks, TryPeer);
      OneMore(run, a, t, {}, Routes, TryPeer);
      if a.By? && a.t == t && s.threads[t].role.Worker? {
        PlaceAfterStep(s, c, s.threads[t], a.step, Latest(run, t, Picks), Latest(run, t, Routes));
      }
    }
    forall t, kind | t !in s'.threads ensures Latest(run + [a], t, kind) == None {
      OneMore(run, a, t, {}, kind, TryPeer);
    }
  }

  // --- The counters ---

  /** What the counters of one sync mean. */
  ghost predicate CountersTell(run: seq<Action>, ts: set<Tid>, y: Sync) {
    var byPeers, byOrigin := FetchedBy(run, ts, TryPeer), FetchedBy(run, ts, TryOrigin);
    y.fromPeers == |byPeers| && y.fromOrigin == |byOrigin| && y.fetched == Elems(byPeers) + Elems(byOrigin)
  }

  lemma {:induction false} NothingFetched(run: seq<Action>, ts: set<Tid>, route: Step)
    requires forall t :: t in ts ==> Latest(run, t, Picks) == None
    ensures FetchedBy(run, ts, route) == []
    decreases |run|
  {
    if run != [] {
      var past, a := Unsnoc(run);
      forall t | t in ts ensures Latest(past, t, Picks) == None {
        OneMore(past, a, t, ts, Picks, route);
      }
      NothingFetched(past, ts, route);
      OneMore(past, a, 0, ts, Picks, route);
    }
  }

  lemma CountersAfterStep(s: State, c: Config, run: seq<Action>, t: Tid, step: Step, sid: SyncId)
    requires RoleInv(s) && Tells(run, s) && Enabled(s, c, By(t, step)) && sid in s.syncs
    requires CountersTell(run, CrewOf(s.threads, sid).Keys, s.syncs[sid])
    ensures CountersTell(run + [By(t, step)], CrewOf(s.threads, sid).Keys, StepSync(s, t, step, sid))
  {
    var ts, a := CrewOf(s.threads, sid).Keys, By(t, step);
    OneMore(run, a, t, ts, Picks, TryPeer);
    OneMore(run, a, t, ts, Picks, TryOrigin);
    if step.Count? && t in ts {
      assert ThreadTells(run, s.threads[t], t);
      ElemsSnoc(FetchedBy(run, ts, TryPeer), s.threads[t].pc.h);
      ElemsSnoc(FetchedBy(run, ts, TryOrigin), s.threads[t].pc.h);
    }
  }

  lemma ElemsSnoc(hs: seq<Hash>, h: Hash)
    ensures Elems(hs + [h]) == Elems(hs) + {h}
  {
  }

  lemma CountersAfterStart(s: State, c: Config, run: seq<Action>, a: Action, sid: SyncId)
    requires RoleInv(s) && Tells(run, s) && Enabled(s, c, a) && !a.By? && sid in Apply(s, c, a).syncs
    requires sid in s.syncs ==> CountersTell(run, CrewOf(s.threads, sid).Keys, s.syncs[sid])
    ensures CountersTell(run + [a], CrewOf(Apply(s, c, a).threads, sid).Keys, Apply(s, c, a).syncs[sid])
  {
    var ts := CrewOf(Apply(s, c, a).threads, sid).Keys;
    OneMore(run, a, 0, ts, Picks, TryPeer);
    OneMore(run, a, 0, ts, Picks, TryOrigin);
    if a.StartSync? && a.sid == sid {
      assert ts == a.ts;
      NothingFetched(run, ts, TryPeer);
      NothingFetched(run, ts, TryOrigin);
    } else {
      CrewAfterStart(s, c, a, sid);
    }
  }

  ghost predicate CountsInv(run: seq<Action>, s: State) {
    Tells(run, s) && forall sid :: sid in s.syncs ==> CountersTell(run, CrewOf(s.threads, sid).Keys, s.syncs[sid])
  }

  lemma CountersAfter(s: State, c: Config, run: seq<Action>, a: Action, sid: SyncId)
    requires RoleInv(s) && CountsInv(run, s) && Enabled(s, c, a) && sid in Apply(s, c, a).syncs
    ensures CountersTell(run + [a], CrewOf(Apply(s, c, a).threads, sid).Keys, Apply(s, c, a).syncs[sid])
  {
    if a.By? {
      StepResult(s, c, a.t, a.step);
      CountersAfterStep(s, c, run, a.t, a.step, sid);
      CrewAfterStep(s.threads, sid, a.t, NextPc(s, c, s.threads[a.t].pc, a.step));
      assert CrewOf(Apply(s, c, a).threads, sid).Keys == CrewOf(s.threads, sid).Keys;
    } else {
      CountersAfterStart(s, c, run, a, sid);
    }
  }

  lemma KeepsCounts(s: State, c: Config, run: seq<Action>, a: Action)
    requires RoleInv(s) && CountsInv(run, s) && Enabled(s, c, a)
    ensures CountsInv(run + [a], Apply(s, c, a))
  {
    TellsAfter(s, c, run, a);
    var s' := Apply(s, c, a);
    forall sid | sid in s'.syncs ensures CountersTell(run + [a], CrewOf(s'.threads, sid).Keys, s'.syncs[sid]) {
      CountersAfter(s, c, run, a, sid);
    }
  }

  lemma {:induction false} RunKeepsCounts(s0: State, c: Config, run: seq<Action>)
    requires Init(s0, c) && Exec(s0, c, run).Some?
    ensures Inv(Exec(s0, c, run).value, c) && CountsInv(run, Exec(s0, c, run).value)
    decreases |run|
  {
    if run == [] {
      InitInv(s0, c);
    } else {
      var past, a := Unsnoc(run);
      ExecConcat(s0, c, past, [a]);
      RunKeepsCounts(s0, c, past);
      var s := Exec(s0, c, past).value;
      assert Exec(s, c, [a]) == if Enabled(s, c, a) then Exec(Apply(s, c, a), c, []) else None;
      StepKeepsInv(s, c, a);
      KeepsCounts(s, c, past, a);
    }
  }

  /** In every run the peer counter of a sync is the number of hashes its workers turned to a peer for last before they
      counted them, the origin counter that of those they turned to the origin for, and no hash is in both. */
  lemma CountersTellTheRoute(s0: State, c: Config, run: seq<Action>, sid: SyncId)
    requires Init(s0, c) && Exec(s0, c, run).Some? && sid in Exec(s0, c, run).value.syncs
    ensures var s := Exec(s0, c, run).value;
            var ts, y := CrewOf(s.threads, sid).Keys, s.syncs[sid];
            var byPeers, byOrigin := FetchedBy(run, ts, TryPeer), FetchedBy(run, ts, TryOrigin);
            && y.fromPeers == |byPeers| && y.fromOrigin == |byOrigin|
            && y.fetched == Elems(byPeers) + Elems(byOrigin) && Elems(byPeers) !! Elems(byOrigin)
            && NoDup(byPeers) && NoDup(byOrigin)
  {
    RunKeepsCounts(s0, c, run);
    JobInvariant(s0, c, run, sid);
    var s := Exec(s0, c, run).value;
    var ts := CrewOf(s.threads, sid).Keys;
    AllDistinct(FetchedBy(run, ts, TryPeer), FetchedBy(run, ts, TryOrigin));
  }

  /** As many elements as places: nothing twice. */
  lemma AllDistinct(a: seq<Hash>, b: seq<Hash>)
    requires |Elems(a) + Elems(b)| == |a| + |b|
    ensures Elems(a) !! Elems(b) && NoDup(a) && NoDup(b)
  {
    ElemsCount(a);
    ElemsCount(b);
    assert |Elems(a) + Elems(b)| == |Elems(a)| + |Elems(b)| - |Elems(a) * Elems(b)|;
    assert |Elems(a) * Elems(b)| == 0;
    assert Elems(a) * Elems(b) == {};
    forall x | x in Elems(a) ensures x !in Elems(b) {
      assert x !in Elems(a) * Elems(b);
    }
  }

  lemma {:induction false} ElemsCount(a: seq<Hash>)
    ensures |Elems(a)| <= |a| && (|Elems(a)| == |a| ==> NoDup(a))
    decreases |a|
  {
    if a != [] {
      var low, x := Unsnoc(a);
      ElemsCount(low);
      ElemsSnoc(low, x);
      if x in Elems(low) {
        assert Elems(a) == Elems(low);
      }
    }
  }
}
