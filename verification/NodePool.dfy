/** The worker pools of the syncs on a node: what becomes of each missing hash, over every run. */
module NodePool {
  import opened Base
  import opened Node
  import opened NodeSafety

  /** The hash a worker has in hand. */
  function Work(pc: Pc): Option<Hash> {
    match pc
    case Idle => None
    case Stopped => None
    case Scanning(_) => None
    case Unlinked(_, _) => None
    case _ => Some(pc.h)
  }

  type Crew = map<Tid, Pc>

  /** The workers of one sync and where they stand. */
  ghost function CrewOf(threads: map<Tid, Thread>, sid: SyncId): Crew {
    map t | t in threads && threads[t].role == Worker(sid) :: threads[t].pc
  }

  ghost predicate InHand(crew: Crew, h: Hash) {
    exists t :: t in crew && Work(crew[t]) == Some(h)
  }

  ghost function InFlight(crew: Crew, y: Sync): set<Hash> {
    set h | h in y.missing && InHand(crew, h)
  }

  /** Pending, in-flight, fetched and failed hashes partition the missing ones; no hash is in two hands. */
  ghost predicate Partition(crew: Crew, y: Sync) {
    && y.pending + y.fetched + y.failed <= y.missing
    && y.pending !! y.fetched !! y.failed
    && (forall h :: h in y.missing ==> (InHand(crew, h) <==> h !in y.pending + y.fetched + y.failed))
    && (forall t :: t in crew && Work(crew[t]).Some? ==> Work(crew[t]).value in y.missing)
    && (forall t, u :: t in crew && u in crew && Work(crew[t]).Some? && Work(crew[t]) == Work(crew[u]) ==> t == u)
  }

  /** Each hand-out takes a hash that was never handed out before. */
  ghost predicate HandedOnce(y: Sync) {
    NoDup(y.handed) && Elems(y.handed) == y.missing - y.pending && y.pending <= y.missing
  }

  ghost predicate Counters(y: Sync) {
    |y.fetched| == y.downloaded == y.fromPeers + y.fromOrigin
  }

  /** A worker leaves only on an error or when nothing is pending. */
  ghost predicate LeavesInOrder(crew: Crew, y: Sync) {
    && (y.failed != {} ==> y.err)
    && crew.Keys != {}
    && (forall t :: t in crew && crew[t].Stopped? ==> y.err || y.pending == {})
  }

  ghost predicate SyncOk(crew: Crew, y: Sync) {
    Partition(crew, y) && HandedOnce(y) && Counters(y) && LeavesInOrder(crew, y)
  }

  ghost predicate PoolInv(s: State) {
    forall sid :: sid in s.syncs ==> SyncOk(CrewOf(s.threads, sid), s.syncs[sid])
  }

  // --- The ways a worker's step can touch its job ---

  datatype Event = Same | TakesItem(h: Hash) | Counts(h: Hash) | Fails(h: Hash) | Leaves

  function EventOf(pc: Pc, step: Step): Event {
    match step
    case Take(h) => TakesItem(h)
    case Count => if pc.Got? then Counts(pc.h) else Same
    case GiveUp => if pc.Chose? || pc.WantSlot? then Fails(pc.h) else Same
    case ReleaseSlot => if pc.FreeSlot? && !pc.ok then Fails(pc.h) else Same
    case Quit => Leaves
    case Cancel => Leaves
    case _ => Same
  }

  ghost predicate EventShape(y: Sync, y': Sync, pc: Pc, pc': Pc, e: Event) {
    match e
    case Same => y' == y && Work(pc') == Work(pc) && !pc'.Stopped? && !pc.Stopped?
    case TakesItem(h) => Work(pc) == None && Work(pc') == Some(h) && h in y.pending && !pc'.Stopped? && !pc.Stopped?
                         && y' == y.(pending := y.pending - {h}, handed := y.handed + [h])
    case Counts(h) => Work(pc) == Some(h) && pc.Got? && pc'.Idle? && y' == Counted(y, pc)
    case Fails(h) => Work(pc) == Some(h) && pc'.Stopped? && y' == y.(failed := y.failed + {h}, err := true)
    case Leaves => pc.Idle? && pc'.Stopped? && (y' == y || y' == y.(err := true)) && (y'.err || y'.pending == {})
  }

  lemma StepEvent(s: State, c: Config, th: Thread, step: Step)
    requires StepEnabled(s, c, th, step) && th.role.Worker? && th.role.sync in s.syncs
    requires HasVia(th.pc) ==> !th.pc.via.Put?
    requires !th.pc.Scanning? && !th.pc.Unlinked?
    ensures var y := s.syncs[th.role.sync];
            EventShape(y, NextSync(y, th.pc, step), th.pc, NextPc(s, c, th.pc, step), EventOf(th.pc, step))
  {
  }

  lemma PartitionAfterEvent(crew: Crew, y: Sync, t: Tid, pc': Pc, y': Sync, e: Event)
    requires Partition(crew, y) && t in crew && EventShape(y, y', crew[t], pc', e)
    ensures Partition(crew[t := pc'], y')
  {
    var crew' := crew[t := pc'];
    forall h | h in y'.missing ensures InHand(crew', h) <==> h !in y'.pending + y'.fetched + y'.failed {
      if InHand(crew, h) {
        var u :| u in crew && Work(crew[u]) == Some(h);
        assert u != t ==> u in crew' && Work(crew'[u]) == Some(h);
      }
      assert Work(pc') == Some(h) ==> t in crew' && Work(crew'[t]) == Some(h);
    }
  }

  lemma HandedAfterEvent(y: Sync, pc: Pc, pc': Pc, y': Sync, e: Event)
    requires HandedOnce(y) && EventShape(y, y', pc, pc', e)
    ensures HandedOnce(y')
  {
    if e.TakesItem? {
      assert Elems(y'.handed) == Elems(y.handed) + {e.h};
      assert e.h !in Elems(y.handed);
    }
  }

  lemma CountersAfterEvent(crew: Crew, y: Sync, t: Tid, pc': Pc, y': Sync, e: Event)
    requires Partition(crew, y) && Counters(y) && t in crew && EventShape(y, y', crew[t], pc', e)
    ensures Counters(y')
  {
    if e.Counts? {
      assert InHand(crew, e.h) && e.h !in y.fetched;
    }
  }

  lemma LeavesAfterEvent(crew: Crew, y: Sync, t: Tid, pc': Pc, y': Sync, e: Event)
    requires LeavesInOrder(crew, y) && t in crew && EventShape(y, y', crew[t], pc', e)
    ensures LeavesInOrder(crew[t := pc'], y')
  {
    assert t in crew[t := pc'].Keys;
  }

  lemma SyncAfterEvent(crew: Crew, y: Sync, t: Tid, pc': Pc, y': Sync, e: Event)
    requires SyncOk(crew, y) && t in crew && EventShape(y, y', crew[t], pc', e)
    ensures SyncOk(crew[t := pc'], y')
  {
    PartitionAfterEvent(crew, y, t, pc', y', e);
    HandedAfterEvent(y, crew[t], pc', y', e);
    CountersAfterEvent(crew, y, t, pc', y', e);
    LeavesAfterEvent(crew, y, t, pc', y', e);
  }

  lemma CrewAfterStep(threads: map<Tid, Thread>, sid: SyncId, t: Tid, pc': Pc)
    requires t in threads
    ensures CrewOf(threads[t := Thread(threads[t].role, pc')], sid)
         == if threads[t].role == Worker(sid) then CrewOf(threads, sid)[t := pc'] else CrewOf(threads, sid)
  {
  }

  lemma CrewAfterStart(s: State, c: Config, a: Action, sid: SyncId)
    requires Enabled(s, c, a) && !a.By? && !(a.StartSync? && a.sid == sid)
    ensures CrewOf(Apply(s, c, a).threads, sid) == CrewOf(s.threads, sid)
  {
  }

  lemma FreshSyncOk(crew: Crew, missing: set<Hash>, skipped: set<Hash>, cached: set<Hash>)
    requires crew.Keys != {} && forall t :: t in crew ==> crew[t].Idle?
    ensures SyncOk(crew, Sync(missing, skipped, missing, {}, {}, [], false, 0, 0, 0, cached))
  {
  }

  lemma SyncAfterStart(s: State, c: Config, a: Action, sid: SyncId)
    requires RoleInv(s) && Enabled(s, c, a) && !a.By? && sid in Apply(s, c, a).syncs
    requires sid in s.syncs ==> SyncOk(CrewOf(s.threads, sid), s.syncs[sid])
    ensures SyncOk(CrewOf(Apply(s, c, a).threads, sid), Apply(s, c, a).syncs[sid])
  {
    if a.StartSync? && a.sid == sid {
      var crew := CrewOf(Apply(s, c, a).threads, sid);
      assert crew == map t | t in a.ts :: Idle;
      FreshSyncOk(crew, a.missing, a.skipped, a.cached);
    } else {
      CrewAfterStart(s, c, a, sid);
    }
  }

  ghost function StepThreads(s: State, c: Config, t: Tid, step: Step): map<Tid, Thread>
    requires Enabled(s, c, By(t, step))
  {
    s.threads[t := Thread(s.threads[t].role, NextPc(s, c, s.threads[t].pc, step))]
  }

  ghost function StepSync(s: State, t: Tid, step: Step, sid: SyncId): Sync
    requires t in s.threads && sid in s.syncs
  {
    if s.threads[t].role == Worker(sid) then NextSync(s.syncs[sid], s.threads[t].pc, step) else s.syncs[sid]
  }

  lemma SyncAfterStep(s: State, c: Config, t: Tid, step: Step, sid: SyncId)
    requires Enabled(s, c, By(t, step)) && RoleInv(s) && sid in s.syncs && SyncOk(CrewOf(s.threads, sid), s.syncs[sid])
    ensures SyncOk(CrewOf(StepThreads(s, c, t, step), sid), StepSync(s, t, step, sid))
  {
    var th := s.threads[t];
    var pc' := NextPc(s, c, th.pc, step);
    CrewAfterStep(s.threads, sid, t, pc');
    if th.role == Worker(sid) {
      StepEvent(s, c, th, step);
      SyncAfterEvent(CrewOf(s.threads, sid), s.syncs[sid], t, pc', NextSync(s.syncs[sid], th.pc, step),
        EventOf(th.pc, step));
    }
  }

  lemma StepResult(s: State, c: Config, t: Tid, step: Step)
    requires Enabled(s, c, By(t, step))
    ensures var s' := Apply(s, c, By(t, step));
            && s'.threads == StepThreads(s, c, t, step) && s'.syncs.Keys == s.syncs.Keys
            && forall sid :: sid in s.syncs ==> s'.syncs[sid] == StepSync(s, t, step, sid)
  {
  }

  lemma SyncAfterAction(s: State, c: Config, a: Action, sid: SyncId)
    requires RoleInv(s) && Enabled(s, c, a) && sid in Apply(s, c, a).syncs
    requires sid in s.syncs ==> SyncOk(CrewOf(s.threads, sid), s.syncs[sid])
    ensures SyncOk(CrewOf(Apply(s, c, a).threads, sid), Apply(s, c, a).syncs[sid])
  {
    if a.By? {
      StepResult(s, c, a.t, a.step);
      SyncAfterStep(s, c, a.t, a.step, sid);
    } else {
      SyncAfterStart(s, c, a, sid);
    }
  }

  lemma KeepsPool(s: State, c: Config, a: Action)
    requires RoleInv(s) && PoolInv(s) && Enabled(s, c, a)
    ensures PoolInv(Apply(s, c, a))
  {
    forall sid | sid in Apply(s, c, a).syncs
      ensures SyncOk(CrewOf(Apply(s, c, a).threads, sid), Apply(s, c, a).syncs[sid])
    {
      SyncAfterAction(s, c, a, sid);
    }
  }

  /** In every run each pool partitions its missing hashes, hands each out at most once, and counts what it fetched. */
  lemma {:induction false} RunKeepsPool(s: State, c: Config, run: seq<Action>)
    requires Inv(s, c) && PoolInv(s) && Exec(s, c, run).Some?
    ensures PoolInv(Exec(s, c, run).value)
    decreases |run|
  {
    if run != [] {
      StepKeepsInv(s, c, run[0]);
      KeepsPool(s, c, run[0]);
      RunKeepsPool(Apply(s, c, run[0]), c, run[1..]);
    }
  }

  // --- Nothing is fetched or advertised before it is committed ---

  /** The hash a thread has just committed. */
  function Earned(pc: Pc): Option<Hash> {
    if pc.Renamed? || pc.InHook? || pc.Got? then Some(pc.h)
    else if (pc.Unlock? || pc.FreeSlot?) && pc.ok then Some(pc.h)
    else None
  }

  /** What a sync skipped, fetched or advertised was committed, and what it fetched is advertised. */
  ghost predicate SyncCommitted(y: Sync, committed: set<Hash>) {
    y.skipped + y.advertised <= committed && y.fetched <= y.advertised
  }

  ghost predicate CommitInv(s: State) {
    && s.chunks.Keys <= s.committed
    && (forall t :: t in s.threads && Earned(s.threads[t].pc).Some? ==> Earned(s.threads[t].pc).value in s.committed)
    && (forall sid :: sid in s.syncs ==> SyncCommitted(s.syncs[sid], s.committed))
  }

  lemma EarnedByStep(s: State, c: Config, pc: Pc, step: Step)
    requires PcAllows(s, c, pc, step)
    ensures var e := Earned(NextPc(s, c, pc, step));
            e.Some? ==> e == Earned(pc) || e.value in NextCommitted(s, c, pc, step)
    ensures s.committed <= NextCommitted(s, c, pc, step)
    ensures NextChunks(s, c, pc, step).Keys <= s.chunks.Keys + NextCommitted(s, c, pc, step)
  {
  }

  lemma AdvertisedByStep(y: Sync, pc: Pc, step: Step)
    ensures var y' := NextSync(y, pc, step);
            && y'.skipped == y.skipped
            && var gained := if step.Count? && pc.Got? then {pc.h} else {};
               y'.advertised == y.advertised + gained && y'.fetched == y.fetched + gained
  {
  }

  lemma KeepsCommits(s: State, c: Config, a: Action)
    requires CommitInv(s) && Enabled(s, c, a)
    ensures CommitInv(Apply(s, c, a))
  {
    if a.By? {
      var pc := s.threads[a.t].pc;
      StepResult(s, c, a.t, a.step);
      EarnedByStep(s, c, pc, a.step);
      forall sid | sid in s.syncs
        ensures SyncCommitted(StepSync(s, a.t, a.step, sid), NextCommitted(s, c, pc, a.step))
      {
        AdvertisedByStep(s.syncs[sid], pc, a.step);
      }
    }
  }

  /** Without evictions what was ever committed is still there. */
  ghost predicate NeverUnlinks(run: seq<Action>) {
    forall i :: 0 <= i < |run| ==> !(run[i].By? && run[i].step.Unlink?)
  }

  lemma {:induction false} RunKeepsCommits(s: State, c: Config, run: seq<Action>)
    requires CommitInv(s) && Exec(s, c, run).Some?
    ensures CommitInv(Exec(s, c, run).value)
    ensures NeverUnlinks(run) && s.committed == s.chunks.Keys ==>
              Exec(s, c, run).value.committed == Exec(s, c, run).value.chunks.Keys
    decreases |run|
  {
    if run != [] {
      KeepsCommits(s, c, run[0]);
      RunKeepsCommits(Apply(s, c, run[0]), c, run[1..]);
    }
  }

  // --- What a finished job means ---

  ghost predicate Finished(s: State, sid: SyncId) {
    forall t :: t in s.threads && s.threads[t].role == Worker(sid) ==> s.threads[t].pc.Stopped?
  }

  /** The pending, in-flight, fetched and failed hashes partition the missing ones, each was handed out at most
      once, the counters agree, and only committed hashes were advertised. */
  ghost predicate JobFacts(s: State, sid: SyncId)
    requires sid in s.syncs
  {
    var y := s.syncs[sid];
    var busy := InFlight(CrewOf(s.threads, sid), y);
    && y.missing == y.pending + busy + y.fetched + y.failed
    && y.pending !! busy !! y.fetched !! y.failed
    && NoDup(y.handed) && Elems(y.handed) == y.missing - y.pending
    && y.downloaded == y.fromPeers + y.fromOrigin == |y.fetched|
    && y.fetched <= y.advertised <= s.committed
  }

  lemma JobFactsHold(s: State, sid: SyncId)
    requires sid in s.syncs && SyncOk(CrewOf(s.threads, sid), s.syncs[sid]) && SyncCommitted(s.syncs[sid], s.committed)
    ensures JobFacts(s, sid)
  {
    PartitionAsSets(CrewOf(s.threads, sid), s.syncs[sid]);
  }

  /** What a run from an initial state has established for one sync. */
  lemma SyncFacts(s0: State, c: Config, run: seq<Action>, sid: SyncId)
    requires Init(s0, c) && Exec(s0, c, run).Some? && sid in Exec(s0, c, run).value.syncs
    ensures var s := Exec(s0, c, run).value;
            SyncOk(CrewOf(s.threads, sid), s.syncs[sid]) && SyncCommitted(s.syncs[sid], s.committed)
    ensures NeverUnlinks(run) ==> Exec(s0, c, run).value.committed == Exec(s0, c, run).value.chunks.Keys
  {
    InitInv(s0, c);
    RunKeepsPool(s0, c, run);
    RunKeepsCommits(s0, c, run);
  }

  /** Any job at any moment of any run. */
  lemma JobInvariant(s0: State, c: Config, run: seq<Action>, sid: SyncId)
    requires Init(s0, c) && Exec(s0, c, run).Some? && sid in Exec(s0, c, run).value.syncs
    ensures JobFacts(Exec(s0, c, run).value, sid)
  {
    SyncFacts(s0, c, run, sid);
    JobFactsHold(Exec(s0, c, run).value, sid);
  }

  lemma PartitionAsSets(crew: Crew, y: Sync)
    requires SyncOk(crew, y)
    ensures y.missing == y.pending + InFlight(crew, y) + y.fetched + y.failed
    ensures y.pending !! InFlight(crew, y) !! y.fetched !! y.failed
    ensures NoDup(y.handed) && Elems(y.handed) == y.missing - y.pending
  {
  }

  /** A job whose workers have all left without an error fetched every missing hash, once each. */
  lemma CompletedJobHasEverything(s0: State, c: Config, run: seq<Action>, sid: SyncId)
    requires Init(s0, c) && Exec(s0, c, run).Some?
    requires var s := Exec(s0, c, run).value; sid in s.syncs && Finished(s, sid) && !s.syncs[sid].err
    ensures var s := Exec(s0, c, run).value; var y := s.syncs[sid];
            && y.fetched == y.missing
            && y.downloaded == y.fromPeers + y.fromOrigin == |y.missing|
            && y.missing + y.skipped <= s.committed
            && (NeverUnlinks(run) ==>
                  forall h :: h in y.missing + y.skipped ==> h in s.chunks && c.sha(s.chunks[h]) == h)
  {
    SyncFacts(s0, c, run, sid);
    EveryRunIsSafe(s0, c, run);
    NothingLeft(Exec(s0, c, run).value, sid);
  }

  lemma NothingLeft(s: State, sid: SyncId)
    requires sid in s.syncs && SyncOk(CrewOf(s.threads, sid), s.syncs[sid]) && Finished(s, sid) && !s.syncs[sid].err
    ensures s.syncs[sid].fetched == s.syncs[sid].missing
  {
    var crew, y := CrewOf(s.threads, sid), s.syncs[sid];
    assert y.pending == {} by {
      var t :| t in crew.Keys;
      assert t in crew && crew[t].Stopped?;
    }
    forall h | h in y.missing ensures h in y.fetched {
      assert !InHand(crew, h);
    }
  }

  // --- The pool ends ---

  /** How many more steps a thread can take before it is idle or gone, not counting the bytes it writes. */
  function Cost(pc: Pc): nat {
    match pc
    case Chose(_, tries) => ChoseCost(tries)
    case WantSlot(_) => 10
    case WantLock(_, via) => UnlockCost(via) + 5
    case Fill(_, via) => UnlockCost(via) + 4
    case Verified(_, via) => UnlockCost(via) + 3
    case Renamed(_, via) => UnlockCost(via) + 2
    case InHook(_, via) => UnlockCost(via) + 1
    case Unlock(_, via, _) => UnlockCost(via)
    case FreeSlot(_, _) => 3
    case Got(_, _) => 2
    case Stopped => 0
    case _ => 1
  }

  /** Seven steps for a peer attempt that fails, eleven for the origin. */
  function ChoseCost(tries: nat): nat {
    11 + 7 * tries
  }

  function UnlockCost(via: Via): nat {
    match via
    case Peer(tries) => ChoseCost(tries) + 1
    case Origin => 4
    case Put => 1
  }

  predicate WritesBytes(step: Step) {
    step.Append? || step.Discard?
  }

  /** Each step of a worker uses up some of its cost, except that taking an item brings the item's cost. */
  lemma StepCost(s: State, c: Config, th: Thread, step: Step)
    requires StepEnabled(s, c, th, step) && th.role.Worker? && !th.pc.Scanning? && !th.pc.Unlinked?
    ensures var was, now := Cost(th.pc), Cost(NextPc(s, c, th.pc, step));
            if step.Take? then now < was + ChoseCost(c.tries(step.h))
            else if WritesBytes(step) then now == was
            else now < was
  {
  }

  ghost function CrewCost(crew: Crew): map<Tid, int> {
    map t | t in crew :: Cost(crew[t])
  }

  ghost function PendingCost(c: Config, pending: set<Hash>): map<Hash, int> {
    map h | h in pending :: ChoseCost(c.tries(h))
  }

  /** How many more steps the workers of a sync can take, not counting the bytes they write. */
  ghost function Remaining(c: Config, crew: Crew, y: Sync): int {
    Sum(PendingCost(c, y.pending)) + Sum(CrewCost(crew))
  }

  lemma RemainingIsNatural(c: Config, crew: Crew, y: Sync)
    ensures Remaining(c, crew, y) >= 0
  {
    SumIsNatural(PendingCost(c, y.pending));
    SumIsNatural(CrewCost(crew));
  }

  lemma CrewCostAfter(crew: Crew, t: Tid, pc': Pc)
    requires t in crew
    ensures Sum(CrewCost(crew[t := pc'])) == Sum(CrewCost(crew)) - Cost(crew[t]) + Cost(pc')
  {
    SumUpdated(CrewCost(crew), t, Cost(pc'));
    assert CrewCost(crew[t := pc']) == CrewCost(crew)[t := Cost(pc')];
  }

  lemma PendingCostAfter(c: Config, pending: set<Hash>, h: Hash)
    requires h in pending
    ensures Sum(PendingCost(c, pending - {h})) == Sum(PendingCost(c, pending)) - ChoseCost(c.tries(h))
  {
    SumWithout(PendingCost(c, pending), h);
    assert PendingCost(c, pending - {h}) == PendingCost(c, pending) - {h};
  }

  predicate IsWork(s: State, a: Action, sid: SyncId) {
    a.By? && a.t in s.threads && s.threads[a.t].role == Worker(sid) && !WritesBytes(a.step)
  }

  lemma StepUsesUp(s: State, c: Config, t: Tid, step: Step, sid: SyncId)
    requires RoleInv(s) && Enabled(s, c, By(t, step)) && sid in s.syncs && s.threads[t].role == Worker(sid)
    ensures var crew, pc := CrewOf(s.threads, sid), s.threads[t].pc;
            && t in crew
            && Remaining(c, crew[t := NextPc(s, c, pc, step)], NextSync(s.syncs[sid], pc, step))
                 + (if WritesBytes(step) then 0 else 1)
            <= Remaining(c, crew, s.syncs[sid])
  {
    var crew, th := CrewOf(s.threads, sid), s.threads[t];
    StepCost(s, c, th, step);
    CrewCostAfter(crew, t, NextPc(s, c, th.pc, step));
    if step.Take? {
      PendingCostAfter(c, s.syncs[sid].pending, step.h);
    } else {
      assert NextSync(s.syncs[sid], th.pc, step).pending == s.syncs[sid].pending;
    }
  }

  lemma ActionUsesUp(s: State, c: Config, a: Action, sid: SyncId)
    requires RoleInv(s) && Enabled(s, c, a) && sid in s.syncs
    ensures var s' := Apply(s, c, a);
            && sid in s'.syncs
            && Remaining(c, CrewOf(s'.threads, sid), s'.syncs[sid]) + (if IsWork(s, a, sid) then 1 else 0)
            <= Remaining(c, CrewOf(s.threads, sid), s.syncs[sid])
  {
    if a.By? {
      StepResult(s, c, a.t, a.step);
      CrewAfterStep(s.threads, sid, a.t, NextPc(s, c, s.threads[a.t].pc, a.step));
      if s.threads[a.t].role == Worker(sid) {
        StepUsesUp(s, c, a.t, a.step, sid);
      }
    } else {
      CrewAfterStart(s, c, a, sid);
    }
  }

  /** The steps of one sync's workers along a run, not counting the bytes they write. */
  ghost function WorkSteps(s: State, c: Config, run: seq<Action>, sid: SyncId): nat
    requires Exec(s, c, run).Some?
    decreases |run|
  {
    if run == [] then 0
      else (if IsWork(s, run[0], sid) then 1 else 0) + WorkSteps(Apply(s, c, run[0]), c, run[1..], sid)
  }

  /** However a run continues, the workers of a sync take at most `Remaining` more steps, whatever the other
      threads do: seven for each peer attempt a hash still has, eleven for its origin attempt. */
  lemma {:induction false} PoolEnds(s: State, c: Config, run: seq<Action>, sid: SyncId)
    requires RoleInv(s) && sid in s.syncs && Exec(s, c, run).Some?
    ensures WorkSteps(s, c, run, sid) <= Remaining(c, CrewOf(s.threads, sid), s.syncs[sid])
    decreases |run|
  {
    if run == [] {
      RemainingIsNatural(c, CrewOf(s.threads, sid), s.syncs[sid]);
    } else {
      ActionUsesUp(s, c, run[0], sid);
      KeepsRoles(s, c, run[0]);
      PoolEnds(Apply(s, c, run[0]), c, run[1..], sid);
    }
  }
}
