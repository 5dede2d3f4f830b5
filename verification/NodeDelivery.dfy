/** What a completed sync leaves on the disk, on a node that meanwhile serves other syncs, puts and evictions. */
module NodeDelivery {
  import opened Base
  import opened Node
  import opened NodeSafety
  import opened NodePool

  /** The action unlinks none of these chunks. */
  predicate Spares(a: Action, hs: set<Hash>) {
    a.By? && a.step.Unlink? ==> a.step.h !in hs
  }

  predicate AllSpare(run: seq<Action>, hs: set<Hash>) {
    forall i :: 0 <= i < |run| ==> Spares(run[i], hs)
  }

  lemma {:induction false} RunKeepsChunks(s: State, c: Config, run: seq<Action>, hs: set<Hash>)
    requires Exec(s, c, run).Some? && AllSpare(run, hs)
    ensures s.chunks.Keys * hs <= Exec(s, c, run).value.chunks.Keys
    decreases |run|
  {
    if run != [] {
      var s' := Apply(s, c, run[0]);
      assert s.chunks.Keys * hs <= s'.chunks.Keys;
      RunKeepsChunks(s', c, run[1..], hs);
    }
  }

  /** What the sync skipped and fetched is on the disk, and so is what its workers have just committed. */
  ghost predicate OnDisk(crew: Crew, y: Sync, present: set<Hash>) {
    && y.skipped + y.fetched <= present
    && forall t :: t in crew && Earned(crew[t]).Some? ==> Earned(crew[t]).value in present
  }

  /** The sync has this plan. */
  ghost predicate Planned(s: State, sid: SyncId, missing: set<Hash>, skipped: set<Hash>) {
    sid in s.syncs && s.syncs[sid].missing == missing && s.syncs[sid].skipped == skipped
  }

  ghost predicate Kept(s: State, sid: SyncId) {
    sid in s.syncs && OnDisk(CrewOf(s.threads, sid), s.syncs[sid], s.chunks.Keys)
  }

  lemma PresentAfterStep(s: State, c: Config, pc: Pc, step: Step, hs: set<Hash>)
    requires PcAllows(s, c, pc, step) && (step.Unlink? ==> step.h !in hs)
    ensures s.chunks.Keys * hs <= NextChunks(s, c, pc, step).Keys
    ensures var e := Earned(NextPc(s, c, pc, step));
            e.Some? ==> e == Earned(pc) || e.value in NextChunks(s, c, pc, step)
  {
  }

  lemma PlanAfterStep(y: Sync, pc: Pc, step: Step)
    ensures var y' := NextSync(y, pc, step);
            && y'.missing == y.missing && y'.skipped == y.skipped
            && y'.fetched == y.fetched + if step.Count? && pc.Got? then {pc.h} else {}
  {
  }

  lemma OnDiskAfter(crew: Crew, y: Sync, present: set<Hash>, y': Sync, present': set<Hash>)
    requires SyncOk(crew, y) && OnDisk(crew, y, present) && present * (y.missing + y.skipped) <= present'
    requires y'.skipped == y.skipped && y'.fetched <= y.fetched + present'
    ensures OnDisk(crew, y', present')
  {
    forall t | t in crew && Earned(crew[t]).Some? ensures Earned(crew[t]).value in y.missing {
      assert Work(crew[t]) == Earned(crew[t]);
    }
  }

  lemma OnDiskMoved(crew: Crew, y: Sync, present: set<Hash>, t: Tid, pc': Pc, y': Sync, present': set<Hash>)
    requires SyncOk(crew, y) && OnDisk(crew, y, present) && present * (y.missing + y.skipped) <= present' && t in crew
    requires Earned(pc').Some? ==> Earned(pc') == Earned(crew[t]) || Earned(pc').value in present'
    requires y'.skipped == y.skipped
    requires y'.fetched == y.fetched || (Earned(crew[t]).Some? && y'.fetched == y.fetched + {Earned(crew[t]).value})
    ensures OnDisk(crew[t := pc'], y', present')
  {
    OnDiskAfter(crew, y, present, y, present');
  }

  lemma OwnStepOnDisk(s: State, c: Config, crew: Crew, y: Sync, t: Tid, step: Step)
    requires SyncOk(crew, y) && OnDisk(crew, y, s.chunks.Keys) && t in crew && PcAllows(s, c, crew[t], step)
    requires step.Unlink? ==> step.h !in y.missing + y.skipped
    ensures OnDisk(crew[t := NextPc(s, c, crew[t], step)], NextSync(y, crew[t], step),
              NextChunks(s, c, crew[t], step).Keys)
  {
    var pc := crew[t];
    PresentAfterStep(s, c, pc, step, y.missing + y.skipped);
    PlanAfterStep(y, pc, step);
    OnDiskMoved(crew, y, s.chunks.Keys, t, NextPc(s, c, pc, step), NextSync(y, pc, step),
      NextChunks(s, c, pc, step).Keys);
  }

  lemma StepKeepsKept(s: State, c: Config, t: Tid, step: Step, sid: SyncId)
    requires Kept(s, sid) && SyncOk(CrewOf(s.threads, sid), s.syncs[sid]) && Enabled(s, c, By(t, step))
    requires Spares(By(t, step), s.syncs[sid].missing + s.syncs[sid].skipped)
    ensures OnDisk(CrewOf(StepThreads(s, c, t, step), sid), StepSync(s, t, step, sid),
                   NextChunks(s, c, s.threads[t].pc, step).Keys)
  {
    var crew, y, pc := CrewOf(s.threads, sid), s.syncs[sid], s.threads[t].pc;
    CrewAfterStep(s.threads, sid, t, NextPc(s, c, pc, step));
    if s.threads[t].role == Worker(sid) {
      OwnStepOnDisk(s, c, crew, y, t, step);
    } else {
      PresentAfterStep(s, c, pc, step, y.missing + y.skipped);
      OnDiskAfter(crew, y, s.chunks.Keys, y, NextChunks(s, c, pc, step).Keys);
    }
  }

  lemma PlanAfterAction(s: State, c: Config, a: Action, sid: SyncId)
    requires sid in s.syncs && Enabled(s, c, a)
    ensures Planned(Apply(s, c, a), sid, s.syncs[sid].missing, s.syncs[sid].skipped)
  {
    if a.By? {
      StepResult(s, c, a.t, a.step);
      PlanAfterStep(s.syncs[sid], s.threads[a.t].pc, a.step);
    }
  }

  lemma ActionKeepsKept(s: State, c: Config, a: Action, sid: SyncId)
    requires RoleInv(s) && Kept(s, sid) && SyncOk(CrewOf(s.threads, sid), s.syncs[sid]) && Enabled(s, c, a)
    requires Spares(a, s.syncs[sid].missing + s.syncs[sid].skipped)
    ensures Kept(Apply(s, c, a), sid)
  {
    if a.By? {
      StepResult(s, c, a.t, a.step);
      StepKeepsKept(s, c, a.t, a.step, sid);
    } else {
      CrewAfterStart(s, c, a, sid);
    }
  }

  /** A reachable state with the sync under way, none of whose chunks is gone. */
  ghost predicate UnderWay(s: State, c: Config, sid: SyncId, missing: set<Hash>, skipped: set<Hash>) {
    Inv(s, c) && PoolInv(s) && Kept(s, sid) && Planned(s, sid, missing, skipped)
  }

  lemma StaysUnderWay(s: State, c: Config, a: Action, sid: SyncId, missing: set<Hash>, skipped: set<Hash>)
    requires UnderWay(s, c, sid, missing, skipped) && Enabled(s, c, a) && Spares(a, missing + skipped)
    ensures UnderWay(Apply(s, c, a), c, sid, missing, skipped)
  {
    StepKeepsInv(s, c, a);
    KeepsPool(s, c, a);
    ActionKeepsKept(s, c, a, sid);
    PlanAfterAction(s, c, a, sid);
  }

  /** From the start of a sync on: its plan never changes, and what it skipped and fetched stays on the disk as long
      as nobody unlinks those chunks; other chunks may come and go. */
  lemma {:induction false} RunStaysUnderWay(s: State, c: Config, run: seq<Action>, sid: SyncId, missing: set<Hash>,
      skipped: set<Hash>)
    requires UnderWay(s, c, sid, missing, skipped) && Exec(s, c, run).Some? && AllSpare(run, missing + skipped)
    ensures UnderWay(Exec(s, c, run).value, c, sid, missing, skipped)
    decreases |run|
  {
    if run != [] {
      assert Spares(run[0], missing + skipped) && AllSpare(run[1..], missing + skipped);
      StaysUnderWay(s, c, run[0], sid, missing, skipped);
      RunStaysUnderWay(Apply(s, c, run[0]), c, run[1..], sid, missing, skipped);
    }
  }

  lemma Starts(s: State, c: Config, a: Action)
    requires Inv(s, c) && PoolInv(s) && a.StartSync? && Enabled(s, c, a) && a.skipped <= s.chunks.Keys
    ensures UnderWay(Apply(s, c, a), c, a.sid, a.missing, a.skipped)
  {
    StepKeepsInv(s, c, a);
    KeepsPool(s, c, a);
    StartIsKept(s, c, a);
  }

  lemma StartIsKept(s: State, c: Config, a: Action)
    requires RoleInv(s) && a.StartSync? && Enabled(s, c, a) && a.skipped <= s.chunks.Keys
    ensures Kept(Apply(s, c, a), a.sid)
  {
  }

  lemma EndHasEverything(s: State, c: Config, sid: SyncId, missing: set<Hash>, skipped: set<Hash>)
    requires UnderWay(s, c, sid, missing, skipped) && Finished(s, sid) && !s.syncs[sid].err
    ensures forall h :: h in missing + skipped ==> h in s.chunks && c.sha(s.chunks[h]) == h
  {
    NothingLeft(s, sid);
  }

  // --- A sync from the scan of the disk to its end ---

  /** The node starts; its disk is scanned after `before`; the sync starts after `between`; `after` follows.
      `cached` is what it advertises at once. */
  datatype History = History(
    s0: State, c: Config, before: seq<Action>, between: seq<Action>, sid: SyncId, ts: set<Tid>, cached: set<Hash>,
    after: seq<Action>)

  /** The state that is scanned. */
  function Scanned(k: History): Option<State> {
    Exec(k.s0, k.c, k.before)
  }

  function Tail(k: History, missing: set<Hash>, skipped: set<Hash>): seq<Action> {
    k.between + [StartSync(k.sid, k.ts, missing, skipped, k.cached)] + k.after
  }

  function Outcome(k: History, missing: set<Hash>, skipped: set<Hash>): Option<State> {
    Exec(k.s0, k.c, k.before + Tail(k, missing, skipped))
  }

  /** The sync with this plan ran to its end without an error, whatever was evicted meanwhile. */
  ghost predicate Ends(k: History, missing: set<Hash>, skipped: set<Hash>) {
    && Init(k.s0, k.c) && Outcome(k, missing, skipped).Some?
    && var s := Outcome(k, missing, skipped).value;
       k.sid in s.syncs && Finished(s, k.sid) && !s.syncs[k.sid].err
  }

  /** And none of its chunks was unlinked after the scan. */
  ghost predicate Succeeds(k: History, missing: set<Hash>, skipped: set<Hash>) {
    Ends(k, missing, skipped) && AllSpare(Tail(k, missing, skipped), missing + skipped)
  }

  lemma TailStates(k: History, missing: set<Hash>, skipped: set<Hash>) returns (s1: State, s2: State, s3: State)
    requires Outcome(k, missing, skipped).Some?
    ensures var a := StartSync(k.sid, k.ts, missing, skipped, k.cached);
            && Scanned(k) == Some(s1) && Exec(s1, k.c, k.between) == Some(s2) && Enabled(s2, k.c, a)
            && s3 == Apply(s2, k.c, a) && Exec(s3, k.c, k.after) == Outcome(k, missing, skipped)
  {
    var start := [StartSync(k.sid, k.ts, missing, skipped, k.cached)];
    ExecConcat(k.s0, k.c, k.before, Tail(k, missing, skipped));
    s1 := Scanned(k).value;
    assert Tail(k, missing, skipped) == k.between + (start + k.after);
    ExecConcat(s1, k.c, k.between, start + k.after);
    s2 := Exec(s1, k.c, k.between).value;
    assert (start + k.after)[1..] == k.after;
    s3 := Apply(s2, k.c, start[0]);
  }

  lemma ReachableIsGood(s0: State, c: Config, run: seq<Action>)
    requires Init(s0, c) && Exec(s0, c, run).Some?
    ensures Inv(Exec(s0, c, run).value, c) && PoolInv(Exec(s0, c, run).value)
  {
    InitInv(s0, c);
    RunKeepsInv(s0, c, run);
    RunKeepsPool(s0, c, run);
  }

  lemma TailSpares(k: History, missing: set<Hash>, skipped: set<Hash>)
    requires AllSpare(Tail(k, missing, skipped), missing + skipped)
    ensures AllSpare(k.between, missing + skipped) && AllSpare(k.after, missing + skipped)
  {
    var tail := Tail(k, missing, skipped);
    assert k.between == tail[..|k.between|] && k.after == tail[|k.between| + 1..];
  }

  lemma StartIsGood(k: History, missing: set<Hash>, skipped: set<Hash>, s1: State, s2: State)
    requires Init(k.s0, k.c) && Scanned(k) == Some(s1) && Exec(s1, k.c, k.between) == Some(s2)
    requires skipped <= s1.chunks.Keys && AllSpare(k.between, missing + skipped)
    ensures Inv(s2, k.c) && PoolInv(s2) && skipped <= s2.chunks.Keys
  {
    ReachableIsGood(k.s0, k.c, k.before);
    RunKeepsInv(s1, k.c, k.between);
    RunKeepsPool(s1, k.c, k.between);
    RunKeepsChunks(s1, k.c, k.between, missing + skipped);
  }

  /** Every chunk of the plan is on the disk at the end, with its digest; the skipped ones were there at the scan. */
  lemma SyncDelivers(k: History, missing: set<Hash>, skipped: set<Hash>)
    requires Succeeds(k, missing, skipped)
    requires Scanned(k).Some? ==> skipped <= Scanned(k).value.chunks.Keys
    ensures var s := Outcome(k, missing, skipped).value;
            forall h :: h in missing + skipped ==> h in s.chunks && k.c.sha(s.chunks[h]) == h
  {
    var s1, s2, s3 := TailStates(k, missing, skipped);
    TailSpares(k, missing, skipped);
    StartIsGood(k, missing, skipped, s1, s2);
    Starts(s2, k.c, StartSync(k.sid, k.ts, missing, skipped, k.cached));
    RunStaysUnderWay(s3, k.c, k.after, k.sid, missing, skipped);
    EndHasEverything(Outcome(k, missing, skipped).value, k.c, k.sid, missing, skipped);
  }
}
