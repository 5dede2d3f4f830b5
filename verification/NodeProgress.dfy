/** No reachable state of a node is stuck: the three kinds of lock are taken in one order, so some
    thread with work left can always take its next step. */
module NodeProgress {
  import opened Base
  import opened Node
  import opened NodeSafety

  predicate Unfinished(th: Thread) {
    !th.pc.Stopped? && !(th.role.Evictor? && th.pc.Idle?)
  }

  /** The thread waits for a resource that is taken. */
  predicate Blocked(s: State, c: Config, th: Thread) {
    || (th.pc.WantSlot? && s.used >= c.slots)
    || (th.pc.WantLock? && th.pc.h in s.holder)
    || (th.pc.Renamed? && s.mutex.Some?)
  }

  /** The step that carries a thread on; never one of the cancellations. */
  ghost function Advance(s: State, th: Thread): Step
    requires RoleFits(s, th) && Unfinished(th)
  {
    match th.pc
    case Idle =>
      var pending := s.syncs[th.role.sync].pending;
      if pending == {} then Quit else var h :| h in pending; Take(h)
    case Chose(_, _) => TryOrigin
    case WantSlot(_) => AcquireSlot
    case WantLock(_, _) => AcquireLock
    case Fill(h, _) => if h in s.partials then Verify else Append([])
    case Verified(_, _) => Rename
    case Renamed(_, _) => EnterHook
    case InHook(_, _) => RunHook
    case Unlock(_, _, _) => ReleaseLock
    case FreeSlot(_, _) => ReleaseSlot
    case Got(_, _) => Count
    case Scanning(left) => if left == {} then EndEvict else var h :| h in left; Unlink(h)
    case Unlinked(_, _) => DropIndex
    case Stopped => Quit
  }

  /** What `RoleInv` says of one thread, as far as `Advance` needs it. */
  predicate RoleFits(s: State, th: Thread) {
    th.pc.Idle? && !th.role.Evictor? ==> th.role.Worker? && th.role.sync in s.syncs
  }

  lemma UnblockedCanAdvance(s: State, c: Config, t: Tid)
    requires Inv(s, c) && t in s.threads && Unfinished(s.threads[t]) && !Blocked(s, c, s.threads[t])
    ensures RoleFits(s, s.threads[t]) && Enabled(s, c, By(t, Advance(s, s.threads[t])))
  {
    assert s.threads[t].pc.FreeSlot? ==> t in SlotHolders(s.threads);
    if SlotHolders(s.threads) != {} {
      var u :| u in SlotHolders(s.threads);
      SubsetSize({u}, SlotHolders(s.threads));
    }
  }

  /** Which resource a thread is about to ask for: 1 is the origin slot, 2 a hash lock, 3 the quota mutex. */
  function Wanted(pc: Pc): nat {
    if pc.WantSlot? then 1 else if pc.WantLock? then 2 else if pc.Renamed? then 3 else 0
  }

  /** The last one in that order that it holds. */
  function Topmost(pc: Pc): nat {
    if HoldsMutex(pc) then 3 else if Held(pc).Some? then 2 else if HoldsSlot(pc) then 1 else 0
  }

  /** Resources are taken in one order: whoever asks for one holds only earlier ones. */
  lemma LockOrder(pc: Pc)
    ensures Wanted(pc) > 0 ==> Topmost(pc) < Wanted(pc)
  {
  }

  /** What a blocked thread waits for is held by an unfinished thread. */
  lemma HolderOf(s: State, c: Config, u: Tid) returns (v: Tid)
    requires Inv(s, c) && c.slots > 0 && u in s.threads && Blocked(s, c, s.threads[u])
    ensures v in s.threads && Unfinished(s.threads[v]) && Topmost(s.threads[v].pc) >= Wanted(s.threads[u].pc)
  {
    var pc := s.threads[u].pc;
    if pc.Renamed? {
      v := s.mutex.value;
    } else if pc.WantLock? {
      v := s.holder[pc.h];
    } else {
      assert |SlotHolders(s.threads)| > 0;
      v :| v in SlotHolders(s.threads);
    }
  }

  /** From thread to holder the wanted resource moves up in the order, so this ends at one that is not blocked. */
  lemma LeadsToRunnable(s: State, c: Config, u: Tid) returns (t: Tid)
    requires Inv(s, c) && c.slots > 0 && u in s.threads && Unfinished(s.threads[u])
    ensures t in s.threads && Unfinished(s.threads[t]) && !Blocked(s, c, s.threads[t])
    decreases 3 - Wanted(s.threads[u].pc)
  {
    t := u;
    if Blocked(s, c, s.threads[u]) {
      var v := HolderOf(s, c, u);
      t := v;
      if Blocked(s, c, s.threads[v]) {
        LockOrder(s.threads[v].pc);
        t := LeadsToRunnable(s, c, v);
      }
    }
  }

  /** No reachable state has every unfinished thread blocked. */
  lemma SomeThreadCanAdvance(s0: State, c: Config, run: seq<Action>, u: Tid) returns (t: Tid)
    requires Init(s0, c) && Exec(s0, c, run).Some? && c.slots > 0
    requires var s := Exec(s0, c, run).value; u in s.threads && Unfinished(s.threads[u])
    ensures var s := Exec(s0, c, run).value;
            && t in s.threads && Unfinished(s.threads[t]) && RoleFits(s, s.threads[t])
            && Enabled(s, c, By(t, Advance(s, s.threads[t])))
  {
    InitInv(s0, c);
    RunKeepsInv(s0, c, run);
    var s := Exec(s0, c, run).value;
    t := LeadsToRunnable(s, c, u);
    UnblockedCanAdvance(s, c, t);
  }

  /** Where no thread has a step to take, every worker has left its pool and every put has returned. */
  lemma RestMeansStopped(s0: State, c: Config, run: seq<Action>)
    requires Init(s0, c) && Exec(s0, c, run).Some? && c.slots > 0
    requires var s := Exec(s0, c, run).value;
             forall t :: t in s.threads && Unfinished(s.threads[t]) && RoleFits(s, s.threads[t]) ==>
               !Enabled(s, c, By(t, Advance(s, s.threads[t])))
    ensures var s := Exec(s0, c, run).value;
            forall t :: t in s.threads && !s.threads[t].role.Evictor? ==> s.threads[t].pc.Stopped?
  {
    var s := Exec(s0, c, run).value;
    forall t | t in s.threads && !s.threads[t].role.Evictor? ensures s.threads[t].pc.Stopped? {
      if Unfinished(s.threads[t]) {
        var u := SomeThreadCanAdvance(s0, c, run, t);
      }
    }
  }
}
