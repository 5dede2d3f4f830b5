/** What every run of a node keeps: mutual exclusion of the locks, and the integrity of every
    committed chunk whatever peers, origin and evictors do. */
module NodeSafety {
  import opened Base
  import opened Node

  /** The hash whose lock a thread holds. */
  function Held(pc: Pc): Option<Hash> {
    if pc.Fill? || pc.Verified? || pc.Renamed? || pc.InHook? || pc.Unlock? then Some(pc.h) else None
  }

  predicate HoldsMutex(pc: Pc) {
    pc.InHook? || pc.Scanning? || pc.Unlinked?
  }

  predicate HoldsSlot(pc: Pc) {
    || ((pc.WantLock? || pc.Fill? || pc.Verified? || pc.Renamed? || pc.InHook? || pc.Unlock?) && pc.via.Origin?)
    || pc.FreeSlot?
  }

  ghost function SlotHolders(threads: map<Tid, Thread>): set<Tid> {
    set t | t in threads && HoldsSlot(threads[t].pc)
  }

  /** The lock table and the threads agree: one thread inside per hash, and it is the recorded one. */
  ghost predicate LocksAgree(threads: map<Tid, Thread>, holder: map<Hash, Tid>) {
    && (forall h :: h in holder ==> holder[h] in threads && Held(threads[holder[h]].pc) == Some(h))
    && (forall t :: t in threads && Held(threads[t].pc).Some? ==>
           var h := Held(threads[t].pc).value; h in holder && holder[h] == t)
  }

  ghost predicate LockInv(s: State) {
    LocksAgree(s.threads, s.holder)
  }

  ghost predicate MutexInv(s: State) {
    && (s.mutex.Some? ==> s.mutex.value in s.threads && HoldsMutex(s.threads[s.mutex.value].pc))
    && (forall t :: t in s.threads && HoldsMutex(s.threads[t].pc) ==> s.mutex == Some(t))
  }

  ghost predicate SlotInv(s: State, c: Config) {
    s.used == |SlotHolders(s.threads)| <= c.slots
  }

  /** Between digest check and rename the partial is still the one that was checked. */
  ghost predicate VerifiedInv(s: State, c: Config) {
    forall t :: t in s.threads && s.threads[t].pc.Verified? ==>
      var h := s.threads[t].pc.h; h in s.partials && c.sha(s.partials[h]) == h
  }

  ghost predicate Integrity(s: State, c: Config) {
    forall h :: h in s.chunks ==> c.sha(s.chunks[h]) == h
  }

  /** On the way to the lock or inside it. */
  predicate HasVia(pc: Pc) {
    pc.WantLock? || pc.Fill? || pc.Verified? || pc.Renamed? || pc.InHook? || pc.Unlock?
  }

  /** Which program counters a role can have. */
  ghost predicate RoleInv(s: State) {
    forall t :: t in s.threads ==>
      var th := s.threads[t];
      match th.role
      case Worker(sid) =>
        sid in s.syncs && !th.pc.Scanning? && !th.pc.Unlinked?
        && (HasVia(th.pc) || th.pc.Got? ==> !th.pc.via.Put?)
      case Putter =>
        th.pc.Stopped? || (HasVia(th.pc) && th.pc.via.Put?)
      case Evictor => th.pc.Idle? || th.pc.Scanning? || th.pc.Unlinked?
  }

  ghost predicate Inv(s: State, c: Config) {
    RoleInv(s) && LockInv(s) && MutexInv(s) && SlotInv(s, c) && VerifiedInv(s, c) && Integrity(s, c)
  }

  lemma InitInv(s: State, c: Config)
    requires Init(s, c)
    ensures Inv(s, c)
  {
    assert SlotHolders(s.threads) == {};
  }

  // --- How one step of thread `t` from `pc` to `pc'` can touch a lock or the semaphore ---

  ghost predicate LockShape(holder: map<Hash, Tid>, holder': map<Hash, Tid>, t: Tid, pc: Pc, pc': Pc) {
    || (Held(pc') == Held(pc) && holder' == holder)
    || (Held(pc) == None && Held(pc').Some? && Held(pc').value !in holder && holder' == holder[Held(pc').value := t])
    || (Held(pc).Some? && Held(pc') == None && holder' == holder - {Held(pc).value})
  }

  lemma StepLockShape(s: State, c: Config, t: Tid, pc: Pc, step: Step)
    requires PcAllows(s, c, pc, step)
    ensures LockShape(s.holder, NextHolder(s, c, t, pc, step), t, pc, NextPc(s, c, pc, step))
  {
  }

  ghost predicate SlotShape(used: nat, used': nat, c: Config, pc: Pc, pc': Pc) {
    || (HoldsSlot(pc') == HoldsSlot(pc) && used' == used)
    || (!HoldsSlot(pc) && HoldsSlot(pc') && used < c.slots && used' == used + 1)
    || (HoldsSlot(pc) && !HoldsSlot(pc') && used' == used - 1)
  }

  lemma StepSlotShape(s: State, c: Config, pc: Pc, step: Step)
    requires PcAllows(s, c, pc, step)
    ensures SlotShape(s.used, NextUsed(s, c, pc, step), c, pc, NextPc(s, c, pc, step))
  {
  }

  lemma LocksAfterStep(threads: map<Tid, Thread>, holder: map<Hash, Tid>, t: Tid, th': Thread, holder': map<Hash, Tid>)
    requires LocksAgree(threads, holder) && t in threads
    requires LockShape(holder, holder', t, threads[t].pc, th'.pc)
    ensures LocksAgree(threads[t := th'], holder')
  {
  }

  lemma SlotsAfterStep(threads: map<Tid, Thread>, used: nat, c: Config, t: Tid, th': Thread, used': nat)
    requires used == |SlotHolders(threads)| <= c.slots && t in threads
    requires SlotShape(used, used', c, threads[t].pc, th'.pc)
    ensures used' == |SlotHolders(threads[t := th'])| <= c.slots
  {
    SlotHoldersAfter(threads, t, th');
    var was := SlotHolders(threads);
    assert t in was <==> HoldsSlot(threads[t].pc);
    assert t in was ==> was + {t} == was;
    assert t !in was ==> was - {t} == was;
  }

  lemma SlotHoldersAfter(threads: map<Tid, Thread>, t: Tid, th': Thread)
    requires t in threads
    ensures var was := SlotHolders(threads);
            SlotHolders(threads[t := th']) == if HoldsSlot(th'.pc) then was + {t} else was - {t}
  {
    var was, now := SlotHolders(threads), SlotHolders(threads[t := th']);
    forall u ensures u in now <==> (u in was && u != t) || (u == t && HoldsSlot(th'.pc)) {
      if u != t && u in threads {
        assert threads[t := th'][u] == threads[u];
      }
    }
    if HoldsSlot(th'.pc) {
      assert now == was + {t};
    } else {
      assert now == was - {t};
    }
  }

  lemma KeepsRoles(s: State, c: Config, a: Action)
    requires RoleInv(s) && Enabled(s, c, a)
    ensures RoleInv(Apply(s, c, a))
  {
  }

  lemma KeepsLocks(s: State, c: Config, a: Action)
    requires LockInv(s) && Enabled(s, c, a)
    ensures LockInv(Apply(s, c, a))
  {
    if a.By? {
      var th := s.threads[a.t];
      StepLockShape(s, c, a.t, th.pc, a.step);
      LocksAfterStep(s.threads, s.holder, a.t, Thread(th.role, NextPc(s, c, th.pc, a.step)),
        NextHolder(s, c, a.t, th.pc, a.step));
    }
  }

  lemma KeepsMutex(s: State, c: Config, a: Action)
    requires MutexInv(s) && Enabled(s, c, a)
    ensures MutexInv(Apply(s, c, a))
  {
  }

  lemma KeepsSlots(s: State, c: Config, a: Action)
    requires SlotInv(s, c) && Enabled(s, c, a)
    ensures SlotInv(Apply(s, c, a), c)
  {
    if a.By? {
      var th := s.threads[a.t];
      StepSlotShape(s, c, th.pc, a.step);
      SlotsAfterStep(s.threads, s.used, c, a.t, Thread(th.role, NextPc(s, c, th.pc, a.step)),
        NextUsed(s, c, th.pc, a.step));
    } else {
      assert SlotHolders(Apply(s, c, a).threads) == SlotHolders(s.threads);
    }
  }

  lemma KeepsVerified(s: State, c: Config, a: Action)
    requires LockInv(s) && VerifiedInv(s, c) && Enabled(s, c, a)
    ensures VerifiedInv(Apply(s, c, a), c)
  {
  }

  lemma KeepsIntegrity(s: State, c: Config, a: Action)
    requires VerifiedInv(s, c) && Integrity(s, c) && Enabled(s, c, a)
    ensures Integrity(Apply(s, c, a), c)
  {
  }

  /** For every run, with peers and origin sending any bytes and stopping anywhere: each lock has one
      holder, the semaphore counts exactly the threads inside and is never exceeded, a verified
      partial is unchanged until its rename, and every committed chunk's bytes hash to its name. */
  lemma {:induction false} RunKeepsInv(s: State, c: Config, run: seq<Action>)
    requires Inv(s, c) && Exec(s, c, run).Some?
    ensures Inv(Exec(s, c, run).value, c)
    decreases |run|
  {
    if run != [] {
      StepKeepsInv(s, c, run[0]);
      RunKeepsInv(Apply(s, c, run[0]), c, run[1..]);
    }
  }

  lemma StepKeepsInv(s: State, c: Config, a: Action)
    requires Inv(s, c) && Enabled(s, c, a)
    ensures Inv(Apply(s, c, a), c)
  {
    KeepsRoles(s, c, a);
    KeepsLocks(s, c, a);
    KeepsMutex(s, c, a);
    KeepsSlots(s, c, a);
    KeepsVerified(s, c, a);
    KeepsIntegrity(s, c, a);
  }

  ghost function OriginReaders(s: State): set<Tid> {
    set t | t in s.threads && s.threads[t].pc.Fill? && s.threads[t].pc.via.Origin?
  }

  /** The same, said of any run from any start: whatever the partial files held, no run ever commits
      bytes under a wrong name, lets two threads into one hash, or reads the origin more than
      `slots` times at once. */
  lemma EveryRunIsSafe(s0: State, c: Config, run: seq<Action>)
    requires Init(s0, c) && Exec(s0, c, run).Some?
    ensures var s := Exec(s0, c, run).value;
            && (forall h :: h in s.chunks ==> c.sha(s.chunks[h]) == h)
            && (forall t, u | t in s.threads && u in s.threads && Held(s.threads[t].pc).Some? ::
                  Held(s.threads[t].pc) == Held(s.threads[u].pc) ==> t == u)
            && |OriginReaders(s)| <= c.slots
  {
    InitInv(s0, c);
    RunKeepsInv(s0, c, run);
    var s := Exec(s0, c, run).value;
    SubsetSize(OriginReaders(s), SlotHolders(s.threads));
  }

  /** No action of anyone else moves a thread out of `Verified` or changes the bytes it verified. */
  lemma VerifiedPartialIsFrozen(s: State, c: Config, t: Tid, a: Action)
    requires Inv(s, c) && Enabled(s, c, a) && t in s.threads && s.threads[t].pc.Verified?
    requires !(a.By? && a.t == t)
    ensures var h := s.threads[t].pc.h; var s' := Apply(s, c, a);
            && t in s'.threads && s'.threads[t] == s.threads[t]
            && h in s'.partials && s'.partials[h] == s.partials[h]
  {
    if a.By? {
      assert Held(s.threads[t].pc) != Held(s.threads[a.t].pc);
    }
  }

  /** Every append of the run continues `content` where the partial ends, and a put writes that content. */
  ghost predicate Honest(s: State, c: Config, content: map<Hash, Bytes>, run: seq<Action>)
    decreases |run|
  {
    run == [] ||
    (Enabled(s, c, run[0])
     && (run[0].By? && run[0].step.Append? ==> HonestAppend(s, content, s.threads[run[0].t].pc.h, run[0].step.data))
     && Honest(Apply(s, c, run[0]), c, content, run[1..]))
  }

  ghost predicate HonestAppend(s: State, content: map<Hash, Bytes>, h: Hash, data: Bytes) {
    h in content &&
    var have := if h in s.partials then |s.partials[h]| else 0;
    have <= |content[h]| && data <= content[h][have..]
  }

  ghost predicate PrefixInv(s: State, content: map<Hash, Bytes>) {
    forall h :: h in s.partials && h in content ==> s.partials[h] <= content[h]
  }

  /** If all writers are honest a partial is always a prefix of the chunk, so resuming it is sound. */
  lemma {:induction false} HonestPartialsArePrefixes(s: State, c: Config, content: map<Hash, Bytes>, run: seq<Action>)
    requires PrefixInv(s, content) && Honest(s, c, content, run)
    ensures Exec(s, c, run).Some? && PrefixInv(Exec(s, c, run).value, content)
    decreases |run|
  {
    if run != [] {
      var a, s' := run[0], Apply(s, c, run[0]);
      forall h | h in s'.partials && h in content ensures s'.partials[h] <= content[h] {
        if a.By? && a.step.Append? && h == s.threads[a.t].pc.h {
          var have := if h in s.partials then s.partials[h] else [];
          assert content[h] == content[h][..|have|] + content[h][|have|..];
        }
      }
      HonestPartialsArePrefixes(s', c, content, run[1..]);
    }
  }
}
