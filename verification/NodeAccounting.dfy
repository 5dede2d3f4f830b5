/** The quota index against the chunk directory, with commits and evictions interleaving at the level of
    rename, file removal, index removal and commit hook. */
module NodeAccounting {
  import opened Base
  import opened Node
  import opened NodeSafety

  /** A commit of `h` is in place and its hook has not finished. */
  ghost predicate HookPending(threads: map<Tid, Thread>, h: Hash) {
    exists t :: t in threads && (threads[t].pc.Renamed? || threads[t].pc.InHook?) && threads[t].pc.h == h
  }

  /** Nothing escapes accounting: each chunk file is indexed or its commit hook has not run yet. */
  ghost predicate Accounted(s: State) {
    forall h :: h in s.chunks ==> h in s.index || HookPending(s.threads, h)
  }

  /** A file that reappears between its removal and the removal of its index entry belongs to a
      commit that still waits for the mutex. */
  ghost predicate Recommitted(s: State) {
    forall t :: t in s.threads && s.threads[t].pc.Unlinked? && s.threads[t].pc.h in s.chunks ==>
      HookPending(s.threads, s.threads[t].pc.h)
  }

  /** An eviction in progress has only unpinned, indexed hashes in hand. */
  ghost predicate SparesPinned(s: State) {
    && s.pinned <= s.index
    && (forall t :: t in s.threads && s.threads[t].pc.Scanning? ==> s.threads[t].pc.left !! s.pinned)
    && (forall t :: t in s.threads && s.threads[t].pc.Unlinked? ==>
         s.threads[t].pc.left !! s.pinned && s.threads[t].pc.h !in s.pinned)
  }

  ghost predicate AccountInv(s: State) {
    Accounted(s) && Recommitted(s) && SparesPinned(s)
  }

  lemma KeepsSparing(s: State, c: Config, a: Action)
    requires MutexInv(s) && SparesPinned(s) && Enabled(s, c, a)
    ensures SparesPinned(Apply(s, c, a))
  {
  }

  /** A pending hook stays pending until it has entered the hash into the index. */
  lemma HookStaysPending(s: State, c: Config, a: Action, h: Hash)
    requires Enabled(s, c, a) && HookPending(s.threads, h)
    ensures HookPending(Apply(s, c, a).threads, h) || (a.By? && a.step.RunHook? && h in Apply(s, c, a).index)
  {
    var t :| t in s.threads && (s.threads[t].pc.Renamed? || s.threads[t].pc.InHook?) && s.threads[t].pc.h == h;
    var s' := Apply(s, c, a);
    if a.By? && a.t == t {
      assert a.step.EnterHook? || a.step.RunHook?;
    }
    assert t in s'.threads;
  }

  lemma KeepsAccounted(s: State, c: Config, a: Action)
    requires AccountInv(s) && MutexInv(s) && Enabled(s, c, a)
    ensures Accounted(Apply(s, c, a))
  {
    var s' := Apply(s, c, a);
    forall h | h in s'.chunks ensures h in s'.index || HookPending(s'.threads, h) {
      if a.By? && a.step.Rename? && s.threads[a.t].pc.h == h {
        assert a.t in s'.threads && s'.threads[a.t].pc.Renamed? && s'.threads[a.t].pc.h == h;
      } else if HookPending(s.threads, h) {
        HookStaysPending(s, c, a, h);
      } else {
        assert h in s.chunks;
      }
    }
  }

  lemma KeepsRecommitted(s: State, c: Config, a: Action)
    requires AccountInv(s) && MutexInv(s) && Enabled(s, c, a)
    ensures Recommitted(Apply(s, c, a))
  {
    var s' := Apply(s, c, a);
    forall t | t in s'.threads && s'.threads[t].pc.Unlinked? && s'.threads[t].pc.h in s'.chunks
      ensures HookPending(s'.threads, s'.threads[t].pc.h)
    {
      var h := s'.threads[t].pc.h;
      if a.By? && a.step.Rename? && s.threads[a.t].pc.h == h {
        assert a.t in s'.threads && s'.threads[a.t].pc.Renamed? && s'.threads[a.t].pc.h == h;
      } else {
        assert t in s.threads && s.threads[t].pc == s'.threads[t].pc;
        HookStaysPending(s, c, a, h);
      }
    }
  }

  lemma {:induction false} RunKeepsAccounts(s: State, c: Config, run: seq<Action>)
    requires Inv(s, c) && AccountInv(s) && Exec(s, c, run).Some?
    ensures AccountInv(Exec(s, c, run).value)
    decreases |run|
  {
    if run != [] {
      StepKeepsInv(s, c, run[0]);
      KeepsSparing(s, c, run[0]);
      KeepsAccounted(s, c, run[0]);
      KeepsRecommitted(s, c, run[0]);
      RunKeepsAccounts(Apply(s, c, run[0]), c, run[1..]);
    }
  }

  /** A pinned chunk file outlives every run that does not unpin it. */
  lemma {:induction false} PinnedStays(s: State, c: Config, run: seq<Action>, h: Hash)
    requires Inv(s, c) && AccountInv(s) && Exec(s, c, run).Some? && h in s.pinned && h in s.chunks
    requires forall i :: 0 <= i < |run| && run[i].Unpin? ==> h !in run[i].hs
    ensures var s' := Exec(s, c, run).value; h in s'.pinned && h in s'.chunks && c.sha(s'.chunks[h]) == h
    decreases |run|
  {
    if run != [] {
      StepKeepsInv(s, c, run[0]);
      KeepsSparing(s, c, run[0]);
      KeepsAccounted(s, c, run[0]);
      KeepsRecommitted(s, c, run[0]);
      PinSurvives(s, c, run[0], h);
      PinnedStays(Apply(s, c, run[0]), c, run[1..], h);
    }
  }

  lemma PinSurvives(s: State, c: Config, a: Action, h: Hash)
    requires SparesPinned(s) && Enabled(s, c, a) && h in s.pinned && h in s.chunks && !(a.Unpin? && h in a.hs)
    ensures h in Apply(s, c, a).pinned && h in Apply(s, c, a).chunks
  {
    if a.By? && a.step.Unlink? {
      assert s.threads[a.t].pc.Scanning?;
    }
  }

  /** Once a chunk that is on disk is pinned, it stays there, intact, for as long as no unpin names it. */
  lemma PinProtects(s0: State, c: Config, before: seq<Action>, hs: set<Hash>, after: seq<Action>, h: Hash)
    requires Init(s0, c) && Exec(s0, c, before + [Pin(hs)] + after).Some?
    requires h in hs && Exec(s0, c, before).Some? && h in Exec(s0, c, before).value.chunks
    requires forall i :: 0 <= i < |after| && after[i].Unpin? ==> h !in after[i].hs
    ensures var s := Exec(s0, c, before + [Pin(hs)] + after).value; h in s.chunks && c.sha(s.chunks[h]) == h
  {
    ExecConcat(s0, c, before + [Pin(hs)], after);
    ExecConcat(s0, c, before, [Pin(hs)]);
    InitInv(s0, c);
    RunKeepsInv(s0, c, before + [Pin(hs)]);
    RunKeepsAccounts(s0, c, before + [Pin(hs)]);
    var s := Exec(s0, c, before).value;
    assert Exec(s, c, [Pin(hs)]) == Exec(Apply(s, c, Pin(hs)), c, []);
    PinnedStays(Apply(s, c, Pin(hs)), c, after, h);
  }

  /** In every run, every chunk file is in the quota index or its commit hook is still to come, and no
      step removes the file or the index entry of a pinned chunk. */
  lemma NothingEscapesAccounting(s0: State, c: Config, run: seq<Action>, a: Action)
    requires Init(s0, c) && Exec(s0, c, run).Some? && Enabled(Exec(s0, c, run).value, c, a)
    ensures var s := Exec(s0, c, run).value;
            && (forall h :: h in s.chunks ==> h in s.index || HookPending(s.threads, h))
            && s.pinned <= s.index
            && (forall h :: h in s.pinned && h in s.chunks ==> h in Apply(s, c, a).chunks)
  {
    InitInv(s0, c);
    RunKeepsAccounts(s0, c, run);
    var s := Exec(s0, c, run).value;
    if a.By? && a.step.Unlink? {
      assert s.threads[a.t].pc.Scanning?;
    }
  }
}
