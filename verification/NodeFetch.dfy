/** The sequential fetch code as runs of a node: what one thread does while it holds a hash lock is a sequence of
    that thread's steps with the same effect on chunks and partials and the same outcome. */
module NodeFetch {
  import opened Base
  import opened ChunkStore
  import opened Transfer
  import Fetch
  import opened Node

  // --- Runs ---

  lemma ExecOne(s: State, c: Config, a: Action)
    requires Enabled(s, c, a)
    ensures Exec(s, c, [a]) == Some(Apply(s, c, a))
  {
    assert [a][1..] == [];
  }

  lemma ExecThen(s: State, c: Config, run: seq<Action>, s1: State, a: Action)
    requires Exec(s, c, run) == Some(s1) && Enabled(s1, c, a)
    ensures Exec(s, c, run + [a]) == Some(Apply(s1, c, a))
  {
    ExecConcat(s, c, run, [a]);
    ExecOne(s1, c, a);
  }

  /** Steps of this thread, none of which unlinks a chunk. */
  predicate OwnSteps(run: seq<Action>, t: Tid) {
    forall i :: 0 <= i < |run| ==> run[i].By? && run[i].t == t && !run[i].step.Unlink?
  }

  function DiskOf(s: State): Disk {
    Disk(s.chunks, s.partials)
  }

  /** The thread stands at `pc`, and only it has moved. */
  function At(s: State, t: Tid, pc: Pc): State
    requires t in s.threads
  {
    s.(threads := s.threads[t := Thread(s.threads[t].role, pc)])
  }

  /** A step that leaves the thread's job as it is. */
  predicate Quiet(step: Step) {
    !step.Take? && !step.Cancel? && !step.GiveUp? && !step.ReleaseSlot? && !step.Count?
  }

  lemma QuietKeepsSyncs(s: State, c: Config, t: Tid, step: Step)
    requires Enabled(s, c, By(t, step)) && Quiet(step)
    ensures Apply(s, c, By(t, step)).syncs == s.syncs
  {
  }

  // --- What a thread does between taking and releasing the lock ---

  datatype Fate = Drop | Leave | Commit

  /** Throw away what is there, if asked; write; then drop the partial, leave it, or verify and commit it. */
  function Session(sha: Bytes -> Hash, d: Disk, h: Hash, trim: bool, data: Bytes, fate: Fate): (Disk, bool) {
    var d0 := if trim then Discarded(d, h) else d;
    var d1 := Appended(d0, h, data);
    match fate
    case Drop => (Discarded(d1, h), false)
    case Leave => (d1, false)
    case Commit => Committed(sha, d1, h)
  }

  /** The state after a session that left the disk as `d` and succeeded or not. */
  function Unlocking(s: State, t: Tid, d: Disk, ok: bool): State
    requires t in s.threads && s.threads[t].pc.Fill?
  {
    var pc := s.threads[t].pc;
    At(s, t, Unlock(pc.h, pc.via, ok)).(
      chunks := d.chunks, partials := d.partials,
      index := if ok then s.index + {pc.h} else s.index, committed := if ok then s.committed + {pc.h} else s.committed)
  }

  lemma WriteStep(s: State, c: Config, t: Tid, step: Step)
    requires t in s.threads && s.threads[t].pc.Fill? && (step.Append? || step.Discard?)
    ensures Enabled(s, c, By(t, step))
    ensures Apply(s, c, By(t, step)) == s.(partials := NextPartials(s, c, s.threads[t].pc, step))
  {
    QuietKeepsSyncs(s, c, t, step);
    assert s.threads[t := s.threads[t]] == s.threads;
  }

  lemma AbortStep(s: State, c: Config, t: Tid)
    requires t in s.threads && s.threads[t].pc.Fill?
    ensures Enabled(s, c, By(t, Abort)) && Apply(s, c, By(t, Abort)) == Unlocking(s, t, DiskOf(s), false)
  {
    QuietKeepsSyncs(s, c, t, Abort);
  }

  lemma MismatchStep(s: State, c: Config, t: Tid)
    requires t in s.threads && s.threads[t].pc.Fill? && s.threads[t].pc.h in s.partials
    requires !Matches(s, c, s.threads[t].pc)
    ensures Enabled(s, c, By(t, Verify))
    ensures Apply(s, c, By(t, Verify)) == Unlocking(s, t, Discarded(DiskOf(s), s.threads[t].pc.h), false)
  {
    QuietKeepsSyncs(s, c, t, Verify);
  }

  lemma VerifyStep(s: State, c: Config, t: Tid)
    requires t in s.threads && s.threads[t].pc.Fill? && s.threads[t].pc.h in s.partials
    requires Matches(s, c, s.threads[t].pc)
    ensures Enabled(s, c, By(t, Verify))
    ensures Apply(s, c, By(t, Verify)) == At(s, t, Verified(s.threads[t].pc.h, s.threads[t].pc.via))
  {
    QuietKeepsSyncs(s, c, t, Verify);
  }

  lemma RenameStep(s: State, c: Config, t: Tid)
    requires t in s.threads && s.threads[t].pc.Verified? && s.threads[t].pc.h in s.partials
    ensures var h, via := s.threads[t].pc.h, s.threads[t].pc.via;
            && Enabled(s, c, By(t, Rename))
            && Apply(s, c, By(t, Rename)) == At(s, t, Renamed(h, via)).(
                 chunks := s.chunks[h := s.partials[h]], partials := s.partials - {h}, committed := s.committed + {h})
  {
    QuietKeepsSyncs(s, c, t, Rename);
  }

  lemma EnterStep(s: State, c: Config, t: Tid)
    requires t in s.threads && s.threads[t].pc.Renamed? && s.mutex == None
    ensures Enabled(s, c, By(t, EnterHook))
    ensures Apply(s, c, By(t, EnterHook)) == At(s, t, InHook(s.threads[t].pc.h, s.threads[t].pc.via)).(mutex := Some(t))
  {
    QuietKeepsSyncs(s, c, t, EnterHook);
  }

  lemma HookStep(s: State, c: Config, t: Tid)
    requires t in s.threads && s.threads[t].pc.InHook?
    ensures var h, via := s.threads[t].pc.h, s.threads[t].pc.via;
            && Enabled(s, c, By(t, RunHook))
            && Apply(s, c, By(t, RunHook)) == At(s, t, Unlock(h, via, true)).(mutex := None, index := s.index + {h})
  {
    QuietKeepsSyncs(s, c, t, RunHook);
  }

  /** Verify, rename and hook, with nobody in the way. */
  lemma CommitRun(s: State, c: Config, t: Tid) returns (run: seq<Action>)
    requires t in s.threads && s.threads[t].pc.Fill? && ValidName(s.threads[t].pc.h) && s.threads[t].pc.h in s.partials
    requires s.mutex == None
    ensures OwnSteps(run, t)
    ensures var (d, ok) := Committed(c.sha, DiskOf(s), s.threads[t].pc.h);
            Exec(s, c, run) == Some(Unlocking(s, t, d, ok))
  {
    if Matches(s, c, s.threads[t].pc) {
      VerifyStep(s, c, t);
      ExecOne(s, c, By(t, Verify));
      var s1 := Apply(s, c, By(t, Verify));
      RenameStep(s1, c, t);
      ExecThen(s, c, [By(t, Verify)], s1, By(t, Rename));
      var s2 := Apply(s1, c, By(t, Rename));
      EnterStep(s2, c, t);
      ExecThen(s, c, [By(t, Verify)] + [By(t, Rename)], s2, By(t, EnterHook));
      var s3 := Apply(s2, c, By(t, EnterHook));
      HookStep(s3, c, t);
      run := [By(t, Verify)] + [By(t, Rename)] + [By(t, EnterHook)] + [By(t, RunHook)];
      ExecThen(s, c, [By(t, Verify)] + [By(t, Rename)] + [By(t, EnterHook)], s3, By(t, RunHook));
      CommitMoves(s, s1, s2, s3, t);
    } else {
      MismatchStep(s, c, t);
      ExecOne(s, c, By(t, Verify));
      run := [By(t, Verify)];
    }
  }

  lemma CommitMoves(s: State, s1: State, s2: State, s3: State, t: Tid)
    requires t in s.threads && s.threads[t].pc.Fill? && s.threads[t].pc.h in s.partials && s.mutex == None
    requires s1 == At(s, t, Verified(s.threads[t].pc.h, s.threads[t].pc.via))
    requires var h, via := s.threads[t].pc.h, s.threads[t].pc.via;
             && s2 == At(s1, t, Renamed(h, via)).(
                  chunks := s.chunks[h := s.partials[h]], partials := s.partials - {h}, committed := s.committed + {h})
             && s3 == At(s2, t, InHook(h, via)).(mutex := Some(t))
    ensures var h, via := s.threads[t].pc.h, s.threads[t].pc.via;
            At(s3, t, Unlock(h, via, true)).(mutex := None, index := s3.index + {h}) ==
            Unlocking(s, t, Disk(s.chunks[h := s.partials[h]], s.partials - {h}), true)
  {
  }

  lemma TrimRun(s: State, c: Config, t: Tid, trim: bool) returns (run: seq<Action>)
    requires t in s.threads && s.threads[t].pc.Fill?
    ensures OwnSteps(run, t)
    ensures var h := s.threads[t].pc.h;
            Exec(s, c, run) == Some(s.(partials := if trim then s.partials - {h} else s.partials))
  {
    run := if trim then [By(t, Discard)] else [];
    if trim {
      WriteStep(s, c, t, Discard);
      ExecOne(s, c, By(t, Discard));
    }
  }

  lemma WriteRun(s: State, c: Config, t: Tid, trim: bool, data: Bytes) returns (run: seq<Action>, s1: State)
    requires t in s.threads && s.threads[t].pc.Fill?
    ensures OwnSteps(run, t)
    ensures var h := s.threads[t].pc.h;
            var d := if trim then Discarded(DiskOf(s), h) else DiskOf(s);
            s1 == s.(partials := Appended(d, h, data).partials) && Exec(s, c, run) == Some(s1)
  {
    var first := TrimRun(s, c, t, trim);
    var s0 := Exec(s, c, first).value;
    WriteStep(s0, c, t, Append(data));
    ExecThen(s, c, first, s0, By(t, Append(data)));
    run, s1 := first + [By(t, Append(data))], Apply(s0, c, By(t, Append(data)));
  }

  /** A session under the lock is a run of the thread's steps. */
  lemma SessionRun(s: State, c: Config, t: Tid, trim: bool, data: Bytes, fate: Fate) returns (run: seq<Action>)
    requires t in s.threads && s.threads[t].pc.Fill? && ValidName(s.threads[t].pc.h) && s.mutex == None
    ensures OwnSteps(run, t)
    ensures var (d, ok) := Session(c.sha, DiskOf(s), s.threads[t].pc.h, trim, data, fate);
            Exec(s, c, run) == Some(Unlocking(s, t, d, ok))
  {
    var first, s1 := WriteRun(s, c, t, trim, data);
    match fate
    case Commit =>
      var rest := CommitRun(s1, c, t);
      ExecConcat(s, c, first, rest);
      run := first + rest;
    case Leave =>
      AbortStep(s1, c, t);
      ExecThen(s, c, first, s1, By(t, Abort));
      run := first + [By(t, Abort)];
    case Drop =>
      WriteStep(s1, c, t, Discard);
      ExecThen(s, c, first, s1, By(t, Discard));
      var s2 := Apply(s1, c, By(t, Discard));
      AbortStep(s2, c, t);
      ExecThen(s, c, first + [By(t, Discard)], s2, By(t, Abort));
      run := first + [By(t, Discard)] + [By(t, Abort)];
  }

  // --- Taking and releasing the lock around it ---

  lemma LockStep(s: State, c: Config, t: Tid)
    requires t in s.threads && s.threads[t].pc.WantLock? && s.threads[t].pc.h !in s.holder
    ensures var h, via := s.threads[t].pc.h, s.threads[t].pc.via;
            && Enabled(s, c, By(t, AcquireLock))
            && Apply(s, c, By(t, AcquireLock)) == At(s, t, Fill(h, via)).(holder := s.holder[h := t])
  {
    QuietKeepsSyncs(s, c, t, AcquireLock);
  }

  lemma UnlockStep(s: State, c: Config, t: Tid)
    requires t in s.threads && s.threads[t].pc.Unlock?
    ensures Enabled(s, c, By(t, ReleaseLock))
    ensures Apply(s, c, By(t, ReleaseLock))
              == At(s, t, AfterUnlock(s.threads[t].pc)).(holder := s.holder - {s.threads[t].pc.h})
  {
    QuietKeepsSyncs(s, c, t, ReleaseLock);
  }

  /** The state when the lock is free again. */
  function Released(s: State, t: Tid, h: Hash, via: Via, d: Disk, ok: bool): State
    requires t in s.threads
  {
    At(s, t, AfterUnlock(Unlock(h, via, ok))).(
      chunks := d.chunks, partials := d.partials,
      index := if ok then s.index + {h} else s.index, committed := if ok then s.committed + {h} else s.committed)
  }

  /** A whole locked session, from asking for a free lock to releasing it. */
  lemma LockedRun(s: State, c: Config, t: Tid, trim: bool, data: Bytes, fate: Fate) returns (run: seq<Action>)
    requires t in s.threads && s.threads[t].pc.WantLock? && ValidName(s.threads[t].pc.h)
    requires s.threads[t].pc.h !in s.holder && s.mutex == None
    ensures OwnSteps(run, t)
    ensures var h, via := s.threads[t].pc.h, s.threads[t].pc.via;
            var (d, ok) := Session(c.sha, DiskOf(s), h, trim, data, fate);
            Exec(s, c, run) == Some(Released(s, t, h, via, d, ok))
  {
    var h, via := s.threads[t].pc.h, s.threads[t].pc.via;
    var (d, ok) := Session(c.sha, DiskOf(s), h, trim, data, fate);
    LockStep(s, c, t);
    ExecOne(s, c, By(t, AcquireLock));
    var s1 := Apply(s, c, By(t, AcquireLock));
    var mid := SessionRun(s1, c, t, trim, data, fate);
    ExecConcat(s, c, [By(t, AcquireLock)], mid);
    var s2 := Unlocking(s1, t, d, ok);
    UnlockStep(s2, c, t);
    ExecThen(s, c, [By(t, AcquireLock)] + mid, s2, By(t, ReleaseLock));
    run := [By(t, AcquireLock)] + mid + [By(t, ReleaseLock)];
    assert s.holder[h := t] - {h} == s.holder;
    Reassembled(s, t, h, via, d, ok);
  }

  lemma Reassembled(s: State, t: Tid, h: Hash, via: Via, d: Disk, ok: bool)
    requires t in s.threads && h !in s.holder
    ensures var s1 := At(s, t, Fill(h, via)).(holder := s.holder[h := t]);
            var s2 := Unlocking(s1, t, d, ok);
            At(s2, t, AfterUnlock(s2.threads[t].pc)).(holder := s2.holder - {h}) == Released(s, t, h, via, d, ok)
  {
    assert s.holder[h := t] - {h} == s.holder;
  }

  // --- The three users of the lock ---

  function PeerFate(d: Disk, h: Hash, dl: Download): Fate {
    if dl.broken.Some? then if Fetch.Corrupting(dl.broken.value) then Drop else Leave
    else if dl.total > 0 && |PartialOf(d, h)| < dl.total then Leave
    else Commit
  }

  lemma PeerSession(sha: Bytes -> Hash, d: Disk, h: Hash, size: int, peer: Fetch.Peer)
    returns (trim: bool, data: Bytes, fate: Fate)
    ensures Fetch.PeerAttempt(sha, d, h, size, peer) == Session(sha, d, h, trim, data, fate)
  {
    var d0 := Fetch.Trimmed(d, h, size);
    var offset := |PartialOf(d0, h)|;
    var dl := Receive(peer(offset).frames, peer(offset).broken, offset, 0, 0);
    trim, data := size > 0 && |PartialOf(d, h)| > size, dl.written;
    fate := PeerFate(Appended(d0, h, data), h, dl);
  }

  lemma AtTwice(s: State, t: Tid, pc: Pc, h: Hash, via: Via, r: (Disk, bool))
    requires t in s.threads
    ensures Released(At(s, t, pc), t, h, via, r.0, r.1) == Released(s, t, h, via, r.0, r.1)
  {
    var pc' := AfterUnlock(Unlock(h, via, r.1));
    assert s.threads[t := Thread(s.threads[t].role, pc)][t := Thread(s.threads[t].role, pc')]
      == s.threads[t := Thread(s.threads[t].role, pc')];
  }

  lemma PeerRun(s: State, c: Config, t: Tid, trim: bool, data: Bytes, fate: Fate) returns (run: seq<Action>)
    requires t in s.threads && s.threads[t].pc.Chose? && s.threads[t].pc.tries > 0
    requires ValidName(s.threads[t].pc.h) && s.threads[t].pc.h !in s.holder && s.mutex == None
    ensures OwnSteps(run, t)
    ensures var h, tries := s.threads[t].pc.h, s.threads[t].pc.tries;
            var (d, ok) := Session(c.sha, DiskOf(s), h, trim, data, fate);
            Exec(s, c, run) == Some(Released(s, t, h, Peer(tries - 1), d, ok))
  {
    QuietKeepsSyncs(s, c, t, TryPeer);
    ExecOne(s, c, By(t, TryPeer));
    var s1 := Apply(s, c, By(t, TryPeer));
    assert s1 == At(s, t, WantLock(s.threads[t].pc.h, Peer(s.threads[t].pc.tries - 1)));
    var rest := LockedRun(s1, c, t, trim, data, fate);
    ExecConcat(s, c, [By(t, TryPeer)], rest);
    run := [By(t, TryPeer)] + rest;
    AtTwice(s, t, s1.threads[t].pc, s.threads[t].pc.h, s1.threads[t].pc.via,
      Session(c.sha, DiskOf(s), s.threads[t].pc.h, trim, data, fate));
  }

  /** An attempt at a peer, with the lock and the quota mutex free, is a run of the worker: same disk, same outcome,
      one attempt fewer to go, everything else as it was. */
  lemma PeerAttemptIsARun(s: State, c: Config, t: Tid, size: int, peer: Fetch.Peer) returns (run: seq<Action>)
    requires t in s.threads && s.threads[t].pc.Chose? && s.threads[t].pc.tries > 0
    requires ValidName(s.threads[t].pc.h) && s.threads[t].pc.h !in s.holder && s.mutex == None
    ensures OwnSteps(run, t)
    ensures var h, tries := s.threads[t].pc.h, s.threads[t].pc.tries;
            var (d, ok) := Fetch.PeerAttempt(c.sha, DiskOf(s), h, size, peer);
            Exec(s, c, run) == Some(Released(s, t, h, Peer(tries - 1), d, ok))
  {
    var trim, data, fate := PeerSession(c.sha, DiskOf(s), s.threads[t].pc.h, size, peer);
    run := PeerRun(s, c, t, trim, data, fate);
  }

  lemma OriginSession(sha: Bytes -> Hash, d: Disk, h: Hash, size: int, origin: Fetch.OriginRead)
    returns (trim: bool, data: Bytes, fate: Fate)
    ensures Fetch.OriginAttempt(sha, d, h, size, origin) == Session(sha, d, h, trim, data, fate)
  {
    trim := size - |PartialOf(d, h)| < 0;
    var n := if trim then 0 else |PartialOf(d, h)|;
    var r := origin(n, size - n);
    data := r.bytes;
    var d1 := Appended(if trim then Discarded(d, h) else d, h, data);
    fate := if r.failed || (r.total > 0 && |PartialOf(d1, h)| < r.total) then Leave else Commit;
  }

  /** The state when the slot is free again: on success the chunk is in hand, on failure the worker leaves and its
      job has failed. */
  function Finished(s: State, c: Config, t: Tid, h: Hash, d: Disk, ok: bool): State
    requires t in s.threads
  {
    var s1 := Released(s.(used := s.used + 1), t, h, Origin, d, ok);
    ApplyStep(s1, c, t, s1.threads[t], ReleaseSlot)
  }

  lemma OriginRun(s: State, c: Config, t: Tid, trim: bool, data: Bytes, fate: Fate) returns (run: seq<Action>)
    requires t in s.threads && s.threads[t].pc.Chose? && s.used < c.slots
    requires ValidName(s.threads[t].pc.h) && s.threads[t].pc.h !in s.holder && s.mutex == None
    ensures OwnSteps(run, t)
    ensures var (d, ok) := Session(c.sha, DiskOf(s), s.threads[t].pc.h, trim, data, fate);
            Exec(s, c, run) == Some(Finished(s, c, t, s.threads[t].pc.h, d, ok))
  {
    var h := s.threads[t].pc.h;
    var (d, ok) := Session(c.sha, DiskOf(s), h, trim, data, fate);
    var s2 := OriginSlot(s, c, t);
    var rest := LockedRun(s2, c, t, trim, data, fate);
    var first := [By(t, TryOrigin)] + [By(t, AcquireSlot)];
    ExecConcat(s, c, first, rest);
    var s3 := Released(s.(used := s.used + 1), t, h, Origin, d, ok);
    AtTwice(s.(used := s.used + 1), t, s2.threads[t].pc, h, Origin, (d, ok));
    SlotGivenBack(s, c, t, h, d, ok);
    ExecThen(s, c, first + rest, s3, By(t, ReleaseSlot));
    run := first + rest + [By(t, ReleaseSlot)];
  }

  lemma SlotGivenBack(s: State, c: Config, t: Tid, h: Hash, d: Disk, ok: bool)
    requires t in s.threads
    ensures var s1 := Released(s.(used := s.used + 1), t, h, Origin, d, ok);
            Enabled(s1, c, By(t, ReleaseSlot)) && Apply(s1, c, By(t, ReleaseSlot)) == Finished(s, c, t, h, d, ok)
  {
  }

  /** The disk is the attempt's, every resource is as it was, and the worker has the chunk or has left. */
  lemma FinishedIs(s: State, c: Config, t: Tid, h: Hash, d: Disk, ok: bool)
    requires t in s.threads
    ensures var s' := Finished(s, c, t, h, d, ok);
            && DiskOf(s') == d && s'.used == s.used && s'.holder == s.holder && s'.mutex == s.mutex
            && s'.threads == s.threads[t := Thread(s.threads[t].role, if ok then Got(h, Origin) else Stopped)]
  {
  }

  /** The attempt at the origin, with a slot, the lock and the mutex free, is a run of the worker: same disk, same
      outcome. */
  lemma OriginAttemptIsARun(s: State, c: Config, t: Tid, size: int, origin: Fetch.OriginRead) returns (run: seq<Action>)
    requires t in s.threads && s.threads[t].pc.Chose? && s.used < c.slots
    requires ValidName(s.threads[t].pc.h) && s.threads[t].pc.h !in s.holder && s.mutex == None
    ensures OwnSteps(run, t)
    ensures var (d, ok) := Fetch.OriginAttempt(c.sha, DiskOf(s), s.threads[t].pc.h, size, origin);
            Exec(s, c, run) == Some(Finished(s, c, t, s.threads[t].pc.h, d, ok))
  {
    var trim, data, fate := OriginSession(c.sha, DiskOf(s), s.threads[t].pc.h, size, origin);
    run := OriginRun(s, c, t, trim, data, fate);
  }

  lemma OriginSlot(s: State, c: Config, t: Tid) returns (s2: State)
    requires t in s.threads && s.threads[t].pc.Chose? && s.used < c.slots
    ensures s2 == At(s, t, WantLock(s.threads[t].pc.h, Origin)).(used := s.used + 1)
    ensures Exec(s, c, [By(t, TryOrigin)] + [By(t, AcquireSlot)]) == Some(s2)
  {
    QuietKeepsSyncs(s, c, t, TryOrigin);
    ExecOne(s, c, By(t, TryOrigin));
    var s1 := Apply(s, c, By(t, TryOrigin));
    QuietKeepsSyncs(s1, c, t, AcquireSlot);
    ExecThen(s, c, [By(t, TryOrigin)], s1, By(t, AcquireSlot));
    s2 := Apply(s1, c, By(t, AcquireSlot));
  }

  /** A put: discard, append, commit.  It succeeds exactly if the data has the digest. */
  lemma PutIsARun(s: State, c: Config, t: Tid, h: Hash, data: Bytes) returns (run: seq<Action>)
    requires t !in s.threads && ValidName(h) && h !in s.holder && s.mutex == None
    ensures OwnSteps(run, t)
    ensures Exec(s, c, [StartPut(t, h)] + run).Some?
    ensures var s' := Exec(s, c, [StartPut(t, h)] + run).value;
            && s'.threads == s.threads[t := Thread(Putter, Stopped)]
            && s'.partials == s.partials - {h}
            && s'.chunks == if c.sha(data) == h then s.chunks[h := data] else s.chunks
  {
    ExecOne(s, c, StartPut(t, h));
    var s1 := Apply(s, c, StartPut(t, h));
    run := LockedRun(s1, c, t, true, data, Commit);
    ExecConcat(s, c, [StartPut(t, h)], run);
    PutDisk(c.sha, DiskOf(s), h, data);
  }

  lemma PutDisk(sha: Bytes -> Hash, d: Disk, h: Hash, data: Bytes)
    requires ValidName(h)
    ensures Session(sha, d, h, true, data, Commit)
         == (Disk(if sha(data) == h then d.chunks[h := data] else d.chunks, d.partials - {h}), sha(data) == h)
  {
    var d1 := Appended(Discarded(d, h), h, data);
    assert [] + data == data;
    assert d1.partials[h] == data && d1.partials - {h} == d.partials - {h};
  }
}
