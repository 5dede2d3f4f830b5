/** One storage node as a step system: any number of syncs with their worker threads, direct puts and
    evictors share the chunk directory, the partial files, the per-hash locks, the origin semaphore
    and the quota index.  Peers and origin are arbitrary: a thread that holds a hash lock may append
    any bytes to the partial, and every transfer may stop at any point. */
module Node {
  import opened Base

  type Tid = nat
  type SyncId = nat

  /** `tries` are the peer attempts the fetch still has. */
  datatype Via = Peer(tries: nat) | Origin | Put

  datatype Role = Worker(sync: SyncId) | Putter | Evictor

  /** Where a thread stands.  The comments name the resources held there. */
  datatype Pc =
    | Idle                              // loop head
    | Chose(h: Hash, tries: nat)        // work item taken, between attempts; `tries` peer attempts to go
    | WantSlot(h: Hash)                 // blocked on the origin semaphore
    | WantLock(h: Hash, via: Via)       // blocked on the hash lock              [slot if via origin]
    | Fill(h: Hash, via: Via)           // writing the partial                   [lock, slot if via origin]
    | Verified(h: Hash, via: Via)       // digest checked, rename not done yet   [lock, slot if via origin]
    | Renamed(h: Hash, via: Via)        // chunk file in place, hook not run yet [lock, slot if via origin]
    | InHook(h: Hash, via: Via)         // inside the commit hook                [mutex, lock, slot if via origin]
    | Unlock(h: Hash, via: Via, ok: bool) // about to unlock                     [lock, slot if via origin]
    | FreeSlot(h: Hash, ok: bool)       // about to leave the semaphore          [slot]
    | Got(h: Hash, via: Via)            // chunk fetched, not counted yet
    | Scanning(left: set<Hash>)         // eviction loop                         [mutex]
    | Unlinked(h: Hash, left: set<Hash>) // file removed, index entry still there [mutex]
    | Stopped

  datatype Thread = Thread(role: Role, pc: Pc)

  datatype Sync = Sync(
    missing: set<Hash>,      // distinct hashes found missing when the sync began
    skipped: set<Hash>,      // hashes found committed when the sync began
    pending: set<Hash>,
    fetched: set<Hash>,
    failed: set<Hash>,
    handed: seq<Hash>,       // every hand-out, in order
    err: bool,               // downloadErr is set
    downloaded: nat,
    fromPeers: nat,
    fromOrigin: nat,
    advertised: set<Hash>)

  datatype State = State(
    chunks: map<Hash, Bytes>,
    partials: map<Hash, Bytes>,
    holder: map<Hash, Tid>,
    mutex: Option<Tid>,
    used: nat,               // tokens in the origin semaphore
    index: set<Hash>,        // keys of the quota index
    pinned: set<Hash>,       // hashes with a positive reference count
    committed: set<Hash>,    // every hash that was ever committed
    threads: map<Tid, Thread>,
    syncs: map<SyncId, Sync>)

  /** `tries(h)` is how many admitted candidates the retry rounds of a fetch of `h` can offer together. */
  datatype Config = Config(sha: Bytes -> Hash, slots: nat, tries: Hash -> nat)

  /** What one thread does next. */
  datatype Step =
    | Take(h: Hash)
    | Quit
    | Cancel
    | TryPeer
    | TryOrigin
    | GiveUp
    | AcquireSlot
    | AcquireLock
    | Append(data: Bytes)
    | Discard
    | Verify
    | Rename
    | Abort
    | EnterHook
    | RunHook
    | ReleaseLock
    | ReleaseSlot
    | Count
    | BeginEvict(candidates: set<Hash>)
    | Unlink(h: Hash)
    | Keep(h: Hash)
    | DropIndex
    | EndEvict

  datatype Action =
    | StartSync(sid: SyncId, ts: set<Tid>, missing: set<Hash>, skipped: set<Hash>, cached: set<Hash>)
    | StartPut(t: Tid, name: Hash)
    | StartEvictor(t: Tid)
    | Pin(hs: set<Hash>)
    | Unpin(hs: set<Hash>)
    | By(t: Tid, step: Step)

  ghost predicate Init(s: State, c: Config) {
    && s.threads == map[] && s.syncs == map[] && s.holder == map[] && s.mutex == None && s.used == 0
    && (forall h :: h in s.chunks ==> c.sha(s.chunks[h]) == h)
    && s.chunks.Keys <= s.index && s.pinned <= s.index
    && s.committed == s.chunks.Keys
  }

  predicate Enabled(s: State, c: Config, a: Action) {
    match a
    case StartSync(sid, ts, missing, skipped, cached) =>
      sid !in s.syncs && ts !! s.threads.Keys && ts != {} && skipped + cached <= s.committed
    case StartPut(t, _) => t !in s.threads
    case StartEvictor(t) => t !in s.threads
    case Pin(_) => s.mutex == None
    case Unpin(_) => s.mutex == None
    case By(t, step) => t in s.threads && StepEnabled(s, c, s.threads[t], step)
  }

  predicate StepEnabled(s: State, c: Config, th: Thread, step: Step) {
    PcAllows(s, c, th.pc, step) && RoleAllows(s, th.role, step)
  }

  predicate PcAllows(s: State, c: Config, pc: Pc, step: Step) {
    match step
    case Take(_) => pc.Idle?
    case Quit => pc.Idle?
    case Cancel => pc.Idle?
    case TryPeer => pc.Chose? && pc.tries > 0
    case TryOrigin => pc.Chose?
    case GiveUp => pc.Chose? || pc.WantSlot?
    case AcquireSlot => pc.WantSlot? && s.used < c.slots
    case AcquireLock => pc.WantLock? && pc.h !in s.holder
    case Append(_) => pc.Fill?
    case Discard => pc.Fill?
    case Verify => pc.Fill? && pc.h in s.partials
    case Rename => pc.Verified? && pc.h in s.partials
    case Abort => pc.Fill? || pc.Verified?
    case EnterHook => pc.Renamed? && s.mutex == None
    case RunHook => pc.InHook?
    case ReleaseLock => pc.Unlock?
    case ReleaseSlot => pc.FreeSlot? && s.used > 0
    case Count => pc.Got?
    case BeginEvict(candidates) => pc.Idle? && s.mutex == None && candidates <= s.index - s.pinned
    case Unlink(h) => pc.Scanning? && h in pc.left
    case Keep(h) => pc.Scanning? && h in pc.left
    case DropIndex => pc.Unlinked?
    case EndEvict => pc.Scanning?
  }

  /** Only workers take items from the queue of their sync, only evictors evict. */
  predicate RoleAllows(s: State, role: Role, step: Step) {
    match step
    case Take(h) => role.Worker? && role.sync in s.syncs && h in s.syncs[role.sync].pending
    case Quit => role.Worker? && role.sync in s.syncs && (s.syncs[role.sync].err || s.syncs[role.sync].pending == {})
    case Cancel => role.Worker?
    case BeginEvict(_) => role.Evictor?
    case _ => true
  }

  // --- What one step of a thread at `pc` does, one shared resource at a time ---

  function NextPc(s: State, c: Config, pc: Pc, step: Step): Pc
    requires PcAllows(s, c, pc, step)
  {
    match step
    case Take(h) => Chose(h, c.tries(h))
    case Quit => Stopped
    case Cancel => Stopped
    case TryPeer => WantLock(pc.h, Peer(pc.tries - 1))
    case TryOrigin => WantSlot(pc.h)
    case GiveUp => Stopped
    case AcquireSlot => WantLock(pc.h, Origin)
    case AcquireLock => Fill(pc.h, pc.via)
    case Append(_) => pc
    case Discard => pc
    case Verify => if Matches(s, c, pc) then Verified(pc.h, pc.via) else Unlock(pc.h, pc.via, false)
    case Rename => Renamed(pc.h, pc.via)
    case Abort => Unlock(pc.h, pc.via, false)
    case EnterHook => InHook(pc.h, pc.via)
    case RunHook => Unlock(pc.h, pc.via, true)
    case ReleaseLock => AfterUnlock(pc)
    case ReleaseSlot => if pc.ok then Got(pc.h, Origin) else Stopped
    case Count => Idle
    case BeginEvict(candidates) => Scanning(candidates)
    case Unlink(h) => Unlinked(h, pc.left - {h})
    case Keep(h) => Scanning(pc.left - {h})
    case DropIndex => Scanning(pc.left)
    case EndEvict => Idle
  }

  predicate Matches(s: State, c: Config, pc: Pc)
    requires pc.Fill? && pc.h in s.partials
  {
    c.sha(s.partials[pc.h]) == pc.h
  }

  function AfterUnlock(pc: Pc): Pc
    requires pc.Unlock?
  {
    match pc.via
    case Put => Stopped
    case Origin => FreeSlot(pc.h, pc.ok)
    case Peer(tries) => if pc.ok then Got(pc.h, pc.via) else Chose(pc.h, tries)
  }

  function NextPartials(s: State, c: Config, pc: Pc, step: Step): map<Hash, Bytes>
    requires PcAllows(s, c, pc, step)
  {
    match step
    case Append(data) => s.partials[pc.h := (if pc.h in s.partials then s.partials[pc.h] else []) + data]
    case Discard => s.partials - {pc.h}
    case Verify => if Matches(s, c, pc) then s.partials else s.partials - {pc.h}
    case Rename => s.partials - {pc.h}
    case _ => s.partials
  }

  function NextChunks(s: State, c: Config, pc: Pc, step: Step): map<Hash, Bytes>
    requires PcAllows(s, c, pc, step)
  {
    match step
    case Rename => s.chunks[pc.h := s.partials[pc.h]]
    case Unlink(h) => s.chunks - {h}
    case _ => s.chunks
  }

  function NextHolder(s: State, c: Config, t: Tid, pc: Pc, step: Step): map<Hash, Tid>
    requires PcAllows(s, c, pc, step)
  {
    match step
    case AcquireLock => s.holder[pc.h := t]
    case ReleaseLock => s.holder - {pc.h}
    case _ => s.holder
  }

  function NextMutex(s: State, t: Tid, step: Step): Option<Tid> {
    match step
    case EnterHook => Some(t)
    case BeginEvict(_) => Some(t)
    case RunHook => None
    case EndEvict => None
    case _ => s.mutex
  }

  function NextUsed(s: State, c: Config, pc: Pc, step: Step): nat
    requires PcAllows(s, c, pc, step)
  {
    match step
    case AcquireSlot => s.used + 1
    case ReleaseSlot => s.used - 1
    case _ => s.used
  }

  function NextIndex(s: State, c: Config, pc: Pc, step: Step): set<Hash>
    requires PcAllows(s, c, pc, step)
  {
    match step
    case RunHook => s.index + {pc.h}
    case DropIndex => s.index - {pc.h}
    case _ => s.index
  }

  function NextCommitted(s: State, c: Config, pc: Pc, step: Step): set<Hash>
    requires PcAllows(s, c, pc, step)
  {
    match step
    case Rename => s.committed + {pc.h}
    case _ => s.committed
  }

  /** The job a worker belongs to; a failed fetch stores the error and the worker leaves the pool. */
  function NextSync(y: Sync, pc: Pc, step: Step): Sync {
    match step
    case Take(h) => y.(pending := y.pending - {h}, handed := y.handed + [h])
    case Cancel => y.(err := true)
    case GiveUp => if pc.Chose? || pc.WantSlot? then y.(failed := y.failed + {pc.h}, err := true) else y
    case ReleaseSlot => if pc.FreeSlot? && !pc.ok then y.(failed := y.failed + {pc.h}, err := true) else y
    case Count => if pc.Got? then Counted(y, pc) else y
    case _ => y
  }

  function Counted(y: Sync, pc: Pc): Sync
    requires pc.Got?
  {
    y.(fetched := y.fetched + {pc.h},
       downloaded := y.downloaded + 1,
       fromPeers := y.fromPeers + (if pc.via.Peer? then 1 else 0),
       fromOrigin := y.fromOrigin + (if pc.via.Peer? then 0 else 1),
       advertised := y.advertised + {pc.h})
  }

  function ApplyStep(s: State, c: Config, t: Tid, th: Thread, step: Step): State
    requires t in s.threads && s.threads[t] == th && StepEnabled(s, c, th, step)
  {
    State(NextChunks(s, c, th.pc, step),
          NextPartials(s, c, th.pc, step),
          NextHolder(s, c, t, th.pc, step),
          NextMutex(s, t, step),
          NextUsed(s, c, th.pc, step),
          NextIndex(s, c, th.pc, step),
          s.pinned,
          NextCommitted(s, c, th.pc, step),
          s.threads[t := Thread(th.role, NextPc(s, c, th.pc, step))],
          if th.role.Worker? && th.role.sync in s.syncs
          then s.syncs[th.role.sync := NextSync(s.syncs[th.role.sync], th.pc, step)] else s.syncs)
  }

  function Apply(s: State, c: Config, a: Action): State
    requires Enabled(s, c, a)
  {
    match a
    case StartSync(sid, ts, missing, skipped, cached) =>
      s.(syncs := s.syncs[sid := Sync(missing, skipped, missing, {}, {}, [], false, 0, 0, 0, cached)],
         threads := s.threads + (map t | t in ts :: Thread(Worker(sid), Idle)))
    case StartPut(t, h) => s.(threads := s.threads[t := Thread(Putter, WantLock(h, Put))])
    case StartEvictor(t) => s.(threads := s.threads[t := Thread(Evictor, Idle)])
    case Pin(hs) => s.(pinned := s.pinned + hs, index := s.index + hs)
    case Unpin(hs) => s.(pinned := s.pinned - hs)
    case By(t, step) => ApplyStep(s, c, t, s.threads[t], step)
  }

  /** The state a run reaches, if every action of it is possible where it happens. */
  function Exec(s: State, c: Config, run: seq<Action>): Option<State>
    decreases |run|
  {
    if run == [] then Some(s)
    else if Enabled(s, c, run[0]) then Exec(Apply(s, c, run[0]), c, run[1..])
    else None
  }

  lemma {:induction false} ExecConcat(s: State, c: Config, a: seq<Action>, b: seq<Action>)
    ensures Exec(s, c, a + b) == if Exec(s, c, a).Some? then Exec(Exec(s, c, a).value, c, b) else None
    decreases |a|
  {
    if a == [] {
      assert a + b == b;
    } else {
      assert (a + b)[1..] == a[1..] + b;
      if Enabled(s, c, a[0]) {
        ExecConcat(Apply(s, c, a[0]), c, a[1..], b);
      }
    }
  }
}
