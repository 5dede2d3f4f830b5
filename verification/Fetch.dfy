/** Fetching one chunk under its lock: resume the partial from a peer or the origin, verify, commit; and
    the retry loop around it. */
module Fetch {
  import opened Base
  import opened ChunkStore
  import opened Transfer

  /** A peer answers a requested offset. */
  type Peer = nat -> Reply

  /** A peer that holds `data` and serves it as `GetChunk` does. */
  ghost predicate HonestPeer(peer: Peer, data: Bytes) {
    && (forall o: nat :: o <= |data| ==> peer(o).broken == None && Streams(peer(o).frames, data, o, |data|))
    && (forall o: nat :: o > |data| ==> peer(o) == Reply([], Some(OutOfRange)))
  }

  /** Errors after which the partial is not worth keeping. */
  predicate Corrupting(code: Code) {
    code.OutOfRange? || code.Integrity?
  }

  /** A partial longer than the chunk is thrown away before the transfer. */
  function Trimmed(d: Disk, h: Hash, size: int): Disk {
    if size > 0 && |PartialOf(d, h)| > size then Discarded(d, h) else d
  }

  function PeerAttempt(sha: Bytes -> Hash, d: Disk, h: Hash, size: int, peer: Peer): (Disk, bool) {
    var d0 := Trimmed(d, h, size);
    var offset := |PartialOf(d0, h)|;
    var dl := Receive(peer(offset).frames, peer(offset).broken, offset, 0, 0);
    var d1 := Appended(d0, h, dl.written);
    if dl.broken.Some? then (if Corrupting(dl.broken.value) then Discarded(d1, h) else d1, false)
    else if dl.total > 0 && |PartialOf(d1, h)| < dl.total then (d1, false)
    else Committed(sha, d1, h)
  }

  method DownloadFromPeer(store: Store, h: Hash, size: int, peer: Peer) returns (ok: bool)
    requires store.Valid() && ValidName(h)
    modifies store
    ensures store.Valid()
    ensures (store.Value(), ok) == PeerAttempt(store.sha, old(store.Value()), h, size, peer)
  {
    var offset := store.PartialSize(h);
    if size > 0 && offset > size {
      ok := store.DiscardPartial(h);
      offset := 0;
    }
    var dl := DownloadChunkTo(peer(offset), offset);
    ok := store.AppendPartial(h, dl.written);
    if dl.broken.Some? {
      if Corrupting(dl.broken.value) {
        ok := store.DiscardPartial(h);
      }
      return false;
    }
    var got := store.PartialSize(h);
    if dl.total > 0 && got < dl.total {
      return false;
    }
    ok := store.CommitPartial(h);
  }

  /** What lies in the partial once an honest peer has continued it. */
  function Spliced(p: Bytes, data: Bytes): Bytes {
    if |p| <= |data| then p + data[|p|..] else []
  }

  lemma SplicedIsData(p: Bytes, data: Bytes)
    ensures |p| <= |data| ==> (Spliced(p, data) == data <==> p <= data)
  {
    if |p| <= |data| {
      assert data == data[..|p|] + data[|p|..];
      assert Spliced(p, data)[..|p|] == p;
    }
  }

  /** One uninterrupted attempt at an honest peer: it commits the chunk exactly when the partial was a
      prefix of it or too long to be one; otherwise it leaves no partial behind. */
  lemma HonestAttempt(sha: Bytes -> Hash, d: Disk, h: Hash, size: int, peer: Peer, data: Bytes)
    requires ValidName(h) && sha(data) == h && HonestPeer(peer, data)
    requires NoCollision(sha, iset{data, Spliced(PartialOf(d, h), data)})
    ensures var p := PartialOf(d, h); var (d', ok) := PeerAttempt(sha, d, h, size, peer);
            && (ok <==> p <= data || (size > 0 && |p| > size))
            && (ok ==> d' == Disk(d.chunks[h := data], d.partials - {h}))
            && (!ok ==> d' == Discarded(d, h))
  {
    var d0 := Trimmed(d, h, size);
    if |PartialOf(d0, h)| <= |data| {
      HonestAttemptFits(sha, d, h, size, peer, data);
      SplicedIsData([], data);
    } else {
      var d1 := Appended(d0, h, []);
      assert d1.partials - {h} == d.partials - {h};
    }
  }

  lemma HonestAttemptFits(sha: Bytes -> Hash, d: Disk, h: Hash, size: int, peer: Peer, data: Bytes)
    requires ValidName(h) && HonestPeer(peer, data) && |PartialOf(Trimmed(d, h, size), h)| <= |data|
    ensures var s := Spliced(PartialOf(Trimmed(d, h, size), h), data);
            PeerAttempt(sha, d, h, size, peer) ==
            if sha(s) == h then (Disk(d.chunks[h := s], d.partials - {h}), true) else (Discarded(d, h), false)
    ensures |PartialOf(d, h)| <= |data| ==> (Spliced(PartialOf(d, h), data) == data <==> PartialOf(d, h) <= data)
  {
    var d0 := Trimmed(d, h, size);
    var p := PartialOf(d0, h);
    HonestStreamWritesTheRest(peer(|p|).frames, data, |p|, |p|, 0);
    AppendedRest(d, d0, h, p, data);
    SplicedIsData(PartialOf(d, h), data);
  }

  lemma AppendedRest(d: Disk, d0: Disk, h: Hash, p: Bytes, data: Bytes)
    requires p == PartialOf(d0, h) && |p| <= |data| && d0.partials - {h} == d.partials - {h}
    ensures var d1 := Appended(d0, h, data[|p|..]);
            h in d1.partials && d1.partials[h] == Spliced(p, data) && d1.partials - {h} == d.partials - {h}
  {
  }

  /** From any bytes left in the partial, at most two uninterrupted attempts commit exactly the chunk. */
  lemma TwoAttemptsCommit(sha: Bytes -> Hash, d: Disk, h: Hash, size: int, peer: Peer, data: Bytes)
    requires ValidName(h) && sha(data) == h && HonestPeer(peer, data)
    requires NoCollision(sha, iset{data, Spliced(PartialOf(d, h), data)})
    ensures var (d1, ok1) := PeerAttempt(sha, d, h, size, peer);
            var (d2, ok2) := if ok1 then (d1, true) else PeerAttempt(sha, d1, h, size, peer);
            ok2 && d2 == Disk(d.chunks[h := data], d.partials - {h})
  {
    HonestAttempt(sha, d, h, size, peer, data);
    var d1 := Discarded(d, h);
    assert Spliced(PartialOf(d1, h), data) == data;
    HonestAttempt(sha, d1, h, size, peer, data);
    assert d1.partials - {h} == d.partials - {h};
  }

  // --- The origin ---

  /** What the origin delivers for (offset within the chunk, length): the bytes it wrote, the count it reports,
      and whether it failed after them. */
  datatype Read = Read(bytes: Bytes, total: int, failed: bool)
  type OriginRead = (nat, int) -> Read

  function OriginAttempt(sha: Bytes -> Hash, d: Disk, h: Hash, size: int, origin: OriginRead): (Disk, bool) {
    var d0 := if size - |PartialOf(d, h)| < 0 then Discarded(d, h) else d;
    var n := |PartialOf(d0, h)|;
    var r := origin(n, size - n);
    var d1 := Appended(d0, h, r.bytes);
    if r.failed || (r.total > 0 && |PartialOf(d1, h)| < r.total) then (d1, false) else Committed(sha, d1, h)
  }

  method DownloadFromOrigin(store: Store, h: Hash, size: int, origin: OriginRead) returns (ok: bool)
    requires store.Valid() && ValidName(h)
    modifies store
    ensures store.Valid()
    ensures (store.Value(), ok) == OriginAttempt(store.sha, old(store.Value()), h, size, origin)
  {
    var partial := store.PartialSize(h);
    var remain := size - partial;
    if remain < 0 {
      ok := store.DiscardPartial(h);
      partial := 0;
      remain := size;
    }
    var r := origin(partial, remain);
    ok := store.AppendPartial(h, r.bytes);
    if r.failed {
      return false;
    }
    var got := store.PartialSize(h);
    if r.total > 0 && got < r.total {
      return false;
    }
    ok := store.CommitPartial(h);
  }

  ghost predicate HonestOrigin(origin: OriginRead, data: Bytes) {
    forall o: nat :: o <= |data| ==> origin(o, |data| - o) == Read(data[o..], |data| - o, false)
  }

  /** The origin gets one attempt only, so it succeeds exactly on a partial an honest writer could have left. */
  lemma HonestOriginAttempt(sha: Bytes -> Hash, d: Disk, h: Hash, origin: OriginRead, data: Bytes)
    requires ValidName(h) && sha(data) == h && HonestOrigin(origin, data)
    requires NoCollision(sha, iset{data, Spliced(PartialOf(d, h), data)})
    ensures var p := PartialOf(d, h); var (d', ok) := OriginAttempt(sha, d, h, |data|, origin);
            && (ok <==> p <= data || |p| > |data|)
            && (ok ==> d' == Disk(d.chunks[h := data], d.partials - {h}))
            && (!ok ==> d' == Discarded(d, h))
  {
    var d0 := if |data| - |PartialOf(d, h)| < 0 then Discarded(d, h) else d;
    var p := PartialOf(d0, h);
    var d1 := Appended(d0, h, data[|p|..]);
    assert d1.partials[h] == Spliced(p, data);
    SplicedIsData(p, data);
    assert d1.partials - {h} == d.partials - {h};
  }

  // --- The retry loop ---

  /** The pause after round `k`: doubled each time and capped, unless it started above the cap. */
  function Pause(initial: nat, cap: nat, k: nat): int {
    if initial >= cap then initial else Min(initial * Pow2(k), cap)
  }

  lemma PauseDoubles(initial: nat, cap: nat, k: nat)
    ensures var p := Pause(initial, cap, k);
            Pause(initial, cap, k + 1) == if p < cap then Min(p * 2, cap) else p
  {
    assert initial * Pow2(k + 1) == 2 * (initial * Pow2(k));
  }

  datatype Candidate = Candidate(admitted: bool, peer: Peer)

  ghost function CandidatesIn(rounds: seq<seq<Candidate>>): nat {
    if rounds == [] then 0 else |rounds[0]| + CandidatesIn(rounds[1..])
  }

  /** The admitted candidates in order, each continuing on what the one before left, until one commits. */
  function RoundResult(sha: Bytes -> Hash, d: Disk, h: Hash, size: int, round: seq<Candidate>): (Disk, bool)
    decreases |round|
  {
    if round == [] then (d, false)
    else if !round[0].admitted then RoundResult(sha, d, h, size, round[1..])
    else
      var (d1, ok) := PeerAttempt(sha, d, h, size, round[0].peer);
      if ok then (d1, true) else RoundResult(sha, d1, h, size, round[1..])
  }

  function RoundsResult(sha: Bytes -> Hash, d: Disk, h: Hash, size: int, rounds: seq<seq<Candidate>>): (Disk, bool)
    decreases |rounds|
  {
    if rounds == [] then (d, false)
    else
      var (d1, ok) := RoundResult(sha, d, h, size, rounds[0]);
      if ok then (d1, true) else RoundsResult(sha, d1, h, size, rounds[1..])
  }

  /** Rounds of peers first; the origin, if there is one, only after every round has failed. */
  function FetchResult(sha: Bytes -> Hash, d: Disk, h: Hash, size: int, rounds: seq<seq<Candidate>>,
      origin: Option<OriginRead>): (Disk, bool) {
    var (d1, ok) := RoundsResult(sha, d, h, size, rounds);
    if ok || origin.None? then (d1, ok) else OriginAttempt(sha, d1, h, size, origin.value)
  }

  /** One pass over the ranked candidates of a round; those without a free slot or trust are passed over. */
  method TryRound(store: Store, h: Hash, size: int, round: seq<Candidate>) returns (ok: bool, tried: nat)
    requires store.Valid() && ValidName(h)
    modifies store
    ensures store.Valid() && tried <= |round|
    ensures (store.Value(), ok) == RoundResult(store.sha, old(store.Value()), h, size, round)
  {
    ok, tried := false, 0;
    assert round[0..] == round;
    for i := 0 to |round|
      invariant store.Valid() && !ok && tried <= i
      invariant RoundResult(store.sha, old(store.Value()), h, size, round)
                  == RoundResult(store.sha, store.Value(), h, size, round[i..])
    {
      assert round[i..][0] == round[i] && round[i..][1..] == round[i + 1..];
      if round[i].admitted {
        tried := tried + 1;
        ok := DownloadFromPeer(store, h, size, round[i].peer);
        if ok {
          return;
        }
      }
    }
  }

  /** The fetch leaves the disk as `FetchResult` says, ends after at most one attempt per candidate and one at
      the origin, and pauses by the schedule between the rounds, all of which come before the origin. */
  method FetchChunk(store: Store, h: Hash, size: int, rounds: seq<seq<Candidate>>, origin: Option<OriginRead>,
      initial: nat, cap: nat)
    returns (ok: bool, fromPeer: bool, tried: nat, pauses: seq<int>)
    requires store.Valid() && ValidName(h)
    modifies store
    ensures store.Valid()
    ensures (store.Value(), ok) == FetchResult(store.sha, old(store.Value()), h, size, rounds, origin)
    ensures fromPeer == RoundsResult(store.sha, old(store.Value()), h, size, rounds).1
    ensures tried <= CandidatesIn(rounds)
    ensures !fromPeer ==> |pauses| == if rounds == [] then 0 else |rounds| - 1
    ensures forall k :: 0 <= k < |pauses| ==> pauses[k] == Pause(initial, cap, k)
  {
    var backoff: int := initial;
    ok, fromPeer, tried, pauses := false, false, 0, [];
    ghost var bound := 0;
    assert rounds[0..] == rounds;
    for attempt := 0 to |rounds|
      invariant store.Valid() && !ok && !fromPeer
      invariant RoundsResult(store.sha, old(store.Value()), h, size, rounds)
                  == RoundsResult(store.sha, store.Value(), h, size, rounds[attempt..])
      invariant |pauses| == if attempt < |rounds| then attempt else if rounds == [] then 0 else |rounds| - 1
      invariant attempt < |rounds| ==> backoff == Pause(initial, cap, attempt)
      invariant forall k :: 0 <= k < |pauses| ==> pauses[k] == Pause(initial, cap, k)
      invariant tried <= bound && bound + CandidatesIn(rounds[attempt..]) == CandidatesIn(rounds)
    {
      assert rounds[attempt..][0] == rounds[attempt] && rounds[attempt..][1..] == rounds[attempt + 1..];
      bound := bound + |rounds[attempt]|;
      var n;
      ok, n := TryRound(store, h, size, rounds[attempt]);
      tried := tried + n;
      if ok {
        fromPeer := true;
        return;
      }
      if attempt + 1 < |rounds| {
        PauseDoubles(initial, cap, attempt);
        pauses := pauses + [backoff];
        if backoff < cap {
          backoff := backoff * 2;
          if backoff > cap {
            backoff := cap;
          }
        }
      }
    }
    if origin.None? {
      return;
    }
    ok := DownloadFromOrigin(store, h, size, origin.value);
  }

  // --- What a fetch achieves ---

  ghost predicate SameElsewhere(d: Disk, d': Disk, h: Hash) {
    d'.chunks - {h} == d.chunks - {h} && d'.partials - {h} == d.partials - {h}
  }

  /** What every attempt keeps: other hashes are untouched, an old chunk of this hash is never lost, and success
      means that the chunk is there under its digest and its partial is gone. */
  ghost predicate Sound(sha: Bytes -> Hash, d: Disk, d': Disk, h: Hash, ok: bool) {
    && SameElsewhere(d, d', h)
    && (ok ==> h in d'.chunks && sha(d'.chunks[h]) == h && h !in d'.partials)
    && (!ok ==> d'.chunks == d.chunks)
  }

  lemma SoundThen(sha: Bytes -> Hash, d: Disk, d1: Disk, d2: Disk, h: Hash, ok: bool)
    requires Sound(sha, d, d1, h, false) && Sound(sha, d1, d2, h, ok)
    ensures Sound(sha, d, d2, h, ok)
  {
  }

  lemma CommitIsSound(sha: Bytes -> Hash, d: Disk, h: Hash)
    ensures var (d', ok) := Committed(sha, d, h); Sound(sha, d, d', h, ok)
  {
    if h in d.partials {
      assert (d.partials - {h}) - {h} == d.partials - {h};
      assert d.chunks[h := d.partials[h]] - {h} == d.chunks - {h};
    }
  }

  lemma DiscardIsSound(sha: Bytes -> Hash, d: Disk, h: Hash)
    ensures Sound(sha, d, Discarded(d, h), h, false)
  {
    assert (d.partials - {h}) - {h} == d.partials - {h};
  }

  lemma AppendIsSound(sha: Bytes -> Hash, d: Disk, h: Hash, data: Bytes)
    ensures Sound(sha, d, Appended(d, h, data), h, false)
  {
    assert Appended(d, h, data).partials - {h} == d.partials - {h};
  }

  lemma PeerAttemptIsSound(sha: Bytes -> Hash, d: Disk, h: Hash, size: int, peer: Peer)
    ensures var (d', ok) := PeerAttempt(sha, d, h, size, peer); Sound(sha, d, d', h, ok)
  {
    var d0 := Trimmed(d, h, size);
    var offset := |PartialOf(d0, h)|;
    var dl := Receive(peer(offset).frames, peer(offset).broken, offset, 0, 0);
    var d1 := Appended(d0, h, dl.written);
    var (d', ok) := PeerAttempt(sha, d, h, size, peer);
    DiscardIsSound(sha, d, h);
    AppendIsSound(sha, d0, h, dl.written);
    SoundThen(sha, d, d0, d1, h, false);
    DiscardIsSound(sha, d1, h);
    CommitIsSound(sha, d1, h);
    SoundThen(sha, d, d1, d', h, ok);
  }

  lemma OriginAttemptIsSound(sha: Bytes -> Hash, d: Disk, h: Hash, size: int, origin: OriginRead)
    ensures var (d', ok) := OriginAttempt(sha, d, h, size, origin); Sound(sha, d, d', h, ok)
  {
    var d0 := if size - |PartialOf(d, h)| < 0 then Discarded(d, h) else d;
    var n := |PartialOf(d0, h)|;
    var d1 := Appended(d0, h, origin(n, size - n).bytes);
    var (d', ok) := OriginAttempt(sha, d, h, size, origin);
    DiscardIsSound(sha, d, h);
    AppendIsSound(sha, d0, h, origin(n, size - n).bytes);
    SoundThen(sha, d, d0, d1, h, false);
    CommitIsSound(sha, d1, h);
    SoundThen(sha, d, d1, d', h, ok);
  }

  lemma {:induction false} RoundIsSound(sha: Bytes -> Hash, d: Disk, h: Hash, size: int, round: seq<Candidate>)
    ensures var (d', ok) := RoundResult(sha, d, h, size, round); Sound(sha, d, d', h, ok)
    decreases |round|
  {
    if round != [] {
      if round[0].admitted {
        var (d1, ok1) := PeerAttempt(sha, d, h, size, round[0].peer);
        PeerAttemptIsSound(sha, d, h, size, round[0].peer);
        if !ok1 {
          RoundIsSound(sha, d1, h, size, round[1..]);
          var (d2, ok2) := RoundResult(sha, d1, h, size, round[1..]);
          SoundThen(sha, d, d1, d2, h, ok2);
        }
      } else {
        RoundIsSound(sha, d, h, size, round[1..]);
      }
    }
  }

  lemma {:induction false} RoundsAreSound(sha: Bytes -> Hash, d: Disk, h: Hash, size: int, rounds: seq<seq<Candidate>>)
    ensures var (d', ok) := RoundsResult(sha, d, h, size, rounds); Sound(sha, d, d', h, ok)
    decreases |rounds|
  {
    if rounds != [] {
      RoundIsSound(sha, d, h, size, rounds[0]);
      var (d1, ok1) := RoundResult(sha, d, h, size, rounds[0]);
      if !ok1 {
        RoundsAreSound(sha, d1, h, size, rounds[1..]);
        var (d2, ok2) := RoundsResult(sha, d1, h, size, rounds[1..]);
        SoundThen(sha, d, d1, d2, h, ok2);
      }
    }
  }

  /** With any peers and any origin, a fetch touches nothing but its own hash, and it succeeds only with a
      committed chunk of the right digest. */
  lemma FetchIsSound(sha: Bytes -> Hash, d: Disk, h: Hash, size: int, rounds: seq<seq<Candidate>>,
      origin: Option<OriginRead>)
    ensures var (d', ok) := FetchResult(sha, d, h, size, rounds, origin); Sound(sha, d, d', h, ok)
  {
    RoundsAreSound(sha, d, h, size, rounds);
    var (d1, ok1) := RoundsResult(sha, d, h, size, rounds);
    if !ok1 && origin.Some? {
      OriginAttemptIsSound(sha, d1, h, size, origin.value);
      var (d2, ok2) := OriginAttempt(sha, d1, h, size, origin.value);
      SoundThen(sha, d, d1, d2, h, ok2);
    }
  }

  // --- The origin after the peers ---

  /** When no round commits, the origin is asked: an honest one gets exactly the chunk committed if and only if the
      peers left a prefix of it or more than it, so in particular if there was nobody to ask and no partial. */
  lemma OriginDelivers(sha: Bytes -> Hash, d: Disk, h: Hash, rounds: seq<seq<Candidate>>, origin: OriginRead,
      data: Bytes)
    requires ValidName(h) && sha(data) == h && HonestOrigin(origin, data)
    requires !RoundsResult(sha, d, h, |data|, rounds).1
    requires NoCollision(sha, iset{data, Spliced(PartialOf(RoundsResult(sha, d, h, |data|, rounds).0, h), data)})
    ensures var p := PartialOf(RoundsResult(sha, d, h, |data|, rounds).0, h);
            var (d', ok) := FetchResult(sha, d, h, |data|, rounds, Some(origin));
            && (ok <==> p <= data || |p| > |data|)
            && (ok ==> d' == Disk(d.chunks[h := data], d.partials - {h}))
            && (!ok ==> d' == Disk(d.chunks, d.partials - {h}))
    ensures rounds == [] && h !in d.partials ==>
              FetchResult(sha, d, h, |data|, rounds, Some(origin)) == (Disk(d.chunks[h := data], d.partials), true)
  {
    RoundsAreSound(sha, d, h, |data|, rounds);
    var d1 := RoundsResult(sha, d, h, |data|, rounds).0;
    HonestOriginAttempt(sha, d1, h, origin, data);
    assert h !in d.partials ==> d.partials - {h} == d.partials;
  }

  /** Where the rounds commit, no origin makes a difference; without an origin their failure is the fetch's. */
  lemma PeersComeFirst(sha: Bytes -> Hash, d: Disk, h: Hash, size: int, rounds: seq<seq<Candidate>>,
      a: Option<OriginRead>, b: Option<OriginRead>)
    ensures AttemptsResult(sha, d, h, size, Attempts(rounds)).1 || (a.None? && b.None?) ==>
              && FetchResult(sha, d, h, size, rounds, a) == FetchResult(sha, d, h, size, rounds, b)
              && FetchResult(sha, d, h, size, rounds, a) == AttemptsResult(sha, d, h, size, Attempts(rounds))
  {
    RoundsAreAttempts(sha, d, h, size, rounds);
  }

  // --- Interrupted attempts ---

  /** What a stream that breaks leaves: nothing if the peer's bytes are not to be trusted, and otherwise the partial
      with what arrived behind it; a partial longer than the chunk goes first.  Chunks stay as they are. */
  lemma BrokenAttempt(sha: Bytes -> Hash, d: Disk, h: Hash, size: int, peer: Peer)
    ensures var p := if size > 0 && |PartialOf(d, h)| > size then [] else PartialOf(d, h);
            var dl := Receive(peer(|p|).frames, peer(|p|).broken, |p|, 0, 0);
            var (d', ok) := PeerAttempt(sha, d, h, size, peer);
            dl.broken.Some? ==>
              && !ok && d'.chunks == d.chunks && d'.partials - {h} == d.partials - {h}
              && (dl.broken.value in {OutOfRange, Integrity} ==> h !in d'.partials)
              && (dl.broken.value !in {OutOfRange, Integrity} ==> h in d'.partials && d'.partials[h] == p + dl.written)
  {
    PeerAttemptIsSound(sha, d, h, size, peer);
  }

  /** An honest peer that breaks off anywhere leaves a prefix of the chunk that is no shorter than before. */
  lemma BreakOffKeepsPrefix(sha: Bytes -> Hash, d: Disk, h: Hash, data: Bytes, peer: Peer, frames: seq<Frame>, got: nat,
      code: Code)
    requires PartialOf(d, h) <= data && code !in {OutOfRange, Integrity} && got <= |frames|
    requires Streams(frames, data, |PartialOf(d, h)|, |data|) && (forall i :: 0 <= i < got ==> !frames[i].isEof)
    requires peer(|PartialOf(d, h)|) == Reply(frames[..got], Some(code))
    ensures var (d', ok) := PeerAttempt(sha, d, h, |data|, peer);
            !ok && d'.chunks == d.chunks && h in d'.partials && PartialOf(d, h) <= d'.partials[h] <= data
  {
    var p := PartialOf(d, h);
    BrokenStreamWritesAPrefix(frames, got, data, |p|, |p|, code, 0);
    BrokenStreamBreaks(frames[..got], code, |p|, 0, 0);
    BrokenAttempt(sha, d, h, |data|, peer);
    var written := Receive(frames[..got], Some(code), |p|, 0, 0).written;
    PrefixExtends(p, written, data);
  }

  lemma PrefixExtends(p: Bytes, more: Bytes, data: Bytes)
    requires p <= data && more <= data[|p|..]
    ensures p <= p + more <= data
  {
    assert data == p + data[|p|..];
  }

  // --- Honest peers among others ---

  /** The admitted candidates of all rounds, in the order they are tried. */
  function Attempts(rounds: seq<seq<Candidate>>): seq<Peer> {
    if rounds == [] then [] else RoundAttempts(rounds[0]) + Attempts(rounds[1..])
  }

  function RoundAttempts(round: seq<Candidate>): seq<Peer> {
    if round == [] then []
    else (if round[0].admitted then [round[0].peer] else []) + RoundAttempts(round[1..])
  }

  function AttemptsResult(sha: Bytes -> Hash, d: Disk, h: Hash, size: int, peers: seq<Peer>): (Disk, bool)
    decreases |peers|
  {
    if peers == [] then (d, false)
    else
      var (d1, ok) := PeerAttempt(sha, d, h, size, peers[0]);
      if ok then (d1, true) else AttemptsResult(sha, d1, h, size, peers[1..])
  }

  lemma {:induction false} AttemptsConcat(sha: Bytes -> Hash, d: Disk, h: Hash, size: int, a: seq<Peer>, b: seq<Peer>)
    ensures var (d1, ok) := AttemptsResult(sha, d, h, size, a);
            AttemptsResult(sha, d, h, size, a + b) == if ok then (d1, true) else AttemptsResult(sha, d1, h, size, b)
    decreases |a|
  {
    if a == [] {
      assert a + b == b;
    } else {
      assert (a + b)[1..] == a[1..] + b;
      AttemptsConcat(sha, PeerAttempt(sha, d, h, size, a[0]).0, h, size, a[1..], b);
    }
  }

  lemma {:induction false} RoundIsAttempts(sha: Bytes -> Hash, d: Disk, h: Hash, size: int, round: seq<Candidate>)
    ensures RoundResult(sha, d, h, size, round) == AttemptsResult(sha, d, h, size, RoundAttempts(round))
    decreases |round|
  {
    if round != [] {
      if round[0].admitted {
        assert RoundAttempts(round)[1..] == RoundAttempts(round[1..]);
        RoundIsAttempts(sha, PeerAttempt(sha, d, h, size, round[0].peer).0, h, size, round[1..]);
      } else {
        assert RoundAttempts(round) == RoundAttempts(round[1..]);
        RoundIsAttempts(sha, d, h, size, round[1..]);
      }
    }
  }

  /** How the candidates fall into rounds makes no difference. */
  lemma {:induction false} RoundsAreAttempts(sha: Bytes -> Hash, d: Disk, h: Hash, size: int,
      rounds: seq<seq<Candidate>>)
    ensures RoundsResult(sha, d, h, size, rounds) == AttemptsResult(sha, d, h, size, Attempts(rounds))
    decreases |rounds|
  {
    if rounds != [] {
      RoundIsAttempts(sha, d, h, size, rounds[0]);
      AttemptsConcat(sha, d, h, size, RoundAttempts(rounds[0]), Attempts(rounds[1..]));
      RoundsAreAttempts(sha, RoundResult(sha, d, h, size, rounds[0]).0, h, size, rounds[1..]);
    }
  }

  /** Two attempts in a row at peers that hold the chunk commit exactly the chunk. */
  lemma HonestPairCommits(sha: Bytes -> Hash, d: Disk, h: Hash, size: int, p: Peer, q: Peer, data: Bytes,
      rest: seq<Peer>)
    requires ValidName(h) && sha(data) == h && HonestPeer(p, data) && HonestPeer(q, data)
    requires NoCollision(sha, iset{data, Spliced(PartialOf(d, h), data)})
    ensures AttemptsResult(sha, d, h, size, [p, q] + rest) == (Disk(d.chunks[h := data], d.partials - {h}), true)
  {
    var all := [p, q] + rest;
    assert all[0] == p && all[1..] == [q] + rest && all[1..][0] == q;
    HonestAttempt(sha, d, h, size, p, data);
    var d1 := Discarded(d, h);
    assert Spliced(PartialOf(d1, h), data) == data;
    HonestAttempt(sha, d1, h, size, q, data);
    assert d1.partials - {h} == d.partials - {h};
  }

  lemma HonestPairAt(sha: Bytes -> Hash, d: Disk, h: Hash, size: int,
      before: seq<Peer>, p: Peer, q: Peer, after: seq<Peer>,
                     data: Bytes, d1: Disk, ok1: bool)
    requires HonestPeer(p, data) && HonestPeer(q, data) && ValidName(h) && sha(data) == h
    requires (d1, ok1) == AttemptsResult(sha, d, h, size, before)
    requires NoCollision(sha, iset{data, Spliced(PartialOf(d1, h), data)})
    ensures AttemptsResult(sha, d, h, size, before + ([p, q] + after)) ==
            (if ok1 then d1 else Disk(d1.chunks[h := data], d1.partials - {h}), true)
  {
    AttemptsConcat(sha, d, h, size, before, [p, q] + after);
    if !ok1 {
      HonestPairCommits(sha, d1, h, size, p, q, data, after);
    }
  }

  lemma SplitAtPair<T>(all: seq<T>, i: nat)
    requires i + 1 < |all|
    ensures all == all[..i] + ([all[i], all[i + 1]] + all[i + 2..])
  {
  }

  /** Wherever two consecutive admitted attempts go to peers that hold the chunk, whether the same peer or not,
      in one round or across two, and after any other peers, the fetch succeeds; and unless an earlier peer
      already delivered a chunk of this digest, what it commits is exactly the chunk. */
  lemma HonestPeersDeliver(sha: Bytes -> Hash, d: Disk, h: Hash, size: int, rounds: seq<seq<Candidate>>, i: nat,
      data: Bytes)
    requires i + 1 < |Attempts(rounds)| && HonestPeer(Attempts(rounds)[i], data)
    requires HonestPeer(Attempts(rounds)[i + 1], data)
    requires ValidName(h) && sha(data) == h
    requires NoCollision(sha,
               iset{data, Spliced(PartialOf(AttemptsResult(sha, d, h, size, Attempts(rounds)[..i]).0, h), data)})
    ensures var (d', ok) := RoundsResult(sha, d, h, size, rounds);
            && ok && Sound(sha, d, d', h, true)
            && (AttemptsResult(sha, d, h, size, Attempts(rounds)[..i]).1 || d'.chunks[h] == data)
  {
    RoundsAreAttempts(sha, d, h, size, rounds);
    RoundsAreSound(sha, d, h, size, rounds);
    var all := Attempts(rounds);
    var (d1, ok1) := AttemptsResult(sha, d, h, size, all[..i]);
    SplitAtPair(all, i);
    HonestPairAt(sha, d, h, size, all[..i], all[i], all[i + 1], all[i + 2..], data, d1, ok1);
  }

  /** The two must be consecutive: one peer in between that writes a wrong byte and breaks off leaves a partial
      that spoils the second honest attempt too. */
  lemma InterruptedPairFails(sha: Bytes -> Hash, h: Hash, b: Byte, bad: Byte, honest: Peer)
    requires ValidName(h) && sha([b]) == h && sha([bad]) != h && HonestPeer(honest, [b])
    ensures var liar: Peer := (o: nat) => Reply([Frame([bad], o, 1, false)], Some(Other));
            var d := Disk(map[], map[h := [bad]]);
            !AttemptsResult(sha, d, h, 1, [honest, liar, honest]).1
  {
    var liar: Peer := (o: nat) => Reply([Frame([bad], o, 1, false)], Some(Other));
    var d := Disk(map[], map[h := [bad]]);
    var d1 := Discarded(d, h);
    OneByteAttempt(sha, d, h, b, bad, honest);
    assert d1.partials == map[];
    ReceiveOne(Frame([bad], 0, 1, false), Other);
    assert PeerAttempt(sha, d1, h, 1, liar) == (Appended(d1, h, [bad]), false);
    assert [] + [bad] == [bad];
    assert Appended(d1, h, [bad]).partials == map[h := [bad]];
    assert Appended(d1, h, [bad]) == d;
    var all := [honest, liar, honest];
    assert all[1..] == [liar, honest] && [liar, honest][1..] == [honest] && [honest][1..] == [];
    assert AttemptsResult(sha, d, h, 1, [honest]) == (d1, false);
    assert AttemptsResult(sha, d1, h, 1, [liar, honest]) == (d1, false);
  }

  lemma OneByteAttempt(sha: Bytes -> Hash, d: Disk, h: Hash, b: Byte, bad: Byte, honest: Peer)
    requires ValidName(h) && sha([b]) == h && sha([bad]) != h && HonestPeer(honest, [b])
    requires d == Disk(map[], map[h := [bad]])
    ensures PeerAttempt(sha, d, h, 1, honest) == (Discarded(d, h), false)
  {
    assert Spliced([bad], [b]) == [bad];
    HonestAttemptFits(sha, d, h, 1, honest, [b]);
  }
}
