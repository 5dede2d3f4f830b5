/** One key of the read-through cache when fills interleave with writers: readers look the key up, read
    the store and set the cache in separate steps; writers change the store and then invalidate.  Reads
    of other keys, single or in the same batch, do not touch this one. */
module Staleness {
  import opened Base

  type Id = nat

  /** A moment of the run: the clock and the store's value for the key. */
  datatype Moment<V> = Moment(at: int, value: V)

  /** A cached value with its fill: the store was read at moment `read` and the cache set at moment `set_`. */
  datatype Entry<V> = Entry(value: V, expiresAt: int, read: nat, set_: nat)

  datatype Reader<V> =
    | Looking
    | Missed
    | HasRead(value: V, read: nat)
    | Returned(value: V, read: nat, filled: nat, looked: nat)   // answer, its fill, and the moment it was obtained

  datatype State<V> = State(
    now: int,
    value: V,
    past: seq<Moment<V>>,          // one entry per step so far
    cached: Option<Entry<V>>,
    readers: map<Id, Reader<V>>,
    invalidating: nat,             // writers that have written but not yet invalidated
    wrote: nat,                    // moment of the last write
    cleared: nat)                  // moment of the last invalidation

  datatype Action<V> =
    | Start(reader: Id)
    | Look(looker: Id)
    | ReadStore(missed: Id)
    | Fill(filler: Id)
    | Skip(skipper: Id)            // absent artifacts are not cached
    | Write(v: V)
    | Invalidate
    | Drop                         // the janitor, or a lookup that found an expired entry, deletes it
    | Pass(dt: nat)

  function Moments<V>(s: State<V>): nat {
    |s.past|
  }

  /** The entry a lookup would hit. */
  predicate Hit<V>(s: State<V>) {
    s.cached.Some? && s.now <= s.cached.value.expiresAt
  }

  predicate Enabled<V>(s: State<V>, a: Action<V>) {
    match a
    case Start(r) => r !in s.readers
    case Look(r) => r in s.readers && s.readers[r].Looking?
    case ReadStore(r) => r in s.readers && s.readers[r].Missed?
    case Fill(r) => r in s.readers && s.readers[r].HasRead?
    case Skip(r) => r in s.readers && s.readers[r].HasRead?
    case Write(_) => true
    case Invalidate => s.invalidating > 0
    case Drop => true
    case Pass(_) => true
  }

  function Answer<V>(r: Reader<V>): Reader<V>
    requires r.HasRead?
  {
    Returned(r.value, r.read, r.read, r.read)
  }

  function Moved<V>(s: State<V>, ttl: int, a: Action<V>): State<V>
    requires Enabled(s, a)
  {
    match a
    case Start(r) => s.(readers := s.readers[r := Looking])
    case Look(r) =>
      if Hit(s) then
        var e := s.cached.value;
        s.(readers := s.readers[r := Returned(e.value, e.read, e.set_, Moments(s))])
      else s.(readers := s.readers[r := Missed], cached := None)
    case ReadStore(r) => s.(readers := s.readers[r := HasRead(s.value, Moments(s))])
    case Fill(r) =>
      s.(readers := s.readers[r := Answer(s.readers[r])],
         cached := Some(Entry(s.readers[r].value, s.now + ttl, s.readers[r].read, Moments(s))))
    case Skip(r) => s.(readers := s.readers[r := Answer(s.readers[r])])
    case Write(v) => s.(value := v, wrote := Moments(s), invalidating := s.invalidating + 1)
    case Invalidate => s.(cached := None, invalidating := s.invalidating - 1, cleared := Moments(s))
    case Drop => s.(cached := None)
    case Pass(dt) => s.(now := s.now + dt)
  }

  /** Each step happens at one moment, recorded with the value the store had when it happened. */
  function Apply<V>(s: State<V>, ttl: int, a: Action<V>): State<V>
    requires Enabled(s, a)
  {
    Moved(s, ttl, a).(past := s.past + [Moment(s.now, s.value)])
  }

  predicate Runs<V>(s: State<V>, ttl: int, run: seq<Action<V>>)
    decreases |run|
  {
    run == [] || (Enabled(s, run[0]) && Runs(Apply(s, ttl, run[0]), ttl, run[1..]))
  }

  function Exec<V>(s: State<V>, ttl: int, run: seq<Action<V>>): State<V>
    requires Runs(s, ttl, run)
    decreases |run|
  {
    if run == [] then s else Exec(Apply(s, ttl, run[0]), ttl, run[1..])
  }

  function Begin<V>(v: V, now: int): State<V> {
    State(now, v, [], None, map[], 0, 0, 0)
  }

  // --- Ages ---

  ghost predicate ClockRuns<V>(s: State<V>) {
    && (forall i, j :: 0 <= i < j < |s.past| ==> s.past[i].at <= s.past[j].at)
    && (forall i :: 0 <= i < |s.past| ==> s.past[i].at <= s.now)
  }

  /** The store had this value at that moment. */
  predicate WasAt<V(==)>(s: State<V>, v: V, m: nat) {
    m < |s.past| && s.past[m].value == v
  }

  ghost predicate EntryOk<V>(s: State<V>, ttl: int, e: Entry<V>) {
    WasAt(s, e.value, e.read) && e.read <= e.set_ < |s.past| && e.expiresAt == s.past[e.set_].at + ttl
  }

  ghost predicate ReaderOk<V>(s: State<V>, ttl: int, r: Reader<V>) {
    match r
    case HasRead(v, read) => WasAt(s, v, read)
    case Returned(v, read, filled, looked) =>
      WasAt(s, v, read) && read <= filled <= looked < |s.past| && s.past[looked].at <= s.past[filled].at + ttl
    case _ => true
  }

  ghost predicate Inv<V>(s: State<V>, ttl: int) {
    && ClockRuns(s)
    && (s.cached.Some? ==> EntryOk(s, ttl, s.cached.value))
    && forall r :: r in s.readers ==> ReaderOk(s, ttl, s.readers[r])
  }

  lemma LaterStillOk<V>(s: State<V>, s': State<V>, ttl: int, m: Moment<V>)
    requires s'.past == s.past + [m]
    ensures forall r :: ReaderOk(s, ttl, r) ==> ReaderOk(s', ttl, r)
    ensures forall e :: EntryOk(s, ttl, e) ==> EntryOk(s', ttl, e)
  {
  }

  lemma KeepsInv<V>(s: State<V>, ttl: int, a: Action<V>)
    requires Inv(s, ttl) && ttl > 0 && Enabled(s, a)
    ensures Inv(Apply(s, ttl, a), ttl)
  {
    var s' := Apply(s, ttl, a);
    LaterStillOk(s, s', ttl, Moment(s.now, s.value));
  }

  lemma {:induction false} RunKeepsInv<V>(s: State<V>, ttl: int, run: seq<Action<V>>)
    requires Inv(s, ttl) && ttl > 0 && Runs(s, ttl, run)
    ensures Inv(Exec(s, ttl, run), ttl)
    decreases |run|
  {
    if run != [] {
      KeepsInv(s, ttl, run[0]);
      RunKeepsInv(Apply(s, ttl, run[0]), ttl, run[1..]);
    }
  }

  /** In every run, a value returned was the store's value at a moment that lies at most `ttl` plus the
      duration of the fill it came from before the moment it was obtained. */
  lemma AgeIsBounded<V>(v0: V, now: int, ttl: int, run: seq<Action<V>>, r: Id)
    requires ttl > 0 && Runs(Begin(v0, now), ttl, run)
    requires var s := Exec(Begin(v0, now), ttl, run); r in s.readers && s.readers[r].Returned?
    ensures var s := Exec(Begin(v0, now), ttl, run);
            var a := s.readers[r];
            && WasAt(s, a.value, a.read) && a.read <= a.filled <= a.looked < |s.past|
            && s.past[a.looked].at - s.past[a.read].at <= ttl + (s.past[a.filled].at - s.past[a.read].at)
            && s.past[a.read].at <= s.past[a.filled].at <= s.past[a.looked].at <= s.now
  {
    RunKeepsInv(Begin(v0, now), ttl, run);
    assert ReaderOk(Exec(Begin(v0, now), ttl, run), ttl, Exec(Begin(v0, now), ttl, run).readers[r]);
  }

  // --- Wrong entries ---

  /** Without a write after moment `m`, the store still has the value it had then. */
  ghost predicate NoNewer<V>(s: State<V>, v: V, m: nat) {
    v == s.value || m <= s.wrote
  }

  ghost predicate Fenced<V>(s: State<V>) {
    && (s.invalidating > 0 || s.wrote <= s.cleared)
    && (s.cached.Some? ==> NoNewer(s, s.cached.value.value, s.cached.value.read) && s.cleared <= s.cached.value.set_)
    && (forall r :: r in s.readers && s.readers[r].HasRead? ==> NoNewer(s, s.readers[r].value, s.readers[r].read))
    && s.wrote <= |s.past| && s.cleared <= |s.past|
    && (forall r :: r in s.readers && s.readers[r].HasRead? ==> s.readers[r].read < |s.past|)
    && (s.cached.Some? ==> s.cached.value.read < |s.past|)
  }

  lemma KeepsFenced<V>(s: State<V>, ttl: int, a: Action<V>)
    requires Fenced(s) && Enabled(s, a)
    ensures Fenced(Apply(s, ttl, a))
  {
  }

  lemma {:induction false} RunKeepsFenced<V>(s: State<V>, ttl: int, run: seq<Action<V>>)
    requires Fenced(s) && Runs(s, ttl, run)
    ensures Fenced(Exec(s, ttl, run))
    decreases |run|
  {
    if run != [] {
      KeepsFenced(s, ttl, run[0]);
      RunKeepsFenced(Apply(s, ttl, run[0]), ttl, run[1..]);
    }
  }

  /** Once no writer is still to invalidate, a cached value is wrong only if the last write and the last
      invalidation both fell inside its fill, between reading the store and setting the cache. */
  lemma WrongMeansOverlap<V>(v0: V, now: int, ttl: int, run: seq<Action<V>>)
    requires Runs(Begin(v0, now), ttl, run)
    ensures var s := Exec(Begin(v0, now), ttl, run);
            s.cached.Some? && s.cached.value.value != s.value && s.invalidating == 0 ==>
              s.cached.value.read <= s.wrote <= s.cleared <= s.cached.value.set_
  {
    RunKeepsFenced(Begin(v0, now), ttl, run);
  }

  // --- Exactly when an entry is wrong ---

  /** What was read is what the store held then, and nothing is read at the first moment. */
  ghost predicate Traced<V>(s: State<V>) {
    && (s.readers != map[] ==> s.past != [])
    && (s.cached.Some? ==> 0 < s.cached.value.read && WasAt(s, s.cached.value.value, s.cached.value.read))
    && forall r :: r in s.readers && s.readers[r].HasRead? ==>
         0 < s.readers[r].read && WasAt(s, s.readers[r].value, s.readers[r].read)
  }

  lemma KeepsTraced<V>(s: State<V>, ttl: int, a: Action<V>)
    requires Traced(s) && Enabled(s, a)
    ensures Traced(Apply(s, ttl, a))
  {
  }

  lemma {:induction false} RunKeepsTraced<V>(s: State<V>, ttl: int, run: seq<Action<V>>)
    requires Traced(s) && Runs(s, ttl, run)
    ensures Traced(Exec(s, ttl, run))
    decreases |run|
  {
    if run != [] {
      KeepsTraced(s, ttl, run[0]);
      RunKeepsTraced(Apply(s, ttl, run[0]), ttl, run[1..]);
    }
  }

  /** The last write and the last invalidation both fell inside the fill of the cached entry. */
  predicate Overlapped<V>(s: State<V>)
    requires s.cached.Some?
  {
    s.cached.value.read <= s.wrote <= s.cleared <= s.cached.value.set_
  }

  /** For all writes: a cached value is wrong exactly if the last write and invalidation fell inside its fill and
      the store does not hold again what it held when the fill read it. */
  lemma WrongExactly<V>(v0: V, now: int, ttl: int, run: seq<Action<V>>)
    requires Runs(Begin(v0, now), ttl, run)
    ensures var s := Exec(Begin(v0, now), ttl, run);
            s.cached.Some? && s.invalidating == 0 ==>
              && s.cached.value.read < |s.past|
              && (s.cached.value.value != s.value <==>
                  Overlapped(s) && s.past[s.cached.value.read].value != s.value)
  {
    RunKeepsTraced(Begin(v0, now), ttl, run);
    WrongMeansOverlap(v0, now, ttl, run);
  }

  /** The store has never held this value. */
  ghost predicate IsNew<V>(s: State<V>, v: V) {
    v != s.value && forall m :: 0 <= m < |s.past| ==> s.past[m].value != v
  }

  /** Every write gives the key a value it has not had before. */
  ghost predicate WritesNew<V>(s: State<V>, ttl: int, run: seq<Action<V>>)
    requires Runs(s, ttl, run)
    decreases |run|
  {
    run == [] || ((run[0].Write? ==> IsNew(s, run[0].v)) && WritesNew(Apply(s, ttl, run[0]), ttl, run[1..]))
  }

  /** Nothing was written yet, or the value was not there at any moment up to its write. */
  ghost predicate NeverBefore<V>(s: State<V>) {
    || (s.wrote == 0 && s.cleared == 0 && s.invalidating == 0)
    || (s.wrote < |s.past| && forall m :: 0 <= m <= s.wrote ==> s.past[m].value != s.value)
  }

  lemma KeepsNeverBefore<V>(s: State<V>, ttl: int, a: Action<V>)
    requires NeverBefore(s) && Fenced(s) && Enabled(s, a) && (a.Write? ==> IsNew(s, a.v))
    ensures NeverBefore(Apply(s, ttl, a))
  {
  }

  lemma {:induction false} RunKeepsNeverBefore<V>(s: State<V>, ttl: int, run: seq<Action<V>>)
    requires NeverBefore(s) && Fenced(s) && Runs(s, ttl, run) && WritesNew(s, ttl, run)
    ensures NeverBefore(Exec(s, ttl, run))
    decreases |run|
  {
    if run != [] {
      KeepsFenced(s, ttl, run[0]);
      KeepsNeverBefore(s, ttl, run[0]);
      RunKeepsNeverBefore(Apply(s, ttl, run[0]), ttl, run[1..]);
    }
  }

  /** For writes of new values: once no writer is still to invalidate, a cached value is wrong if and only if the
      last write and the last invalidation both fell inside its fill. */
  lemma WrongExactlyOnOverlap<V>(v0: V, now: int, ttl: int, run: seq<Action<V>>)
    requires Runs(Begin(v0, now), ttl, run) && WritesNew(Begin(v0, now), ttl, run)
    ensures var s := Exec(Begin(v0, now), ttl, run);
            s.cached.Some? && s.invalidating == 0 ==> (s.cached.value.value != s.value <==> Overlapped(s))
  {
    RunKeepsNeverBefore(Begin(v0, now), ttl, run);
    RunKeepsTraced(Begin(v0, now), ttl, run);
    WrongExactly(v0, now, ttl, run);
  }

  lemma Step<V>(s: State<V>, ttl: int, a: Action<V>, rest: seq<Action<V>>)
    requires Enabled(s, a) && Runs(Apply(s, ttl, a), ttl, rest)
    ensures Runs(s, ttl, [a] + rest) && Exec(s, ttl, [a] + rest) == Exec(Apply(s, ttl, a), ttl, rest)
  {
    assert ([a] + rest)[1..] == rest;
  }

  /** It does happen: a fill into which a write and its invalidation fall leaves the old value behind. */
  lemma OverlapLeavesOldValue<V>(old_: V, new_: V, now: int, ttl: int) returns (run: seq<Action<V>>)
    requires old_ != new_
    ensures Runs(Begin(old_, now), ttl, run)
    ensures var s := Exec(Begin(old_, now), ttl, run);
            s.value == new_ && s.invalidating == 0 && s.cached.Some? && s.cached.value.value == old_
  {
    var a, b, c, d, e, f: Action<V> := Start(0), Look(0), ReadStore(0), Write(new_), Invalidate, Fill(0);
    var s1 := Apply(Begin(old_, now), ttl, a);
    var s2 := Apply(s1, ttl, b);
    var s3 := Apply(s2, ttl, c);
    var s4 := Apply(s3, ttl, d);
    var s5 := Apply(s4, ttl, e);
    var s6 := Apply(s5, ttl, f);
    assert Exec(s6, ttl, []) == s6;
    Step(s5, ttl, f, []);
    Step(s4, ttl, e, [f] + []);
    Step(s3, ttl, d, [e] + ([f] + []));
    Step(s2, ttl, c, [d] + ([e] + ([f] + [])));
    Step(s1, ttl, b, [c] + ([d] + ([e] + ([f] + []))));
    run := [a] + ([b] + ([c] + ([d] + ([e] + ([f] + [])))));
    Step(Begin(old_, now), ttl, a, [b] + ([c] + ([d] + ([e] + ([f] + [])))));
  }
}
