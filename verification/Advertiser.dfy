/** The advertiser: hashes go through a bounded channel into batches, and failed reports through a bounded
    retry queue with exponential backoff.  Callers enqueue while the loop runs. */
module Advertiser {
  import opened Base
  import opened Sorting

  const CHANNEL := 1024
  const RETRY_QUEUE := 4096

  datatype Config = Config(batchSize: int, maxRetries: int, retryInitial: int, retryMax: int)

  /** One accepted `Enqueue`, with its history: the reports it was part of, and whether it found the channel full. */
  datatype Item = Item(id: nat, hash: string, sent: nat, spilled: bool)

  datatype Entry = Entry(item: Item, attempt: nat, nextAt: int)

  // --- Backoff ---

  /** `d * 2^n`. */
  function Doubled(d: int, n: nat): int {
    if n == 0 then d else 2 * Doubled(d, n - 1)
  }

  function Delay(initial: int, max: int, attempt: nat): int {
    if attempt <= 1 then initial else Min(Doubled(initial, attempt - 1), max)
  }

  function NextAt(c: Config, attempt: nat, now: int): int {
    now + Delay(c.retryInitial, c.retryMax, attempt)
  }

  lemma {:induction false} CapHolds(initial: int, max: int, i: nat, n: nat)
    requires Doubled(initial, i) > max > 0 && i <= n
    ensures Doubled(initial, n) > max
    decreases n - i
  {
    if i < n {
      CapHolds(initial, max, i, n - 1);
    }
  }

  /** Doubling with an early stop at the cap gives the closed form: the first two delays are the initial one,
      uncapped; from the second attempt on it is `min(initial * 2^(attempt-1), max)`. */
  method Backoff(initial: int, max: int, attempt: nat) returns (backoff: int)
    requires max > 0
    ensures backoff == Delay(initial, max, attempt)
  {
    backoff := initial;
    var i := 1;
    while i < attempt
      invariant i == 1 || 1 <= i <= attempt
      invariant backoff == Doubled(initial, i - 1) && (i > 1 ==> backoff <= max)
    {
      backoff := backoff * 2;
      if backoff > max {
        CapHolds(initial, max, i, attempt - 1);
        return max;
      }
      i := i + 1;
    }
  }

  lemma {:induction false} DelayClosedForm(initial: int, max: int, attempt: nat)
    ensures attempt <= 1 ==> Delay(initial, max, attempt) == initial
    ensures attempt >= 2 ==> Delay(initial, max, attempt) == Min(initial * Pow2(attempt - 1), max)
  {
    if attempt >= 2 {
      DoublingIsPower(initial, attempt - 1);
    }
  }

  lemma {:induction false} DoublingIsPower(d: int, n: nat)
    ensures Doubled(d, n) == d * Pow2(n)
  {
    if n > 0 {
      DoublingIsPower(d, n - 1);
      assert d * Pow2(n) == 2 * (d * Pow2(n - 1));
    }
  }

  // --- The retry queue ---

  function Entries(items: seq<Item>, attempt: nat, nextAt: int): seq<Entry> {
    seq(|items|, i requires 0 <= i < |items| => Entry(items[i], attempt, nextAt))
  }

  function Items(es: seq<Entry>): seq<Item> {
    seq(|es|, i requires 0 <= i < |es| => es[i].item)
  }

  /** How many of `n` more entries fit. */
  function Room(queued: nat, n: nat): nat {
    Min(n, if queued < RETRY_QUEUE then RETRY_QUEUE - queued else 0)
  }

  method ScheduleRetry(c: Config, retry: seq<Entry>, items: seq<Item>, attempt: nat, now: int)
    returns (retry': seq<Entry>, dropped: seq<Item>)
    requires c.retryMax > 0
    ensures var k := Room(|retry|, |items|);
            && retry' == retry + Entries(items[..k], attempt, NextAt(c, attempt, now))
            && dropped == items[k..]
  {
    var backoff := Backoff(c.retryInitial, c.retryMax, attempt);
    retry', dropped := retry, [];
    for i := 0 to |items|
      invariant retry' == retry + Entries(items[..Room(|retry|, i)], attempt, now + backoff)
      invariant dropped == items[Room(|retry|, i)..i]
    {
      if |retry'| >= RETRY_QUEUE {
        dropped := dropped + [items[i]];
      } else {
        assert Room(|retry|, i) == i;
        retry' := retry' + [Entry(items[i], attempt, now + backoff)];
      }
    }
  }

  function Due(force: bool, now: int): Entry -> bool {
    (e: Entry) => force || e.nextAt <= now
  }

  function NotDue(force: bool, now: int): Entry -> bool {
    (e: Entry) => !(force || e.nextAt <= now)
  }

  /** Due entries leave the queue in order; the others stay in order. */
  method TakeDue(retry: seq<Entry>, force: bool, now: int) returns (ready: seq<Entry>, rest: seq<Entry>)
    ensures ready == Filter(Due(force, now), retry) && rest == Filter(NotDue(force, now), retry)
  {
    ready, rest := [], [];
    for i := 0 to |retry|
      invariant ready == Filter(Due(force, now), retry[..i]) && rest == Filter(NotDue(force, now), retry[..i])
    {
      assert retry[..i + 1] == retry[..i] + [retry[i]];
      FilterSnoc(Due(force, now), retry[..i], retry[i]);
      FilterSnoc(NotDue(force, now), retry[..i], retry[i]);
      if force || retry[i].nextAt <= now {
        ready := ready + [retry[i]];
      } else {
        rest := rest + [retry[i]];
      }
    }
    assert retry[..|retry|] == retry;
  }

  /** `Reconcile` enqueues every named hash once, in order of first appearance. */
  method Reconcile(hashes: seq<string>) returns (calls: seq<string>)
    ensures NoDup(calls) && Elems(calls) == Elems(hashes) - {""}
  {
    calls := [];
    var seen: set<string> := {};
    for i := 0 to |hashes|
      invariant NoDup(calls) && seen == Elems(calls) == Elems(hashes[..i]) - {""}
    {
      assert hashes[..i + 1] == hashes[..i] + [hashes[i]];
      assert Elems(hashes[..i + 1]) == Elems(hashes[..i]) + {hashes[i]};
      if hashes[i] != "" && hashes[i] !in seen {
        assert hashes[i] !in calls;
        assert Elems(calls + [hashes[i]]) == Elems(calls) + {hashes[i]};
        seen := seen + {hashes[i]};
        calls := calls + [hashes[i]];
      }
    }
    assert hashes[..|hashes|] == hashes;
  }

  // --- The step system ---

  /** Where the loop stands between reports. */
  datatype Rest =
    | Selecting
    | Collecting(force: bool)                              // about to take the due retries
    | Retrying(ready: seq<Entry>, final: bool)

  datatype Pc =
    | At(rest: Rest)
    | Draining                                             // `done` seen, emptying the channel
    | Flushing(batch: seq<Item>, attempt: nat, next: Rest) // a report is in flight
    | Finished

  datatype State = State(
    issued: nat,
    entering: seq<Item>,     // found the channel full, not yet in the retry queue
    channel: seq<Item>,
    buf: seq<Item>,
    pc: Pc,
    retry: seq<Entry>,
    acked: seq<Item>,
    abandoned: seq<Item>,
    dropped: seq<Item>,
    stopped: bool,
    cut: nat)                // how many were issued when the final drain found the channel empty

  datatype Action =
    | Enqueue(hash: string)
    | Spill(i: nat, at: int)
    | Stop
    | Receive
    | Tick
    | SeeStop
    | DrainOne
    | DrainEnd
    | Collect(now: int)
    | NextRetry
    | Succeed
    | Fail(when: int)

  function Reported(items: seq<Item>): seq<Item> {
    seq(|items|, i requires 0 <= i < |items| => items[i].(sent := items[i].sent + 1))
  }

  /** The batch goes out, or nothing happens when it is empty. */
  function Flush(batch: seq<Item>, attempt: nat, next: Rest): Pc {
    if batch == [] then At(next) else Flushing(Reported(batch), attempt, next)
  }

  function Scheduled(s: State, items: seq<Item>, attempt: nat, nextAt: int): State {
    var k := Room(|s.retry|, |items|);
    s.(retry := s.retry + Entries(items[..k], attempt, nextAt), dropped := s.dropped + items[k..])
  }

  predicate Enabled(s: State, a: Action) {
    match a
    case Enqueue(_) => true
    case Spill(i, _) => i < |s.entering|
    case Stop => !s.stopped
    case Receive => s.pc == At(Selecting) && s.channel != []
    case Tick => s.pc == At(Selecting)
    case SeeStop => s.pc == At(Selecting) && s.stopped
    case DrainOne => s.pc.Draining? && s.channel != []
    case DrainEnd => s.pc.Draining? && s.channel == []
    case Collect(_) => s.pc.At? && s.pc.rest.Collecting?
    case NextRetry => s.pc.At? && s.pc.rest.Retrying?
    case Succeed => s.pc.Flushing?
    case Fail(_) => s.pc.Flushing?
  }

  function Enqueued(s: State, hash: string): State {
    if hash == "" then s
    else if |s.channel| < CHANNEL
      then s.(issued := s.issued + 1, channel := s.channel + [Item(s.issued, hash, 0, false)])
    else s.(issued := s.issued + 1, entering := s.entering + [Item(s.issued, hash, 0, true)])
  }

  function Received(c: Config, s: State): State
    requires s.channel != []
  {
    var buf := s.buf + [s.channel[0]];
    if |buf| >= c.batchSize then s.(channel := s.channel[1..], buf := [], pc := Flush(buf, 0, Selecting))
    else s.(channel := s.channel[1..], buf := buf)
  }

  function Retried(s: State): State
    requires s.pc.At? && s.pc.rest.Retrying?
  {
    var ready := s.pc.rest.ready;
    if ready == [] then s.(pc := if s.pc.rest.final then Finished else At(Selecting))
    else s.(pc := Flush([ready[0].item], ready[0].attempt, Retrying(ready[1..], s.pc.rest.final)))
  }

  function Failed(c: Config, s: State, now: int): State
    requires s.pc.Flushing?
  {
    var s1 := s.(pc := At(s.pc.next));
    if s.pc.attempt + 1 < c.maxRetries
      then Scheduled(s1, s.pc.batch, s.pc.attempt + 1, NextAt(c, s.pc.attempt + 1, now))
    else s1.(abandoned := s.abandoned + s.pc.batch)
  }

  function Apply(c: Config, s: State, a: Action): State
    requires Enabled(s, a)
  {
    match a
    case Enqueue(hash) => Enqueued(s, hash)
    case Spill(i, now) =>
      Scheduled(s.(entering := s.entering[..i] + s.entering[i + 1..]), [s.entering[i]], 0, NextAt(c, 0, now))
    case Stop => s.(stopped := true)
    case Receive => Received(c, s)
    case Tick => s.(buf := [], pc := Flush(s.buf, 0, Collecting(false)))
    case SeeStop => s.(pc := Draining)
    case DrainOne => s.(channel := s.channel[1..], buf := s.buf + [s.channel[0]])
    case DrainEnd => s.(buf := [], pc := Flush(s.buf, 0, Collecting(true)), cut := s.issued)
    case Collect(now) =>
      s.(retry := Filter(NotDue(s.pc.rest.force, now), s.retry),
        pc := At(Retrying(Filter(Due(s.pc.rest.force, now), s.retry), s.pc.rest.force)))
    case NextRetry => Retried(s)
    case Succeed => s.(pc := At(s.pc.next), acked := s.acked + s.pc.batch)
    case Fail(now) => Failed(c, s, now)
  }

  predicate Runs(c: Config, s: State, run: seq<Action>)
    decreases |run|
  {
    run == [] || (Enabled(s, run[0]) && Runs(c, Apply(c, s, run[0]), run[1..]))
  }

  function Exec(c: Config, s: State, run: seq<Action>): State
    requires Runs(c, s, run)
    decreases |run|
  {
    if run == [] then s else Exec(c, Apply(c, s, run[0]), run[1..])
  }

  const START := State(0, [], [], [], At(Selecting), [], [], [], [], false, 0)

  // --- Conservation ---

  /** How often item number `t` occurs. */
  function Times(items: seq<Item>, t: nat): nat {
    if items == [] then 0 else Times(items[..|items| - 1], t) + if items[|items| - 1].id == t then 1 else 0
  }

  /** In a report, or taken from the retry queue for one. */
  function Held(pc: Pc): seq<Item> {
    match pc
    case At(rest) => Taken(rest)
    case Flushing(batch, _, next) => batch + Taken(next)
    case _ => []
  }

  function Taken(rest: Rest): seq<Item> {
    if rest.Retrying? then Items(rest.ready) else []
  }

  /** How often item number `t` occurs in all the places an item can be. */
  function Population(s: State, t: nat): nat {
    Times(s.entering, t) + Times(s.channel, t) + Times(s.buf, t) + Times(Held(s.pc), t) + Times(Items(s.retry), t)
    + Times(s.acked, t) + Times(s.abandoned, t) + Times(s.dropped, t)
  }

  lemma {:induction false} TimesConcat(a: seq<Item>, b: seq<Item>, t: nat)
    ensures Times(a + b, t) == Times(a, t) + Times(b, t)
    decreases |b|
  {
    if b == [] {
      assert a + b == a;
    } else {
      assert (a + b)[..|a + b| - 1] == a + b[..|b| - 1];
      TimesConcat(a, b[..|b| - 1], t);
    }
  }

  lemma {:induction false} TimesReported(items: seq<Item>, t: nat)
    ensures Times(Reported(items), t) == Times(items, t)
    decreases |items|
  {
    if items != [] {
      assert Reported(items)[..|items| - 1] == Reported(items[..|items| - 1]);
      TimesReported(items[..|items| - 1], t);
    }
  }

  lemma ItemsConcat(a: seq<Entry>, b: seq<Entry>)
    ensures Items(a + b) == Items(a) + Items(b)
  {
  }

  lemma EntriesHoldItems(items: seq<Item>, attempt: nat, nextAt: int)
    ensures Items(Entries(items, attempt, nextAt)) == items
  {
  }

  lemma TimesSplit(items: seq<Item>, k: nat, t: nat)
    requires k <= |items|
    ensures Times(items, t) == Times(items[..k], t) + Times(items[k..], t)
  {
    TimesConcat(items[..k], items[k..], t);
    assert items == items[..k] + items[k..];
  }

  lemma TimesHead(items: seq<Item>, t: nat)
    requires items != []
    ensures Times(items, t) == Times([items[0]], t) + Times(items[1..], t)
  {
    TimesSplit(items, 1, t);
    assert items[..1] == [items[0]];
  }

  lemma TimesWithout(items: seq<Item>, i: nat, t: nat)
    requires i < |items|
    ensures Times(items, t) == Times(items[..i] + items[i + 1..], t) + Times([items[i]], t)
  {
    TimesSplit(items, i, t);
    TimesHead(items[i..], t);
    assert items[i..][1..] == items[i + 1..];
    TimesConcat(items[..i], items[i + 1..], t);
  }

  lemma TimesFlushed(batch: seq<Item>, attempt: nat, next: Rest, t: nat)
    ensures Times(Held(Flush(batch, attempt, next)), t) == Times(batch, t) + Times(Taken(next), t)
  {
    TimesReported(batch, t);
    TimesConcat(Reported(batch), Taken(next), t);
  }

  lemma TimesItemsSnoc(es: seq<Entry>, e: Entry, t: nat)
    ensures Times(Items(es + [e]), t) == Times(Items(es), t) + if e.item.id == t then 1 else 0
  {
    assert Items(es + [e])[..|es|] == Items(es);
  }

  lemma {:induction false} TimesDue(force: bool, now: int, es: seq<Entry>, t: nat)
    ensures Times(Items(Filter(Due(force, now), es)), t) + Times(Items(Filter(NotDue(force, now), es)), t)
              == Times(Items(es), t)
    decreases |es|
  {
    if es != [] {
      var low, e := es[..|es| - 1], es[|es| - 1];
      TimesDue(force, now, low, t);
      TimesItemsSnoc(low, e, t);
      assert es == low + [e];
      TimesItemsSnoc(Filter(Due(force, now), low), e, t);
      TimesItemsSnoc(Filter(NotDue(force, now), low), e, t);
      FilterSnoc(Due(force, now), low, e);
      FilterSnoc(NotDue(force, now), low, e);
      assert Filter(Due(force, now), low) + [] == Filter(Due(force, now), low);
      assert Filter(NotDue(force, now), low) + [] == Filter(NotDue(force, now), low);
    }
  }

  lemma TimesQueued(retry: seq<Entry>, items: seq<Item>, attempt: nat, at: int, t: nat)
    ensures Times(Items(retry + Entries(items, attempt, at)), t) == Times(Items(retry), t) + Times(items, t)
  {
    ItemsConcat(retry, Entries(items, attempt, at));
    EntriesHoldItems(items, attempt, at);
    TimesConcat(Items(retry), items, t);
  }

  lemma TimesDropped(dropped: seq<Item>, items: seq<Item>, k: nat, t: nat)
    requires k <= |items|
    ensures Times(dropped + items[k..], t) == Times(dropped, t) + Times(items, t) - Times(items[..k], t)
  {
    TimesConcat(dropped, items[k..], t);
    TimesSplit(items, k, t);
  }

  lemma ScheduleConserves(s: State, items: seq<Item>, attempt: nat, nextAt: int, t: nat)
    ensures Population(Scheduled(s, items, attempt, nextAt), t) == Population(s, t) + Times(items, t)
  {
    var k := Room(|s.retry|, |items|);
    TimesQueued(s.retry, items[..k], attempt, nextAt, t);
    TimesDropped(s.dropped, items, k, t);
  }

  lemma ChannelGrows(s: State, x: Item, t: nat)
    ensures Population(s.(issued := s.issued + 1, channel := s.channel + [x]), t) == Population(s, t) + Times([x], t)
  {
    TimesConcat(s.channel, [x], t);
  }

  lemma EnteringGrows(s: State, x: Item, t: nat)
    ensures Population(s.(issued := s.issued + 1, entering := s.entering + [x]), t) == Population(s, t) + Times([x], t)
  {
    TimesConcat(s.entering, [x], t);
  }

  lemma EnqueueConserves(s: State, hash: string, t: nat)
    ensures Population(Enqueued(s, hash), t) == Population(s, t) + if hash != "" && t == s.issued then 1 else 0
  {
    if hash != "" {
      if |s.channel| < CHANNEL {
        ChannelGrows(s, Item(s.issued, hash, 0, false), t);
      } else {
        EnteringGrows(s, Item(s.issued, hash, 0, true), t);
      }
    }
  }

  /** One item moves from the channel to the buffer. */
  lemma MoveConserves(s: State, t: nat)
    requires s.channel != []
    ensures Population(s.(channel := s.channel[1..], buf := s.buf + [s.channel[0]]), t) == Population(s, t)
  {
    TimesHead(s.channel, t);
    TimesConcat(s.buf, [s.channel[0]], t);
  }

  /** The buffer goes out. */
  lemma FlushConserves(s: State, next: Rest, t: nat)
    requires Held(s.pc) == [] && Taken(next) == []
    ensures Population(s.(buf := [], pc := Flush(s.buf, 0, next)), t) == Population(s, t)
  {
    TimesFlushed(s.buf, 0, next, t);
  }

  lemma ReceiveConserves(c: Config, s: State, t: nat)
    requires s.channel != [] && s.pc == At(Selecting)
    ensures Population(Received(c, s), t) == Population(s, t)
  {
    var s1 := s.(channel := s.channel[1..], buf := s.buf + [s.channel[0]]);
    MoveConserves(s, t);
    FlushConserves(s1, Selecting, t);
    assert Received(c, s) == if |s1.buf| >= c.batchSize then s1.(buf := [], pc := Flush(s1.buf, 0, Selecting)) else s1;
  }

  lemma RetryConserves(s: State, t: nat)
    requires s.pc.At? && s.pc.rest.Retrying?
    ensures Population(Retried(s), t) == Population(s, t)
  {
    if s.pc.rest.ready != [] {
      HeadIsHeld(s.pc.rest.ready, s.pc.rest.final, t);
    }
  }

  lemma HeadIsHeld(ready: seq<Entry>, final: bool, t: nat)
    requires ready != []
    ensures Times(Held(Flush([ready[0].item], ready[0].attempt, Retrying(ready[1..], final))), t)
         == Times(Items(ready), t)
  {
    TimesFlushed([ready[0].item], ready[0].attempt, Retrying(ready[1..], final), t);
    TimesHead(Items(ready), t);
    assert Items(ready)[1..] == Items(ready[1..]);
  }

  lemma LeaveReport(s: State, t: nat)
    requires s.pc.Flushing?
    ensures Population(s.(pc := At(s.pc.next)), t) == Population(s, t) - Times(s.pc.batch, t)
  {
    TimesConcat(s.pc.batch, Taken(s.pc.next), t);
  }

  lemma AbandonConserves(s: State, batch: seq<Item>, t: nat)
    ensures Population(s.(abandoned := s.abandoned + batch), t) == Population(s, t) + Times(batch, t)
  {
    TimesConcat(s.abandoned, batch, t);
  }

  lemma FailConserves(c: Config, s: State, now: int, t: nat)
    requires s.pc.Flushing?
    ensures Population(Failed(c, s, now), t) == Population(s, t)
  {
    var s1, batch, k := s.(pc := At(s.pc.next)), s.pc.batch, s.pc.attempt + 1;
    LeaveReport(s, t);
    ScheduleConserves(s1, batch, k, NextAt(c, k, now), t);
    AbandonConserves(s1, batch, t);
    assert Failed(c, s, now)
        == if k < c.maxRetries then Scheduled(s1, batch, k, NextAt(c, k, now))
           else s1.(abandoned := s1.abandoned + batch);
  }

  lemma SpillConserves(c: Config, s: State, i: nat, now: int, t: nat)
    requires i < |s.entering|
    ensures Population(Apply(c, s, Spill(i, now)), t) == Population(s, t)
  {
    ScheduleConserves(s.(entering := s.entering[..i] + s.entering[i + 1..]), [s.entering[i]], 0, NextAt(c, 0, now), t);
    TimesWithout(s.entering, i, t);
  }

  lemma DrainEndConserves(c: Config, s: State, t: nat)
    requires Enabled(s, DrainEnd)
    ensures Population(Apply(c, s, DrainEnd), t) == Population(s, t)
  {
    TimesFlushed(s.buf, 0, Collecting(true), t);
  }

  lemma CollectConserves(c: Config, s: State, now: int, t: nat)
    requires Enabled(s, Collect(now))
    ensures Population(Apply(c, s, Collect(now)), t) == Population(s, t)
  {
    TimesDue(s.pc.rest.force, now, s.retry, t);
  }

  lemma SucceedConserves(c: Config, s: State, t: nat)
    requires s.pc.Flushing?
    ensures Population(Apply(c, s, Succeed), t) == Population(s, t)
  {
    TimesConcat(s.pc.batch, Taken(s.pc.next), t);
    TimesConcat(s.acked, s.pc.batch, t);
  }

  lemma StepConserves(c: Config, s: State, a: Action, t: nat)
    requires Enabled(s, a)
    ensures Population(Apply(c, s, a), t)
         == Population(s, t) + if a.Enqueue? && a.hash != "" && t == s.issued then 1 else 0
  {
    match a
    case Enqueue(hash) => EnqueueConserves(s, hash, t);
    case Spill(i, now) => SpillConserves(c, s, i, now, t);
    case Receive => ReceiveConserves(c, s, t);
    case Tick => FlushConserves(s, Collecting(false), t);
    case DrainOne => MoveConserves(s, t);
    case DrainEnd => DrainEndConserves(c, s, t);
    case Collect(now) => CollectConserves(c, s, now, t);
    case NextRetry => RetryConserves(s, t);
    case Succeed => SucceedConserves(c, s, t);
    case Fail(now) => FailConserves(c, s, now, t);
    case _ =>
  }

  // --- What an item's place says about its history ---

  function Limit(c: Config): nat {
    if c.maxRetries < 1 then 1 else c.maxRetries
  }

  ghost predicate Fresh(items: seq<Item>, spilled: bool) {
    forall x :: x in items ==> x.sent == 0 && x.spilled == spilled
  }

  /** Queued for attempt k means reported k times; only a spilled item is queued unreported. */
  ghost predicate Counted(c: Config, es: seq<Entry>) {
    forall e :: e in es ==> e.item.sent == e.attempt < Limit(c) && (e.attempt == 0 ==> e.item.spilled)
  }

  ghost predicate TakenOk(c: Config, rest: Rest) {
    rest.Retrying? ==> Counted(c, rest.ready)
  }

  ghost predicate HeldOk(c: Config, pc: Pc) {
    match pc
    case At(rest) => TakenOk(c, rest)
    case Flushing(batch, attempt, next) =>
      attempt < Limit(c) && (forall x :: x in batch ==> x.sent == attempt + 1) && TakenOk(c, next)
    case _ => true
  }

  ghost predicate History(c: Config, s: State) {
    && Fresh(s.entering, true) && Fresh(s.channel, false) && Fresh(s.buf, false)
    && HeldOk(c, s.pc) && Counted(c, s.retry)
    && (forall x :: x in s.acked ==> 1 <= x.sent <= Limit(c))
    && (forall x :: x in s.abandoned ==> x.sent == Limit(c))
    && (forall x :: x in s.dropped ==> x.sent < Limit(c) && (x.sent == 0 ==> x.spilled))
  }

  /** After the final drain. */
  predicate Shutdown(pc: Pc) {
    match pc
    case At(rest) => Final(rest)
    case Flushing(_, _, next) => Final(next)
    case Draining => false
    case Finished => true
  }

  predicate Final(rest: Rest) {
    (rest.Collecting? && rest.force) || (rest.Retrying? && rest.final)
  }

  ghost predicate Bounds(c: Config, s: State) {
    && |s.channel| <= CHANNEL && |s.retry| <= RETRY_QUEUE
    && (s.buf == [] || s.pc.Draining? || (s.pc == At(Selecting) && |s.buf| < c.batchSize))
    && s.cut <= s.issued && (Shutdown(s.pc) ==> forall x :: x in s.channel ==> x.id >= s.cut)
  }

  // --- Every step keeps both ---

  lemma CountedAppended(c: Config, retry: seq<Entry>, items: seq<Item>, attempt: nat, at: int)
    requires Counted(c, retry) && attempt < Limit(c)
    requires forall x :: x in items ==> x.sent == attempt && (attempt == 0 ==> x.spilled)
    ensures Counted(c, retry + Entries(items, attempt, at))
  {
    forall e | e in Entries(items, attempt, at) ensures e.item in items && e.attempt == attempt {
    }
  }

  lemma ScheduleKeepsHistory(c: Config, s: State, items: seq<Item>, attempt: nat, nextAt: int)
    requires History(c, s) && attempt < Limit(c)
    requires forall x :: x in items ==> x.sent == attempt && (attempt == 0 ==> x.spilled)
    ensures History(c, Scheduled(s, items, attempt, nextAt))
  {
    var k := Room(|s.retry|, |items|);
    CountedAppended(c, s.retry, items[..k], attempt, nextAt);
  }

  lemma FlushKeepsHistory(c: Config, batch: seq<Item>, attempt: nat, next: Rest)
    requires TakenOk(c, next) && attempt < Limit(c) && forall x :: x in batch ==> x.sent == attempt
    ensures HeldOk(c, Flush(batch, attempt, next))
  {
  }

  lemma ReceiveKeepsHistory(c: Config, s: State)
    requires History(c, s) && s.channel != [] && s.pc == At(Selecting)
    ensures History(c, Received(c, s))
  {
    FlushKeepsHistory(c, s.buf + [s.channel[0]], 0, Selecting);
  }

  lemma CollectKeepsHistory(c: Config, s: State, force: bool, now: int)
    requires Counted(c, s.retry)
    ensures Counted(c, Filter(Due(force, now), s.retry)) && Counted(c, Filter(NotDue(force, now), s.retry))
  {
    FilterKeeps(Due(force, now), s.retry);
    FilterKeeps(NotDue(force, now), s.retry);
  }

  lemma RetryKeepsHistory(c: Config, s: State)
    requires History(c, s) && s.pc.At? && s.pc.rest.Retrying?
    ensures History(c, Retried(s))
  {
    var ready := s.pc.rest.ready;
    if ready != [] {
      FlushKeepsHistory(c, [ready[0].item], ready[0].attempt, Retrying(ready[1..], s.pc.rest.final));
    }
  }

  lemma FailKeepsHistory(c: Config, s: State, now: int)
    requires History(c, s) && s.pc.Flushing?
    ensures History(c, Failed(c, s, now))
  {
    if s.pc.attempt + 1 < c.maxRetries {
      ScheduleKeepsHistory(c, s.(pc := At(s.pc.next)), s.pc.batch, s.pc.attempt + 1, NextAt(c, s.pc.attempt + 1, now));
    }
  }

  lemma SpillKeepsHistory(c: Config, s: State, i: nat, now: int)
    requires History(c, s) && i < |s.entering|
    ensures History(c, Apply(c, s, Spill(i, now)))
  {
    ScheduleKeepsHistory(c, s.(entering := s.entering[..i] + s.entering[i + 1..]), [s.entering[i]], 0,
      NextAt(c, 0, now));
  }

  lemma StepKeepsHistory(c: Config, s: State, a: Action)
    requires History(c, s) && Enabled(s, a)
    ensures History(c, Apply(c, s, a))
  {
    match a
    case Spill(i, now) => SpillKeepsHistory(c, s, i, now);
    case Receive => ReceiveKeepsHistory(c, s);
    case Tick => FlushKeepsHistory(c, s.buf, 0, Collecting(false));
    case DrainEnd => FlushKeepsHistory(c, s.buf, 0, Collecting(true));
    case Collect(now) => CollectKeepsHistory(c, s, s.pc.rest.force, now);
    case NextRetry => RetryKeepsHistory(c, s);
    case Fail(now) => FailKeepsHistory(c, s, now);
    case _ =>
  }

  lemma StepKeepsBounds(c: Config, s: State, a: Action)
    requires Bounds(c, s) && Enabled(s, a)
    ensures Bounds(c, Apply(c, s, a))
  {
    match a
    case Collect(now) =>
      FilterKeeps(NotDue(s.pc.rest.force, now), s.retry);
    case _ =>
  }

  /** Each issued item is in exactly one place, once. */
  ghost predicate Conserved(s: State) {
    forall t: nat :: Population(s, t) == if t < s.issued then 1 else 0
  }

  lemma StepKeepsConserved(c: Config, s: State, a: Action)
    requires Conserved(s) && Enabled(s, a)
    ensures Conserved(Apply(c, s, a))
  {
    var s' := Apply(c, s, a);
    forall t: nat ensures Population(s', t) == if t < s'.issued then 1 else 0 {
      StepConserves(c, s, a, t);
      StepIssues(c, s, a);
    }
  }

  lemma StepIssues(c: Config, s: State, a: Action)
    requires Enabled(s, a)
    ensures Apply(c, s, a).issued == s.issued + if a.Enqueue? && a.hash != "" then 1 else 0
  {
  }

  ghost predicate Inv(c: Config, s: State) {
    Conserved(s) && History(c, s) && Bounds(c, s)
  }

  /** Over every run: each accepted hash is in exactly one place, its place tells how often it was reported,
      and the queues stay within their bounds. */
  lemma {:induction false} RunKeepsInv(c: Config, s: State, run: seq<Action>)
    requires Inv(c, s) && Runs(c, s, run)
    ensures Inv(c, Exec(c, s, run))
    decreases |run|
  {
    if run != [] {
      StepKeepsConserved(c, s, run[0]);
      StepKeepsHistory(c, s, run[0]);
      StepKeepsBounds(c, s, run[0]);
      RunKeepsInv(c, Apply(c, s, run[0]), run[1..]);
    }
  }

  // --- What every run guarantees ---

  lemma StartIsFine(c: Config)
    ensures Inv(c, START)
  {
  }

  /** The reports an item was part of never exceed `maxRetries` (one if that is not positive); an abandoned
      item used all of them, an acknowledged one at least one, a dropped one not all. */
  lemma ReportsAreBounded(c: Config, run: seq<Action>, x: Item)
    requires Runs(c, START, run)
    ensures var s := Exec(c, START, run);
            && (x in s.entering + s.channel + s.buf + Held(s.pc) + Items(s.retry) ==> x.sent <= Limit(c))
            && (x in s.acked + s.abandoned + s.dropped ==> x.sent <= Limit(c))
            && (x in s.abandoned ==> x.sent == Limit(c))
            && (x in s.acked ==> x.sent >= 1)
            && (x in s.dropped ==> x.sent < Limit(c))
  {
    StartIsFine(c);
    RunKeepsInv(c, START, run);
    var s := Exec(c, START, run);
    assert x in Items(s.retry) ==> exists e :: e in s.retry && e.item == x;
    if x in Held(s.pc) {
      HeldIsBounded(c, s.pc, x);
    }
  }

  lemma HeldIsBounded(c: Config, pc: Pc, x: Item)
    requires HeldOk(c, pc) && x in Held(pc)
    ensures x.sent <= Limit(c)
  {
  }

  /** When the loop has ended, no item is in the batch or in a report, and every item that went through the
      channel before the final drain found it empty, so in particular before `Stop`, was reported. */
  lemma StopDrains(c: Config, run: seq<Action>)
    requires Runs(c, START, run) && Exec(c, START, run).pc.Finished?
    ensures var s := Exec(c, START, run);
            && s.buf == [] && Held(s.pc) == []
            && var all := s.entering + s.channel + Items(s.retry) + s.acked + s.abandoned + s.dropped;
               forall x :: x in all && !x.spilled && x.id < s.cut ==> x.sent >= 1
  {
    StartIsFine(c);
    RunKeepsInv(c, START, run);
    var s := Exec(c, START, run);
    forall x | x in Items(s.retry) && !x.spilled ensures x.sent >= 1 {
      var i :| 0 <= i < |s.retry| && Items(s.retry)[i] == x;
      assert s.retry[i] in s.retry;
    }
  }

  // --- Where a hash goes first ---

  /** A named hash joins the channel while 1024 fit and otherwise has to be spilled; an empty one is ignored. */
  lemma WhereHashesGo(c: Config, s: State, hash: string)
    ensures var s' := Apply(c, s, Enqueue(hash));
            && (hash == "" ==> s' == s)
            && (hash != "" && |s.channel| < 1024 ==>
                  s'.channel == s.channel + [Item(s.issued, hash, 0, false)] && s'.entering == s.entering)
            && (hash != "" && |s.channel| >= 1024 ==>
                  s'.entering == s.entering + [Item(s.issued, hash, 0, true)] && s'.channel == s.channel)
  {
  }

  /** A spilled hash is queued as attempt 0, due after the initial delay, while 4096 fit. */
  lemma SpilledIsQueued(c: Config, s: State, i: nat, now: int)
    requires i < |s.entering| && |s.retry| < 4096
    ensures var s' := Apply(c, s, Spill(i, now));
            && s'.retry == s.retry + [Entry(s.entering[i], 0, now + c.retryInitial)] && s'.dropped == s.dropped
            && s'.entering == s.entering[..i] + s.entering[i + 1..]
  {
    var one := [s.entering[i]];
    assert one[..1] == one && one[1..] == [];
    assert s.dropped + [] == s.dropped;
    assert Entries(one, 0, now + c.retryInitial) == [Entry(s.entering[i], 0, now + c.retryInitial)];
  }

  // --- When a failed report is tried again ---

  /** Where the batch of a failed report goes: while attempts are left and the queue has room, every item is queued
      for the next attempt, due after the initial delay doubled for each attempt but the first, at most the maximum;
      nothing is dropped while 4096 fit. */
  lemma FailedBatchIsQueued(c: Config, s: State, now: int, i: nat)
    requires s.pc.Flushing? && i < |s.pc.batch| && s.pc.attempt + 1 < c.maxRetries && |s.retry| + |s.pc.batch| <= 4096
    ensures var s', k := Apply(c, s, Fail(now)), s.pc.attempt + 1;
            var delay := if k == 1 then c.retryInitial else Min(c.retryInitial * Pow2(k - 1), c.retryMax);
            && |s'.retry| == |s.retry| + |s.pc.batch| && s'.retry[|s.retry| + i] == Entry(s.pc.batch[i], k, now + delay)
            && s'.dropped == s.dropped && s'.abandoned == s.abandoned
  {
    DelayClosedForm(c.retryInitial, c.retryMax, s.pc.attempt + 1);
    var batch := s.pc.batch;
    assert batch[..|batch|] == batch && batch[|batch|..] == [];
    assert s.dropped + [] == s.dropped;
  }

  /** Every collection in the run comes before the entry is due, and none is forced. */
  predicate AllTooEarly(c: Config, s: State, run: seq<Action>, nextAt: int)
    requires Runs(c, s, run)
    decreases |run|
  {
    run == [] ||
    (&& (run[0].Collect? ==> !s.pc.rest.force && run[0].now < nextAt)
     && AllTooEarly(c, Apply(c, s, run[0]), run[1..], nextAt))
  }

  lemma CollectTakesDue(c: Config, s: State, now: int, e: Entry)
    requires Enabled(s, Collect(now)) && e in s.retry
    ensures var s' := Apply(c, s, Collect(now));
            if s.pc.rest.force || e.nextAt <= now then e in s'.pc.rest.ready && e !in s'.retry
            else e in s'.retry && e !in s'.pc.rest.ready
  {
    var force := s.pc.rest.force;
    FilterKeeps(Due(force, now), s.retry);
    FilterKeeps(NotDue(force, now), s.retry);
    FilterFinds(Due(force, now), s.retry);
    FilterFinds(NotDue(force, now), s.retry);
  }

  lemma EntryStays(c: Config, s: State, a: Action, e: Entry)
    requires Enabled(s, a) && e in s.retry && (a.Collect? ==> !s.pc.rest.force && a.now < e.nextAt)
    ensures e in Apply(c, s, a).retry
  {
    if a.Collect? {
      CollectTakesDue(c, s, a.now, e);
    }
  }

  lemma {:induction false} EntryWaits(c: Config, s: State, run: seq<Action>, e: Entry)
    requires Runs(c, s, run) && e in s.retry && AllTooEarly(c, s, run, e.nextAt)
    ensures e in Exec(c, s, run).retry
    decreases |run|
  {
    if run != [] {
      EntryStays(c, s, run[0], e);
      EntryWaits(c, Apply(c, s, run[0]), run[1..], e);
    }
  }

  /** A queued entry is not tried before it is due unless a stop forces it, and the first collection at or after its
      time takes it. */
  lemma RetriedWhenDue(c: Config, s: State, run: seq<Action>, e: Entry, now: int)
    requires Runs(c, s, run) && e in s.retry && AllTooEarly(c, s, run, e.nextAt)
    requires Enabled(Exec(c, s, run), Collect(now))
    ensures var s1 := Exec(c, s, run);
            var s2 := Apply(c, s1, Collect(now));
            && (e in s2.pc.rest.ready <==> s1.pc.rest.force || e.nextAt <= now)
            && (e in s2.retry <==> e !in s2.pc.rest.ready)
  {
    EntryWaits(c, s, run, e);
    CollectTakesDue(c, Exec(c, s, run), now, e);
  }

  // --- When a report goes out ---

  /** The loop reports a batch exactly when it is full, on every tick, and when it has drained the channel after a stop;
      the report has everything that was buffered, in order, and the buffer is empty then. */
  lemma WhatGoesOut(c: Config, s: State, a: Action)
    requires Enabled(s, a) && (a.Receive? || a.Tick? || a.DrainEnd?)
    ensures var s' := Apply(c, s, a);
            var buf := s.buf + if a.Receive? then [s.channel[0]] else [];
            if buf != [] && (a.Receive? ==> |buf| >= c.batchSize) then
              && s'.buf == [] && s'.pc.Flushing? && s'.pc.attempt == 0 && |s'.pc.batch| == |buf|
              && forall i :: 0 <= i < |buf| ==> s'.pc.batch[i] == buf[i].(sent := buf[i].sent + 1)
            else s'.buf == buf && !s'.pc.Flushing?
  {
    assert s.buf + [] == s.buf;
  }

  /** A retry is one report of one entry, in order of the queue, with the attempt the entry was queued for. */
  lemma RetryGoesOut(c: Config, s: State)
    requires Enabled(s, NextRetry)
    ensures var s', ready := Apply(c, s, NextRetry), s.pc.rest.ready;
            if ready != [] then
              && s'.pc.Flushing? && s'.pc.attempt == ready[0].attempt
              && s'.pc.batch == [ready[0].item.(sent := ready[0].item.sent + 1)]
              && s'.pc.next == Retrying(ready[1..], s.pc.rest.final)
            else s'.pc == if s.pc.rest.final then Finished else At(Selecting)
  {
  }

  /** A report that succeeds acknowledges the whole batch; one that fails for the last time abandons it. */
  lemma WhatReportsDo(c: Config, s: State, now: int)
    requires s.pc.Flushing?
    ensures Apply(c, s, Succeed).acked == s.acked + s.pc.batch && Apply(c, s, Succeed).retry == s.retry
    ensures s.pc.attempt + 1 >= c.maxRetries ==>
              Apply(c, s, Fail(now)).abandoned == s.abandoned + s.pc.batch && Apply(c, s, Fail(now)).retry == s.retry
  {
  }
}
