/** Upload admission on a peer server: a slot semaphore with a bounded queue in front of it.  The queue
    counter is raised before it is checked and lowered only on return, so requests race on it. */
module Admission {
  import opened Base

  type Request = nat

  datatype Phase =
    | Arrived
    | Full                     // found no free slot, not counted yet
    | Counted(ticket: int)     // counter raised, bound not checked yet
    | Waiting(ticket: int)
    | Granted(ticket: int)     // has a slot, counter not lowered yet
    | Refused(ticket: int)     // turned away or cancelled, counter not lowered yet
    | Active
    | Done

  datatype Limits = Limits(maxConcurrency: int, maxQueue: int)

  /** What the constructor makes of the configured limits. */
  function Effective(l: Limits): (r: Limits)
    ensures r.maxConcurrency > 0 && r.maxQueue >= 0
    ensures l.maxConcurrency > 0 ==> r.maxConcurrency == l.maxConcurrency
    ensures l.maxQueue >= 0 ==> r.maxQueue == l.maxQueue
  {
    Limits(if l.maxConcurrency <= 0 then 16 else l.maxConcurrency, if l.maxQueue < 0 then 0 else l.maxQueue)
  }

  datatype State = State(slots: nat, queued: int, reqs: map<Request, Phase>)

  datatype Step = TryNow | Count | Check | Grant | Cancel | Return | Release

  datatype Action = Arrive(req: Request) | By(r: Request, step: Step)

  predicate StepEnabled(l: Limits, s: State, p: Phase, step: Step) {
    match step
    case TryNow => p.Arrived?
    case Count => p.Full?
    case Check => p.Counted?
    case Grant => p.Waiting? && s.slots < l.maxConcurrency
    case Cancel => p.Waiting?
    case Return => p.Granted? || p.Refused?
    case Release => p.Active?
  }

  function NextPhase(l: Limits, s: State, p: Phase, step: Step): Phase
    requires StepEnabled(l, s, p, step)
  {
    match step
    case TryNow => if s.slots < l.maxConcurrency then Active else if l.maxQueue == 0 then Done else Full
    case Count => Counted(s.queued + 1)
    case Check => if p.ticket > l.maxQueue then Refused(p.ticket) else Waiting(p.ticket)
    case Grant => Granted(p.ticket)
    case Cancel => Refused(p.ticket)
    case Return => if p.Granted? then Active else Done
    case Release => Done
  }

  function NextSlots(l: Limits, s: State, step: Step): nat {
    match step
    case TryNow => if s.slots < l.maxConcurrency then s.slots + 1 else s.slots
    case Grant => s.slots + 1
    case Release => if s.slots > 0 then s.slots - 1 else s.slots
    case _ => s.slots
  }

  function NextQueued(s: State, step: Step): int {
    match step
    case Count => s.queued + 1
    case Return => s.queued - 1
    case _ => s.queued
  }

  predicate Enabled(l: Limits, s: State, a: Action) {
    match a
    case Arrive(r) => r !in s.reqs
    case By(r, step) => r in s.reqs && StepEnabled(l, s, s.reqs[r], step)
  }

  function Apply(l: Limits, s: State, a: Action): State
    requires Enabled(l, s, a)
  {
    match a
    case Arrive(r) => s.(reqs := s.reqs[r := Arrived])
    case By(r, step) =>
      State(NextSlots(l, s, step), NextQueued(s, step), s.reqs[r := NextPhase(l, s, s.reqs[r], step)])
  }

  predicate Runs(l: Limits, s: State, run: seq<Action>)
    decreases |run|
  {
    run == [] || (Enabled(l, s, run[0]) && Runs(l, Apply(l, s, run[0]), run[1..]))
  }

  function Exec(l: Limits, s: State, run: seq<Action>): State
    requires Runs(l, s, run)
    decreases |run|
  {
    if run == [] then s else Exec(l, Apply(l, s, run[0]), run[1..])
  }

  const START := State(0, 0, map[])

  // --- The invariant ---

  predicate HasSlot(p: Phase) {
    p.Active? || p.Granted?
  }

  predicate IsCounted(p: Phase) {
    p.Counted? || p.Waiting? || p.Granted? || p.Refused?
  }

  function Holders(reqs: map<Request, Phase>): set<Request> {
    set r | r in reqs && HasSlot(reqs[r])
  }

  function CountedUpTo(reqs: map<Request, Phase>, k: int): set<Request> {
    set r | r in reqs && IsCounted(reqs[r]) && reqs[r].ticket <= k
  }

  function AllCounted(reqs: map<Request, Phase>): set<Request> {
    set r | r in reqs && IsCounted(reqs[r])
  }

  function InQueue(reqs: map<Request, Phase>): set<Request> {
    set r | r in reqs && reqs[r].Waiting?
  }

  /** At most k counted requests hold a ticket no larger than k. */
  ghost predicate TicketsSparse(reqs: map<Request, Phase>) {
    forall k: nat :: |CountedUpTo(reqs, k)| <= k
  }

  ghost predicate Inv(l: Limits, s: State) {
    && s.slots == |Holders(s.reqs)| && s.slots <= l.maxConcurrency
    && s.queued == |AllCounted(s.reqs)|
    && TicketsSparse(s.reqs)
    && forall r :: r in s.reqs && s.reqs[r].Waiting? ==> s.reqs[r].ticket <= l.maxQueue
  }

  // --- One phase change ---

  lemma HoldersAfter(reqs: map<Request, Phase>, r: Request, p: Phase)
    ensures Holders(reqs[r := p]) == if HasSlot(p) then Holders(reqs) + {r} else Holders(reqs) - {r}
  {
  }

  lemma CountedAfter(reqs: map<Request, Phase>, r: Request, p: Phase)
    ensures AllCounted(reqs[r := p]) == if IsCounted(p) then AllCounted(reqs) + {r} else AllCounted(reqs) - {r}
  {
  }

  /** A counted request that keeps its ticket or leaves, or a new one whose ticket is past the whole count. */
  lemma TicketsAfter(reqs: map<Request, Phase>, r: Request, p: Phase)
    requires TicketsSparse(reqs)
    requires IsCounted(p) ==>
               p.ticket == |AllCounted(reqs)| + 1 || (r in reqs && IsCounted(reqs[r]) && reqs[r].ticket == p.ticket)
    ensures TicketsSparse(reqs[r := p])
  {
    var reqs' := reqs[r := p];
    forall k: nat ensures |CountedUpTo(reqs', k)| <= k {
      var was, now := CountedUpTo(reqs, k), CountedUpTo(reqs', k);
      assert |was| <= k;
      if now <= was {
        SubsetSize(now, was);
      } else {
        assert now <= was + {r};
        SubsetSize(now, was + {r});
        SubsetSize(was, AllCounted(reqs));
      }
    }
  }

  lemma KeepsSlots(l: Limits, s: State, a: Action)
    requires s.slots == |Holders(s.reqs)| <= l.maxConcurrency && Enabled(l, s, a)
    ensures var s' := Apply(l, s, a); s'.slots == |Holders(s'.reqs)| <= l.maxConcurrency
  {
    match a
    case Arrive(r) => SlotCount(l, s.reqs, r, Arrived, s.slots, s.slots);
    case By(r, step) =>
      if HasSlot(s.reqs[r]) {
        SlotHolder(s.reqs, r);
      }
      SlotCount(l, s.reqs, r, NextPhase(l, s, s.reqs[r], step), s.slots, NextSlots(l, s, step));
  }

  lemma SlotHolder(reqs: map<Request, Phase>, r: Request)
    requires r in reqs && HasSlot(reqs[r])
    ensures |Holders(reqs)| > 0
  {
    assert r in Holders(reqs);
  }

  predicate HasSlotIn(reqs: map<Request, Phase>, r: Request) {
    r in reqs && HasSlot(reqs[r])
  }

  /** One request changes its phase, and the counter follows. */
  lemma SlotCount(l: Limits, reqs: map<Request, Phase>, r: Request, p: Phase, slots: nat, slots': nat)
    requires slots == |Holders(reqs)| <= l.maxConcurrency
    requires || (HasSlot(p) == HasSlotIn(reqs, r) && slots' == slots)
             || (HasSlot(p) && !HasSlotIn(reqs, r) && slots' == slots + 1 <= l.maxConcurrency)
             || (!HasSlot(p) && HasSlotIn(reqs, r) && slots' == slots - 1)
    ensures slots' == |Holders(reqs[r := p])| <= l.maxConcurrency
  {
    var was := Holders(reqs);
    HoldersAfter(reqs, r, p);
    assert r in was <==> HasSlotIn(reqs, r);
    assert r in was ==> was + {r} == was;
    assert r !in was ==> was - {r} == was;
  }

  lemma KeepsQueued(l: Limits, s: State, a: Action)
    requires s.queued == |AllCounted(s.reqs)| && Enabled(l, s, a)
    ensures var s' := Apply(l, s, a); s'.queued == |AllCounted(s'.reqs)|
  {
    match a
    case Arrive(r) => CountedCount(s.reqs, r, Arrived, s.queued, s.queued);
    case By(r, step) => CountedCount(s.reqs, r, NextPhase(l, s, s.reqs[r], step), s.queued, NextQueued(s, step));
  }

  predicate IsCountedIn(reqs: map<Request, Phase>, r: Request) {
    r in reqs && IsCounted(reqs[r])
  }

  lemma CountedCount(reqs: map<Request, Phase>, r: Request, p: Phase, queued: int, queued': int)
    requires queued == |AllCounted(reqs)|
    requires || (IsCounted(p) == IsCountedIn(reqs, r) && queued' == queued)
             || (IsCounted(p) && !IsCountedIn(reqs, r) && queued' == queued + 1)
             || (!IsCounted(p) && IsCountedIn(reqs, r) && queued' == queued - 1)
    ensures queued' == |AllCounted(reqs[r := p])|
  {
    var was := AllCounted(reqs);
    CountedAfter(reqs, r, p);
    assert r in was <==> IsCountedIn(reqs, r);
    assert r in was ==> was + {r} == was;
    assert r !in was ==> was - {r} == was;
  }

  lemma KeepsTickets(l: Limits, s: State, a: Action)
    requires s.queued == |AllCounted(s.reqs)| && TicketsSparse(s.reqs) && Enabled(l, s, a)
    ensures TicketsSparse(Apply(l, s, a).reqs)
  {
    var r := if a.Arrive? then a.req else a.r;
    TicketsAfter(s.reqs, r, Apply(l, s, a).reqs[r]);
  }

  lemma KeepsInv(l: Limits, s: State, a: Action)
    requires Inv(l, s) && Enabled(l, s, a)
    ensures Inv(l, Apply(l, s, a))
  {
    KeepsSlots(l, s, a);
    KeepsQueued(l, s, a);
    KeepsTickets(l, s, a);
  }

  lemma {:induction false} RunKeepsInv(l: Limits, s: State, run: seq<Action>)
    requires Inv(l, s) && Runs(l, s, run)
    ensures Inv(l, Exec(l, s, run))
    decreases |run|
  {
    if run != [] {
      KeepsInv(l, s, run[0]);
      RunKeepsInv(l, Apply(l, s, run[0]), run[1..]);
    }
  }

  // --- What every run guarantees ---

  /** At most `maxConcurrency` uploads and at most `maxQueue` waiters, however the requests interleave; the
      semaphore holds exactly the running uploads, so a release never finds it empty. */
  lemma EveryRunIsBounded(l: Limits, run: seq<Action>)
    requires Runs(Effective(l), START, run)
    ensures var e, s := Effective(l), Exec(Effective(l), START, run);
            && |Holders(s.reqs)| == s.slots <= e.maxConcurrency
            && |InQueue(s.reqs)| <= e.maxQueue
            && s.queued == |AllCounted(s.reqs)|
            && (forall r :: r in s.reqs && s.reqs[r].Active? ==> s.slots > 0)
  {
    var e := Effective(l);
    StartIsFine(e);
    RunKeepsInv(e, START, run);
    var s := Exec(e, START, run);
    SubsetSize(InQueue(s.reqs), CountedUpTo(s.reqs, e.maxQueue));
    forall r | r in s.reqs && s.reqs[r].Active? ensures s.slots > 0 {
      assert r in Holders(s.reqs);
    }
  }

  lemma StartIsFine(l: Limits)
    requires l.maxConcurrency >= 0
    ensures Inv(l, START)
  {
    assert Holders(START.reqs) == {} && AllCounted(START.reqs) == {};
    forall k: nat ensures |CountedUpTo(START.reqs, k)| <= k {
      assert CountedUpTo(START.reqs, k) == {};
    }
  }

  // --- The way of one request ---

  /** None of the actions is the request's own. */
  predicate ByOthers(run: seq<Action>, r: Request) {
    forall i :: 0 <= i < |run| ==> run[i].By? ==> run[i].r != r
  }

  /** What others do does not move a request. */
  lemma {:induction false} OthersLeaveIt(l: Limits, s: State, run: seq<Action>, r: Request)
    requires Runs(l, s, run) && ByOthers(run, r) && r in s.reqs
    ensures r in Exec(l, s, run).reqs && Exec(l, s, run).reqs[r] == s.reqs[r]
    decreases |run|
  {
    if run != [] {
      var a, s' := run[0], Apply(l, s, run[0]);
      assert a.Arrive? ==> a.req != r;
      assert r in s'.reqs && s'.reqs[r] == s.reqs[r];
      OthersLeaveIt(l, s', run[1..], r);
    }
  }

  /** A request that found no free slot draws its ticket, others do whatever they do, and then it is checked: it
      waits if and only if fewer than `maxQueue` others were counted when it drew the ticket. */
  lemma QueueAdmits(l: Limits, before: seq<Action>, r: Request, between: seq<Action>)
    requires l.maxConcurrency >= 0 && Runs(l, START, before)
    requires var s := Exec(l, START, before);
             && r in s.reqs && s.reqs[r].Full?
             && Runs(l, Apply(l, s, By(r, Count)), between) && ByOthers(between, r)
    ensures var s := Exec(l, START, before);
            var mid := Exec(l, Apply(l, s, By(r, Count)), between);
            && Enabled(l, mid, By(r, Check))
            && var p := Apply(l, mid, By(r, Check)).reqs[r];
               if |AllCounted(s.reqs)| < l.maxQueue then p.Waiting? else p.Refused?
  {
    StartIsFine(l);
    RunKeepsInv(l, START, before);
    var s := Exec(l, START, before);
    OthersLeaveIt(l, Apply(l, s, By(r, Count)), between, r);
  }

  /** A waiting request can be granted exactly while a slot is free; granted, it holds the slot whatever others do,
      and its return leaves it active. */
  lemma GrantLeadsToActive(l: Limits, s: State, r: Request, between: seq<Action>)
    requires r in s.reqs && s.reqs[r].Waiting?
    requires s.slots < l.maxConcurrency ==> Runs(l, Apply(l, s, By(r, Grant)), between) && ByOthers(between, r)
    ensures Enabled(l, s, By(r, Grant)) <==> s.slots < l.maxConcurrency
    ensures s.slots < l.maxConcurrency ==>
              var mid := Exec(l, Apply(l, s, By(r, Grant)), between);
              Enabled(l, mid, By(r, Return)) && Apply(l, mid, By(r, Return)).reqs[r] == Active
  {
    if s.slots < l.maxConcurrency {
      OthersLeaveIt(l, Apply(l, s, By(r, Grant)), between, r);
    }
  }

  /** A waiting request can always be cancelled; whatever others do then, its return leaves it done. */
  lemma CancelLeadsToDone(l: Limits, s: State, r: Request, between: seq<Action>)
    requires r in s.reqs && s.reqs[r].Waiting?
    requires Runs(l, Apply(l, s, By(r, Cancel)), between) && ByOthers(between, r)
    ensures var mid := Exec(l, Apply(l, s, By(r, Cancel)), between);
            Enabled(l, mid, By(r, Return)) && Apply(l, mid, By(r, Return)).reqs[r] == Done
  {
    OthersLeaveIt(l, Apply(l, s, By(r, Cancel)), between, r);
  }

  /** Why requests are refused, as far as `log` tells. */
  ghost predicate RefusalsHaveCause(l: Limits, reqs: map<Request, Phase>, log: seq<Action>) {
    && (forall r :: r in reqs && reqs[r].Refused? ==> reqs[r].ticket > l.maxQueue || By(r, Cancel) in log)
    && (forall r :: r in reqs && (reqs[r].Waiting? || reqs[r].Granted?) ==> reqs[r].ticket <= l.maxQueue)
  }

  lemma {:induction false} RunKeepsCause(l: Limits, s: State, log: seq<Action>, run: seq<Action>)
    requires Runs(l, s, run) && RefusalsHaveCause(l, s.reqs, log)
    ensures RefusalsHaveCause(l, Exec(l, s, run).reqs, log + run)
    decreases |run|
  {
    if run == [] {
      assert log + run == log;
    } else {
      var s' := Apply(l, s, run[0]);
      assert run[0] in log + [run[0]];
      RunKeepsCause(l, s', log + [run[0]], run[1..]);
      assert log + run == log + [run[0]] + run[1..];
    }
  }

  /** Nobody is refused without cause: in every run a refused request was cancelled while it waited, or had drawn a
      ticket above `maxQueue`. */
  lemma RefusedForCause(l: Limits, run: seq<Action>, r: Request)
    requires Runs(l, START, run) && r in Exec(l, START, run).reqs && Exec(l, START, run).reqs[r].Refused?
    ensures By(r, Cancel) in run || Exec(l, START, run).reqs[r].ticket > l.maxQueue
  {
    RunKeepsCause(l, START, [], run);
    assert [] + run == run;
  }

  /** An arriving request gets a slot at once exactly if one is free; without a queue it is otherwise turned away. */
  lemma FreeSlotIsGiven(l: Limits, run: seq<Action>, r: Request)
    requires l.maxConcurrency >= 0 && Runs(l, START, run)
    requires var s := Exec(l, START, run); r in s.reqs && s.reqs[r].Arrived?
    ensures var s := Exec(l, START, run);
            var p := Apply(l, s, By(r, TryNow)).reqs[r];
            && (p.Active? <==> |Holders(s.reqs)| < l.maxConcurrency)
            && (!p.Active? ==> if l.maxQueue == 0 then p.Done? else p.Full?)
  {
    StartIsFine(l);
    RunKeepsInv(l, START, run);
  }

  /** A request is turned away for a full queue only while `maxQueue` others are counted, and is turned
      away or queued at all only while every slot is taken. */
  lemma RefusalIsEarned(l: Limits, s: State, r: Request)
    requires Inv(l, s) && l.maxQueue >= 0 && r in s.reqs
    ensures s.reqs[r].Arrived? && !NextPhase(l, s, s.reqs[r], TryNow).Active? ==> |Holders(s.reqs)| == l.maxConcurrency
    ensures s.reqs[r].Full? && NextPhase(l, s, s.reqs[r], Count).ticket > l.maxQueue ==>
              |AllCounted(s.reqs) - {r}| >= l.maxQueue
  {
    assert s.reqs[r].Full? ==> AllCounted(s.reqs) - {r} == AllCounted(s.reqs);
  }

  /** Nothing gets stuck: while a request is unfinished, some request has a step other than a cancellation. */
  lemma SomeRequestCanAdvance(l: Limits, s: State, r: Request) returns (r': Request, step: Step)
    requires Inv(l, s) && l.maxConcurrency > 0 && r in s.reqs && !s.reqs[r].Done?
    ensures Enabled(l, s, By(r', step)) && step != Cancel
  {
    match s.reqs[r]
    case Arrived => return r, TryNow;
    case Full => return r, Count;
    case Counted(_) => return r, Check;
    case Granted(_) => return r, Return;
    case Refused(_) => return r, Return;
    case Active => return r, Release;
    case Waiting(_) =>
      if s.slots < l.maxConcurrency {
        return r, Grant;
      }
      r' :| r' in Holders(s.reqs);
      step := if s.reqs[r'].Active? then Release else Return;
  }
}
