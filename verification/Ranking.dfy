/** The order in which the engine takes missing chunks and tries their peers. */
module Ranking {
  import opened Base
  import opened Sorting

  // --- Rarest chunk first ---

  datatype Item = Item(h: Hash, n: nat)

  function ItemOf(h: Hash, peers: map<Hash, nat>): Item {
    Item(h, if h in peers then peers[h] else 0)
  }

  function ItemsOf(hashes: seq<Hash>, peers: map<Hash, nat>): seq<Item> {
    seq(|hashes|, i requires 0 <= i < |hashes| => ItemOf(hashes[i], peers))
  }

  function Names(items: seq<Item>): seq<Hash> {
    seq(|items|, i requires 0 <= i < |items| => items[i].h)
  }

  function Fewer(a: Item, b: Item): bool {
    a.n < b.n
  }

  function HasPeers(it: Item): bool {
    it.n > 0
  }

  function HasNone(it: Item): bool {
    it.n == 0
  }

  /** Chunks nobody has come last, so that the origin fills them. */
  function Rarity(it: Item, other: Item): bool {
    if it.n == 0 then false else other.n == 0 || it.n < other.n
  }

  function RarestItems(items: seq<Item>): seq<Item> {
    Sort(Fewer, Filter(HasPeers, items)) + Filter(HasNone, items)
  }

  ghost predicate SomePeer(peers: map<Hash, nat>, h: Hash) {
    h in peers && peers[h] > 0
  }

  /** Chunks that peers have stand in front, those that fewer have before the others. */
  ghost predicate InOrder(peers: map<Hash, nat>, out: seq<Hash>) {
    forall i, j :: 0 <= i < j < |out| && SomePeer(peers, out[j]) ==>
      SomePeer(peers, out[i]) && peers[out[i]] <= peers[out[j]]
  }

  method RarestFirst(hashes: seq<Hash>, peers: map<Hash, nat>) returns (out: seq<Hash>)
    ensures out == Names(RarestItems(ItemsOf(hashes, peers)))
    ensures InOrder(peers, out) && multiset(out) == multiset(hashes)
  {
    ghost var items := ItemsOf(hashes, peers);
    var withPeers: seq<Item>, without: seq<Item> := [], [];
    for i := 0 to |hashes|
      invariant withPeers == Filter(HasPeers, items[..i])
      invariant without == Filter(HasNone, items[..i])
    {
      var it := ItemOf(hashes[i], peers);
      assert items[..i + 1] == items[..i] + [it];
      FilterSnoc(HasPeers, items[..i], it);
      FilterSnoc(HasNone, items[..i], it);
      if it.n == 0 {
        without := without + [it];
      } else {
        withPeers := withPeers + [it];
      }
    }
    assert items[..|hashes|] == items;
    var a := new Item[|withPeers|](i requires 0 <= i < |withPeers| => withPeers[i]);
    assert a[..] == withPeers;
    InsertionSort(a, Fewer);
    var sorted := a[..] + without;
    RarestItemsOrder(items, 0);
    NamesInOrder(hashes, peers, sorted);
    out := Names(sorted);
  }

  lemma FilterSplitsOneMore(low: seq<Item>, it: Item)
    requires multiset(Filter(HasPeers, low)) + multiset(Filter(HasNone, low)) == multiset(low)
    ensures multiset(Filter(HasPeers, low + [it])) + multiset(Filter(HasNone, low + [it])) == multiset(low + [it])
  {
    FilterSnoc(HasPeers, low, it);
    FilterSnoc(HasNone, low, it);
    assert multiset(low + [it]) == multiset(low) + multiset{it};
  }

  lemma {:induction false} FilterSplits(items: seq<Item>)
    ensures multiset(Filter(HasPeers, items)) + multiset(Filter(HasNone, items)) == multiset(items)
    decreases |items|
  {
    if items != [] {
      var low, it := Unsnoc(items);
      FilterSplits(low);
      FilterSplitsOneMore(low, it);
    }
  }

  lemma {:induction false} FilterAll<T>(p: T -> bool, q: T -> bool, s: seq<T>)
    requires forall x :: x in s ==> p(x) ==> q(x)
    ensures Filter(p, Filter(q, s)) == Filter(p, s)
    decreases |s|
  {
    if s != [] {
      var t, x := s[..|s| - 1], s[|s| - 1];
      FilterAll(p, q, t);
      if q(x) {
        FilterSnoc(p, Filter(q, t), x);
      } else {
        assert Filter(q, s) == Filter(q, t) && x in s;
      }
    }
  }

  lemma {:induction false} FilterNone<T>(p: T -> bool, s: seq<T>)
    requires forall x :: x in s ==> !p(x)
    ensures Filter(p, s) == []
    decreases |s|
  {
    if s != [] {
      FilterNone(p, s[..|s| - 1]);
    }
  }

  /** Rarest-first is a permutation, ascending by peer count with peerless chunks last, and keeps the
      given order among chunks that equally many peers have. */
  lemma RarestItemsOrder(items: seq<Item>, k: nat)
    ensures multiset(RarestItems(items)) == multiset(items)
    ensures Ordered(Rarity, RarestItems(items))
    ensures Filter((it: Item) => it.n == k, RarestItems(items)) == Filter((it: Item) => it.n == k, items)
  {
    var some, none := Filter(HasPeers, items), Filter(HasNone, items);
    FilterSplits(items);
    SortPermutes(Fewer, some);
    SortOrders(Fewer, some);
    FilterKeeps(HasPeers, items);
    FilterKeeps(HasNone, items);
    MultisetMembers(Sort(Fewer, some), some);
    RarityOfParts(Sort(Fewer, some), none);
    var p := (it: Item) => it.n == k;
    FilterConcat(p, Sort(Fewer, some), none);
    SortIsStable(Fewer, p, some);
    if k == 0 {
      FilterNone(p, some);
      FilterAll(p, HasNone, items);
    } else {
      FilterNone(p, none);
      FilterAll(p, HasPeers, items);
    }
  }

  lemma RarityOfParts(a: seq<Item>, b: seq<Item>)
    requires Ordered(Fewer, a) && (forall it :: it in a ==> it.n > 0) && (forall it :: it in b ==> it.n == 0)
    ensures Ordered(Rarity, a + b)
  {
    forall i, j | 0 <= i < j < |a + b| ensures !Rarity((a + b)[j], (a + b)[i]) {
      assert (a + b)[i] == if i < |a| then a[i] else b[i - |a|];
      assert (a + b)[j] == if j < |a| then a[j] else b[j - |a|];
    }
  }

  lemma TakeOut(items: seq<Item>, it: Item) returns (l: seq<Item>, r: seq<Item>)
    requires it in multiset(items)
    ensures items == l + [it] + r
  {
    var i :| 0 <= i < |items| && items[i] == it;
    l, r := items[..i], items[i + 1..];
  }

  lemma OneLess(low: seq<Item>, it: Item, l: seq<Item>, r: seq<Item>)
    requires multiset(low + [it]) == multiset(l + [it] + r)
    ensures multiset(low) == multiset(l + r)
  {
    var one := multiset{it};
    assert multiset(low) == multiset(low + [it]) - one;
    assert multiset(l + r) == multiset(l + [it] + r) - one;
  }

  lemma NamesOfParts(l: seq<Item>, it: Item, r: seq<Item>)
    ensures multiset(Names(l + [it] + r)) == multiset(Names(l + r)) + multiset{it.h}
    ensures Names(l + [it]) == Names(l) + [it.h]
  {
    assert Names(l + [it] + r) == Names(l) + [it.h] + Names(r);
    assert Names(l + r) == Names(l) + Names(r);
  }

  lemma {:induction false} NamesPermute(a: seq<Item>, b: seq<Item>)
    requires multiset(a) == multiset(b)
    ensures multiset(Names(a)) == multiset(Names(b))
    decreases |a|
  {
    if a == [] {
      assert |b| == |multiset(b)| == 0;
    } else {
      var low, it := Unsnoc(a);
      assert it in multiset(a);
      var l, r := TakeOut(b, it);
      OneLess(low, it, l, r);
      NamesPermute(low, l + r);
      NamesOfParts(l, it, r);
      NamesOfParts(low, it, []);
    }
  }

  lemma RarityInCounts(r: seq<Item>)
    requires Ordered(Rarity, r)
    ensures forall i, j :: 0 <= i < j < |r| && r[j].n > 0 ==> 0 < r[i].n <= r[j].n
  {
    forall i, j | 0 <= i < j < |r| && r[j].n > 0 ensures 0 < r[i].n <= r[j].n {
      assert !Rarity(r[j], r[i]);
    }
  }

  lemma NamedCounts(hashes: seq<Hash>, peers: map<Hash, nat>, r: seq<Item>)
    requires multiset(r) == multiset(ItemsOf(hashes, peers))
    ensures forall i :: 0 <= i < |r| ==> r[i] == ItemOf(Names(r)[i], peers)
  {
    var its := ItemsOf(hashes, peers);
    MultisetMembers(r, its);
    forall i | 0 <= i < |r| ensures r[i] == ItemOf(Names(r)[i], peers) {
      assert r[i] in its;
    }
  }

  lemma NamesInOrder(hashes: seq<Hash>, peers: map<Hash, nat>, r: seq<Item>)
    requires multiset(r) == multiset(ItemsOf(hashes, peers)) && Ordered(Rarity, r)
    ensures InOrder(peers, Names(r)) && multiset(Names(r)) == multiset(hashes)
  {
    RarityInCounts(r);
    NamedCounts(hashes, peers, r);
    NamesPermute(r, ItemsOf(hashes, peers));
    assert Names(ItemsOf(hashes, peers)) == hashes;
  }

  /** Work not yet handed out. */
  class PendingQueue {
    var items: map<Hash, int>

    constructor (items: map<Hash, int>)
      ensures this.items == items
    {
      this.items := items;
    }

    /** Hands out a chunk that peers have whenever there is one, and then one that fewest have. */
    method Next(peers: map<Hash, nat>) returns (pick: Option<Hash>)
      modifies this
      ensures pick.None? <==> old(items) == map[]
      ensures pick.None? ==> items == old(items)
      ensures pick.Some? ==> pick.value in old(items) && items == old(items) - {pick.value}
      ensures pick.Some? ==> forall h :: h in old(items) && SomePeer(peers, h) ==>
                SomePeer(peers, pick.value) && peers[pick.value] <= peers[h]
    {
      if items == map[] {
        return None;
      }
      var hashes := ListKeys(items.Keys);
      var order := RarestFirst(hashes, peers);
      assert exists h :: h in items.Keys;
      HeadIsRarest(peers, hashes, order);
      var h := order[0];
      items := items - {h};
      return Some(h);
    }
  }

  /** Iteration over a map's keys, in any order. */
  method ListKeys(keys: set<Hash>) returns (out: seq<Hash>)
    ensures NoDup(out) && Elems(out) == keys
  {
    out := [];
    var rest := keys;
    while rest != {}
      invariant rest <= keys && NoDup(out) && Elems(out) == keys - rest
      decreases |rest|
    {
      var h :| h in rest;
      assert Elems(out + [h]) == Elems(out) + {h};
      out := out + [h];
      rest := rest - {h};
    }
  }

  lemma HeadIsRarest(peers: map<Hash, nat>, hashes: seq<Hash>, order: seq<Hash>)
    requires hashes != [] && InOrder(peers, order) && multiset(order) == multiset(hashes)
    ensures order != [] && order[0] in hashes
    ensures forall h :: h in hashes && SomePeer(peers, h) ==> SomePeer(peers, order[0]) && peers[order[0]] <= peers[h]
  {
    assert |order| == |multiset(order)| == |hashes|;
    MultisetMembers(order, hashes);
  }

  // --- Peers for one chunk ---

  datatype PeerInfo = PeerInfo(nodeID: string, address: string)

  type Loads = map<string, int>

  function LoadOf(loads: Loads, p: PeerInfo): int {
    if p.address in loads then loads[p.address] else 0
  }

  function LessAssigned(loads: Loads): (PeerInfo, PeerInfo) -> bool {
    (p: PeerInfo, q: PeerInfo) => LoadOf(loads, p) < LoadOf(loads, q)
  }

  /** The in-place pass that puts the least assigned peers first and keeps the ranking among equals. */
  method SortByAssigned(peers: array<PeerInfo>, loads: Loads)
    modifies peers
    ensures peers[..] == Sort(LessAssigned(loads), old(peers[..]))
    ensures multiset(peers[..]) == multiset(old(peers[..]))
    ensures forall i, j :: 0 <= i < j < peers.Length ==> LoadOf(loads, peers[i]) <= LoadOf(loads, peers[j])
    ensures forall k :: Filter(AtLoad(loads, k), peers[..]) == Filter(AtLoad(loads, k), old(peers[..]))
  {
    SortedByLoad(loads, peers[..]);
    if peers.Length < 2 {
      SortShort(LessAssigned(loads), peers[..]);
      return;
    }
    InsertionSort(peers, LessAssigned(loads));
  }

  function AtLoad(loads: Loads, k: int): PeerInfo -> bool {
    (p: PeerInfo) => LoadOf(loads, p) == k
  }

  lemma SortedByLoad(loads: Loads, peers: seq<PeerInfo>)
    ensures var out := Sort(LessAssigned(loads), peers);
            && multiset(out) == multiset(peers)
            && (forall i, j :: 0 <= i < j < |out| ==> LoadOf(loads, out[i]) <= LoadOf(loads, out[j]))
            && forall k :: Filter(AtLoad(loads, k), out) == Filter(AtLoad(loads, k), peers)
  {
    LessAssignedIsOrder(loads);
    SortPermutes(LessAssigned(loads), peers);
    SortOrders(LessAssigned(loads), peers);
    var out := Sort(LessAssigned(loads), peers);
    forall i, j | 0 <= i < j < |out| ensures LoadOf(loads, out[i]) <= LoadOf(loads, out[j]) {
      assert !LessAssigned(loads)(out[j], out[i]);
    }
    forall k ensures Filter(AtLoad(loads, k), out) == Filter(AtLoad(loads, k), peers) {
      SortIsStable(LessAssigned(loads), AtLoad(loads, k), peers);
    }
  }

  lemma SortShort<T>(less: (T, T) -> bool, s: seq<T>)
    requires |s| < 2
    ensures Sort(less, s) == s
  {
    if |s| == 1 {
      assert s[..0] == [];
    }
  }

  lemma LessAssignedIsOrder(loads: Loads)
    ensures Order(LessAssigned(loads))
  {
  }
}
