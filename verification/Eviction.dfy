/** Least-recently-used eviction over an index of any keys: the bytes it holds, the order of candidates,
    and what the loop that walks them achieves. */
module Eviction {
  import opened Base

  datatype Meta = Meta(size: int, lastAccess: int, refCount: int)

  // --- Bytes in the index ---

  ghost function Sizes<K>(chunks: map<K, Meta>): map<K, int> {
    map h | h in chunks :: chunks[h].size
  }

  ghost function Total<K>(chunks: map<K, Meta>): int {
    Sum(Sizes(chunks))
  }

  lemma TotalWithout<K>(chunks: map<K, Meta>, h: K)
    requires h in chunks
    ensures Total(chunks) == chunks[h].size + Total(chunks - {h})
  {
    SumWithout(Sizes(chunks), h);
    assert Sizes(chunks - {h}) == Sizes(chunks) - {h};
  }

  method SumSizes<K(==)>(chunks: map<K, Meta>) returns (used: int)
    ensures used == Total(chunks)
  {
    used := 0;
    var rest := chunks;
    while rest != map[]
      invariant used + Total(rest) == Total(chunks)
      decreases |rest|
    {
      var h :| h in rest;
      TotalWithout(rest, h);
      used := used + rest[h].size;
      rest := rest - {h};
    }
  }

  // --- Candidates ---

  function Unreferenced<K(==)>(chunks: map<K, Meta>): set<K> {
    set h | h in chunks && chunks[h].refCount <= 0
  }

  /** Distinct keys of the index, each last accessed no earlier than those before it. */
  ghost predicate OldestFirst<K>(chunks: map<K, Meta>, list: seq<K>)
    decreases |list|
  {
    list != [] ==>
      var n := |list| - 1;
      && list[n] in chunks && list[n] !in list[..n] && NotNewer(chunks, list[..n], chunks[list[n]].lastAccess)
      && OldestFirst(chunks, list[..n])
  }

  ghost predicate NotNewer<K>(chunks: map<K, Meta>, list: seq<K>, time: int) {
    forall g :: g in list ==> g in chunks && chunks[g].lastAccess <= time
  }

  lemma {:induction false} OldestFirstAt<K>(chunks: map<K, Meta>, list: seq<K>, i: nat)
    requires OldestFirst(chunks, list) && i < |list|
    ensures list[i] in chunks && list[i] !in list[..i] && NotNewer(chunks, list[..i], chunks[list[i]].lastAccess)
    decreases |list|
  {
    var n := |list| - 1;
    if i < n {
      OldestFirstAt(chunks, list[..n], i);
      assert list[..n][..i] == list[..i];
    }
  }

  ghost predicate NoneOlder<K>(chunks: map<K, Meta>, rest: set<K>, time: int)
    requires rest <= chunks.Keys
  {
    forall g :: g in rest ==> time <= chunks[g].lastAccess
  }

  method Oldest<K(==)>(chunks: map<K, Meta>, hs: set<K>) returns (h: K)
    requires hs != {} && hs <= chunks.Keys
    ensures h in hs && NoneOlder(chunks, hs, chunks[h].lastAccess)
  {
    h :| h in hs;
    var rest := hs - {h};
    while rest != {}
      invariant h in hs && rest <= hs && NoneOlder(chunks, hs - rest, chunks[h].lastAccess)
      decreases |rest|
    {
      var g :| g in rest;
      rest := rest - {g};
      if chunks[g].lastAccess < chunks[h].lastAccess {
        h := g;
      }
    }
    assert hs - rest == hs;
  }

  /** What is listed is in order, and none of it is newer than anything that is left. */
  ghost predicate Separates<K>(chunks: map<K, Meta>, list: seq<K>, rest: set<K>) {
    && OldestFirst(chunks, list) && rest <= chunks.Keys
    && forall g :: g in rest ==> g !in list && NotNewer(chunks, list, chunks[g].lastAccess)
  }

  /** The candidates in order of last access; ties in any order. */
  method SortByAccess<K(==)>(chunks: map<K, Meta>, hs: set<K>) returns (list: seq<K>)
    requires hs <= chunks.Keys
    ensures OldestFirst(chunks, list) && Elems(list) == hs
  {
    list := [];
    var rest := hs;
    while rest != {}
      invariant Separates(chunks, list, rest) && Elems(list) + rest == hs
      decreases |rest|
    {
      var h := Oldest(chunks, rest);
      OldestIsNext(chunks, list, rest, h);
      list := list + [h];
      rest := rest - {h};
    }
  }

  lemma OldestIsNext<K>(chunks: map<K, Meta>, list: seq<K>, rest: set<K>, h: K)
    requires Separates(chunks, list, rest) && h in rest && NoneOlder(chunks, rest, chunks[h].lastAccess)
    ensures Separates(chunks, list + [h], rest - {h}) && Elems(list + [h]) + (rest - {h}) == Elems(list) + rest
  {
    assert (list + [h])[..|list|] == list;
    forall g | g in rest - {h} ensures NotNewer(chunks, list + [h], chunks[g].lastAccess) {
    }
  }

  lemma ElemsSnoc<K>(list: seq<K>, h: K)
    ensures Elems(list + [h]) == Elems(list) + {h}
  {
  }

  // --- What an eviction may do ---

  /** An eviction that removed `gone`: only unreferenced entries go; none of them is newer than an
      unreferenced one that could have gone and stayed; the last to go was still needed to get down to
      the target; and the target is met unless nothing is left that can go. */
  ghost predicate FairEviction<K(!new)>(was: map<K, Meta>, gone: set<K>, target: int, held: set<K>) {
    && gone <= Unreferenced(was) - held
    && SparesNewer(was, gone, held)
    && (gone != {} ==> exists last :: LastNeeded(was, gone, target, last))
    && (Total(was - gone) <= target || Unreferenced(was - gone) <= held)
  }

  ghost predicate SparesNewer<K(!new)>(was: map<K, Meta>, gone: set<K>, held: set<K>)
    requires gone <= was.Keys
  {
    forall h, g :: h in gone && g in Unreferenced(was) - gone - held ==> was[h].lastAccess <= was[g].lastAccess
  }

  /** `last` is a newest of those removed, and without its removal the total would have stayed above the target. */
  ghost predicate LastNeeded<K(!new)>(was: map<K, Meta>, gone: set<K>, target: int, last: K)
    requires gone <= was.Keys
  {
    last in gone && (forall g :: g in gone ==> was[g].lastAccess <= was[last].lastAccess)
    && Total(was - gone) + was[last].size > target
  }

  // --- The loop over the candidates ---

  /** After `i` candidates: those of them that could go are gone, and `used` is what the index still holds. */
  ghost predicate LoopState<K(!new)>(was: map<K, Meta>, list: seq<K>, i: nat, gone: set<K>, now: map<K, Meta>,
      used: int, low: int, held: set<K>) {
    && i <= |list| && OldestFirst(was, list) && Elems(list) == Unreferenced(was)
    && gone == Elems(list[..i]) - held && now == was - gone && used == Total(now)
    && (gone != {} ==> exists last :: LastNeeded(was, gone, low, last))
  }

  lemma LoopStarts<K(!new)>(was: map<K, Meta>, list: seq<K>, low: int, held: set<K>)
    requires OldestFirst(was, list) && Elems(list) == Unreferenced(was)
    ensures LoopState(was, list, 0, {}, was, Total(was), low, held)
  {
    assert was - {} == was;
  }

  lemma LoopSkips<K(!new)>(was: map<K, Meta>, list: seq<K>, i: nat, gone: set<K>, now: map<K, Meta>, used: int,
      low: int, held: set<K>)
    requires LoopState(was, list, i, gone, now, used, low, held) && i < |list| && list[i] in held
    ensures LoopState(was, list, i + 1, gone, now, used, low, held)
  {
    ElemsSnoc(list[..i], list[i]);
    assert list[..i + 1] == list[..i] + [list[i]];
  }

  lemma LoopEvicts<K(!new)>(was: map<K, Meta>, list: seq<K>, i: nat, gone: set<K>, now: map<K, Meta>, used: int,
      low: int, held: set<K>)
    requires LoopState(was, list, i, gone, now, used, low, held) && i < |list| && list[i] !in held && used > low
    ensures list[i] in now && list[i] !in gone
    ensures LoopState(was, list, i + 1, gone + {list[i]}, now - {list[i]}, used - now[list[i]].size, low, held)
  {
    var h := list[i];
    ElemsSnoc(list[..i], h);
    assert list[..i + 1] == list[..i] + [h];
    OldestFirstAt(was, list, i);
    TotalWithout(now, h);
    assert (was - gone) - {h} == was - (gone + {h});
    assert LastNeeded(was, gone + {h}, low, h);
  }

  lemma LoopEnds<K(!new)>(was: map<K, Meta>, list: seq<K>, i: nat, gone: set<K>, now: map<K, Meta>, used: int, low: int,
      held: set<K>)
    requires LoopState(was, list, i, gone, now, used, low, held) && (i == |list| || used <= low)
    ensures FairEviction(was, gone, low, held)
  {
    assert gone <= Elems(list);
    forall h, g | h in gone && g in Unreferenced(was) - gone - held ensures was[h].lastAccess <= was[g].lastAccess {
      assert g in Elems(list);
      var b :| 0 <= b < |list| && list[b] == g;
      OldestFirstAt(was, list, b);
      PrefixGrows(list, i, b, g, h);
    }
    if i == |list| {
      assert list[..i] == list;
    }
  }

  lemma PrefixGrows<K>(list: seq<K>, i: nat, b: nat, g: K, h: K)
    requires i <= |list| && b < |list| && list[b] == g && g !in list[..i] && h in list[..i]
    ensures h in list[..b]
  {
    var a :| 0 <= a < i && list[..i][a] == h;
    if b >= i {
      assert list[..b][a] == h;
    }
  }
}
