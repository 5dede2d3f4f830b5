/** The in-process metadata cache: a map with an expiry time per entry, and the keys the store uses in it. */
module MetaCache {
  import opened Base

  datatype Kind = PeerKind | PeersListKind | ArtifactKind | SeedsKind | LocateKind | ChunksKind

  /** A key by its kind and the rest of its text; the peer list has no rest. */
  datatype Key = Key(kind: Kind, name: string)

  function Prefix(kind: Kind): string {
    match kind
    case PeerKind => "peer:"
    case PeersListKind => "peers:list"
    case ArtifactKind => "artifact:"
    case SeedsKind => "seeds:"
    case LocateKind => "locate:"
    case ChunksKind => "chunks:"
  }

  function Text(k: Key): string {
    Prefix(k.kind) + k.name
  }

  lemma DistinctPrefixes(a: Kind, b: Kind)
    requires a != b
    ensures exists i :: 0 <= i < |Prefix(a)| && i < |Prefix(b)| && Prefix(a)[i] != Prefix(b)[i]
  {
    var i := if {a, b} == {PeerKind, PeersListKind} then 4 else 0;
    assert Prefix(a)[i] != Prefix(b)[i];
  }

  /** A key's text starts with a kind's prefix exactly when the key is of that kind, so deleting by prefix
      deletes one kind. */
  lemma PrefixMeansKind(k: Key, kind: Kind)
    ensures Prefix(kind) <= Text(k) <==> k.kind == kind
  {
    if k.kind != kind {
      DistinctPrefixes(k.kind, kind);
      var i :| 0 <= i < |Prefix(k.kind)| && i < |Prefix(kind)| && Prefix(k.kind)[i] != Prefix(kind)[i];
      assert Text(k)[i] == Prefix(k.kind)[i];
    }
  }

  /** Different keys have different texts. */
  lemma TextIsInjective(a: Key, b: Key)
    requires Text(a) == Text(b)
    ensures a == b
  {
    PrefixMeansKind(a, b.kind);
    assert a.name == Text(a)[|Prefix(a.kind)|..];
    assert b.name == Text(b)[|Prefix(b.kind)|..];
  }

  datatype Entry<V> = Entry(value: V, expiresAt: int)

  type Items<V> = map<Key, Entry<V>>

  predicate Expired<V>(items: Items<V>, k: Key, now: int) {
    k in items && now > items[k].expiresAt
  }

  /** What a lookup finds. */
  function Live<V>(items: Items<V>, k: Key, now: int): Option<V> {
    if k in items && now <= items[k].expiresAt then Some(items[k].value) else None
  }

  ghost predicate SubMap<V>(a: Items<V>, b: Items<V>) {
    forall k :: k in a ==> k in b && a[k] == b[k]
  }

  /** What lookups of `keys` leave: an expired entry that was asked for goes away. */
  function Purged<V>(items: Items<V>, keys: set<Key>, now: int): Items<V> {
    map k | k in items && !(k in keys && Expired(items, k, now)) :: items[k]
  }

  function Stored<V>(items: Items<V>, k: Key, v: V, until: int): Items<V> {
    items[k := Entry(v, until)]
  }

  function StoredAll<V>(items: Items<V>, vals: map<Key, V>, until: int): Items<V> {
    items + map k | k in vals :: Entry(vals[k], until)
  }

  function WithoutKind<V>(items: Items<V>, kind: Kind): Items<V> {
    map k | k in items && k.kind != kind :: items[k]
  }

  lemma PurgedOneMore<V>(items: Items<V>, keys: set<Key>, k: Key, now: int)
    ensures Live(Purged(items, keys, now), k, now) == Live(items, k, now)
    ensures Purged(Purged(items, keys, now), {k}, now) == Purged(items, keys + {k}, now)
  {
  }

  /** All of `vals` but those at `left` have been stored. */
  ghost predicate StoredBut<V>(was: Items<V>, vals: map<Key, V>, left: set<Key>, until: int, items: Items<V>) {
    && items.Keys == was.Keys + (vals.Keys - left)
    && forall k :: k in items ==> items[k] == if k in vals && k !in left then Entry(vals[k], until) else was[k]
  }

  lemma StoredNone<V>(was: Items<V>, vals: map<Key, V>, until: int)
    ensures StoredBut(was, vals, vals.Keys, until, was)
  {
  }

  lemma StoredOneMore<V>(was: Items<V>, vals: map<Key, V>, left: set<Key>, k: Key, until: int, items: Items<V>)
    requires left <= vals.Keys && k in left && StoredBut(was, vals, left, until, items)
    ensures StoredBut(was, vals, left - {k}, until, Stored(items, k, vals[k], until))
  {
  }

  lemma StoredEach<V>(was: Items<V>, vals: map<Key, V>, until: int, items: Items<V>)
    requires StoredBut(was, vals, {}, until, items)
    ensures items == StoredAll(was, vals, until)
  {
    var all := StoredAll(was, vals, until);
    assert items.Keys == all.Keys;
    forall k | k in items ensures items[k] == all[k] {
    }
  }

  /** Of `was`, those of the kind that are not in `left` are gone. */
  ghost predicate KindGoneBut<V>(was: Items<V>, kind: Kind, left: set<Key>, items: Items<V>) {
    && items.Keys == (set k | k in was && (k in left || k.kind != kind))
    && forall k :: k in items ==> items[k] == was[k]
  }

  lemma KindGoneOneMore<V>(was: Items<V>, kind: Kind, left: set<Key>, k: Key, items: Items<V>)
    requires KindGoneBut(was, kind, left, items) && k in left
    ensures KindGoneBut(was, kind, left - {k}, if k.kind == kind then items - {k} else items)
  {
  }

  class Memory<V> {
    var items: Items<V>
    const defaultTTL: int

    constructor (ttl: int)
      ensures items == map[] && defaultTTL == (if ttl <= 0 then 10_000_000_000 else ttl)
    {
      items := map[];
      defaultTTL := if ttl <= 0 then 10_000_000_000 else ttl;
    }

    function Lifetime(ttl: int): int {
      if ttl <= 0 then defaultTTL else ttl
    }

    /** An expired entry is a miss and goes away. */
    method Get(k: Key, now: int) returns (v: Option<V>)
      modifies this`items
      ensures v == Live(old(items), k, now) && items == Purged(old(items), {k}, now)
    {
      assert Expired(items, k, now) || Purged(items, {k}, now) == items;
      if k !in items {
        return None;
      }
      if now > items[k].expiresAt {
        items := items - {k};
        return None;
      }
      return Some(items[k].value);
    }

    method Set(k: Key, v: V, ttl: int, now: int)
      modifies this`items
      ensures items == Stored(old(items), k, v, now + Lifetime(ttl))
    {
      var t := if ttl <= 0 then defaultTTL else ttl;
      items := items[k := Entry(v, now + t)];
    }

    /** The loop over `Get`: exactly the live requested entries, and only expired requested ones go. */
    method MGet(keys: seq<Key>, now: int) returns (out: map<Key, V>)
      modifies this`items
      ensures out == map k | k in keys && Live(old(items), k, now).Some? :: Live(old(items), k, now).value
      ensures items == Purged(old(items), Elems(keys), now)
    {
      out := map[];
      assert Purged(items, Elems(keys[..0]), now) == items;
      for i := 0 to |keys|
        invariant out == map k | k in keys[..i] && Live(old(items), k, now).Some? :: Live(old(items), k, now).value
        invariant items == Purged(old(items), Elems(keys[..i]), now)
      {
        PurgedOneMore(old(items), Elems(keys[..i]), keys[i], now);
        assert Elems(keys[..i + 1]) == Elems(keys[..i]) + {keys[i]};
        var v := Get(keys[i], now);
        if v.Some? {
          out := out[keys[i] := v.value];
        }
      }
      assert keys[..|keys|] == keys;
    }

    method MSet(vals: map<Key, V>, ttl: int, now: int)
      modifies this`items
      ensures items == StoredAll(old(items), vals, now + Lifetime(ttl))
    {
      var left := vals.Keys;
      ghost var was, until := items, now + Lifetime(ttl);
      StoredNone(was, vals, until);
      while left != {}
        invariant left <= vals.Keys && StoredBut(was, vals, left, until, items)
        decreases |left|
      {
        var k :| k in left;
        StoredOneMore(was, vals, left, k, until, items);
        Set(k, vals[k], ttl, now);
        left := left - {k};
      }
      StoredEach(was, vals, until, items);
    }

    method Delete(k: Key)
      modifies this`items
      ensures items == old(items) - {k}
    {
      items := items - {k};
    }

    method DeletePrefix(kind: Kind)
      modifies this`items
      ensures items == WithoutKind(old(items), kind)
    {
      var left := items.Keys;
      ghost var was := items;
      while left != {}
        invariant KindGoneBut(was, kind, left, items)
        decreases |left|
      {
        var k :| k in left;
        KindGoneOneMore(was, kind, left, k, items);
        left := left - {k};
        if k.kind == kind {
          items := items - {k};
        }
      }
    }

    /** The janitor removes what has expired; no lookup changes its answer. */
    method Sweep(now: int)
      modifies this`items
      ensures SubMap(items, old(items)) && forall k :: Live(items, k, now) == Live(old(items), k, now)
      ensures forall k :: k in items ==> !Expired(items, k, now)
    {
      items := map k | k in items && !Expired(items, k, now) :: items[k];
    }
  }
}
