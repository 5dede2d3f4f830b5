/** The chunk directory and the partial files of one node, as the holder of a hash lock sees them. */
module ChunkStore {
  import opened Base

  const HASH_PREFIX: string := "sha256:"
  const HASH_LENGTH := 71

  /** The names `parseHash` accepts. */
  predicate ValidName(h: Hash) {
    HASH_PREFIX <= h && |h| == HASH_LENGTH
  }

  datatype Disk = Disk(chunks: map<Hash, Bytes>, partials: map<Hash, Bytes>)

  function PartialOf(d: Disk, h: Hash): Bytes {
    if h in d.partials then d.partials[h] else []
  }

  function Discarded(d: Disk, h: Hash): Disk {
    d.(partials := d.partials - {h})
  }

  function Appended(d: Disk, h: Hash, data: Bytes): Disk {
    d.(partials := d.partials[h := PartialOf(d, h) + data])
  }

  /** The chunk is committed, with the expected size if one is given. */
  predicate HasCommitted(chunks: map<Hash, Bytes>, h: Hash, expectedSize: int) {
    ValidName(h) && h in chunks && (expectedSize > 0 ==> |chunks[h]| == expectedSize)
  }

  /** Every committed chunk hashes to its name. */
  ghost predicate Authentic(sha: Bytes -> Hash, d: Disk) {
    forall h :: h in d.chunks ==> sha(d.chunks[h]) == h
  }

  /** Verify, then rename; a mismatch removes the partial. */
  function Committed(sha: Bytes -> Hash, d: Disk, h: Hash): (Disk, bool)
  {
    if !ValidName(h) || h !in d.partials then (d, false)
    else if sha(d.partials[h]) != h then (Discarded(d, h), false)
    else (Disk(d.chunks[h := d.partials[h]], d.partials - {h}), true)
  }

  class Store {
    const sha: Bytes -> Hash
    var chunks: map<Hash, Bytes>
    var partials: map<Hash, Bytes>

    ghost predicate Valid()
      reads this
    {
      Authentic(sha, Value()) && forall p :: p in partials ==> ValidName(p)
    }

    function Value(): Disk
      reads this
    {
      Disk(chunks, partials)
    }

    constructor (sha: Bytes -> Hash)
      ensures this.sha == sha && Valid() && Value() == Disk(map[], map[])
    {
      this.sha := sha;
      chunks := map[];
      partials := map[];
    }

    method HasValidCommittedChunk(h: Hash, expectedSize: int) returns (ok: bool)
      ensures ok <==> HasCommitted(chunks, h, expectedSize)
      ensures ok <==> ValidName(h) && h in chunks && (expectedSize <= 0 || |chunks[h]| == expectedSize)
    {
      if !ValidName(h) || h !in chunks {
        return false;
      }
      if expectedSize <= 0 {
        return true;
      }
      return |chunks[h]| == expectedSize;
    }

    method PartialSize(h: Hash) returns (n: nat)
      requires Valid()
      ensures n == |PartialOf(Value(), h)|
    {
      n := if ValidName(h) && h in partials then |partials[h]| else 0;
    }

    method DiscardPartial(h: Hash) returns (ok: bool)
      requires Valid()
      modifies this`partials
      ensures Valid()
      ensures ok == ValidName(h)
      ensures Value() == if ok then Discarded(old(Value()), h) else old(Value())
    {
      ok := ValidName(h);
      if ok {
        partials := partials - {h};
      }
    }

    method AppendPartial(h: Hash, data: Bytes) returns (ok: bool)
      requires Valid()
      modifies this`partials
      ensures Valid()
      ensures ok == ValidName(h)
      ensures Value() == if ok then Appended(old(Value()), h, data) else old(Value())
    {
      ok := ValidName(h);
      if ok {
        partials := partials[h := (if h in partials then partials[h] else []) + data];
      }
    }

    method CommitPartial(h: Hash) returns (ok: bool)
      requires Valid()
      modifies this
      ensures Valid()
      ensures (Value(), ok) == Committed(sha, old(Value()), h)
      ensures ok <==> ValidName(h) && h in old(partials) && sha(old(partials)[h]) == h
      ensures chunks == if ok then old(chunks)[h := old(partials)[h]] else old(chunks)
      ensures partials == old(partials) - {h}
    {
      if !ValidName(h) || h !in partials {
        return false;
      }
      if sha(partials[h]) != h {
        partials := partials - {h};
        return false;
      }
      chunks, partials := chunks[h := partials[h]], partials - {h};
      return true;
    }

    /** Succeeds exactly when the data has the right digest; then the chunk is that data and no partial is left. */
    method PutChunk(h: Hash, data: Bytes) returns (ok: bool)
      requires Valid()
      modifies this
      ensures Valid()
      ensures ok <==> ValidName(h) && sha(data) == h
      ensures ok ==> Value() == Disk(old(chunks)[h := data], old(partials) - {h})
      ensures !ok ==> chunks == old(chunks)
    {
      ok := DiscardPartial(h);
      if !ok {
        return;
      }
      ok := AppendPartial(h, data);
      assert partials[h] == data;
      ok := CommitPartial(h);
      assert ok ==> partials == old(partials) - {h};
    }

    method DeleteChunk(h: Hash) returns (ok: bool)
      requires Valid()
      modifies this`chunks
      ensures Valid()
      ensures ok == (ValidName(h) && h in old(chunks))
      ensures Value() == if ok then old(Value()).(chunks := old(chunks) - {h}) else old(Value())
    {
      ok := ValidName(h) && h in chunks;
      if ok {
        chunks := chunks - {h};
      }
    }
  }
}
