/** Splitting a byte stream into fixed-size chunks, and the references a manifest keeps of them. */
module Chunker {
  import opened Base
  import opened Manifest

  datatype Chunk = Chunk(hash: Hash, data: Bytes, offset: int, size: int)

  function Concat(pieces: seq<Bytes>): Bytes {
    if pieces == [] then [] else Concat(pieces[..|pieces| - 1]) + pieces[|pieces| - 1]
  }

  function Pieces(data: Bytes, n: nat): seq<Bytes>
    requires n > 0
    decreases |data|
  {
    if data == [] then [] else if |data| <= n then [data] else [data[..n]] + Pieces(data[n..], n)
  }

  /** Nothing lost, nothing reordered; every piece but the last is full, and none is empty. */
  ghost predicate IsChunking(data: Bytes, n: nat, pieces: seq<Bytes>) {
    && Concat(pieces) == data
    && (forall i :: 0 <= i < |pieces| ==> 0 < |pieces[i]| <= n)
    && (forall i :: 0 <= i < |pieces| - 1 ==> |pieces[i]| == n)
  }

  lemma {:induction false} ConcatFront(x: Bytes, pieces: seq<Bytes>)
    ensures Concat([x] + pieces) == x + Concat(pieces)
    decreases |pieces|
  {
    if pieces == [] {
      assert [x] + pieces == [x];
      assert [x][..0] == [];
    } else {
      var low, y := pieces[..|pieces| - 1], pieces[|pieces| - 1];
      ConcatFront(x, low);
      assert ([x] + pieces)[..|pieces|] == [x] + low;
      Associates(x, Concat(low), y);
    }
  }

  lemma {:induction false} PiecesChunk(data: Bytes, n: nat)
    requires n > 0
    ensures IsChunking(data, n, Pieces(data, n))
    ensures data != [] ==> Pieces(data, n) != []
    decreases |data|
  {
    if data == [] {
    } else if |data| <= n {
      assert [data][..0] == [];
    } else {
      PiecesChunk(data[n..], n);
      ConcatFront(data[..n], Pieces(data[n..], n));
      assert data == data[..n] + data[n..];
    }
  }

  /** The chunk that starts at `offset`. */
  function ChunkAt(sha: Bytes -> Hash, pieces: seq<Bytes>, i: nat): Chunk
    requires i < |pieces|
  {
    Chunk(sha(pieces[i]), pieces[i], |Concat(pieces[..i])|, |pieces[i]|)
  }

  function Chunks(sha: Bytes -> Hash, pieces: seq<Bytes>): seq<Chunk> {
    seq(|pieces|, i requires 0 <= i < |pieces| => ChunkAt(sha, pieces, i))
  }

  /** The read loop.  `broken` says that the stream ends in an error instead of end-of-file; the chunks before
      it have been handed out by then. */
  method ChunkStream(sha: Bytes -> Hash, data: Bytes, n: nat, broken: bool) returns (chunks: seq<Chunk>, ok: bool)
    requires n > 0
    ensures chunks == Chunks(sha, Pieces(data, n)) && ok == !broken
  {
    chunks := [];
    var offset := 0;
    ghost var done: seq<Bytes> := [];
    var more := true;
    assert data[0..] == data;
    while more
      invariant offset == |Concat(done)| <= |data| && chunks == Chunks(sha, done)
      invariant Pieces(data, n) == done + Pieces(data[offset..], n)
      invariant !more ==> offset == |data|
      decreases |data| - offset, more
    {
      var got := Min(n, |data| - offset);
      if got > 0 {
        var piece := data[offset..offset + got];
        Advance(data, n, done, offset);
        Extended(sha, done, piece);
        chunks := chunks + [Chunk(sha(piece), piece, offset, got)];
        done := done + [piece];
        offset := offset + got;
      }
      more := got == n;
    }
    assert done + Pieces([], n) == done;
    ok := !broken;
  }

  lemma Advance(data: Bytes, n: nat, done: seq<Bytes>, offset: nat)
    requires n > 0 && offset < |data| && Pieces(data, n) == done + Pieces(data[offset..], n)
    ensures var end := offset + Min(n, |data| - offset);
            Pieces(data, n) == done + [data[offset..end]] + Pieces(data[end..], n)
  {
    var rest, got := data[offset..], Min(n, |data| - offset);
    assert rest[..got] == data[offset..offset + got] && rest[got..] == data[offset + got..];
    if |rest| <= n {
      assert rest[..got] == rest;
    }
    assert Pieces(rest, n) == [rest[..got]] + Pieces(rest[got..], n);
  }

  lemma Extended(sha: Bytes -> Hash, done: seq<Bytes>, piece: Bytes)
    ensures Chunks(sha, done + [piece]) == Chunks(sha, done) + [Chunk(sha(piece), piece, |Concat(done)|, |piece|)]
    ensures |Concat(done + [piece])| == |Concat(done)| + |piece|
  {
    var all := done + [piece];
    assert all[..|done|] == done;
    forall i | 0 <= i < |done| ensures Chunks(sha, all)[i] == Chunks(sha, done)[i] {
      assert all[..i] == done[..i];
    }
  }

  // --- References ---

  function Refs(sha: Bytes -> Hash, pieces: seq<Bytes>): seq<ChunkRef> {
    if pieces == [] then []
    else
      var low, p := pieces[..|pieces| - 1], pieces[|pieces| - 1];
      Refs(sha, low) + [ChunkRef(sha(p), |Concat(low)|, |p|)]
  }

  lemma {:induction false} RefsAt(sha: Bytes -> Hash, pieces: seq<Bytes>, i: nat)
    requires i < |pieces|
    ensures |Refs(sha, pieces)| == |pieces| && Refs(sha, pieces)[..i] == Refs(sha, pieces[..i])
    ensures Refs(sha, pieces)[i] == ChunkRef(sha(pieces[i]), |Concat(pieces[..i])|, |pieces[i]|)
    decreases |pieces|
  {
    var n := |pieces| - 1;
    var low := pieces[..n];
    if n > 0 {
      RefsAt(sha, low, if i < n then i else n - 1);
    }
    if i < n {
      assert low[..i] == pieces[..i];
      assert Refs(sha, pieces)[..i] == Refs(sha, low)[..i];
    } else {
      assert Refs(sha, pieces)[..i] == Refs(sha, low);
    }
  }

  lemma {:induction false} RefsBytes(sha: Bytes -> Hash, pieces: seq<Bytes>)
    ensures ChunkBytes(Refs(sha, pieces)) == |Concat(pieces)| && |Refs(sha, pieces)| == |pieces|
    decreases |pieces|
  {
    if pieces != [] {
      var low := pieces[..|pieces| - 1];
      RefsBytes(sha, low);
      assert Refs(sha, pieces)[..|low|] == Refs(sha, low);
    }
  }

  /** The references of a chunking tile the file they describe. */
  lemma RefsTile(sha: Bytes -> Hash, pieces: seq<Bytes>, i: nat)
    requires i < |pieces|
    ensures |Refs(sha, pieces)| == |pieces|
    ensures var r := Refs(sha, pieces)[i];
            r.hash == sha(pieces[i]) && r.size == |pieces[i]| && r.offset == ChunkBytes(Refs(sha, pieces)[..i])
  {
    RefsAt(sha, pieces, i);
    RefsBytes(sha, pieces[..i]);
  }

  /** Where a piece sits in the whole. */
  lemma {:induction false} PieceAt(pieces: seq<Bytes>, i: nat)
    requires i < |pieces|
    ensures |Concat(pieces[..i])| + |pieces[i]| <= |Concat(pieces)|
    ensures Concat(pieces)[|Concat(pieces[..i])|..|Concat(pieces[..i])| + |pieces[i]|] == pieces[i]
    decreases |pieces|
  {
    var n := |pieces| - 1;
    if i < n {
      var low := pieces[..n];
      PieceAt(low, i);
      assert low[..i] == pieces[..i];
      var a, b := |Concat(pieces[..i])|, |Concat(pieces[..i])| + |pieces[i]|;
      assert Concat(pieces)[a..b] == Concat(low)[a..b];
    }
  }
}
