/** One chunk over the wire: the server's framing from an offset and the client's receive loop. */
module Transfer {
  import opened Base
  import opened ChunkStore

  const STREAM_SLICE := 65536

  datatype Frame = Frame(payload: Bytes, offset: int, totalSize: int, isEof: bool)

  datatype Code = NotFound | InvalidArgument | OutOfRange | Integrity | Other

  /** What a peer answers: frames, then an orderly end or an error. */
  datatype Reply = Reply(frames: seq<Frame>, broken: Option<Code>)

  /** `frames` carry exactly the bytes `data[o..upTo]`, in order and without gap. */
  ghost predicate Streams(frames: seq<Frame>, data: Bytes, o: nat, upTo: nat)
    decreases |frames|
  {
    if frames == [] then o == upTo
    else
      var f := frames[0];
      && 0 < |f.payload| <= STREAM_SLICE && o + |f.payload| <= upTo <= |data|
      && f.payload == data[o..o + |f.payload|] && f.offset == o && f.totalSize == |data|
      && f.isEof == (o + |f.payload| >= |data|)
      && Streams(frames[1..], data, o + |f.payload|, upTo)
  }

  lemma {:induction false} StreamsSnoc(frames: seq<Frame>, f: Frame, data: Bytes, o: nat, mid: nat)
    requires o <= mid < |data| && Streams(frames, data, o, mid)
    requires 0 < |f.payload| <= STREAM_SLICE && mid + |f.payload| <= |data|
    requires f == Frame(data[mid..mid + |f.payload|], mid, |data|, mid + |f.payload| >= |data|)
    ensures Streams(frames + [f], data, o, mid + |f.payload|)
    decreases |frames|
  {
    var all := frames + [f];
    if frames == [] {
      assert all[1..] == [];
    } else {
      assert all[1..] == frames[1..] + [f];
      StreamsSnoc(frames[1..], f, data, o + |frames[0].payload|, mid);
    }
  }

  /** The offset in force: a request for zero is overridden by the one in its metadata, if any. */
  function Requested(offset: int, meta: Option<int>): int {
    if offset == 0 && meta.Some? then meta.value else offset
  }

  /** The client's request, which gives a positive offset in both places, or in the metadata alone, is served from
      that offset, and so is one without metadata. */
  lemma OffsetGivenEitherWay(o: nat)
    ensures Requested(o, if o > 0 then Some(o) else None) == o && Requested(0, Some(o)) == o && Requested(o, None) == o
    ensures o > 0 ==> forall m :: Requested(o, m) == o
  {
  }

  /** Where a stream from `o` ends if the file stops being readable at `readable`. */
  function StreamEnd(data: Bytes, o: nat, readable: nat): nat {
    if readable >= |data| then |data| else if o <= readable then readable else o
  }

  /** The server: any read sizes give a stream of exactly the chunk from the offset on, up to where the file can be
      read, and every bad request is refused. */
  method GetChunk(chunks: map<Hash, Bytes>, h: Hash, offset: int, meta: Option<int>, readable: nat) returns (r: Reply)
    ensures h == "" ==> r == Reply([], Some(InvalidArgument))
    ensures h != "" && !(ValidName(h) && h in chunks) ==> r == Reply([], Some(NotFound))
    ensures ValidName(h) && h in chunks && Requested(offset, meta) < 0 ==> r == Reply([], Some(InvalidArgument))
    ensures ValidName(h) && h in chunks && Requested(offset, meta) > |chunks[h]| ==> r == Reply([], Some(OutOfRange))
    ensures ValidName(h) && h in chunks && 0 <= Requested(offset, meta) <= |chunks[h]| ==>
              var end := StreamEnd(chunks[h], Requested(offset, meta), readable);
              && Streams(r.frames, chunks[h], Requested(offset, meta), end)
              && r.broken == if end < |chunks[h]| then Some(Other) else None
  {
    if h == "" {
      return Reply([], Some(InvalidArgument));
    }
    if !ValidName(h) || h !in chunks {
      return Reply([], Some(NotFound));
    }
    var data := chunks[h];
    var start := offset;
    if offset == 0 && meta.Some? {
      start := meta.value;
    }
    if start < 0 {
      return Reply([], Some(InvalidArgument));
    }
    if start > |data| {
      return Reply([], Some(OutOfRange));
    }
    r := SendFrames(data, start, readable);
  }

  /** The loop: slices of any size up to the buffer's, until the end or a read error. */
  method SendFrames(data: Bytes, start: nat, readable: nat) returns (r: Reply)
    requires start <= |data|
    ensures var end := StreamEnd(data, start, readable);
            Streams(r.frames, data, start, end) && r.broken == if end < |data| then Some(Other) else None
  {
    var frames: seq<Frame> := [];
    var current: nat := start;
    while current < |data|
      invariant start <= current <= StreamEnd(data, start, readable) <= |data|
      invariant Streams(frames, data, start, current)
    {
      if current >= readable {
        return Reply(frames, Some(Other));
      }
      var n: nat :| 0 < n <= STREAM_SLICE && current + n <= |data| && current + n <= readable;
      var f := Frame(data[current..current + n], current, |data|, current + n >= |data|);
      StreamsSnoc(frames, f, data, start, current);
      frames := frames + [f];
      current := current + n;
    }
    return Reply(frames, None);
  }

  datatype Download = Download(written: Bytes, total: int, broken: Option<Code>)

  /** How much of a payload the client drops, because it asked for a later start than the frame has. */
  function Skip(f: Frame, offset: nat, skipped: nat): nat {
    if offset > 0 && f.offset == 0 && skipped < offset then offset - skipped else 0
  }

  function Keep(f: Frame, offset: nat, skipped: nat): Bytes {
    if Skip(f, offset, skipped) >= |f.payload| then [] else f.payload[Skip(f, offset, skipped)..]
  }

  function SkippedAfter(f: Frame, offset: nat, skipped: nat): nat {
    skipped + Min(Skip(f, offset, skipped), |f.payload|)
  }

  /** What the receive loop writes, frame by frame. */
  function Receive(frames: seq<Frame>, broken: Option<Code>, offset: nat, skipped: nat, total: int): Download
    decreases |frames|
  {
    if frames == [] then Download([], total, broken)
    else
      var f := frames[0];
      var total' := if f.totalSize > 0 then f.totalSize else total;
      if f.isEof then Download(Keep(f, offset, skipped), total', None)
      else
        var rest := Receive(frames[1..], broken, offset, SkippedAfter(f, offset, skipped), total');
        Prepend(Keep(f, offset, skipped), rest)
  }

  /** Drops from a frame what the partial already has. */
  method Trim(f: Frame, offset: nat, skipped: nat) returns (payload: Bytes, skipped': nat)
    ensures payload == Keep(f, offset, skipped) && skipped' == SkippedAfter(f, offset, skipped)
  {
    payload, skipped' := f.payload, skipped;
    if offset > 0 && f.offset == 0 && skipped < offset {
      var need := offset - skipped;
      if |payload| <= need {
        return [], skipped + |payload|;
      }
      payload, skipped' := payload[need..], offset;
    }
  }

  /** The client's loop over whatever arrives. */
  method DownloadChunkTo(reply: Reply, offset: nat) returns (d: Download)
    ensures d == Receive(reply.frames, reply.broken, offset, 0, 0)
  {
    var totalSize: int, skipped: nat, written: Bytes := 0, 0, [];
    var rest := reply.frames;
    while rest != []
      invariant Receive(reply.frames, reply.broken, offset, 0, 0)
             == Prepend(written, Receive(rest, reply.broken, offset, skipped, totalSize))
      decreases |rest|
    {
      var f := rest[0];
      ghost var was := written;
      if f.totalSize > 0 {
        totalSize := f.totalSize;
      }
      var payload;
      payload, skipped := Trim(f, offset, skipped);
      written := written + payload;
      if f.isEof {
        return Download(written, totalSize, None);
      }
      rest := rest[1..];
      PrependTwice(was, payload, Receive(rest, reply.broken, offset, skipped, totalSize));
    }
    return Download(written, totalSize, reply.broken);
  }

  function Prepend(w: Bytes, d: Download): Download {
    d.(written := w + d.written)
  }

  lemma PrependTwice(a: Bytes, b: Bytes, d: Download)
    ensures Prepend(a, Prepend(b, d)) == Prepend(a + b, d)
  {
    assert a + (b + d.written) == a + b + d.written;
  }

  /** An honest stream from `o` makes the client write exactly `data[o..]`, however it was cut into frames. */
  lemma {:induction false} HonestStreamWritesTheRest(frames: seq<Frame>, data: Bytes, offset: nat, o: nat, total: int)
    requires Streams(frames, data, o, |data|) && offset <= o
    requires o < |data| || total == |data| || total == 0
    ensures var d := Receive(frames, None, offset, 0, total);
            && d.written == data[o..] && d.broken == None
            && d.total == if o < |data| then |data| else total
    decreases |frames|
  {
    if frames != [] {
      var f := frames[0];
      assert Skip(f, offset, 0) == 0;
      assert data[o..] == f.payload + data[o + |f.payload|..];
      if !f.isEof {
        HonestStreamWritesTheRest(frames[1..], data, offset, o + |f.payload|, |data|);
      }
    }
  }

  /** Cut short anywhere, it writes a prefix of that. */
  lemma {:induction false} BrokenStreamWritesAPrefix(frames: seq<Frame>, got: nat, data: Bytes, offset: nat, o: nat,
      code: Code, total: int)
    requires Streams(frames, data, o, |data|) && offset <= o && got <= |frames|
    ensures o <= |data| && Receive(frames[..got], Some(code), offset, 0, total).written <= data[o..]
    decreases |frames|
  {
    if frames != [] && got > 0 {
      var f := frames[0];
      assert data[o..] == f.payload + data[o + |f.payload|..];
      assert frames[..got][1..] == frames[1..][..got - 1];
      BrokenStreamWritesAPrefix(frames[1..], got - 1, data, offset, o + |f.payload|, code, |data|);
    } else {
      LengthOf(frames, data, o);
    }
  }

  lemma {:induction false} BrokenStreamBreaks(frames: seq<Frame>, code: Code, offset: nat, skipped: nat, total: int)
    requires forall i :: 0 <= i < |frames| ==> !frames[i].isEof
    ensures Receive(frames, Some(code), offset, skipped, total).broken == Some(code)
    decreases |frames|
  {
    if frames != [] {
      var f := frames[0];
      BrokenStreamBreaks(frames[1..], code, offset, SkippedAfter(f, offset, skipped),
        if f.totalSize > 0 then f.totalSize else total);
    }
  }

  lemma {:induction false} LengthOf(frames: seq<Frame>, data: Bytes, o: nat)
    requires Streams(frames, data, o, |data|)
    ensures o <= |data|
    decreases |frames|
  {
  }

  /** Only the first frame is cut; the others are written whole. */
  lemma FirstFrameIsCut(frames: seq<Frame>, data: Bytes, offset: nat)
    requires Streams(frames, data, 0, |data|) && 0 < offset <= |data|
    ensures frames != [] && |frames[0].payload| <= |data|
    ensures var n := |frames[0].payload|;
            Receive(frames, None, offset, 0, 0).written == data[Min(offset, n)..n] + data[n..]
  {
    var f := frames[0];
    var n := |f.payload|;
    assert Keep(f, offset, 0) == data[Min(offset, n)..n];
    if !f.isEof {
      RestIsKept(frames[1..], data, offset, n, Min(offset, n));
    }
  }

  /** A peer that ignores the offset and streams from the start is resumed correctly exactly when the
      offset lies within its first frame: later frames are never skipped. */
  lemma OffsetIgnoringPeer(frames: seq<Frame>, data: Bytes, offset: nat)
    requires Streams(frames, data, 0, |data|) && 0 < offset <= |data|
    ensures frames != []
    ensures Receive(frames, None, offset, 0, 0).written == data[offset..] <==> offset <= |frames[0].payload|
  {
    FirstFrameIsCut(frames, data, offset);
    var n := |frames[0].payload|;
    if offset <= n {
      assert data[offset..] == data[offset..n] + data[n..];
    } else {
      assert |data[n..n] + data[n..]| > |data[offset..]|;
    }
  }

  lemma {:induction false} RestIsKept(frames: seq<Frame>, data: Bytes, offset: nat, o: nat, skipped: nat)
    requires Streams(frames, data, o, |data|) && o > 0
    ensures Receive(frames, None, offset, skipped, |data|).written == data[o..]
    decreases |frames|
  {
    if frames != [] {
      var f := frames[0];
      assert data[o..] == f.payload + data[o + |f.payload|..];
      if !f.isEof {
        RestIsKept(frames[1..], data, offset, o + |f.payload|, skipped);
      }
    }
  }

  /** One frame, and then the stream breaks. */
  lemma ReceiveOne(f: Frame, code: Code)
    requires !f.isEof && f.totalSize > 0
    ensures Receive([f], Some(code), 0, 0, 0) == Download(f.payload, f.totalSize, Some(code))
  {
    var frames := [f];
    assert frames[1..] == [];
    assert Keep(f, 0, 0) == f.payload;
    assert f.payload + [] == f.payload;
  }
}
