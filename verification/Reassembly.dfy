/** Out-of-order reassembly of stream data: the insertion of a received frame into the
    chunk list and the delivery of contiguous bytes (picoquic_queue_network_input and
    picoquic_stream_data_callback in frames.c). */
module Reassembly {
  import opened Sequences
  import opened Varint
  import opened Streams

  /** Sorted, disjoint, non-empty chunks, none below `consumed`. */
  ghost predicate Ordered(consumed: nat, chunks: seq<Chunk>) {
    && (forall k :: 0 <= k < |chunks| ==> consumed <= chunks[k].offset < chunks[k].End())
    && (forall j, k :: 0 <= j < k < |chunks| ==> chunks[j].End() <= chunks[k].offset)
  }

  /** Offset `i` has been delivered or is held in a chunk. */
  ghost predicate Covered(consumed: nat, chunks: seq<Chunk>, i: nat) {
    i < consumed || exists k :: 0 <= k < |chunks| && chunks[k].offset <= i < chunks[k].End()
  }

  /** `[a, b)` is the first maximal run of missing offsets inside `[lo, hi)`. */
  ghost predicate FirstGap(consumed: nat, chunks: seq<Chunk>, lo: nat, hi: nat, a: nat, b: nat) {
    && lo <= a < b <= hi
    && (forall i :: lo <= i < a ==> Covered(consumed, chunks, i))
    && (forall i :: a <= i < b ==> !Covered(consumed, chunks, i))
    && (b < hi ==> Covered(consumed, chunks, b))
  }

  /** `after` is `chunks` plus the one chunk that fills the first gap `[a, b)` of the frame. */
  ghost predicate Filled(consumed: nat, chunks: seq<Chunk>, after: seq<Chunk>, offset: nat, bytes: seq<byte>, k: nat,
                         a: nat, b: nat) {
    && FirstGap(consumed, chunks, offset, offset + |bytes|, a, b)
    && k <= |chunks| && after == Inserted(chunks, k, Chunk(a, bytes[a - offset..b - offset]))
  }

  lemma ChunkCovers(consumed: nat, chunks: seq<Chunk>, k: nat, lo: nat, hi: nat)
    requires k < |chunks| && chunks[k].offset <= lo && hi <= chunks[k].End()
    ensures forall i :: lo <= i < hi ==> Covered(consumed, chunks, i)
  {
  }

  /** Skip what is already there: either the whole frame is covered, or `offset + start` is
      its first missing offset and `next` the first chunk beyond it. */
  method Locate(consumed: nat, chunks: seq<Chunk>, offset: nat, length: nat) returns (start: nat, next: nat)
    requires Ordered(consumed, chunks)
    ensures next <= |chunks| && start <= length
    ensures forall i :: offset <= i < offset + start ==> Covered(consumed, chunks, i)
    ensures start < length ==>
      && consumed <= offset + start
      && (forall j :: 0 <= j < next ==> chunks[j].End() <= offset + start)
      && (forall j :: next <= j < |chunks| ==> offset + start < chunks[j].offset)
  {
    start, next := 0, 0;
    if offset <= consumed {
      if offset + length <= consumed {
        start := length;
      } else {
        start := consumed - offset;
      }
    }
    while next < |chunks| && start < length && chunks[next].offset <= offset + start
      invariant 0 <= next <= |chunks| && 0 <= start <= length
      invariant forall i :: offset <= i < offset + start ==> Covered(consumed, chunks, i)
      invariant start < length ==> consumed <= offset + start
      invariant start < length ==> forall j :: 0 <= j < next ==> chunks[j].End() <= offset + start
      invariant 0 < start < length ==> forall j :: next <= j < |chunks| ==> offset + start <= chunks[j].offset
    {
      if offset + length <= chunks[next].End() {
        ChunkCovers(consumed, chunks, next, offset + start, offset + length);
        start := length;
      } else if offset < chunks[next].End() {
        ChunkCovers(consumed, chunks, next, offset + start, chunks[next].End());
        start := chunks[next].End() - offset;
      }
      next := next + 1;
    }
  }

  lemma InsertedOrdered(consumed: nat, chunks: seq<Chunk>, k: nat, c: Chunk)
    requires Ordered(consumed, chunks) && k <= |chunks| && c.bytes != [] && consumed <= c.offset
    requires forall j :: 0 <= j < k ==> chunks[j].End() <= c.offset
    requires forall j :: k <= j < |chunks| ==> c.End() <= chunks[j].offset
    ensures Ordered(consumed, Inserted(chunks, k, c))
  {
  }

  lemma GapFound(consumed: nat, chunks: seq<Chunk>, offset: nat, length: nat, a: nat, b: nat, next: nat)
    requires Ordered(consumed, chunks) && next <= |chunks| && offset <= a < b <= offset + length && consumed <= a
    requires forall i :: offset <= i < a ==> Covered(consumed, chunks, i)
    requires forall j :: 0 <= j < next ==> chunks[j].End() <= a
    requires forall j :: next <= j < |chunks| ==> a < chunks[j].offset
    requires b ==
      if next < |chunks| && chunks[next].offset < offset + length then chunks[next].offset else offset + length
    ensures FirstGap(consumed, chunks, offset, offset + length, a, b)
  {
  }

  /** Store the first missing part of a frame; `news` tells whether anything was missing. */
  method Queue(stream: StreamHead, offset: nat, bytes: seq<byte>)
    returns (news: bool, ghost k: nat, ghost a: nat, ghost b: nat)
    requires Ordered(stream.consumedOffset, stream.streamData)
    modifies stream`streamData
    ensures Ordered(stream.consumedOffset, stream.streamData)
    ensures news ==> Filled(stream.consumedOffset, old(stream.streamData), stream.streamData, offset, bytes, k, a, b)
    ensures !news ==> stream.streamData == old(stream.streamData)
    ensures !news ==>
      forall i :: offset <= i < offset + |bytes| ==> Covered(stream.consumedOffset, old(stream.streamData), i)
  {
    hide Covered;
    hide FirstGap;
    news, k, a, b := false, 0, 0, 0;
    ghost var consumed := stream.consumedOffset;
    var chunks, length := stream.streamData, |bytes|;
    var start, next := Locate(stream.consumedOffset, chunks, offset, length);
    if start < length {
      var dataLength := length - start;
      if next < |chunks| && chunks[next].offset < offset + length {
        dataLength := dataLength - (offset + length - chunks[next].offset);
      }
      if dataLength > 0 {
        var piece := Chunk(offset + start, bytes[start..start + dataLength]);
        k, a, b := next, offset + start, offset + start + dataLength;
        assert piece == Chunk(a, bytes[a - offset..b - offset]);
        GapFound(consumed, chunks, offset, length, a, b, next);
        InsertedOrdered(consumed, chunks, next, piece);
        stream.streamData := Inserted(chunks, next, piece);
        news := true;
      }
    }
  }

  /** The contiguous bytes that follow the consumed ones, and the chunks left behind. */
  ghost function Prefix(consumed: nat, chunks: seq<Chunk>): seq<byte>
    decreases chunks
  {
    if chunks == [] || chunks[0].offset > consumed then [] else chunks[0].bytes + Prefix(chunks[0].End(), chunks[1..])
  }

  ghost function Rest(consumed: nat, chunks: seq<Chunk>): (rest: seq<Chunk>)
    ensures |rest| <= |chunks|
    decreases chunks
  {
    if chunks == [] || chunks[0].offset > consumed then chunks else Rest(chunks[0].End(), chunks[1..])
  }

  /** No chunk is left that could be delivered. */
  ghost predicate Drained(consumed: nat, chunks: seq<Chunk>) {
    chunks != [] ==> consumed < chunks[0].offset
  }

  lemma {:induction false} RestIsOrdered(consumed: nat, chunks: seq<Chunk>)
    requires Ordered(consumed, chunks)
    ensures var c := consumed + |Prefix(consumed, chunks)|;
      Ordered(c, Rest(consumed, chunks)) && Drained(c, Rest(consumed, chunks))
    decreases chunks
  {
    if chunks != [] && chunks[0].offset <= consumed {
      RestIsOrdered(chunks[0].End(), chunks[1..]);
    }
  }

  /** The end of the stream is known and reached. */
  predicate AtEnd(stream: StreamHead)
    reads stream`finReceived, stream`finOffset, stream`consumedOffset
  {
    stream.finReceived && stream.finOffset <= stream.consumedOffset
  }

  /** Raise the fin event once, when everything up to the final size is consumed. */
  method SignalFin(stream: StreamHead)
    modifies stream`finSignalled, stream`finEvents
    ensures stream.finSignalled == (old(stream.finSignalled) || AtEnd(stream))
    ensures stream.finEvents ==
      if stream.finSignalled == old(stream.finSignalled) then old(stream.finEvents)
      else old(stream.finEvents) + [stream.consumedOffset]
  {
    if stream.consumedOffset >= stream.finOffset && stream.finReceived && !stream.finSignalled {
      stream.finSignalled := true;
      stream.finEvents := stream.finEvents + [stream.consumedOffset];
    }
  }

  /** Hand the first chunk to the application. */
  method DeliverFirst(stream: StreamHead)
    requires Ordered(stream.consumedOffset, stream.streamData) && |stream.delivered| == stream.consumedOffset
    requires stream.streamData != [] && stream.streamData[0].offset <= stream.consumedOffset
    modifies stream`consumedOffset, stream`streamData, stream`finSignalled, stream`delivered, stream`finEvents
    ensures stream.delivered == old(stream.delivered + stream.streamData[0].bytes)
    ensures |stream.delivered| == stream.consumedOffset
    ensures stream.consumedOffset == old(stream.streamData[0].End()) && stream.streamData == old(stream.streamData[1..])
    ensures stream.finSignalled == (old(stream.finSignalled) || AtEnd(stream))
    ensures stream.finEvents ==
      if stream.finSignalled == old(stream.finSignalled) then old(stream.finEvents)
      else old(stream.finEvents) + [stream.consumedOffset]
  {
    var data := stream.streamData[0];
    var start := stream.consumedOffset - data.offset;
    var dataLength := |data.bytes| - start;
    stream.consumedOffset := stream.consumedOffset + dataLength;
    SignalFin(stream);
    stream.delivered := stream.delivered + data.bytes[start..start + dataLength];
    stream.streamData := stream.streamData[1..];
  }

  /** Hand every contiguous chunk to the application. `at` is the offset consumed when the fin event fired, if it
      did. */
  method DeliverChunks(stream: StreamHead) returns (ghost at: nat)
    requires Ordered(stream.consumedOffset, stream.streamData) && |stream.delivered| == stream.consumedOffset
    modifies stream`consumedOffset, stream`streamData, stream`finSignalled, stream`delivered, stream`finEvents
    ensures stream.delivered == old(stream.delivered + Prefix(stream.consumedOffset, stream.streamData))
    ensures stream.streamData == old(Rest(stream.consumedOffset, stream.streamData))
    ensures |stream.delivered| == stream.consumedOffset
    ensures stream.finSignalled == old(stream.finSignalled) ==> stream.finEvents == old(stream.finEvents)
    ensures stream.finSignalled != old(stream.finSignalled) ==>
      && stream.finSignalled && stream.finReceived && stream.finEvents == old(stream.finEvents) + [at]
      && stream.finOffset <= at <= stream.consumedOffset
  {
    at := 0;
    ghost var all := stream.delivered + Prefix(stream.consumedOffset, stream.streamData);
    while stream.streamData != [] && stream.streamData[0].offset <= stream.consumedOffset
      invariant Ordered(stream.consumedOffset, stream.streamData) && |stream.delivered| == stream.consumedOffset
      invariant stream.delivered + Prefix(stream.consumedOffset, stream.streamData) == all
      invariant Rest(stream.consumedOffset, stream.streamData) == old(Rest(stream.consumedOffset, stream.streamData))
      invariant stream.finSignalled == old(stream.finSignalled) ==> stream.finEvents == old(stream.finEvents)
      invariant stream.finSignalled != old(stream.finSignalled) ==>
        && stream.finSignalled && stream.finReceived && stream.finEvents == old(stream.finEvents) + [at]
        && stream.finOffset <= at <= stream.consumedOffset
      decreases |stream.streamData|
    {
      if !stream.finSignalled {
        at := stream.streamData[0].End();
      }
      DeliverFirst(stream);
    }
  }

  /** Hand every contiguous chunk to the application, then the end of the stream when it is reached.
      `at` is the offset consumed when the fin event fired, if it did. */
  method Deliver(stream: StreamHead) returns (ghost at: nat)
    requires Ordered(stream.consumedOffset, stream.streamData) && |stream.delivered| == stream.consumedOffset
    modifies stream`consumedOffset, stream`streamData, stream`finSignalled, stream`delivered, stream`finEvents
    ensures stream.delivered == old(stream.delivered + Prefix(stream.consumedOffset, stream.streamData))
    ensures stream.streamData == old(Rest(stream.consumedOffset, stream.streamData))
    ensures |stream.delivered| == stream.consumedOffset
    ensures Ordered(stream.consumedOffset, stream.streamData) && Drained(stream.consumedOffset, stream.streamData)
    ensures stream.finSignalled == (old(stream.finSignalled) || AtEnd(stream))
    ensures stream.finEvents ==
      if stream.finSignalled == old(stream.finSignalled) then old(stream.finEvents) else old(stream.finEvents) + [at]
    ensures stream.finSignalled != old(stream.finSignalled) ==> stream.finOffset <= at <= stream.consumedOffset
  {
    RestIsOrdered(stream.consumedOffset, stream.streamData);
    at := DeliverChunks(stream);
    if !stream.finSignalled {
      at := stream.consumedOffset;
    }
    SignalFin(stream);
  }

  // One byte stream

  ghost predicate CutFrom(data: seq<byte>, offset: nat, bytes: seq<byte>) {
    offset + |bytes| <= |data| && data[offset..offset + |bytes|] == bytes
  }

  /** Everything delivered and everything held is what `data` says it is. */
  ghost predicate Agrees(data: seq<byte>, delivered: seq<byte>, chunks: seq<Chunk>) {
    && CutFrom(data, 0, delivered)
    && forall k :: 0 <= k < |chunks| ==> CutFrom(data, chunks[k].offset, chunks[k].bytes)
  }

  lemma CutAgain(data: seq<byte>, offset: nat, bytes: seq<byte>, a: nat, b: nat)
    requires CutFrom(data, offset, bytes) && offset <= a <= b <= offset + |bytes|
    ensures CutFrom(data, a, bytes[a - offset..b - offset])
  {
    var cut := bytes[a - offset..b - offset];
    forall i | 0 <= i < |cut|
      ensures data[a..b][i] == cut[i]
    {
      assert data[a + i] == data[offset..offset + |bytes|][a - offset + i];
    }
  }

  lemma FilledAgrees(data: seq<byte>, delivered: seq<byte>, chunks: seq<Chunk>, after: seq<Chunk>,
                     offset: nat, bytes: seq<byte>, k: nat, a: nat, b: nat)
    requires Agrees(data, delivered, chunks) && CutFrom(data, offset, bytes)
    requires Filled(|delivered|, chunks, after, offset, bytes, k, a, b)
    ensures Agrees(data, delivered, after)
  {
    CutAgain(data, offset, bytes, a, b);
    forall j | 0 <= j < |after|
      ensures CutFrom(data, after[j].offset, after[j].bytes)
    {
      if j != k {
        assert after[j] == chunks[if j < k then j else j - 1];
      }
    }
  }

  lemma CutJoined(data: seq<byte>, front: seq<byte>, bytes: seq<byte>)
    requires CutFrom(data, 0, front) && CutFrom(data, |front|, bytes)
    ensures CutFrom(data, 0, front + bytes)
  {
    var n := |front|;
    assert data[..n + |bytes|] == data[..n] + data[n..n + |bytes|];
  }

  lemma {:induction false} PrefixAgrees(data: seq<byte>, delivered: seq<byte>, chunks: seq<Chunk>)
    requires Ordered(|delivered|, chunks) && Agrees(data, delivered, chunks)
    ensures Agrees(data, delivered + Prefix(|delivered|, chunks), Rest(|delivered|, chunks))
    decreases chunks
  {
    if chunks == [] || chunks[0].offset > |delivered| {
      assert delivered + [] == delivered;
    } else {
      var bytes, tail := chunks[0].bytes, chunks[1..];
      var d := delivered + bytes;
      CutJoined(data, delivered, bytes);
      PrefixAgrees(data, d, tail);
      var more := Prefix(|d|, tail);
      assert d + more == delivered + (bytes + more);
    }
  }

  lemma GapBeyond(consumed: nat, chunks: seq<Chunk>, lo: nat, hi: nat, a: nat, b: nat)
    requires FirstGap(consumed, chunks, lo, hi, a, b)
    ensures lo <= a < b <= hi && consumed <= a
  {
    assert !Covered(consumed, chunks, a);
  }

  lemma NextIsMissing(consumed: nat, chunks: seq<Chunk>)
    requires Ordered(consumed, chunks) && Drained(consumed, chunks)
    ensures !Covered(consumed, chunks, consumed)
  {
  }

  /** A frame that spans the next byte to consume fills the gap right there. */
  lemma SpanningGap(consumed: nat, chunks: seq<Chunk>, after: seq<Chunk>, offset: nat, bytes: seq<byte>, k: nat,
                    a: nat, b: nat)
    requires Ordered(consumed, chunks) && Drained(consumed, chunks) && Ordered(consumed, after)
    requires Filled(consumed, chunks, after, offset, bytes, k, a, b) && offset <= consumed < offset + |bytes|
    ensures a == consumed && k == 0
    ensures consumed < b <= consumed + |Prefix(consumed, after)|
    ensures b < offset + |bytes| ==> |Rest(consumed, after)| < |chunks|
  {
    NextIsMissing(consumed, chunks);
    assert after[0].End() == b && after[1..] == chunks;
    if b < offset + |bytes| {
      var j :| 0 <= j < |chunks| && chunks[j].offset <= b < chunks[j].End();
      assert chunks[0].End() <= chunks[j].offset || j == 0;
      assert chunks[0].offset <= b;
      assert after[1] == chunks[0] && after[1].offset >= b;
    }
  }

  // What a frame adds

  /** What is held or delivered grew by exactly `[a, b)`: nothing, when all of `[lo, hi)` was there
      before, and otherwise its first gap. */
  ghost predicate Grew(c: nat, chunks: seq<Chunk>, c': nat, chunks': seq<Chunk>, lo: nat, hi: nat, a: nat, b: nat) {
    && (if a == b then forall i: nat :: lo <= i < hi ==> Covered(c, chunks, i) else FirstGap(c, chunks, lo, hi, a, b))
    && (forall i: nat :: Covered(c', chunks', i) <==> Covered(c, chunks, i) || a <= i < b)
  }

  /** The same offsets are held or delivered. */
  ghost predicate SameCovered(c: nat, chunks: seq<Chunk>, c': nat, chunks': seq<Chunk>) {
    forall i: nat :: Covered(c', chunks', i) <==> Covered(c, chunks, i)
  }

  lemma FilledCovers(consumed: nat, chunks: seq<Chunk>, after: seq<Chunk>, offset: nat, bytes: seq<byte>, k: nat,
                     a: nat, b: nat)
    requires Filled(consumed, chunks, after, offset, bytes, k, a, b)
    ensures Grew(consumed, chunks, consumed, after, offset, offset + |bytes|, a, b)
  {
    forall i: nat
      ensures Covered(consumed, after, i) <==> Covered(consumed, chunks, i) || a <= i < b
    {
      if j :| 0 <= j < |chunks| && chunks[j].offset <= i < chunks[j].End() {
        assert after[if j < k then j else j + 1] == chunks[j];
      }
      if j :| 0 <= j < |after| && j != k && after[j].offset <= i < after[j].End() {
        assert after[j] == chunks[if j < k then j else j - 1];
      }
      assert after[k].offset == a && after[k].End() == b;
    }
  }

  lemma TailCovers(consumed: nat, chunks: seq<Chunk>, i: nat)
    requires Ordered(consumed, chunks) && chunks != [] && chunks[0].offset <= consumed
    ensures Ordered(chunks[0].End(), chunks[1..])
    ensures Covered(chunks[0].End(), chunks[1..], i) <==> Covered(consumed, chunks, i)
  {
    var tail := chunks[1..];
    if j :| 0 < j < |chunks| && chunks[j].offset <= i < chunks[j].End() {
      assert tail[j - 1] == chunks[j];
    }
    if j :| 0 <= j < |tail| && tail[j].offset <= i < tail[j].End() {
      assert chunks[j + 1] == tail[j];
    }
  }

  /** Delivery turns held offsets into consumed ones. */
  lemma {:induction false} RestCovers(consumed: nat, chunks: seq<Chunk>, i: nat)
    requires Ordered(consumed, chunks)
    ensures Covered(consumed + |Prefix(consumed, chunks)|, Rest(consumed, chunks), i) <==> Covered(consumed, chunks, i)
    decreases chunks
  {
    if chunks != [] && chunks[0].offset <= consumed {
      var end, tail := chunks[0].End(), chunks[1..];
      TailCovers(consumed, chunks, i);
      RestCovers(end, tail, i);
      assert Rest(consumed, chunks) == Rest(end, tail);
      assert consumed + |Prefix(consumed, chunks)| == end + |Prefix(end, tail)|;
    }
  }

  lemma AllRestCovers(consumed: nat, chunks: seq<Chunk>)
    requires Ordered(consumed, chunks)
    ensures SameCovered(consumed, chunks, consumed + |Prefix(consumed, chunks)|, Rest(consumed, chunks))
  {
    forall i: nat
      ensures Covered(consumed + |Prefix(consumed, chunks)|, Rest(consumed, chunks), i) <==>
        Covered(consumed, chunks, i)
    {
      RestCovers(consumed, chunks, i);
    }
  }

  lemma GrewThenSame(c: nat, chunks: seq<Chunk>, c1: nat, chunks1: seq<Chunk>, c2: nat, chunks2: seq<Chunk>,
                     lo: nat, hi: nat, a: nat, b: nat)
    requires Grew(c, chunks, c1, chunks1, lo, hi, a, b) && SameCovered(c1, chunks1, c2, chunks2)
    ensures Grew(c, chunks, c2, chunks2, lo, hi, a, b)
  {
  }

  /** Everything the stream promises between two frames. */
  ghost predicate Quiet(stream: StreamHead)
    reads stream`consumedOffset, stream`streamData, stream`delivered
  {
    && Ordered(stream.consumedOffset, stream.streamData) && Drained(stream.consumedOffset, stream.streamData)
    && |stream.delivered| == stream.consumedOffset
  }

  /** Deliver what has become contiguous: the same offsets are there, and the same data. */
  method Settle(stream: StreamHead, ghost data: seq<byte>)
    requires Ordered(stream.consumedOffset, stream.streamData) && |stream.delivered| == stream.consumedOffset
    modifies stream`consumedOffset, stream`streamData, stream`finSignalled, stream`delivered, stream`finEvents
    ensures Quiet(stream) && old(stream.delivered) <= stream.delivered
    ensures stream.consumedOffset == old(stream.consumedOffset + |Prefix(stream.consumedOffset, stream.streamData)|)
    ensures stream.streamData == old(Rest(stream.consumedOffset, stream.streamData))
    ensures SameCovered(old(stream.consumedOffset), old(stream.streamData), stream.consumedOffset, stream.streamData)
    ensures old(Agrees(data, stream.delivered, stream.streamData)) ==> Agrees(data, stream.delivered, stream.streamData)
  {
    AllRestCovers(stream.consumedOffset, stream.streamData);
    if Agrees(data, stream.delivered, stream.streamData) {
      PrefixAgrees(data, stream.delivered, stream.streamData);
    }
    ghost var _ := Deliver(stream);
  }

  /** Queue a frame and deliver what became contiguous. */
  method Receive(stream: StreamHead, offset: nat, bytes: seq<byte>, ghost data: seq<byte>)
    returns (ghost a: nat, ghost b: nat)
    requires Quiet(stream)
    modifies stream`consumedOffset, stream`streamData, stream`finSignalled, stream`delivered, stream`finEvents
    ensures Quiet(stream) && stream.consumedOffset >= old(stream.consumedOffset)
    ensures old(stream.delivered) <= stream.delivered
    ensures Grew(old(stream.consumedOffset), old(stream.streamData), stream.consumedOffset, stream.streamData,
                 offset, offset + |bytes|, a, b)
    ensures old(Agrees(data, stream.delivered, stream.streamData)) && CutFrom(data, offset, bytes)
      ==> Agrees(data, stream.delivered, stream.streamData)
    ensures offset <= old(stream.consumedOffset) < offset + |bytes| ==>
      && stream.consumedOffset > old(stream.consumedOffset)
      && (stream.consumedOffset >= offset + |bytes| || |stream.streamData| < |old(stream.streamData)|)
  {
    ghost var c, chunks := stream.consumedOffset, stream.streamData;
    var news;
    ghost var k;
    NextIsMissing(c, chunks);
    news, k, a, b := Queue(stream, offset, bytes);
    if news {
      ghost var after := stream.streamData;
      FilledCovers(c, chunks, after, offset, bytes, k, a, b);
      if Agrees(data, stream.delivered, chunks) && CutFrom(data, offset, bytes) {
        FilledAgrees(data, stream.delivered, chunks, after, offset, bytes, k, a, b);
      }
      if offset <= c < offset + |bytes| {
        SpanningGap(c, chunks, after, offset, bytes, k, a, b);
      }
      Settle(stream, data);
      GrewThenSame(c, chunks, c, after, stream.consumedOffset, stream.streamData, offset, offset + |bytes|, a, b);
    } else {
      b := a;
    }
  }

  /** A received stream frame; the end-of-stream bit plays no part in the reassembly. */
  datatype Frame = Frame(offset: nat, bytes: seq<byte>, fin: bool) {
    function End(): nat {
      offset + |bytes|
    }

    predicate Spans(i: nat) {
      offset <= i < End()
    }
  }

  /** Offset `i` lies in one of the frames. */
  ghost predicate Sent(frames: seq<Frame>, i: nat) {
    exists j :: 0 <= j < |frames| && frames[j].Spans(i)
  }

  /** Two frames have the same range or nothing in common, as when they are pieces of one partition. */
  predicate Aligned(f: Frame, g: Frame) {
    (f.offset == g.offset && f.End() == g.End()) || f.End() <= g.offset || g.End() <= f.offset
  }

  ghost predicate AllAligned(frames: seq<Frame>) {
    forall j, k :: 0 <= j < |frames| && 0 <= k < |frames| ==> Aligned(frames[j], frames[k])
  }

  /** All of the frame is there, or none of it. */
  ghost predicate Whole(c: nat, chunks: seq<Chunk>, f: Frame) {
    || (forall i: nat :: f.Spans(i) ==> Covered(c, chunks, i))
    || (forall i: nat :: f.Spans(i) ==> !Covered(c, chunks, i))
  }

  /** The one gap that is stored of a frame of which nothing is there is all of it. */
  lemma WholeStored(c: nat, chunks: seq<Chunk>, c': nat, chunks': seq<Chunk>, f: Frame, a: nat, b: nat)
    requires Grew(c, chunks, c', chunks', f.offset, f.End(), a, b) && Whole(c, chunks, f)
    ensures forall i: nat :: Covered(c', chunks', i) <==> Covered(c, chunks, i) || f.Spans(i)
  {
    if a != b {
      assert f.Spans(a);
      assert b < f.End() ==> f.Spans(b);
      assert a > f.offset ==> f.Spans(f.offset);
    }
  }

  /** An aligned frame stays whole. */
  lemma StaysWhole(c: nat, chunks: seq<Chunk>, c': nat, chunks': seq<Chunk>, f: Frame, g: Frame)
    requires Whole(c, chunks, g) && Aligned(f, g)
    requires forall i: nat :: Covered(c', chunks', i) <==> Covered(c, chunks, i) || f.Spans(i)
    ensures Whole(c', chunks', g)
  {
  }

  lemma SentMore(frames: seq<Frame>, n: nat, i: nat)
    requires n < |frames|
    ensures Sent(frames[..n + 1], i) <==> Sent(frames[..n], i) || frames[n].Spans(i)
  {
    var less, more := frames[..n], frames[..n + 1];
    if j :| 0 <= j < |less| && less[j].Spans(i) {
      assert more[j].Spans(i);
    }
    assert more[n] == frames[n];
    if j :| 0 <= j < |more| && more[j].Spans(i) && j < n {
      assert less[j].Spans(i);
    }
  }

  /** What is held or delivered is what was there before and what the frames carry: at most that, and exactly that
      when the frames are aligned with each other and with what was there. */
  ghost predicate Gathered(c0: nat, chunks0: seq<Chunk>, c: nat, chunks: seq<Chunk>, frames: seq<Frame>,
                           aligned: bool) {
    && (forall i: nat :: Covered(c0, chunks0, i) ==> Covered(c, chunks, i))
    && (forall i: nat :: Covered(c, chunks, i) ==> Covered(c0, chunks0, i) || Sent(frames, i))
    && (aligned ==> forall i: nat :: Sent(frames, i) ==> Covered(c, chunks, i))
  }

  ghost predicate AllWhole(c: nat, chunks: seq<Chunk>, frames: seq<Frame>) {
    forall j :: 0 <= j < |frames| ==> Whole(c, chunks, frames[j])
  }

  lemma WholeNext(c: nat, chunks: seq<Chunk>, c': nat, chunks': seq<Chunk>, frames: seq<Frame>, n: nat, a: nat, b: nat)
    requires n < |frames| && AllAligned(frames) && AllWhole(c, chunks, frames)
    requires Grew(c, chunks, c', chunks', frames[n].offset, frames[n].End(), a, b)
    ensures AllWhole(c', chunks', frames)
    ensures forall i: nat :: Covered(c', chunks', i) <==> Covered(c, chunks, i) || frames[n].Spans(i)
  {
    WholeStored(c, chunks, c', chunks', frames[n], a, b);
    forall j | 0 <= j < |frames|
      ensures Whole(c', chunks', frames[j])
    {
      StaysWhole(c, chunks, c', chunks', frames[n], frames[j]);
    }
  }

  /** One more frame. */
  lemma GatheredNext(c0: nat, chunks0: seq<Chunk>, c: nat, chunks: seq<Chunk>, c': nat, chunks': seq<Chunk>,
                     frames: seq<Frame>, n: nat, a: nat, b: nat, aligned: bool)
    requires n < |frames| && Gathered(c0, chunks0, c, chunks, frames[..n], aligned)
    requires Grew(c, chunks, c', chunks', frames[n].offset, frames[n].End(), a, b)
    requires aligned ==> AllAligned(frames) && AllWhole(c, chunks, frames)
    ensures Gathered(c0, chunks0, c', chunks', frames[..n + 1], aligned)
    ensures aligned ==> AllWhole(c', chunks', frames)
  {
    if aligned {
      WholeNext(c, chunks, c', chunks', frames, n, a, b);
    }
    forall i: nat
      ensures Covered(c0, chunks0, i) ==> Covered(c', chunks', i)
      ensures Covered(c', chunks', i) ==> Covered(c0, chunks0, i) || Sent(frames[..n + 1], i)
      ensures aligned && Sent(frames[..n + 1], i) ==> Covered(c', chunks', i)
    {
      SentMore(frames, n, i);
    }
  }

  /** Receives frame `n`, the frames before it having been received. */
  method ReceiveNext(stream: StreamHead, frames: seq<Frame>, n: nat, ghost data: seq<byte>, ghost c0: nat,
                     ghost chunks0: seq<Chunk>, ghost aligned: bool)
    requires Quiet(stream) && Agrees(data, stream.delivered, stream.streamData)
    requires n < |frames| && CutFrom(data, frames[n].offset, frames[n].bytes)
    requires Gathered(c0, chunks0, stream.consumedOffset, stream.streamData, frames[..n], aligned)
    requires aligned ==> AllAligned(frames) && AllWhole(stream.consumedOffset, stream.streamData, frames)
    modifies stream`consumedOffset, stream`streamData, stream`finSignalled, stream`delivered, stream`finEvents
    ensures Quiet(stream) && Agrees(data, stream.delivered, stream.streamData)
    ensures Gathered(c0, chunks0, stream.consumedOffset, stream.streamData, frames[..n + 1], aligned)
    ensures aligned ==> AllWhole(stream.consumedOffset, stream.streamData, frames)
  {
    ghost var c, chunks := stream.consumedOffset, stream.streamData;
    ghost var a, b := Receive(stream, frames[n].offset, frames[n].bytes, data);
    GatheredNext(c0, chunks0, c, chunks, stream.consumedOffset, stream.streamData, frames, n, a, b, aligned);
  }

  /** Any order, duplication or overlap of frames cut from one byte stream delivers a prefix of it. When the frames
      are aligned, what is held or delivered afterwards is exactly what they carry: nothing needs to be repeated. */
  method ReceiveAll(stream: StreamHead, frames: seq<Frame>, ghost data: seq<byte>)
    requires Quiet(stream) && Agrees(data, stream.delivered, stream.streamData)
    requires forall i :: 0 <= i < |frames| ==> CutFrom(data, frames[i].offset, frames[i].bytes)
    modifies stream`consumedOffset, stream`streamData, stream`finSignalled, stream`delivered, stream`finEvents
    ensures Quiet(stream) && Agrees(data, stream.delivered, stream.streamData)
    ensures stream.consumedOffset <= |data| && stream.delivered == data[..stream.consumedOffset]
    ensures var aligned := AllAligned(frames) && AllWhole(old(stream.consumedOffset), old(stream.streamData), frames);
      Gathered(old(stream.consumedOffset), old(stream.streamData), stream.consumedOffset, stream.streamData, frames,
               aligned)
  {
    ghost var c0, chunks0 := stream.consumedOffset, stream.streamData;
    ghost var aligned := AllAligned(frames) && AllWhole(c0, chunks0, frames);
    for n := 0 to |frames|
      invariant Quiet(stream) && Agrees(data, stream.delivered, stream.streamData)
      invariant Gathered(c0, chunks0, stream.consumedOffset, stream.streamData, frames[..n], aligned)
      invariant aligned ==> AllWhole(stream.consumedOffset, stream.streamData, frames)
    {
      ReceiveNext(stream, frames, n, data, c0, chunks0, aligned);
    }
    assert frames[..|frames|] == frames;
  }

  /** Aligned frames that carry all of the data deliver all of it, whatever their order and however often they come. */
  method ReceiveEverything(stream: StreamHead, frames: seq<Frame>, ghost data: seq<byte>)
    requires stream.consumedOffset == 0 && stream.streamData == [] && stream.delivered == []
    requires forall i :: 0 <= i < |frames| ==> CutFrom(data, frames[i].offset, frames[i].bytes)
    requires AllAligned(frames) && forall i: nat :: i < |data| ==> Sent(frames, i)
    modifies stream`consumedOffset, stream`streamData, stream`finSignalled, stream`delivered, stream`finEvents
    ensures Quiet(stream) && stream.delivered == data && stream.streamData == []
  {
    ReceiveAll(stream, frames, data);
    AllConsumed(stream.consumedOffset, stream.streamData, |data|);
  }

  /** When every offset below `n` is there, all of them have been consumed. */
  lemma AllConsumed(consumed: nat, chunks: seq<Chunk>, n: nat)
    requires Ordered(consumed, chunks) && Drained(consumed, chunks)
    requires forall i: nat :: i < n ==> Covered(consumed, chunks, i)
    ensures consumed >= n
  {
    NextIsMissing(consumed, chunks);
  }

  /** Although a frame is stored one gap at a time, repeating it once per chunk held, plus once,
      delivers all of it. */
  method Retransmit(stream: StreamHead, frame: Frame, ghost data: seq<byte>)
    requires Quiet(stream) && frame.offset <= stream.consumedOffset
    requires Agrees(data, stream.delivered, stream.streamData) && CutFrom(data, frame.offset, frame.bytes)
    modifies stream`consumedOffset, stream`streamData, stream`finSignalled, stream`delivered, stream`finEvents
    ensures Quiet(stream) && Agrees(data, stream.delivered, stream.streamData)
    ensures frame.End() <= stream.consumedOffset && old(stream.consumedOffset) <= stream.consumedOffset
  {
    ghost var held := |stream.streamData|;
    for i := 0 to |stream.streamData| + 1
      invariant Quiet(stream) && Agrees(data, stream.delivered, stream.streamData)
      invariant frame.offset <= old(stream.consumedOffset) <= stream.consumedOffset
      invariant stream.consumedOffset < frame.End() ==> |stream.streamData| + i <= held
    {
      ghost var _, _ := Receive(stream, frame.offset, frame.bytes, data);
    }
  }
}
