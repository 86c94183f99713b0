/** From the sender's queue to the receiver's application: frames written, parsed back, lost, reordered,
    repeated, checked against the limits and reassembled, with the end of the stream. */
module EndToEnd {
  import opened Wrappers
  import opened Varint
  import opened Streams
  import opened Reassembly
  import ReceiveFlow
  import SendFlow

  // ----- Sending -----

  /** Nothing is queued exactly when everything has been sent. */
  lemma QueueEmpty(s: StreamHead)
    requires SendFlow.InOrder(s)
    ensures s.sendQueue == [] <==> s.sentOffset == |s.queued|
  {
    assert |s.queued[s.sentOffset..]| == |SendFlow.Flat(s.sendQueue)|;
  }

  /** There is credit for the next byte. */
  ghost predicate Credit(c: Connection, s: StreamHead)
    reads c, s
  {
    s.sentOffset < s.maxdataRemote && c.dataSent < c.maxdataRemote
  }

  /** What the peer reads out of one packet: the next bytes of the queue, or nothing. In a packet of twenty bytes
      there is always a frame for the next byte, given credit, and for the end of the stream. */
  method SendOne(c: Connection, s: StreamHead, size: nat) returns (frame: Option<Frame>)
    requires SendFlow.Sendable(c, s) && (s.isActive ==> s.finRequested)
    requires s.streamId < VARINT_LIMIT && |s.queued| < VARINT_LIMIT && 0 < size <= 16384
    modifies c`dataSent, c`lastVisitedStreamId, s`sentOffset, s`sendQueue, s`finSent
    ensures SendFlow.Sendable(c, s) && c.dataSent - old(c.dataSent) == s.sentOffset - old(s.sentOffset) >= 0
    ensures frame.None? ==> s.sentOffset == old(s.sentOffset) && s.finSent == old(s.finSent)
    ensures frame.Some? ==>
      && frame.value.offset == old(s.sentOffset) && frame.value.bytes == s.queued[old(s.sentOffset)..s.sentOffset]
      && (frame.value.fin <==> s.finRequested && s.sentOffset == |s.queued|)
      && s.finSent == (old(s.finSent) || frame.value.fin)
    ensures size >= 20 && old(s.sentOffset) < |s.queued| && old(Credit(c, s)) ==> s.sentOffset > old(s.sentOffset)
    ensures size >= 20 && old(s.sentOffset) == |s.queued| && s.finRequested ==> s.finSent
    ensures s.sentOffset > old(s.sentOffset) ==> frame.Some?
  {
    SendFlow.SmallBufferFits(c, s, size);
    SendFlow.HeadIsShort(s);
    QueueEmpty(s);
    var buf := new byte[size](_ => 0);
    var _, h, data := SendFlow.PrepareThenParse(c, s, buf, size);
    return if h.Some? then Some(Frame(h.value.offset, data, h.value.fin)) else None;
  }

  /** The frames are a partition of the queued bytes between two offsets; an end-of-stream bit is at the end. */
  ghost predicate Pieces(frames: seq<Frame>, queued: seq<byte>, from: nat, to: nat, finRequested: bool) {
    && (forall j :: 0 <= j < |frames| ==> Piece(frames[j], queued, from, to, finRequested))
    && AllAligned(frames)
    && (forall i: nat :: from <= i < to ==> Sent(frames, i))
  }

  ghost predicate Piece(f: Frame, queued: seq<byte>, from: nat, to: nat, finRequested: bool) {
    && from <= f.offset && f.End() <= to && CutFrom(queued, f.offset, f.bytes)
    && (f.fin ==> finRequested && f.End() == |queued|)
  }

  ghost predicate Ended(frames: seq<Frame>) {
    exists j :: 0 <= j < |frames| && frames[j].fin
  }

  lemma PiecesNext(frames: seq<Frame>, queued: seq<byte>, from: nat, to: nat, finRequested: bool, f: Frame)
    requires Pieces(frames, queued, from, to, finRequested) && from <= to == f.offset && f.End() <= |queued|
    requires Piece(f, queued, from, f.End(), finRequested)
    ensures Pieces(frames + [f], queued, from, f.End(), finRequested)
    ensures Ended(frames + [f]) <==> Ended(frames) || f.fin
  {
    var more, n := frames + [f], |frames|;
    assert more[n] == f && more[..n] == frames && more[..n + 1] == more;
    forall i: nat | from <= i < f.End()
      ensures Sent(more, i)
    {
      SentMore(more, n, i);
    }
    if j :| 0 <= j < n && frames[j].fin {
      assert more[j].fin;
    }
  }

  ghost predicate Roomy(sizes: seq<nat>) {
    forall i :: 0 <= i < |sizes| ==> sizes[i] >= 20
  }

  /** The bytes that can be sent: queued, within both limits. */
  ghost function Due(c: Connection, s: StreamHead): int
    reads c, s
  {
    var allowed := if s.maxdataRemote < |s.queued| then s.maxdataRemote - s.sentOffset else |s.queued| - s.sentOffset;
    if c.maxdataRemote - c.dataSent < allowed then c.maxdataRemote - c.dataSent else allowed
  }

  lemma NoPieces(queued: seq<byte>, from: nat, finRequested: bool)
    ensures Pieces([], queued, from, from, finRequested) && !Ended([])
  {
  }

  /** The packets and the limits suffice for all that is queued. */
  ghost predicate Enough(c: Connection, s: StreamHead, sizes: seq<nat>)
    reads c, s
  {
    && Roomy(sizes) && |sizes| >= 1 && |sizes| >= |s.queued| - s.sentOffset
    && |s.queued| <= s.maxdataRemote && |s.queued| - s.sentOffset <= c.maxdataRemote - c.dataSent
  }

  /** What the peer reads out of packets of any sizes: a partition of the bytes sent. Every packet with room carries at
      least a byte while one is due. Everything is sent, and the end of the stream, when packets and limits suffice. */
  method Send(c: Connection, s: StreamHead, sizes: seq<nat>) returns (frames: seq<Frame>)
    requires SendFlow.Sendable(c, s) && (s.isActive ==> s.finRequested)
    requires s.streamId < VARINT_LIMIT && |s.queued| < VARINT_LIMIT
    requires forall i :: 0 <= i < |sizes| ==> 0 < sizes[i] <= 16384
    modifies c`dataSent, c`lastVisitedStreamId, s`sentOffset, s`sendQueue, s`finSent
    ensures SendFlow.Sendable(c, s) && c.dataSent - old(c.dataSent) == s.sentOffset - old(s.sentOffset) >= 0
    ensures Pieces(frames, s.queued, old(s.sentOffset), s.sentOffset, s.finRequested)
    ensures s.finSent == (old(s.finSent) || Ended(frames)) && |frames| <= |sizes|
    ensures Roomy(sizes) ==> s.sentOffset - old(s.sentOffset) >= |sizes| || Due(c, s) == 0
    ensures old(Enough(c, s, sizes)) ==> s.sentOffset == |s.queued| && (s.finRequested ==> s.finSent)
  {
    hide Pieces;
    hide Ended;
    hide SendFlow.Flat;
    hide SendFlow.Wellformed;
    frames := [];
    NoPieces(s.queued, s.sentOffset, s.finRequested);
    ghost var enough := Enough(c, s, sizes);
    for i := 0 to |sizes|
      invariant SendFlow.Sendable(c, s) && c.dataSent - old(c.dataSent) == s.sentOffset - old(s.sentOffset) >= 0
      invariant Pieces(frames, s.queued, old(s.sentOffset), s.sentOffset, s.finRequested)
      invariant s.finSent == (old(s.finSent) || Ended(frames)) && |frames| <= i
      invariant Roomy(sizes) ==> s.sentOffset - old(s.sentOffset) >= i || Due(c, s) == 0
      invariant enough ==> |sizes| - i >= |s.queued| - s.sentOffset
      invariant enough && s.sentOffset == |s.queued| && s.finRequested && !s.finSent ==> i == 0
    {
      var frame := SendOne(c, s, sizes[i]);
      if frame.Some? {
        PiecesNext(frames, s.queued, old(s.sentOffset), frame.value.offset, s.finRequested, frame.value);
        frames := frames + [frame.value];
      }
    }
  }

  // ----- Receiving -----

  /** The receiver has granted credit for all bytes below `to`. */
  ghost predicate Granted(c: Connection, r: StreamHead, to: nat)
    reads c, r
  {
    r.finOffset <= to <= r.maxdataLocal && to - r.finOffset <= c.maxdataLocal - c.dataReceived
  }

  /** What the receiver knows of the data. */
  ghost predicate Faithful(r: StreamHead, data: seq<byte>)
    reads r
  {
    ReceiveFlow.Received(r) && Agrees(data, r.delivered, r.streamData) && (r.finReceived ==> r.finOffset == |data|)
  }

  /** A piece within the credit is accepted. */
  method ReceivePiece(c: Connection, r: StreamHead, frame: Frame, ghost data: seq<byte>, ghost to: nat,
                      ghost finRequested: bool)
    returns (ok: bool, ghost a: nat, ghost b: nat)
    requires Faithful(r, data) && Granted(c, r, to) && to <= |data| && Piece(frame, data, 0, to, finRequested)
    modifies c`dataReceived, r`finOffset, r`finReceived
    modifies r`consumedOffset, r`streamData, r`finSignalled, r`delivered, r`finEvents
    ensures ok && Faithful(r, data) && Granted(c, r, to) && r.finReceived == (old(r.finReceived) || frame.fin)
    ensures Grew(old(r.consumedOffset), old(r.streamData), r.consumedOffset, r.streamData, frame.offset, frame.End(),
                 a, b)
  {
    ok, a, b := ReceiveFlow.Input(c, r, frame.offset, frame.fin, frame.bytes, data);
  }

  /** The frames received so far, of a partition, are all there. */
  ghost predicate Collected(r: StreamHead, frames: seq<Frame>, n: nat)
    requires n <= |frames|
    reads r
  {
    && Gathered(0, [], r.consumedOffset, r.streamData, frames[..n], true)
    && AllWhole(r.consumedOffset, r.streamData, frames)
  }

  method ReceiveNextPiece(c: Connection, r: StreamHead, frames: seq<Frame>, n: nat, ghost data: seq<byte>,
                          ghost to: nat,
                          ghost finRequested: bool)
    requires n < |frames| && AllAligned(frames) && Collected(r, frames, n)
    requires Faithful(r, data) && Granted(c, r, to) && to <= |data| && Piece(frames[n], data, 0, to, finRequested)
    modifies c`dataReceived, r`finOffset, r`finReceived
    modifies r`consumedOffset, r`streamData, r`finSignalled, r`delivered, r`finEvents
    ensures Faithful(r, data) && Granted(c, r, to) && r.finReceived == (old(r.finReceived) || frames[n].fin)
    ensures Collected(r, frames, n + 1)
  {
    ghost var consumed, chunks := r.consumedOffset, r.streamData;
    var ok;
    ghost var a, b;
    ok, a, b := ReceivePiece(c, r, frames[n], data, to, finRequested);
    GatheredNext(0, [], consumed, chunks, r.consumedOffset, r.streamData, frames, n, a, b, true);
  }

  /** A partition that arrives in any order, with any loss and any repetition: nothing is refused, and what has arrived
      is there. */
  method ReceivePieces(c: Connection, r: StreamHead, frames: seq<Frame>, ghost data: seq<byte>, ghost to: nat,
                       ghost finRequested: bool)
    requires Blank(r) && Granted(c, r, to) && to <= |data| && AllAligned(frames)
    requires forall j :: 0 <= j < |frames| ==> Piece(frames[j], data, 0, to, finRequested)
    modifies c`dataReceived, r`finOffset, r`finReceived
    modifies r`consumedOffset, r`streamData, r`finSignalled, r`delivered, r`finEvents
    ensures Faithful(r, data) && Collected(r, frames, |frames|) && r.finOffset <= to
    ensures r.finReceived == Ended(frames)
  {
    hide Faithful;
    hide Collected;
    NothingYet(r, frames, data);
    for n := 0 to |frames|
      invariant Faithful(r, data) && Granted(c, r, to) && Collected(r, frames, n)
      invariant r.finReceived == Ended(frames[..n])
    {
      ReceiveNextPiece(c, r, frames, n, data, to, finRequested);
      EndedMore(frames, n);
    }
    assert frames[..|frames|] == frames;
  }

  lemma NothingYet(r: StreamHead, frames: seq<Frame>, data: seq<byte>)
    requires Blank(r)
    ensures Faithful(r, data) && Collected(r, frames, 0) && !Ended(frames[..0])
  {
  }

  lemma EndedMore(frames: seq<Frame>, n: nat)
    requires n < |frames|
    ensures Ended(frames[..n + 1]) <==> Ended(frames[..n]) || frames[n].fin
  {
    var less, more := frames[..n], frames[..n + 1];
    assert more[n] == frames[n];
    if j :| 0 <= j < n && less[j].fin {
      assert more[j].fin;
    }
    if j :| 0 <= j < n && more[j].fin {
      assert less[j].fin;
    }
  }

  // ----- Both sides -----

  /** The frame has one of the numbers. */
  ghost predicate Named(frames: seq<Frame>, arrivals: seq<nat>, f: Frame) {
    exists i :: 0 <= i < |arrivals| && arrivals[i] < |frames| && frames[arrivals[i]] == f
  }

  /** The frames that arrive, by their numbers. */
  ghost predicate Picked(frames: seq<Frame>, arrivals: seq<nat>, arrived: seq<Frame>) {
    && (forall j :: 0 <= j < |arrived| ==> Named(frames, arrivals, arrived[j]))
    && (forall i :: 0 <= i < |arrivals| && arrivals[i] < |frames| ==> frames[arrivals[i]] in arrived)
  }

  lemma NamedMore(frames: seq<Frame>, arrivals: seq<nat>, n: nat, f: Frame)
    requires n < |arrivals| && Named(frames, arrivals[..n], f)
    ensures Named(frames, arrivals[..n + 1], f)
  {
    var less, more := arrivals[..n], arrivals[..n + 1];
    var i :| 0 <= i < n && less[i] < |frames| && frames[less[i]] == f;
    assert more[i] == less[i];
  }

  method Pick(frames: seq<Frame>, arrivals: seq<nat>) returns (arrived: seq<Frame>)
    ensures Picked(frames, arrivals, arrived)
  {
    arrived := [];
    for n := 0 to |arrivals|
      invariant Picked(frames, arrivals[..n], arrived)
    {
      forall j | 0 <= j < |arrived|
        ensures Named(frames, arrivals[..n + 1], arrived[j])
      {
        NamedMore(frames, arrivals, n, arrived[j]);
      }
      if arrivals[n] < |frames| {
        assert arrivals[..n + 1][n] == arrivals[n];
        arrived := arrived + [frames[arrivals[n]]];
      }
    }
    assert arrivals[..|arrivals|] == arrivals;
  }

  lemma PickedPieces(frames: seq<Frame>, arrivals: seq<nat>, arrived: seq<Frame>, queued: seq<byte>, to: nat,
                     finRequested: bool)
    requires Picked(frames, arrivals, arrived) && Pieces(frames, queued, 0, to, finRequested)
    ensures AllAligned(arrived) && forall j :: 0 <= j < |arrived| ==> Piece(arrived[j], queued, 0, to, finRequested)
    ensures Ended(arrived) ==> Ended(frames)
  {
    forall j, k | 0 <= j < |arrived| && 0 <= k < |arrived|
      ensures Aligned(arrived[j], arrived[k])
    {
      assert Named(frames, arrivals, arrived[j]) && Named(frames, arrivals, arrived[k]);
    }
  }

  /** Every frame arrives at least once. */
  ghost predicate NoneLost(frames: seq<Frame>, arrivals: seq<nat>) {
    forall j: nat :: j < |frames| ==> j in arrivals
  }

  lemma AllArrived(frames: seq<Frame>, arrivals: seq<nat>, arrived: seq<Frame>, i: nat)
    requires Picked(frames, arrivals, arrived) && NoneLost(frames, arrivals)
    ensures Sent(frames, i) ==> Sent(arrived, i)
    ensures Ended(frames) ==> Ended(arrived)
  {
    forall j: nat | j < |frames|
      ensures frames[j] in arrived
    {
      assert j in arrivals;
      var k :| 0 <= k < |arrivals| && arrivals[k] == j;
    }
    if j :| 0 <= j < |frames| && frames[j].Spans(i) {
      assert frames[j] in arrived;
    }
    if j :| 0 <= j < |frames| && frames[j].fin {
      assert frames[j] in arrived;
    }
  }

  /** The offset lies in a frame that arrived. */
  ghost predicate Came(frames: seq<Frame>, arrivals: seq<nat>, i: nat) {
    exists j: nat :: j < |frames| && j in arrivals && frames[j].Spans(i)
  }

  /** The end arrived. */
  ghost predicate EndCame(frames: seq<Frame>, arrivals: seq<nat>) {
    exists j: nat :: j < |frames| && j in arrivals && frames[j].fin
  }

  lemma EndPicked(frames: seq<Frame>, arrivals: seq<nat>, arrived: seq<Frame>)
    requires Picked(frames, arrivals, arrived)
    ensures Ended(arrived) <==> EndCame(frames, arrivals)
  {
    if j :| 0 <= j < |arrived| && arrived[j].fin {
      var k :| 0 <= k < |arrivals| && arrivals[k] < |frames| && frames[arrivals[k]] == arrived[j];
      assert arrivals[k] in arrivals;
    }
    if j: nat :| j < |frames| && j in arrivals && frames[j].fin {
      var k :| 0 <= k < |arrivals| && arrivals[k] == j;
      var m :| 0 <= m < |arrived| && arrived[m] == frames[j];
    }
  }

  /** Whatever has arrived, what is delivered is carried by frames that arrived, and a frame that arrived is delivered
      all of it once its first byte has been reached. */
  lemma ExactlyDelivered(r: StreamHead, frames: seq<Frame>, arrivals: seq<nat>, arrived: seq<Frame>, queued: seq<byte>)
    requires Picked(frames, arrivals, arrived) && Faithful(r, queued) && Collected(r, arrived, |arrived|)
    ensures forall i: nat :: i < |r.delivered| ==> Came(frames, arrivals, i)
    ensures forall j: nat :: j < |frames| && j in arrivals && frames[j].offset <= |r.delivered| ==>
      frames[j].End() <= |r.delivered|
  {
    assert arrived[..|arrived|] == arrived;
    forall i: nat | i < |r.delivered|
      ensures Came(frames, arrivals, i)
    {
      assert Covered(r.consumedOffset, r.streamData, i);
      var j :| 0 <= j < |arrived| && arrived[j].Spans(i);
      var k :| 0 <= k < |arrivals| && arrivals[k] < |frames| && frames[arrivals[k]] == arrived[j];
      assert arrivals[k] in arrivals;
    }
    NextIsMissing(r.consumedOffset, r.streamData);
    forall j: nat | j < |frames| && j in arrivals && frames[j].offset <= |r.delivered|
      ensures frames[j].End() <= |r.delivered|
    {
      var k :| 0 <= k < |arrivals| && arrivals[k] == j;
      var m :| 0 <= m < |arrived| && arrived[m] == frames[j];
      assert |r.delivered| < frames[j].End() ==> arrived[m].Spans(r.consumedOffset);
    }
  }

  /** Once every frame has arrived, all of the bytes and the end have been delivered. */
  lemma AllDelivered(r: StreamHead, frames: seq<Frame>, arrivals: seq<nat>, arrived: seq<Frame>, queued: seq<byte>,
                     to: nat, finRequested: bool)
    requires Picked(frames, arrivals, arrived) && NoneLost(frames, arrivals) && to <= |queued|
    requires Pieces(frames, queued, 0, to, finRequested) && Faithful(r, queued) && Collected(r, arrived, |arrived|)
    requires r.finOffset <= to && r.finReceived == Ended(arrived)
    ensures r.delivered == queued[..to] && (Ended(frames) ==> r.finEvents == [|queued|])
  {
    assert arrived[..|arrived|] == arrived;
    forall i: nat | i < to
      ensures Covered(r.consumedOffset, r.streamData, i)
    {
      AllArrived(frames, arrivals, arrived, i);
    }
    AllArrived(frames, arrivals, arrived, 0);
    AllConsumed(r.consumedOffset, r.streamData, to);
  }

  /** The receiver has granted at least the credit that the sender knows of. Whatever packets the frames travel in and
      whichever of them arrive, in any order and any number of times, none is refused and the receiving application
      has a prefix of the bytes queued by the sending one: what the frames that arrived carry up to the first gap. It
      sees the end exactly when that arrived and all bytes did. Once every frame has arrived it has exactly the bytes
      sent, and has seen the end if it was sent; with enough packets and credit that is all bytes, and the end. */
  method Transfer(c: Connection, s: StreamHead, d: Connection, r: StreamHead, sizes: seq<nat>, arrivals: seq<nat>)
    returns (frames: seq<Frame>)
    requires SendFlow.Sendable(c, s) && (s.isActive ==> s.finRequested) && s.sentOffset == 0 && !s.finSent
    requires s.streamId < VARINT_LIMIT && |s.queued| < VARINT_LIMIT
    requires forall i :: 0 <= i < |sizes| ==> 0 < sizes[i] <= 16384
    requires r != s && Blank(r) && s.maxdataRemote <= r.maxdataLocal
    requires c.maxdataRemote - c.dataSent <= d.maxdataLocal - d.dataReceived
    modifies c`dataSent, c`lastVisitedStreamId, s`sentOffset, s`sendQueue, s`finSent
    modifies d`dataReceived, r`finOffset, r`finReceived
    modifies r`consumedOffset, r`streamData, r`finSignalled, r`delivered, r`finEvents
    ensures |frames| <= |sizes| && s.finSent == Ended(frames)
    ensures Pieces(frames, s.queued, 0, s.sentOffset, s.finRequested)
    ensures Roomy(sizes) ==> s.sentOffset - old(s.sentOffset) >= |sizes| || Due(c, s) == 0
    ensures old(Enough(c, s, sizes)) ==> s.sentOffset == |s.queued| && (s.finRequested ==> s.finSent)
    ensures s.sentOffset <= |s.queued| && r.delivered <= s.queued
    ensures forall i: nat :: i < |r.delivered| ==> Came(frames, arrivals, i)
    ensures forall j: nat :: j < |frames| && j in arrivals && frames[j].offset <= |r.delivered| ==>
      frames[j].End() <= |r.delivered|
    ensures r.finEvents == if EndCame(frames, arrivals) && r.delivered == s.queued then [|s.queued|] else []
    ensures NoneLost(frames, arrivals) ==>
      r.delivered == s.queued[..s.sentOffset] && (s.finSent ==> r.finEvents == [|s.queued|])
    ensures NoneLost(frames, arrivals) && old(Enough(c, s, sizes)) ==>
      r.delivered == s.queued && (s.finRequested ==> r.finEvents == [|s.queued|])
  {
    frames := Send(c, s, sizes);
    var arrived := Pick(frames, arrivals);
    PickedPieces(frames, arrivals, arrived, s.queued, s.sentOffset, s.finRequested);
    ReceivePieces(d, r, arrived, s.queued, s.sentOffset, s.finRequested);
    ExactlyDelivered(r, frames, arrivals, arrived, s.queued);
    EndPicked(frames, arrivals, arrived);
    if NoneLost(frames, arrivals) {
      AllDelivered(r, frames, arrivals, arrived, s.queued, s.sentOffset, s.finRequested);
    }
  }
}
