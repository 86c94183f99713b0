/** Sending queued stream data: picoquic_add_to_stream and the data part of prepare_stream_frame,
    with the flow-control limits that MAX_DATA and MAX_STREAM_DATA frames raise. */
module SendFlow {
  import opened Wrappers
  import opened Varint
  import opened Sequences
  import opened Streams
  import opened StreamFrame

  /** The bytes still to send. */
  ghost function Flat(queue: seq<Pending>): (s: seq<byte>)
    requires Wellformed(queue)
  {
    if queue == [] then [] else queue[0].bytes[queue[0].offset..] + Flat(queue[1..])
  }

  /** Only the first piece may be partly sent, and no piece is exhausted. */
  ghost predicate Wellformed(queue: seq<Pending>) {
    forall k :: 0 <= k < |queue| ==> queue[k].offset < |queue[k].bytes|
  }

  lemma {:induction false} FlatAppend(queue: seq<Pending>, p: Pending)
    requires Wellformed(queue) && p.offset < |p.bytes|
    ensures Wellformed(queue + [p]) && Flat(queue + [p]) == Flat(queue) + p.bytes[p.offset..]
  {
    if queue == [] {
      assert queue + [p] == [p] && [p][1..] == [];
    } else {
      var head, rest, last := queue[0].bytes[queue[0].offset..], queue[1..], p.bytes[p.offset..];
      FlatAppend(rest, p);
      assert (queue + [p])[0] == queue[0] && (queue + [p])[1..] == rest + [p];
      assert head + (Flat(rest) + last) == (head + Flat(rest)) + last;
    }
  }

  lemma QueuedMore(queued: seq<byte>, sent: nat, queue: seq<Pending>, data: seq<byte>)
    requires Wellformed(queue) && sent <= |queued| && queued[sent..] == Flat(queue) && data != []
    ensures Wellformed(queue + [Pending(data, 0)]) && (queued + data)[sent..] == Flat(queue + [Pending(data, 0)])
  {
    FlatAppend(queue, Pending(data, 0));
    assert (queued + data)[sent..] == queued[sent..] + data;
  }

  /** The sent bytes are a prefix of the queued ones and the rest is in the queue; the limit is not exceeded. */
  ghost predicate InOrder(s: StreamHead)
    reads s`sendQueue, s`sentOffset, s`queued, s`maxdataRemote
  {
    && Wellformed(s.sendQueue)
    && s.sentOffset <= |s.queued| && s.queued[s.sentOffset..] == Flat(s.sendQueue)
    && s.sentOffset <= s.maxdataRemote
  }

  /** Nor is that of the connection. */
  ghost predicate Sendable(c: Connection, s: StreamHead)
    reads c, s
  {
    InOrder(s) && c.dataSent <= c.maxdataRemote
  }

  /** Queue data and possibly the end of the stream; false is the source's error return. */
  method AddToStream(c: Connection, s: StreamHead, data: seq<byte>, setFin: bool, stopSendingReceived: bool)
    returns (ok: bool)
    requires Sendable(c, s)
    modifies s`sendQueue, s`finRequested, s`isActive, s`queued
    ensures Sendable(c, s)
    ensures ok <==> !(setFin && old(s.finRequested) && data != []) && !s.resetSent && !stopSendingReceived
    ensures s.queued == old(s.queued) + if ok then data else []
    ensures s.finRequested == (old(s.finRequested) || setFin) && s.isActive == (old(s.isActive) && !ok)
  {
    ok := true;
    if setFin {
      if s.finRequested {
        if |data| > 0 {
          ok := false;
        }
      } else {
        s.finRequested := true;
      }
    }
    if s.resetSent || stopSendingReceived {
      ok := false;
    }
    if ok && |data| > 0 {
      QueuedMore(s.queued, s.sentOffset, s.sendQueue, data);
      s.sendQueue := s.sendQueue + [Pending(data, 0)];
      s.queued := s.queued + data;
    }
    if ok {
      s.isActive := false;
    }
  }

  lemma HeadOf(first: byte, id: nat, offset: nat)
    ensures [first] + Encoding(id) + (if offset > 0 then Encoding(offset) else []) ==
            [first] + Fields(id, offset, 0, false)
  {
  }

  /** The stream offset, unless it is zero, after the type and the identifier. */
  method WriteOffset(buf: array<byte>, at: nat, bytesMax: nat, id: nat, offset: nat) returns (lOff: nat)
    requires 0 < at <= bytesMax <= buf.Length && offset < VARINT_LIMIT && buf[0] == STREAM_FRAME_TYPE
    modifies buf
    ensures lOff == if offset > 0 && Size(offset) <= bytesMax - at then Size(offset) else 0
    ensures old(buf[..at]) == [STREAM_FRAME_TYPE] + Encoding(id) && (offset == 0 || lOff > 0) ==>
      buf[..at + lOff] == [TypeByte(offset, false, false)] + Fields(id, offset, 0, false)
    ensures buf[at + lOff..] == old(buf[at + lOff..])
  {
    lOff := 0;
    if offset > 0 && bytesMax > at {
      buf[0] := buf[0] + 4;
      ghost var head := buf[..at];
      assert head == [TypeByte(offset, false, false)] + old(buf[1..at]);
      lOff := Append(buf, at, bytesMax - at, offset, head);
    }
    HeadOf(TypeByte(offset, false, false), id, offset);
  }

  /** The frame type and the stream fields; `fits` is false where the source gives up on the buffer. */
  method WriteHead(buf: array<byte>, bytesMax: nat, id: nat, offset: nat) returns (byteIndex: nat, fits: bool)
    requires 0 < bytesMax <= buf.Length && id < VARINT_LIMIT && offset < VARINT_LIMIT
    modifies buf
    ensures fits <==> 1 + |Fields(id, offset, 0, false)| + 3 <= bytesMax
    ensures fits ==> byteIndex == 1 + |Fields(id, offset, 0, false)|
    ensures fits ==> buf[..byteIndex] == [TypeByte(offset, false, false)] + Fields(id, offset, 0, false)
    ensures fits ==> buf[byteIndex..] == old(buf[byteIndex..])
  {
    buf[0] := STREAM_FRAME_TYPE;
    byteIndex := 1;
    var lStream, lOff := 0, 0;
    if bytesMax > byteIndex {
      lStream := Append(buf, byteIndex, bytesMax - byteIndex, id, [STREAM_FRAME_TYPE]);
      byteIndex := byteIndex + lStream;
    }
    assert buf[byteIndex..] == old(buf[byteIndex..]);
    ghost var rest := buf[byteIndex..];
    lOff := WriteOffset(buf, byteIndex, bytesMax, id, offset);
    assert buf[byteIndex + lOff..] == rest[lOff..];
    byteIndex := byteIndex + lOff;
    fits := !(byteIndex + 3 > bytesMax || lStream == 0 || (offset > 0 && lOff == 0));
  }

  /** Move the first `n` bytes up by one and put a PADDING byte in front. */
  method PadFront(buf: array<byte>, n: nat)
    requires n < buf.Length
    modifies buf
    ensures buf[0] == 0 && buf[1..n + 1] == old(buf[..n]) && buf[n + 1..] == old(buf[n + 1..])
  {
    ghost var was := buf[..];
    for i := n downto 0
      invariant buf[..] == was[..i + 1] + was[i..n] + was[n + 1..]
    {
      MovedUp(was, i, n);
      buf[i + 1] := buf[i];
    }
    buf[0] := 0;
    assert buf[..] == [0] + was[..n] + was[n + 1..];
  }

  lemma MovedUp(was: seq<byte>, i: nat, n: nat)
    requires i < n < |was|
    ensures var now := was[..i + 2] + was[i + 1..n] + was[n + 1..];
      now[i] == was[i] && now[i + 1 := was[i]] == was[..i + 1] + was[i..n] + was[n + 1..]
  {
  }

  /** Bytes that follow the stream fields, for `length` bytes of data and `byteSpace` bytes of room. */
  function BodySize(byteSpace: nat, length: nat): nat {
    if length >= byteSpace then length else if length == byteSpace - 1 then length + 1 else Size(length) + length
  }

  /** The space kept for the length field is two bytes, so the body fits exactly unless the data
      needs a longer length field than what is left. */
  lemma BodyFits(byteSpace: nat, length: nat)
    requires length <= byteSpace
    ensures BodySize(byteSpace, length) <= byteSpace <==>
      !(16384 <= length && length + 1 < byteSpace < length + Size(length))
  {
  }

  /** Length field, padding in front, or neither: the three encodings of a STREAM frame. The body may reach beyond
      the room it was given. */
  method WriteLength(buf: array<byte>, bytesMax: nat, at: nat, length: nat, ghost id: nat, ghost offset: nat)
    returns (end: nat, start: nat, ghost explicit: bool)
    requires 0 < at && at + 3 <= bytesMax <= buf.Length && at + length <= bytesMax < VARINT_LIMIT
    requires at + BodySize(bytesMax - at, length) <= buf.Length
    requires buf[..at] == [TypeByte(offset, false, false)] + Fields(id, offset, 0, false)
    modifies buf
    ensures start <= 1 && start < end && end + length == at + BodySize(bytesMax - at, length)
    ensures explicit <==> at + length + 1 < bytesMax
    ensures !explicit ==> end + length == bytesMax
    ensures start == 1 ==> buf[0] == 0 && !explicit
    ensures buf[start..end] == [TypeByte(offset, explicit, false)] + Fields(id, offset, length, explicit)
    ensures buf[end..] == old(buf[end..])
  {
    var byteSpace := bytesMax - at;
    end, start, explicit := at, 0, false;
    if length < byteSpace {
      if length == byteSpace - 1 {
        PadFront(buf, at);
        end := end + 1;
        start := 1;
      } else {
        var l := Append(buf, at, byteSpace, length, buf[..at]);
        end := end + l;
        buf[0] := buf[0] + 2;
        explicit := true;
      }
    }
  }

  method CopyIn(buf: array<byte>, at: nat, data: seq<byte>)
    requires at + |data| <= buf.Length
    modifies buf
    ensures buf[..at] == old(buf[..at]) && buf[at..at + |data|] == data && buf[at + |data|..] == old(buf[at + |data|..])
  {
    forall i | 0 <= i < |data| {
      buf[at + i] := data[i];
    }
  }

  /** Complete the frame whose stream fields have been written. */
  method WriteBody(buf: array<byte>, bytesMax: nat, at: nat, data: seq<byte>, ghost id: nat, ghost offset: nat)
    returns (end: nat, start: nat, ghost explicit: bool)
    requires 0 < at && at + 3 <= bytesMax <= buf.Length && at + |data| <= bytesMax < VARINT_LIMIT
    requires at + BodySize(bytesMax - at, |data|) <= buf.Length
    requires buf[..at] == [TypeByte(offset, false, false)] + Fields(id, offset, 0, false)
    modifies buf
    ensures start <= 1 && start < end == at + BodySize(bytesMax - at, |data|)
    ensures explicit <==> at + |data| + 1 < bytesMax
    ensures !explicit ==> end == bytesMax
    ensures start == 1 ==> buf[0] == 0 && !explicit
    ensures buf[start..end] == Layout(id, offset, data, false, explicit)
    ensures buf[end..] == old(buf[end..])
  {
    end, start, explicit := WriteLength(buf, bytesMax, at, |data|, id, offset);
    ghost var head, mid, was := buf[start..end], buf[..], old(buf[..]);
    CopyIn(buf, end, data);
    assert buf[0] == buf[..end][0] == mid[0];
    assert buf[start..end] == buf[..end][start..] == head;
    assert mid[end..][|data|..] == mid[end + |data|..] && was[end..][|data|..] == was[end + |data|..];
    end := end + |data|;
    assert buf[start..end] == head + data;
  }

  method SetFin(buf: array<byte>, at: nat, ghost end: nat, ghost id: nat, ghost offset: nat, ghost data: seq<byte>,
                ghost explicit: bool)
    requires at < end <= buf.Length && buf[at..end] == Layout(id, offset, data, false, explicit)
    modifies buf
    ensures buf[at..end] == Layout(id, offset, data, true, explicit)
    ensures buf[..at] == old(buf[..at])
  {
    assert buf[at] == buf[at..end][0];
    buf[at] := buf[at] + 1;
    assert buf[at..end][1..] == old(buf[at..end])[1..];
  }

  /** Complete the frame and set its FIN bit. */
  method WriteFrame(buf: array<byte>, bytesMax: nat, at: nat, data: seq<byte>, fin: bool, ghost id: nat,
                    ghost offset: nat)
    returns (end: nat, ghost start: nat, ghost explicit: bool)
    requires 0 < at && at + 3 <= bytesMax <= buf.Length && at + |data| <= bytesMax < VARINT_LIMIT
    requires at + BodySize(bytesMax - at, |data|) <= buf.Length
    requires buf[..at] == [TypeByte(offset, false, false)] + Fields(id, offset, 0, false)
    modifies buf
    ensures start <= 1 && start < end == at + BodySize(bytesMax - at, |data|) && (explicit || end == bytesMax)
    ensures start == 1 ==> buf[0] == 0
    ensures buf[start..end] == Layout(id, offset, data, fin, explicit)
  {
    var startIndex;
    end, startIndex, explicit := WriteBody(buf, bytesMax, at, data, id, offset);
    start := startIndex;
    if fin {
      SetFin(buf, startIndex, end, id, offset, data, explicit);
      assert startIndex == 1 ==> buf[0] == buf[..startIndex][0];
    }
  }

  /** The queue after `n` bytes of its first piece have been sent. */
  function Advanced(queue: seq<Pending>, n: nat): (after: seq<Pending>)
    requires queue != []
  {
    var p := queue[0].(offset := queue[0].offset + n);
    if p.offset >= |p.bytes| then queue[1..] else [p] + queue[1..]
  }

  /** Sending from the first piece takes exactly the next bytes of the stream. */
  lemma AdvancedFlat(queue: seq<Pending>, n: nat)
    requires queue != [] && Wellformed(queue) && n <= |queue[0].bytes| - queue[0].offset
    ensures Wellformed(Advanced(queue, n)) && n <= |Flat(queue)|
    ensures Flat(queue)[..n] == queue[0].bytes[queue[0].offset..queue[0].offset + n]
    ensures Flat(Advanced(queue, n)) == Flat(queue)[n..]
  {
    var p, rest := queue[0], queue[1..];
    assert queue == [p] + rest;
    FlatCons(p, rest);
    SplitConcat(p.bytes, p.offset, n, Flat(rest));
    if p.offset + n < |p.bytes| {
      FlatCons(p.(offset := p.offset + n), rest);
    }
  }

  lemma SplitConcat(b: seq<byte>, o: nat, n: nat, tail: seq<byte>)
    requires o + n <= |b|
    ensures (b[o..] + tail)[..n] == b[o..o + n]
    ensures (b[o..] + tail)[n..] == b[o + n..] + tail
    ensures o + n == |b| ==> (b[o..] + tail)[n..] == tail
  {
  }

  lemma FlatCons(p: Pending, rest: seq<Pending>)
    requires p.offset < |p.bytes| && Wellformed(rest)
    ensures Wellformed([p] + rest) && Flat([p] + rest) == p.bytes[p.offset..] + Flat(rest)
  {
  }

  function Min(a: nat, b: nat): nat {
    if a < b then a else b
  }

  /** How many bytes the next frame carries: limited by the buffer, the stream and the connection. */
  function Allowance(c: Connection, s: StreamHead, byteSpace: nat): (n: nat)
    requires s.sentOffset <= s.maxdataRemote && c.dataSent <= c.maxdataRemote
    requires s.sendQueue != [] ==> s.sendQueue[0].offset <= |s.sendQueue[0].bytes|
    reads c, s
  {
    var available := if s.sendQueue == [] then 0 else |s.sendQueue[0].bytes| - s.sendQueue[0].offset;
    Min(available, Min(Min(byteSpace, s.maxdataRemote - s.sentOffset), c.maxdataRemote - c.dataSent))
  }

  /** Account for `length` bytes taken from the first queued piece. */
  method Take(c: Connection, s: StreamHead, length: nat) returns (data: seq<byte>)
    requires Sendable(c, s)
    requires length <= if s.sendQueue == [] then 0 else |s.sendQueue[0].bytes| - s.sendQueue[0].offset
    requires length <= s.maxdataRemote - s.sentOffset && length <= c.maxdataRemote - c.dataSent
    modifies c`dataSent, s`sentOffset, s`sendQueue
    ensures Sendable(c, s)
    ensures s.sentOffset == old(s.sentOffset) + length && c.dataSent == old(c.dataSent) + length
    ensures s.sentOffset <= |s.queued| && data == s.queued[old(s.sentOffset)..s.sentOffset]
    ensures s.sendQueue == [] <==> s.sentOffset == |s.queued|
    ensures length == 0 ==> s.sendQueue == old(s.sendQueue)
  {
    data := [];
    if length > 0 {
      AdvancedFlat(s.sendQueue, length);
      var p := s.sendQueue[0];
      data := p.bytes[p.offset..p.offset + length];
      assert s.queued[s.sentOffset..][..length] == s.queued[s.sentOffset..s.sentOffset + length];
      assert s.queued[s.sentOffset..][length..] == s.queued[s.sentOffset + length..];
      s.sendQueue := Advanced(s.sendQueue, length);
      s.sentOffset := s.sentOffset + length;
      c.dataSent := c.dataSent + length;
    }
    FlatEmpty(s.sendQueue);
  }

  lemma FlatEmpty(queue: seq<Pending>)
    requires Wellformed(queue)
    ensures Flat(queue) == [] <==> queue == []
  {
  }

  /** Type, identifier and offset of the next frame. */
  function HeadSize(s: StreamHead): (n: nat)
    reads s
  {
    1 + |Fields(s.streamId, s.sentOffset, 0, false)|
  }

  lemma HeadIsShort(s: StreamHead)
    ensures 2 <= HeadSize(s) <= 17
  {
  }

  /** There is neither data nor an end of stream to send. */
  predicate Idle(s: StreamHead)
    reads s
  {
    !s.isActive && s.sendQueue == [] && (!s.finRequested || s.finSent)
  }

  /** There is something to send, and three bytes of room behind the head for it. */
  predicate Writes(s: StreamHead, bytesMax: nat)
    reads s
  {
    !Idle(s) && HeadSize(s) + 3 <= bytesMax
  }

  /** The end of the next frame. */
  function FrameEnd(c: Connection, s: StreamHead, bytesMax: nat): nat
    requires s.sentOffset <= s.maxdataRemote && c.dataSent <= c.maxdataRemote
    requires s.sendQueue != [] ==> s.sendQueue[0].offset <= |s.sendQueue[0].bytes|
    requires HeadSize(s) <= bytesMax
    reads c, s
  {
    var space := bytesMax - HeadSize(s);
    HeadSize(s) + BodySize(space, Allowance(c, s, space))
  }

  /** The next frame stays within the buffer. */
  ghost predicate Fits(c: Connection, s: StreamHead, bytesMax: nat)
    requires Sendable(c, s)
    reads c, s
  {
    Writes(s, bytesMax) ==> FrameEnd(c, s, bytesMax) <= bytesMax
  }

  /** It does, in every buffer of at most 16384 bytes. */
  lemma SmallBufferFits(c: Connection, s: StreamHead, bytesMax: nat)
    requires Sendable(c, s) && bytesMax <= 16384
    ensures Fits(c, s, bytesMax)
  {
    if Writes(s, bytesMax) {
      var space := bytesMax - HeadSize(s);
      BodyFits(space, Allowance(c, s, space));
    }
  }

  /** The length, the data and the FIN bit of a frame whose head has been written. */
  method Fill(c: Connection, s: StreamHead, buf: array<byte>, bytesMax: nat, at: nat)
    returns (end: nat, length: nat, ghost start: nat, ghost explicit: bool)
    requires Sendable(c, s) && at == HeadSize(s) && at + 3 <= bytesMax <= buf.Length && bytesMax < VARINT_LIMIT
    requires FrameEnd(c, s, bytesMax) <= buf.Length
    requires buf[..at] == [TypeByte(s.sentOffset, false, false)] + Fields(s.streamId, s.sentOffset, 0, false)
    modifies buf, c`dataSent, s`sentOffset, s`sendQueue
    ensures Sendable(c, s) && length == old(Allowance(c, s, bytesMax - at)) && end == old(FrameEnd(c, s, bytesMax))
    ensures s.sentOffset == old(s.sentOffset) + length && c.dataSent == old(c.dataSent) + length
    ensures (s.sendQueue == [] <==> s.sentOffset == |s.queued|) && (length == 0 ==> s.sendQueue == old(s.sendQueue))
    ensures start <= 1 && start < end && (start == 1 ==> buf[0] == 0) && (explicit || end == bytesMax)
    ensures buf[start..end] == Layout(s.streamId, old(s.sentOffset), s.queued[old(s.sentOffset)..s.sentOffset],
                                      s.sendQueue == [] && s.finRequested, explicit)
  {
    ghost var offset := s.sentOffset;
    length := Allowance(c, s, bytesMax - at);
    var data := Take(c, s, length);
    end, start, explicit := WriteFrame(buf, bytesMax, at, data, s.sendQueue == [] && s.finRequested, s.streamId,
                                       offset);
  }

  /** The rest of a frame whose head has been written; without a byte of credit for queued data there is none. */
  method Finish(c: Connection, s: StreamHead, buf: array<byte>, bytesMax: nat, at: nat)
    returns (ret: Ret, consumed: nat, ghost start: nat, ghost explicit: bool, ghost fin: bool)
    requires Sendable(c, s) && at == HeadSize(s) && at + 3 <= bytesMax <= buf.Length && bytesMax < VARINT_LIMIT
    requires FrameEnd(c, s, bytesMax) <= buf.Length
    requires buf[..at] == [TypeByte(s.sentOffset, false, false)] + Fields(s.streamId, s.sentOffset, 0, false)
    modifies buf, c`dataSent, c`lastVisitedStreamId, s`sentOffset, s`sendQueue, s`finSent
    ensures Sendable(c, s) && c.dataSent - old(c.dataSent) == s.sentOffset - old(s.sentOffset) >= 0
    ensures s.sentOffset == old(s.sentOffset) + old(Allowance(c, s, bytesMax - at))
    ensures consumed > 0 <==> s.sentOffset > old(s.sentOffset) || old(s.sendQueue) == []
    ensures ret == if consumed > 0 then Ok else BufferTooSmall
    ensures consumed > 0 ==>
      && consumed == old(FrameEnd(c, s, bytesMax)) && c.lastVisitedStreamId == s.streamId
      && start <= 1 && start < consumed && (start == 1 ==> buf[0] == 0) && (explicit || consumed == bytesMax)
      && buf[start..consumed] == Layout(s.streamId, old(s.sentOffset), s.queued[old(s.sentOffset)..s.sentOffset],
                                        fin, explicit)
    ensures fin <==> consumed > 0 && s.finRequested && s.sentOffset == |s.queued|
    ensures s.finSent == (old(s.finSent) || fin)
  {
    var length;
    ret, fin := Ok, false;
    consumed, length, start, explicit := Fill(c, s, buf, bytesMax, at);
    if s.sendQueue == [] {
      if s.finRequested {
        s.finSent := true;
        fin := true;
      }
    } else if length == 0 {
      ret, consumed := BufferTooSmall, 0;
      return;
    }
    c.lastVisitedStreamId := s.streamId;
  }

  /** Write the next STREAM frame of a stream with queued data or a FIN to send. It is written iff there is something
      to send, room for it, and credit for at least one byte or nothing but the end of the stream left; it carries all
      that the buffer, the first queued piece and both limits allow. */
  method PrepareData(c: Connection, s: StreamHead, buf: array<byte>, bytesMax: nat)
    returns (ret: Ret, consumed: nat, ghost start: nat, ghost explicit: bool, ghost fin: bool)
    requires Sendable(c, s) && (s.isActive ==> s.finRequested)
    requires 0 < bytesMax <= buf.Length && bytesMax < VARINT_LIMIT
    requires s.streamId < VARINT_LIMIT && s.sentOffset < VARINT_LIMIT
    requires Writes(s, bytesMax) ==> FrameEnd(c, s, bytesMax) <= buf.Length
    modifies buf, c`dataSent, c`lastVisitedStreamId, s`sentOffset, s`sendQueue, s`finSent
    ensures Sendable(c, s) && c.dataSent - old(c.dataSent) == s.sentOffset - old(s.sentOffset) >= 0
    ensures s.sentOffset == old(s.sentOffset) +
            if old(Writes(s, bytesMax)) then old(Allowance(c, s, bytesMax - HeadSize(s))) else 0
    ensures consumed > 0 <==> old(Writes(s, bytesMax)) && (s.sentOffset > old(s.sentOffset) || old(s.sendQueue) == [])
    ensures ret == if old(Idle(s)) || consumed > 0 then Ok else BufferTooSmall
    ensures consumed > 0 ==>
      && consumed == old(FrameEnd(c, s, bytesMax)) && c.lastVisitedStreamId == s.streamId
      && start <= 1 && start < consumed && (start == 1 ==> buf[0] == 0)
      && buf[start..consumed] == Layout(s.streamId, old(s.sentOffset), s.queued[old(s.sentOffset)..s.sentOffset],
                                        fin, explicit)
      && (explicit || consumed == bytesMax)
    ensures fin <==> consumed > 0 && s.finRequested && s.sentOffset == |s.queued|
    ensures s.finSent == (old(s.finSent) || fin)
  {
    ret, consumed, start, explicit, fin := Ok, 0, 0, false, false;
    if !s.isActive && s.sendQueue == [] && (!s.finRequested || s.finSent) {
      return;
    }
    var byteIndex, fits := WriteHead(buf, bytesMax, s.streamId, s.sentOffset);
    if !fits {
      ret := BufferTooSmall;
      return;
    }
    ret, consumed, start, explicit, fin := Finish(c, s, buf, bytesMax, byteIndex);
  }

  /** With 16389 bytes of room, a new stream with 16385 bytes to send gets a frame of 16391. */
  method LargeBufferOverrun(c: Connection, s: StreamHead, buf: array<byte>) returns (consumed: nat)
    requires s.streamId == 0 && s.sentOffset == 0 && |s.queued| == 16385 && s.sendQueue == [Pending(s.queued, 0)]
    requires !s.isActive && s.maxdataRemote >= 16385 && c.dataSent + 16385 <= c.maxdataRemote && buf.Length >= 16391
    modifies buf, c`dataSent, c`lastVisitedStreamId, s`sentOffset, s`sendQueue, s`finSent
    ensures consumed == 16391
  {
    FlatCons(Pending(s.queued, 0), []);
    assert s.sendQueue == [Pending(s.queued, 0)] + [];
    var _, written, _, _, _ := PrepareData(c, s, buf, 16389);
    consumed := written;
  }

  /** A frame written into a buffer reads back, the rest of the buffer notwithstanding. */
  lemma FrameParses(packet: seq<byte>, n: nat, id: nat, offset: nat, data: seq<byte>, fin: bool, explicit: bool)
    requires 0 < n <= |packet| < VARINT_LIMIT && packet[..n] == Layout(id, offset, data, fin, explicit)
    requires (explicit || n == |packet|) && id < VARINT_LIMIT && offset < VARINT_LIMIT && |data| < VARINT_LIMIT
    ensures var h := Parse(packet);
      && h.Some? && h.value.id == id && h.value.offset == offset && h.value.fin == fin && h.value.dataLength == |data|
      && packet[h.value.consumed..h.value.consumed + |data|] == data
  {
    assert packet == packet[..n] + packet[n..];
    ParseLayout(id, offset, data, fin, explicit, packet[n..]);
  }

  /** The frame behind a PADDING byte in front. */
  function Unpadded(bytes: seq<byte>): seq<byte> {
    if bytes != [] && bytes[0] == 0 then bytes[1..] else bytes
  }

  /** The header and the data that a parser finds at the start of a packet. */
  predicate Reads(packet: seq<byte>, h: Option<Header>, data: seq<byte>) {
    && packet != [] && h.Some? && h == Parse(packet)
    && data == packet[h.value.consumed..h.value.consumed + h.value.dataLength]
  }

  lemma UnpaddedFrame(bytes: seq<byte>, start: nat, n: nat, id: nat, offset: nat, sent: seq<byte>, fin: bool,
                      explicit: bool)
    requires start <= 1 && start < n <= |bytes| && (start == 1 ==> bytes[0] == 0)
    requires bytes[start..n] == Layout(id, offset, sent, fin, explicit)
    ensures Unpadded(bytes) == bytes[start..] && bytes[start..][..n - start] == bytes[start..n]
  {
    assert bytes[start] == bytes[start..n][0];
  }

  method ReadBack(bytes: seq<byte>, ghost start: nat, ghost n: nat, ghost id: nat, ghost offset: nat,
                  ghost sent: seq<byte>, ghost fin: bool, ghost explicit: bool)
    returns (h: Option<Header>, data: seq<byte>)
    requires start <= 1 && start < n <= |bytes| < VARINT_LIMIT && (start == 1 ==> bytes[0] == 0)
    requires bytes[start..n] == Layout(id, offset, sent, fin, explicit) && (explicit || n == |bytes|)
    requires id < VARINT_LIMIT && offset < VARINT_LIMIT && |sent| < VARINT_LIMIT
    ensures Reads(Unpadded(bytes), h, data)
    ensures h.value.id == id && h.value.offset == offset && h.value.fin == fin && data == sent
  {
    UnpaddedFrame(bytes, start, n, id, offset, sent, fin, explicit);
    var packet := Unpadded(bytes);
    FrameParses(packet, n - start, id, offset, sent, fin, explicit);
    h := Parse(packet);
    data := packet[h.value.consumed..h.value.consumed + h.value.dataLength];
  }

  /** What the peer reads: the PADDING byte if there is one, then the parsed frame and its data. */
  method PrepareThenParse(c: Connection, s: StreamHead, buf: array<byte>, bytesMax: nat)
    returns (consumed: nat, h: Option<Header>, data: seq<byte>)
    requires Sendable(c, s) && (s.isActive ==> s.finRequested) && Fits(c, s, bytesMax)
    requires 0 < bytesMax <= buf.Length && bytesMax < VARINT_LIMIT
    requires s.streamId < VARINT_LIMIT && s.sentOffset < VARINT_LIMIT
    modifies buf, c`dataSent, c`lastVisitedStreamId, s`sentOffset, s`sendQueue, s`finSent
    ensures Sendable(c, s) && consumed <= bytesMax && (consumed > 0 <==> h.Some?)
    ensures c.dataSent - old(c.dataSent) == s.sentOffset - old(s.sentOffset) >= 0
    ensures s.sentOffset == old(s.sentOffset) +
            if old(Writes(s, bytesMax)) then old(Allowance(c, s, bytesMax - HeadSize(s))) else 0
    ensures h.Some? <==> old(Writes(s, bytesMax)) && (s.sentOffset > old(s.sentOffset) || old(s.sendQueue) == [])
    ensures h.Some? ==>
      && h.value.id == s.streamId && h.value.offset == old(s.sentOffset)
      && data == s.queued[old(s.sentOffset)..s.sentOffset]
      && (h.value.fin <==> s.finRequested && s.sentOffset == |s.queued|)
    ensures h.Some? ==> Reads(Unpadded(buf[..bytesMax]), h, data)
    ensures s.finSent == (old(s.finSent) || (h.Some? && h.value.fin))
  {
    var ret;
    ghost var start, explicit, fin;
    ghost var offset := s.sentOffset;
    ret, consumed, start, explicit, fin := PrepareData(c, s, buf, bytesMax);
    h, data := None, [];
    if consumed > 0 {
      var bytes := buf[..bytesMax];
      assert bytes[start..consumed] == buf[start..consumed];
      h, data := ReadBack(bytes, start, consumed, s.streamId, offset, s.queued[offset..s.sentOffset], fin, explicit);
    }
  }

  // The limits

  /** Limits only ever grow. */
  function Raised(limit: nat, maximum: nat): nat {
    if maximum > limit then maximum else limit
  }

  method ProcessMaxData(c: Connection, maximum: nat)
    modifies c`maxdataRemote
    ensures c.maxdataRemote == Raised(old(c.maxdataRemote), maximum)
  {
    if maximum > c.maxdataRemote {
      c.maxdataRemote := maximum;
    }
  }

  /** The stream is created if need be; only its limit can change, and only upwards. */
  method ProcessMaxStreamData(c: Connection, id: nat, maximum: nat) returns (s: StreamHead, created: bool, ghost k: nat)
    requires Ascending(c.streams)
    modifies c`streams, c.streams`maxdataRemote
    ensures Ascending(c.streams) && s in c.streams && s.streamId == id
    ensures created <==> forall t :: t in old(c.streams) ==> t.streamId != id
    ensures !created ==> c.streams == old(c.streams) && s.maxdataRemote == Raised(old(s.maxdataRemote), maximum)
    ensures created ==> k <= |old(c.streams)| && c.streams == Inserted(old(c.streams), k, s)
    ensures created ==> fresh(s) && Blank(s) && s.maxdataRemote == Raised(RemoteLimit(c, id), maximum)
    ensures forall t :: t in c.streams <==> t in old(c.streams) || (created && t == s)
    ensures forall t :: t in old(c.streams) && t != s ==> t.maxdataRemote == old(t.maxdataRemote)
  {
    s, created, k := FindStream(c, id);
    if maximum > s.maxdataRemote {
      s.maxdataRemote := maximum;
    }
  }
}
