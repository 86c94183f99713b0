/** Plugin streams, over which a peer sends its plugins: process_plugin_frame, its delivery callback,
    prepare_plugin_frame and parse_plugin_frame. */
module PluginStream {
  import opened Wrappers
  import opened Varint
  import opened Streams
  import opened Reassembly
  import opened ReceiveFlow
  import SendFlow
  import AckFrame

  const PLUGIN_FRAME_TYPE := 0x31

  // ----- Receiving -----

  /** Copies the first chunk from its start, which is right because chunks never begin before the consumed offset. */
  method CopyFirst(s: StreamHead)
    requires Ordered(s.consumedOffset, s.streamData) && |s.delivered| == s.consumedOffset
    requires s.streamData != [] && s.streamData[0].offset <= s.consumedOffset
    modifies s`consumedOffset, s`streamData, s`finSignalled, s`delivered
    ensures s.delivered == old(s.delivered + s.streamData[0].bytes) && |s.delivered| == s.consumedOffset
    ensures s.consumedOffset == old(s.streamData[0].End()) && s.streamData == old(s.streamData[1..])
    ensures s.finSignalled == (old(s.finSignalled) || (s.finReceived && s.finOffset <= s.consumedOffset))
  {
    var data := s.streamData[0];
    var start := s.consumedOffset - data.offset;
    var dataLength := |data.bytes| - start;
    s.consumedOffset := s.consumedOffset + dataLength;
    if s.consumedOffset >= s.finOffset && s.finReceived && !s.finSignalled {
      s.finSignalled := true;
    }
    s.delivered := s.delivered + data.bytes[..dataLength];
    s.streamData := s.streamData[1..];
  }

  /** Collects every contiguous chunk. */
  method Gather(s: StreamHead)
    requires Ordered(s.consumedOffset, s.streamData) && |s.delivered| == s.consumedOffset
    modifies s`consumedOffset, s`streamData, s`finSignalled, s`delivered
    ensures s.delivered == old(s.delivered + Prefix(s.consumedOffset, s.streamData))
    ensures |s.delivered| == s.consumedOffset
    ensures s.streamData == old(Rest(s.consumedOffset, s.streamData))
    ensures Ordered(s.consumedOffset, s.streamData) && Drained(s.consumedOffset, s.streamData)
    ensures old(s.finSignalled) ==> s.finSignalled
    ensures s.finSignalled ==> old(s.finSignalled) || (s.finReceived && s.finOffset <= s.consumedOffset)
  {
    RestIsOrdered(s.consumedOffset, s.streamData);
    ghost var all, rest := s.delivered + Prefix(s.consumedOffset, s.streamData), Rest(s.consumedOffset, s.streamData);
    while s.streamData != [] && s.streamData[0].offset <= s.consumedOffset
      invariant Ordered(s.consumedOffset, s.streamData) && |s.delivered| == s.consumedOffset
      invariant s.delivered + Prefix(s.consumedOffset, s.streamData) == all
      invariant Rest(s.consumedOffset, s.streamData) == rest
      invariant old(s.finSignalled) ==> s.finSignalled
      invariant s.finSignalled ==> old(s.finSignalled) || (s.finReceived && s.finOffset <= s.consumedOffset)
      decreases |s.streamData|
    {
      CopyFirst(s);
    }
  }

  /** Collects what is contiguous; a complete plugin is processed, without asking whether it was before. */
  method DeliverPlugin(s: StreamHead)
    requires Ordered(s.consumedOffset, s.streamData) && |s.delivered| == s.consumedOffset
    modifies s`consumedOffset, s`streamData, s`finSignalled, s`delivered, s`finEvents
    ensures s.delivered == old(s.delivered + Prefix(s.consumedOffset, s.streamData))
    ensures |s.delivered| == s.consumedOffset
    ensures s.streamData == old(Rest(s.consumedOffset, s.streamData))
    ensures Ordered(s.consumedOffset, s.streamData) && Drained(s.consumedOffset, s.streamData)
    ensures var complete := s.finReceived && s.finOffset <= s.consumedOffset;
            && s.finSignalled == (old(s.finSignalled) || complete)
            && s.finEvents == old(s.finEvents) + if complete then [s.consumedOffset] else []
  {
    Gather(s);
    if s.consumedOffset >= s.finOffset && s.finReceived {
      s.finSignalled := true;
      s.finEvents := s.finEvents + [s.consumedOffset];
    }
  }

  /** Second half of a plugin frame: queue and collect. */
  method Accept(s: StreamHead, offset: nat, bytes: seq<byte>, shouldNotify: bool, ghost data: seq<byte>)
    returns (ghost a: nat, ghost b: nat)
    requires Admitted(s, shouldNotify) && Drained(s.consumedOffset, s.streamData) && offset + |bytes| <= s.finOffset
    requires s.finSignalled ==> !shouldNotify
    modifies s`consumedOffset, s`streamData, s`finSignalled, s`delivered, s`finEvents
    ensures Received(s)
    ensures s.consumedOffset >= old(s.consumedOffset)
    ensures old(s.delivered) <= s.delivered && old(s.finEvents) <= s.finEvents
    ensures old(Agrees(data, s.delivered, s.streamData)) && CutFrom(data, offset, bytes) ==>
      Agrees(data, s.delivered, s.streamData)
    ensures Grew(old(s.consumedOffset), old(s.streamData), s.consumedOffset, s.streamData, offset, offset + |bytes|,
                 a, b)
  {
    ghost var c0, chunks0 := s.consumedOffset, s.streamData;
    var news;
    news, a, b := Store(s, offset, bytes, data);
    ghost var c1, chunks1 := s.consumedOffset, s.streamData;
    if shouldNotify || news {
      Collect(s, data);
    }
    GrewThenSame(c0, chunks0, c1, chunks1, s.consumedOffset, s.streamData, offset, offset + |bytes|, a, b);
  }

  /** A plugin frame for an existing stream. What an accepted frame adds to the offsets held or delivered is its first
    * gap. The plugin is processed at most once, and only when it is complete. */
  method Input(c: Connection, s: StreamHead, offset: nat, fin: bool, bytes: seq<byte>, ghost data: seq<byte>)
    returns (ok: bool, ghost a: nat, ghost b: nat)
    requires Received(s)
    modifies c`dataReceived, s`finOffset, s`finReceived
    modifies s`consumedOffset, s`streamData, s`finSignalled, s`delivered, s`finEvents
    ensures ok == old(Data(AccountOf(c, s), offset + |bytes|, fin)).Some?
    ensures ok ==> AccountOf(c, s) == old(Data(AccountOf(c, s), offset + |bytes|, fin)).value && Received(s)
    ensures !ok ==>
      c.dataReceived == old(c.dataReceived) && s.finOffset == old(s.finOffset) && s.streamData == old(s.streamData)
    ensures s.consumedOffset >= old(s.consumedOffset) && old(s.delivered) <= s.delivered
    ensures old(s.finEvents) <= s.finEvents && |s.finEvents| <= 1
    ensures old(Agrees(data, s.delivered, s.streamData)) && CutFrom(data, offset, bytes) ==>
      Agrees(data, s.delivered, s.streamData)
    ensures ok ==>
      Grew(old(s.consumedOffset), old(s.streamData), s.consumedOffset, s.streamData, offset, offset + |bytes|, a, b)
  {
    var shouldNotify;
    ok, shouldNotify := Admit(c, s, offset + |bytes|, fin);
    a, b := 0, 0;
    if ok {
      a, b := Accept(s, offset, bytes, shouldNotify, data);
    }
  }

  /** Delivery after a frame that brought something: no plugin was processed before. */
  method Collect(s: StreamHead, ghost data: seq<byte>)
    requires Admitted(s, true) && !s.finSignalled
    modifies s`consumedOffset, s`streamData, s`finSignalled, s`delivered, s`finEvents
    ensures Received(s)
    ensures s.consumedOffset >= old(s.consumedOffset)
    ensures old(s.delivered) <= s.delivered && old(s.finEvents) <= s.finEvents
    ensures SameCovered(old(s.consumedOffset), old(s.streamData), s.consumedOffset, s.streamData)
    ensures old(Agrees(data, s.delivered, s.streamData)) ==> Agrees(data, s.delivered, s.streamData)
  {
    AllRestCovers(s.consumedOffset, s.streamData);
    PrefixWithin(s.consumedOffset, s.streamData, s.finOffset);
    if Agrees(data, s.delivered, s.streamData) {
      PrefixAgrees(data, s.delivered, s.streamData);
    }
    DeliverPlugin(s);
  }

  // ----- The wire format -----

  datatype PluginFrame = PluginFrame(fin: bool, id: nat, offset: nat, data: seq<byte>)

  function Layout(f: PluginFrame): seq<byte> {
    [PLUGIN_FRAME_TYPE, if f.fin then 1 else 0]
    + (Encoding(f.id) + (Encoding(f.offset) + (Encoding(|f.data|) + f.data)))
  }

  /** A length and that many bytes. */
  function ParseData(s: seq<byte>): (r: Option<AckFrame.Parsed<seq<byte>>>) {
    var length :- AckFrame.Next(s);
    if length.value > |length.rest| then None
    else Some(AckFrame.Parsed(length.rest[..length.value], length.rest[length.value..]))
  }

  /** None where the source reports a FRAME_FORMAT_ERROR. */
  function Parse(s: seq<byte>): (r: Option<AckFrame.Parsed<PluginFrame>>)
    requires |s| >= 2
  {
    var id :- AckFrame.Next(s[2..]);
    var offset :- AckFrame.Next(id.rest);
    var data :- ParseData(offset.rest);
    Some(AckFrame.Parsed(PluginFrame(s[1] != 0, id.value, offset.value, data.value), data.rest))
  }

  lemma DataParsed(data: seq<byte>, rest: seq<byte>)
    requires |data| < VARINT_LIMIT
    ensures ParseData(Encoding(|data|) + (data + rest)) == Some(AckFrame.Parsed(data, rest))
  {
    var t := data + rest;
    AckFrame.NextEncoded(|data|, t);
    assert t[..|data|] == data && t[|data|..] == rest;
  }

  lemma Behind(f: PluginFrame, rest: seq<byte>)
    ensures |Layout(f)| >= 2 && (Layout(f) + rest)[1] == (if f.fin then 1 else 0)
    ensures (Layout(f) + rest)[2..] == Encoding(f.id) + (Encoding(f.offset) + (Encoding(|f.data|) + (f.data + rest)))
  {
  }

  /** Parsing inverts the layout, whatever follows. */
  lemma ParseLayout(f: PluginFrame, rest: seq<byte>)
    requires f.id < VARINT_LIMIT && f.offset < VARINT_LIMIT && |f.data| < VARINT_LIMIT
    ensures Parse(Layout(f) + rest) == Some(AckFrame.Parsed(f, rest))
  {
    Behind(f, rest);
    var tail := Encoding(|f.data|) + (f.data + rest);
    AckFrame.NextEncoded(f.id, Encoding(f.offset) + tail);
    AckFrame.NextEncoded(f.offset, tail);
    DataParsed(f.data, rest);
  }

  // ----- Sending -----

  /** The type, an empty FIN byte, the plugin and the offset. */
  function HeadSize(s: StreamHead): nat
    reads s
  {
    2 + Size(s.streamId) + Size(s.sentOffset)
  }

  /** Whether the source goes on after the head: an offset of zero is not missed. */
  predicate HeadFits(s: StreamHead, bytesMax: nat)
    reads s
  {
    2 + Size(s.streamId) + (if s.sentOffset > 0 then Size(s.sentOffset) else 0) <= bytesMax
  }

  /** `fits` is false where the source gives up. */
  method WriteHead(buf: array<byte>, bytesMax: nat, s: StreamHead) returns (at: nat, fits: bool)
    requires 2 <= bytesMax <= buf.Length && s.streamId < VARINT_LIMIT && s.sentOffset < VARINT_LIMIT
    modifies buf
    ensures fits == HeadFits(s, bytesMax)
    ensures fits ==> at == SendFlow.Min(HeadSize(s), bytesMax)
    ensures fits && at < bytesMax ==>
      buf[..at] == [PLUGIN_FRAME_TYPE, 0] + (Encoding(s.streamId) + Encoding(s.sentOffset))
  {
    buf[0] := PLUGIN_FRAME_TYPE;
    buf[1] := 0;
    at := 2;
    var lPid, lOff := 0, 0;
    if bytesMax > at {
      lPid := Append(buf, at, bytesMax - at, s.streamId, [PLUGIN_FRAME_TYPE, 0]);
      at := at + lPid;
    }
    if bytesMax > at {
      lOff := Append(buf, at, bytesMax - at, s.sentOffset, buf[..at]);
      at := at + lOff;
    }
    fits := !(at > bytesMax || lPid == 0 || (s.sentOffset > 0 && lOff == 0));
    AckFrame.Assoc([PLUGIN_FRAME_TYPE, 0], Encoding(s.streamId), Encoding(s.sentOffset));
  }

  /** How much of the wanted data a frame carries in the space behind its head. */
  function Carried(space: nat, wanted: nat): (n: nat)
    ensures n <= wanted
  {
    if space < 2 || Size(wanted) >= space then 0
    else if wanted + Size(wanted) > space then space - Size(wanted)
    else wanted
  }

  /** The length field, by trial and error: if the data does not fit behind it, less data is sent. */
  method WriteLength(buf: array<byte>, at: nat, space: nat, wanted: nat, ghost head: seq<byte>)
    returns (ok: bool, length: nat, lLen: nat)
    requires 2 <= space && at + space <= buf.Length && wanted < VARINT_LIMIT && head == buf[..at]
    modifies buf
    ensures ok <==> Size(wanted) < space
    ensures ok ==> length == Carried(space, wanted) && lLen == Size(length) && lLen + length <= space
    ensures ok ==> buf[..at + lLen] == head + Encoding(length)
  {
    length := wanted;
    lLen := Append(buf, at, space, length, head);
    if lLen == 0 || (lLen == space && length > 0) {
      return false, length, lLen;
    }
    if length + lLen > space {
      length := space - lLen;
      lLen := Append(buf, at, space, length, head);
    }
    return true, length, lLen;
  }

  /** What a frame for this stream may carry. */
  function Allowed(c: Connection, s: StreamHead): nat
    requires s.sentOffset <= s.maxdataRemote && c.dataSent <= c.maxdataRemote
    requires s.sendQueue != [] ==> s.sendQueue[0].offset <= |s.sendQueue[0].bytes|
    reads c, s
  {
    var available := if s.sendQueue == [] then 0 else |s.sendQueue[0].bytes| - s.sendQueue[0].offset;
    SendFlow.Min(SendFlow.Min(available, s.maxdataRemote - s.sentOffset), c.maxdataRemote - c.dataSent)
  }

  /** The bytes that the next frame carries. */
  function Amount(c: Connection, s: StreamHead, bytesMax: nat): nat
    requires s.sentOffset <= s.maxdataRemote && c.dataSent <= c.maxdataRemote
    requires s.sendQueue != [] ==> s.sendQueue[0].offset <= |s.sendQueue[0].bytes|
    reads c, s
  {
    if HeadSize(s) <= bytesMax then Carried(bytesMax - HeadSize(s), Allowed(c, s)) else 0
  }

  lemma Assembled(id: nat, offset: nat, data: seq<byte>)
    ensures [PLUGIN_FRAME_TYPE, 0] + (Encoding(id) + Encoding(offset)) + Encoding(|data|) + data
            == Layout(PluginFrame(false, id, offset, data))
  {
  }

  lemma FinSet(f: PluginFrame)
    requires !f.fin
    ensures Layout(f)[1 := 1] == Layout(f.(fin := true))
  {
  }

  method CopyBehind(buf: array<byte>, at: nat, data: seq<byte>, ghost head: seq<byte>)
    requires at + |data| <= buf.Length && buf[..at] == head
    modifies buf
    ensures buf[..at + |data|] == head + data
  {
    SendFlow.CopyIn(buf, at, data);
    assert buf[..at + |data|] == buf[..at] + buf[at..at + |data|];
  }

  /** The length field and the data it announces, taken off the queue. */
  method WriteBody(c: Connection, s: StreamHead, buf: array<byte>, at: nat, space: nat)
    returns (ok: bool, consumed: nat)
    requires SendFlow.Sendable(c, s) && s.sendQueue != []
    requires at + space <= buf.Length && s.maxdataRemote < VARINT_LIMIT
    requires space > 0 ==> buf[..at] == [PLUGIN_FRAME_TYPE, 0] + (Encoding(s.streamId) + Encoding(s.sentOffset))
    modifies buf, c`dataSent, s`sentOffset, s`sendQueue
    ensures SendFlow.Sendable(c, s)
    ensures s.sentOffset == old(s.sentOffset) + old(Carried(space, Allowed(c, s)))
    ensures c.dataSent - old(c.dataSent) == s.sentOffset - old(s.sentOffset)
    ensures var n := s.sentOffset - old(s.sentOffset); consumed == if n > 0 then at + Size(n) + n else 0
    ensures consumed <= at + space && (!ok ==> consumed == 0)
    ensures consumed == 0 ==> s.sendQueue != []
    ensures consumed > 0 ==>
      && (s.sendQueue == [] <==> s.sentOffset == |s.queued|)
      && buf[..consumed] == Layout(PluginFrame(false, s.streamId, old(s.sentOffset),
                                               s.queued[old(s.sentOffset)..s.sentOffset]))
  {
    ok, consumed := true, 0;
    if space < 2 {
      return;
    }
    ghost var head, offset := buf[..at], s.sentOffset;
    var length, lLen;
    ok, length, lLen := WriteLength(buf, at, space, Allowed(c, s), head);
    if ok && length > 0 {
      var data := SendFlow.Take(c, s, length);
      CopyBehind(buf, at + lLen, data, head + Encoding(length));
      consumed := at + lLen + length;
      Assembled(s.streamId, offset, data);
    }
  }

  /** Nothing is left to send but the end of the stream. */
  predicate OnlyFinLeft(s: StreamHead)
    reads s
  {
    s.sendQueue == [] && s.finRequested && !s.finSent
  }

  /** Write the next frame of a plugin stream. It carries all that the buffer, the first queued piece and both limits
    * allow, and the FIN iff it is requested and all is sent. A FIN is only ever written along with data: it is marked
    * as sent with nothing written exactly when nothing but it is left to send and a head fits. */
  method PreparePlugin(c: Connection, s: StreamHead, buf: array<byte>, bytesMax: nat)
    returns (ret: Ret, consumed: nat)
    requires SendFlow.Sendable(c, s) && s.streamId < VARINT_LIMIT && s.maxdataRemote < VARINT_LIMIT
    requires 2 <= bytesMax <= buf.Length
    modifies buf, c`dataSent, s`sentOffset, s`sendQueue, s`finSent
    ensures SendFlow.Sendable(c, s)
    ensures s.sentOffset == old(s.sentOffset) + old(Amount(c, s, bytesMax))
    ensures c.dataSent - old(c.dataSent) == s.sentOffset - old(s.sentOffset)
    ensures var n := s.sentOffset - old(s.sentOffset); consumed == if n > 0 then old(HeadSize(s)) + Size(n) + n else 0
    ensures consumed <= bytesMax
    ensures consumed > 0 ==>
      var fin := s.finRequested && s.sentOffset == |s.queued|;
      && ret == Ok && s.finSent == (old(s.finSent) || fin)
      && buf[..consumed] == Layout(PluginFrame(fin, s.streamId, old(s.sentOffset),
                                               s.queued[old(s.sentOffset)..s.sentOffset]))
    ensures consumed == 0 && s.finSent && !old(s.finSent) <==> old(OnlyFinLeft(s)) && old(HeadFits(s, bytesMax))
    ensures consumed == 0 ==>
      ret == if old(s.sendQueue) == [] && old(OnlyFinLeft(s) ==> HeadFits(s, bytesMax)) then Ok else BufferTooSmall
  {
    ret, consumed := Ok, 0;
    if s.sendQueue == [] && (!s.finRequested || s.finSent) {
      return;
    }
    ghost var offset := s.sentOffset;
    var at, fits := WriteHead(buf, bytesMax, s);
    if !fits {
      ret := BufferTooSmall;
      return;
    }
    if s.sendQueue != [] {
      var ok;
      ok, consumed := WriteBody(c, s, buf, at, bytesMax - at);
      if !ok {
        ret := BufferTooSmall;
        return;
      }
    }
    if s.sendQueue == [] {
      if s.finRequested {
        s.finSent := true;
        SetFin(buf, consumed, s.streamId, offset, s.queued[offset..s.sentOffset]);
      }
    } else if consumed == 0 {
      ret := BufferTooSmall;
    }
  }

  /** A stream of three bytes, all sent, on which the end is requested afterwards: the FIN counts as sent and is not. */
  method LostFin(c: Connection, s: StreamHead, buf: array<byte>) returns (ret: Ret, consumed: nat)
    requires s.streamId == 7 && s.queued == [1, 2, 3] && s.sentOffset == 3
    requires s.sendQueue == [] && s.maxdataRemote == 100
    requires s.finRequested && !s.finSent && c.dataSent == 3 && c.maxdataRemote == 100 && buf.Length == 1000
    modifies buf, c`dataSent, s`sentOffset, s`sendQueue, s`finSent
    ensures ret == Ok && consumed == 0 && s.finSent
  {
    ret, consumed := PreparePlugin(c, s, buf, buf.Length);
  }

  method SetFin(buf: array<byte>, ghost consumed: nat, ghost id: nat, ghost offset: nat, ghost data: seq<byte>)
    requires 2 <= buf.Length && consumed <= buf.Length
    requires consumed > 0 ==> buf[..consumed] == Layout(PluginFrame(false, id, offset, data))
    modifies buf
    ensures consumed > 0 ==> buf[..consumed] == Layout(PluginFrame(true, id, offset, data))
  {
    FinSet(PluginFrame(false, id, offset, data));
    assert consumed > 0 ==> buf[1] == buf[..consumed][1] == 0;
    buf[1] := if buf[1] % 2 == 0 then buf[1] + 1 else buf[1];
  }

  /** What the peer reads out of a frame is what was sent. */
  method PrepareThenParse(c: Connection, s: StreamHead, buf: array<byte>) returns (frame: Option<PluginFrame>)
    requires SendFlow.Sendable(c, s) && s.streamId < VARINT_LIMIT && s.maxdataRemote < VARINT_LIMIT && buf.Length >= 2
    modifies buf, c`dataSent, s`sentOffset, s`sendQueue, s`finSent
    ensures SendFlow.Sendable(c, s)
    ensures s.sentOffset == old(s.sentOffset) + old(Amount(c, s, buf.Length))
    ensures c.dataSent - old(c.dataSent) == s.sentOffset - old(s.sentOffset)
    ensures frame == if s.sentOffset == old(s.sentOffset) then None else
      Some(PluginFrame(s.finRequested && s.sentOffset == |s.queued|, s.streamId, old(s.sentOffset),
                       s.queued[old(s.sentOffset)..s.sentOffset]))
    ensures frame.Some? ==> Parse(buf[..]).Some? && frame.value == Parse(buf[..]).value.value
  {
    ghost var offset := s.sentOffset;
    var _, consumed := PreparePlugin(c, s, buf, buf.Length);
    if consumed == 0 {
      return None;
    }
    ghost var f := PluginFrame(s.finRequested && s.sentOffset == |s.queued|, s.streamId, offset,
                               s.queued[offset..s.sentOffset]);
    assert buf[..] == buf[..consumed] + buf[consumed..];
    ParseLayout(f, buf[consumed..]);
    return Some(Parse(buf[..]).value.value);
  }
}
