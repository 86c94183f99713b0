/** Receive-side flow control and final sizes: picoquic_flow_control_check_stream_offset,
    picoquic_stream_network_input, process_plugin_frame and process_stream_reset_frame. */
module ReceiveFlow {
  import opened Wrappers
  import opened Varint
  import opened Streams
  import opened Reassembly

  // The accounting on its own

  /** The counters one frame reads and writes: those of its stream and of the connection. */
  datatype Account = Account(finReceived: bool, resetReceived: bool, finOffset: nat, streamLimit: nat, received: nat,
                             limit: nat) {
    ghost predicate Sound() {
      finOffset <= streamLimit && finOffset <= received <= limit
    }
  }

  /** Commit the connection to a new highest offset of the stream, or refuse. */
  function Check(a: Account, offset: nat): (r: Option<Account>) {
    if offset > a.streamLimit then None
    else if offset <= a.finOffset then Some(a)
    else
      var news := offset - a.finOffset;
      if news > a.limit || a.limit - news < a.received then None
      else Some(a.(received := a.received + news, finOffset := offset))
  }

  /** A STREAM or PLUGIN frame that ends at `end`. */
  function Data(a: Account, end: nat, fin: bool): (r: Option<Account>) {
    if a.finReceived then
      if (if fin then a.finOffset != end else end > a.finOffset) then None else Some(a)
    else
      var b := a.(finReceived := fin);
      if end > a.finOffset then Check(b, end) else Some(b)
  }

  /** A RESET_STREAM frame. */
  function Reset(a: Account, end: nat): (r: Option<Account>) {
    if (a.finReceived || a.resetReceived) && end != a.finOffset then None
    else
      match Check(a, end)
      case None => None
      case Some(b) => Some(b.(resetReceived := true))
  }

  datatype Event = DataFrame(end: nat, fin: bool) | ResetFrame(end: nat)

  function Step(a: Account, e: Event): (r: Option<Account>) {
    match e
    case DataFrame(end, fin) => Data(a, end, fin)
    case ResetFrame(end) => Reset(a, end)
  }

  /** A run stops at the first refused frame. */
  function Run(a: Account, es: seq<Event>): (r: Option<Account>)
    decreases es
  {
    if es == [] then Some(a) else
      match Step(a, es[0])
      case None => None
      case Some(b) => Run(b, es[1..])
  }

  /** One accepted frame keeps the limits, charges the connection exactly for the growth of the
      stream, and never shrinks or forgets anything. */
  lemma StepSound(a: Account, e: Event)
    requires a.Sound() && Step(a, e).Some?
    ensures var b := Step(a, e).value;
      && b.Sound() && b.streamLimit == a.streamLimit && b.limit == a.limit
      && b.received - a.received == b.finOffset - a.finOffset >= 0
      && (a.finReceived ==> b.finReceived && b.finOffset == a.finOffset)
      && (a.resetReceived ==> b.resetReceived)
  {
  }

  /** Over any accepted run the limits hold, what the connection was charged is what the stream
      grew by, and an accepted FIN fixes the highest offset for good. */
  lemma {:induction false} RunSound(a: Account, es: seq<Event>)
    requires a.Sound() && Run(a, es).Some?
    ensures var b := Run(a, es).value;
      && b.Sound() && b.streamLimit == a.streamLimit && b.limit == a.limit
      && b.received - a.received == b.finOffset - a.finOffset >= 0
      && (a.finReceived ==> b.finReceived && b.finOffset == a.finOffset)
    decreases es
  {
    if es != [] {
      StepSound(a, es[0]);
      RunSound(Step(a, es[0]).value, es[1..]);
    }
  }

  /** Check accepts exactly the offsets that both limits allow. */
  lemma CheckIsExact(a: Account, offset: nat)
    requires a.Sound()
    ensures Check(a, offset).Some? <==>
      offset <= a.streamLimit && (offset <= a.finOffset || a.received + (offset - a.finOffset) <= a.limit)
  {
  }

  /** Section 4.5 of RFC 9000: a FIN fixes the final size to where its frame ends. The code agrees
      exactly when the FIN does not end below data already seen on the stream. */
  lemma FinFixesFinalSize(a: Account, end: nat)
    requires a.Sound() && !a.finReceived && Data(a, end, true).Some?
    ensures Data(a, end, true).value.finOffset == end <==> a.finOffset <= end
  {
  }

  /** A FIN at offset 3 after ten bytes: accepted, and the stream still waits for ten bytes. */
  lemma LowFinAccepted()
    ensures var a := Account(false, false, 10, 100, 10, 100); Data(a, 3, true) == Some(a.(finReceived := true))
  {
  }

  /** Data up to offset 20 after a reset at ten: accepted, and the size becomes twenty. */
  lemma DataAfterResetAccepted()
    ensures var a := Account(false, true, 10, 100, 10, 100);
      Data(a, 20, false) == Some(a.(finOffset := 20, received := 20))
  {
  }

  /** A reset also fixes the final size, but only a received FIN makes later data respect it:
      data after a reset leaves the size alone exactly when it does not end beyond it. */
  lemma ResetFixesFinalSize(a: Account, end: nat, fin: bool)
    requires a.Sound() && a.resetReceived && !a.finReceived && Data(a, end, fin).Some?
    ensures Data(a, end, fin).value.finOffset == a.finOffset <==> end <= a.finOffset
  {
  }

  // The stream heads

  /** Every chunk ends at or below `limit`. */
  ghost predicate Within(chunks: seq<Chunk>, limit: nat) {
    forall k :: 0 <= k < |chunks| ==> chunks[k].End() <= limit
  }

  lemma {:induction false} PrefixWithin(consumed: nat, chunks: seq<Chunk>, limit: nat)
    requires Ordered(consumed, chunks) && Within(chunks, limit) && consumed <= limit
    ensures consumed + |Prefix(consumed, chunks)| <= limit && Within(Rest(consumed, chunks), limit)
    decreases chunks
  {
    if chunks != [] && chunks[0].offset <= consumed {
      PrefixWithin(chunks[0].End(), chunks[1..], limit);
    }
  }

  /** What holds of a stream head between two frames. */
  ghost predicate Received(s: StreamHead)
    reads s`consumedOffset, s`streamData, s`delivered
    reads s`finOffset, s`maxdataLocal, s`finReceived, s`finSignalled, s`finEvents
  {
    && Quiet(s)
    && s.consumedOffset <= s.finOffset <= s.maxdataLocal && Within(s.streamData, s.finOffset)
    && (s.finSignalled ==> s.finReceived && s.consumedOffset == s.finOffset)
    && (s.finReceived && !s.finSignalled ==> s.consumedOffset < s.finOffset)
    && s.finEvents == if s.finSignalled then [s.finOffset] else []
  }

  ghost function AccountOf(c: Connection, s: StreamHead): Account
    reads c, s
  {
    Account(s.finReceived, s.resetReceived, s.finOffset, s.maxdataLocal, c.dataReceived, c.maxdataLocal)
  }

  /** Returns false where the source raises a FLOW_CONTROL_ERROR. */
  method FlowControlCheck(c: Connection, s: StreamHead, newFinOffset: nat) returns (ok: bool)
    modifies c`dataReceived, s`finOffset
    ensures ok == old(Check(AccountOf(c, s), newFinOffset)).Some?
    ensures ok ==> AccountOf(c, s) == old(Check(AccountOf(c, s), newFinOffset)).value
    ensures !ok ==> AccountOf(c, s) == old(AccountOf(c, s))
  {
    ok := true;
    if newFinOffset > s.maxdataLocal {
      ok := false;
    } else if newFinOffset > s.finOffset {
      var newBytes := newFinOffset - s.finOffset;
      if newBytes > c.maxdataLocal || c.maxdataLocal - newBytes < c.dataReceived {
        ok := false;
      } else {
        c.dataReceived := c.dataReceived + newBytes;
        s.finOffset := newFinOffset;
      }
    }
  }

  /** Queue a frame that ends within the committed size of the stream. */
  method Store(s: StreamHead, offset: nat, bytes: seq<byte>, ghost data: seq<byte>)
    returns (news: bool, ghost a: nat, ghost b: nat)
    requires Quiet(s) && Within(s.streamData, s.finOffset) && offset + |bytes| <= s.finOffset
    modifies s`streamData
    ensures Ordered(s.consumedOffset, s.streamData) && Within(s.streamData, s.finOffset)
    ensures Grew(s.consumedOffset, old(s.streamData), s.consumedOffset, s.streamData, offset, offset + |bytes|, a, b)
    ensures !news ==> s.streamData == old(s.streamData)
    ensures news ==> s.consumedOffset < s.finOffset
    ensures old(Agrees(data, s.delivered, s.streamData)) && CutFrom(data, offset, bytes) ==>
      Agrees(data, s.delivered, s.streamData)
    ensures offset <= s.consumedOffset < offset + |bytes| ==> news && Prefix(s.consumedOffset, s.streamData) != []
  {
    hide Agrees;
    hide CutFrom;
    hide Covered;
    hide FirstGap;
    ghost var k;
    NextIsMissing(s.consumedOffset, s.streamData);
    news, k, a, b := Queue(s, offset, bytes);
    if !news {
      b := a;
    } else {
      FilledCovers(s.consumedOffset, old(s.streamData), s.streamData, offset, bytes, k, a, b);
      if old(Agrees(data, s.delivered, s.streamData)) && CutFrom(data, offset, bytes) {
        FilledAgrees(data, s.delivered, old(s.streamData), s.streamData, offset, bytes, k, a, b);
      }
      if offset <= s.consumedOffset < offset + |bytes| {
        SpanningGap(s.consumedOffset, old(s.streamData), s.streamData, offset, bytes, k, a, b);
      }
      GapBeyond(s.consumedOffset, old(s.streamData), offset, offset + |bytes|, a, b);
    }
  }

  /** First half of a data frame: final size and flow control. */
  method Admit(c: Connection, s: StreamHead, newFinOffset: nat, fin: bool) returns (ok: bool, shouldNotify: bool)
    modifies c`dataReceived, s`finOffset, s`finReceived
    ensures ok == old(Data(AccountOf(c, s), newFinOffset, fin)).Some?
    ensures ok ==> AccountOf(c, s) == old(Data(AccountOf(c, s), newFinOffset, fin)).value && newFinOffset <= s.finOffset
    ensures !ok ==> c.dataReceived == old(c.dataReceived) && s.finOffset == old(s.finOffset)
    ensures shouldNotify == (fin && !old(s.finReceived))
  {
    ok, shouldNotify := true, false;
    if s.finReceived {
      if (if fin then s.finOffset != newFinOffset else newFinOffset > s.finOffset) {
        ok := false;
      }
    } else {
      if fin {
        s.finReceived := true;
        shouldNotify := true;
      }
      if newFinOffset > s.finOffset {
        ok := FlowControlCheck(c, s, newFinOffset);
      }
    }
  }

  /** A stream head in the middle of a frame: admitted, not yet delivered. */
  ghost predicate Admitted(s: StreamHead, notify: bool)
    reads s
  {
    && Ordered(s.consumedOffset, s.streamData) && |s.delivered| == s.consumedOffset
    && (Drained(s.consumedOffset, s.streamData) || notify)
    && s.consumedOffset <= s.finOffset <= s.maxdataLocal && Within(s.streamData, s.finOffset)
    && (s.finSignalled ==> s.finReceived && s.consumedOffset == s.finOffset)
    && (s.finReceived && !s.finSignalled ==> notify || s.consumedOffset < s.finOffset)
    && s.finEvents == if s.finSignalled then [s.finOffset] else []
  }

  /** Last part of a data frame: notify the application. */
  method Notify(s: StreamHead, notify: bool, ghost data: seq<byte>)
    requires Admitted(s, notify)
    modifies s`consumedOffset, s`streamData, s`finSignalled, s`delivered, s`finEvents
    ensures Received(s)
    ensures s.consumedOffset >= old(s.consumedOffset)
    ensures old(s.delivered) <= s.delivered && old(s.finEvents) <= s.finEvents
    ensures old(Agrees(data, s.delivered, s.streamData)) ==> Agrees(data, s.delivered, s.streamData)
    ensures SameCovered(old(s.consumedOffset), old(s.streamData), s.consumedOffset, s.streamData)
    ensures notify && old(Prefix(s.consumedOffset, s.streamData)) != [] ==> s.consumedOffset > old(s.consumedOffset)
  {
    if notify {
      AllRestCovers(s.consumedOffset, s.streamData);
      PrefixWithin(s.consumedOffset, s.streamData, s.finOffset);
      if Agrees(data, s.delivered, s.streamData) {
        PrefixAgrees(data, s.delivered, s.streamData);
      }
      ghost var _ := Deliver(s);
    }
  }

  /** Second half of a data frame: queue and deliver. */
  method Accept(s: StreamHead, offset: nat, bytes: seq<byte>, shouldNotify: bool, ghost data: seq<byte>)
    returns (ghost a: nat, ghost b: nat)
    requires Admitted(s, shouldNotify) && Drained(s.consumedOffset, s.streamData) && offset + |bytes| <= s.finOffset
    modifies s`consumedOffset, s`streamData, s`finSignalled, s`delivered, s`finEvents
    ensures Received(s)
    ensures s.consumedOffset >= old(s.consumedOffset)
    ensures old(s.delivered) <= s.delivered && old(s.finEvents) <= s.finEvents
    ensures old(Agrees(data, s.delivered, s.streamData)) && CutFrom(data, offset, bytes) ==>
      Agrees(data, s.delivered, s.streamData)
    ensures offset <= old(s.consumedOffset) < offset + |bytes| ==> s.consumedOffset > old(s.consumedOffset)
    ensures Grew(old(s.consumedOffset), old(s.streamData), s.consumedOffset, s.streamData, offset, offset + |bytes|,
                 a, b)
  {
    ghost var c0, chunks0 := s.consumedOffset, s.streamData;
    var news;
    news, a, b := Store(s, offset, bytes, data);
    ghost var c1, chunks1 := s.consumedOffset, s.streamData;
    Notify(s, shouldNotify || news, data);
    GrewThenSame(c0, chunks0, c1, chunks1, s.consumedOffset, s.streamData, offset, offset + |bytes|, a, b);
  }

  /** A data frame for an existing stream: check, account, queue and deliver. What an accepted frame adds to the
      offsets held or delivered is its first gap. */
  method Input(c: Connection, s: StreamHead, offset: nat, fin: bool, bytes: seq<byte>, ghost data: seq<byte>)
    returns (ok: bool, ghost a: nat, ghost b: nat)
    requires Received(s)
    modifies c`dataReceived, s`finOffset, s`finReceived
    modifies s`consumedOffset, s`streamData, s`finSignalled, s`delivered, s`finEvents
    ensures ok == old(Data(AccountOf(c, s), offset + |bytes|, fin)).Some?
    ensures ok ==> AccountOf(c, s) == old(Data(AccountOf(c, s), offset + |bytes|, fin)).value && Received(s)
    ensures !ok ==>
      c.dataReceived == old(c.dataReceived) && s.finOffset == old(s.finOffset) && s.streamData == old(s.streamData)
    ensures s.consumedOffset >= old(s.consumedOffset)
    ensures old(s.delivered) <= s.delivered && old(s.finEvents) <= s.finEvents
    ensures old(Agrees(data, s.delivered, s.streamData)) && CutFrom(data, offset, bytes) ==>
      Agrees(data, s.delivered, s.streamData)
    ensures ok && offset <= old(s.consumedOffset) < offset + |bytes| ==> s.consumedOffset > old(s.consumedOffset)
    ensures ok ==>
      Grew(old(s.consumedOffset), old(s.streamData), s.consumedOffset, s.streamData, offset, offset + |bytes|, a, b)
  {
    var shouldNotify;
    ok, shouldNotify := Admit(c, s, offset + |bytes|, fin);
    a, b := 0, 0;
    if ok {
      a, b := Accept(s, offset, bytes, shouldNotify, data);
    }
  }

  /** A RESET_STREAM frame for an existing stream. */
  method ResetInput(c: Connection, s: StreamHead, finalOffset: nat) returns (ok: bool)
    requires Received(s)
    modifies c`dataReceived, s`finOffset, s`resetReceived, s`resetSignalled
    ensures ok == old(Reset(AccountOf(c, s), finalOffset)).Some?
    ensures ok ==> AccountOf(c, s) == old(Reset(AccountOf(c, s), finalOffset)).value && Received(s)
    ensures !ok ==> AccountOf(c, s) == old(AccountOf(c, s))
    ensures ok && !old(s.resetReceived) ==> s.resetSignalled
  {
    if (s.finReceived || s.resetReceived) && finalOffset != s.finOffset {
      return false;
    }
    ok := FlowControlCheck(c, s, finalOffset);
    if ok && !s.resetReceived {
      s.resetReceived := true;
      s.resetSignalled := true;
    }
  }

  /** The new limit of a stream and whether to announce it (is_max_stream_data_frame_required). */
  function Window(limit: nat, window: nat, consumed: nat): (r: (nat, bool)) {
    var desired := limit + 2 * consumed;
    var largest := consumed + window;
    (if desired < largest then desired else largest,
     (desired < largest && 2 * consumed > limit) || (desired >= largest && 2 * (limit - consumed) < window))
  }

  /** An announced stream limit is always larger than the one before. */
  lemma WindowGrows(limit: nat, window: nat, consumed: nat)
    requires consumed <= limit && Window(limit, window, consumed).1
    ensures Window(limit, window, consumed).0 > limit
  {
  }

  /** Announces a larger limit for a stream, if one is due and the end of the stream is not known. */
  method AnnounceLimit(s: StreamHead, window: nat) returns (announced: bool)
    requires Received(s)
    modifies s`maxdataLocal
    ensures Received(s)
    ensures announced <==> !s.finReceived && !s.resetReceived && old(Window(s.maxdataLocal, window, s.consumedOffset)).1
    ensures s.maxdataLocal ==
      if announced then old(Window(s.maxdataLocal, window, s.consumedOffset)).0 else old(s.maxdataLocal)
    ensures announced ==> s.maxdataLocal > old(s.maxdataLocal)
  {
    var (limit, due) := Window(s.maxdataLocal, window, s.consumedOffset);
    announced := !s.finReceived && !s.resetReceived && due;
    if announced {
      WindowGrows(s.maxdataLocal, window, s.consumedOffset);
      s.maxdataLocal := limit;
    }
  }
}
