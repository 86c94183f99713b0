/** The round-robin choice of the next stream to send on (find_ready_stream_round_robin). */
module Scheduler {
  import opened Wrappers
  import opened Varint
  import opened Streams
  import SendFlow

  /** The stream has something to send that it may send now. */
  predicate Eligible(c: Connection, s: StreamHead)
    reads c, s
  {
    && ((c.maxdataRemote > c.dataSent && s.sentOffset < s.maxdataRemote
         && (s.isActive
             || (s.sendQueue != [] && |s.sendQueue[0].bytes| > s.sendQueue[0].offset)
             || (s.finRequested && !s.finSent)))
        || (s.resetRequested && !s.resetSent)
        || (s.stopSendingRequested && !s.stopSendingSent))
    && (IsClient(s.streamId) == c.clientMode ==> s.streamId <= c.maxStreamIdBidirRemote)
  }

  /** Going up from `last` and around, `p` comes no later than `q`. */
  predicate NotAfter(last: nat, p: nat, q: nat) {
    if p > last then q <= last || p <= q else q <= last && p <= q
  }

  /** `p` is the first of the ready identifiers, cyclically after `last`. */
  ghost predicate Picks(ready: set<nat>, last: nat, p: nat) {
    p in ready && forall q :: q in ready ==> NotAfter(last, p, q)
  }

  ghost function ReadyIds(c: Connection): set<nat>
    reads c, c.streams
  {
    set k | 0 <= k < |c.streams| && Eligible(c, c.streams[k]) :: c.streams[k].streamId
  }

  /** The two-pass scan returns null iff no stream is eligible, else the cyclically first eligible one. */
  method FindReady(c: Connection) returns (r: StreamHead?)
    requires Ascending(c.streams)
    ensures r == null <==> ReadyIds(c) == {}
    ensures r != null ==> r in c.streams && Eligible(c, r) && Picks(ReadyIds(c), c.lastVisitedStreamId, r.streamId)
  {
    var list, last := c.streams, c.lastVisitedStreamId;
    // First pass: from the first stream not visited yet to the end of the list.
    var k := 0;
    while k < |list| && list[k].streamId <= last
      invariant k <= |list| && forall j :: 0 <= j < k ==> list[j].streamId <= last
    {
      k := k + 1;
    }
    ghost var first := k;
    while k < |list| && !Eligible(c, list[k])
      invariant first <= k <= |list| && forall j :: first <= j < k ==> !Eligible(c, list[j])
    {
      k := k + 1;
    }
    if k < |list| {
      r := list[k];
      assert r.streamId in ReadyIds(c);
      return;
    }
    // Second pass: from the start of the list, without visiting a stream twice.
    k := 0;
    while k < |list| && !Eligible(c, list[k])
      invariant k <= |list| && forall j :: 0 <= j < k ==> !Eligible(c, list[j])
    {
      k := k + 1;
      if k < |list| && list[k].streamId > last {
        k := |list|;
      }
    }
    r := if k < |list| then list[k] else null;
    assert r != null ==> r.streamId in ReadyIds(c);
  }

  // Runs of sends

  /** A send: the identifiers that were ready and the one that was served. */
  datatype Send = Send(ready: set<nat>, id: nat)

  /** The stream visited last before send `i`. */
  ghost function Visited(last: nat, sends: seq<Send>, i: nat): nat
    requires i < |sends|
  {
    if i == 0 then last else sends[i - 1].id
  }

  /** Every send serves the pick of its moment; serving a stream makes it the last one visited. */
  ghost predicate Served(last: nat, sends: seq<Send>) {
    forall i :: 0 <= i < |sends| ==> Picks(sends[i].ready, Visited(last, sends, i), sends[i].id)
  }

  /** Going up from `a` and around, `x` comes strictly before `w`. */
  predicate Between(a: nat, x: nat, w: nat) {
    if a < w then a < x < w else x > a || x < w
  }

  lemma PickedBetween(ready: set<nat>, last: nat, p: nat, w: nat)
    requires Picks(ready, last, p) && w in ready && w != p
    ensures Between(last, p, w)
  {
  }

  lemma {:induction false} WaitingAhead(last: nat, sends: seq<Send>, w: nat, a: nat, b: nat)
    requires Served(last, sends) && a < b < |sends|
    requires forall i :: 0 <= i < |sends| ==> w in sends[i].ready && w != sends[i].id
    ensures Between(sends[a].id, sends[b].id, w)
  {
    PickedBetween(sends[b].ready, sends[b - 1].id, sends[b].id, w);
    if a < b - 1 {
      WaitingAhead(last, sends, w, a, b - 1);
    }
  }

  /** While a stream stays eligible and waits, no other stream is served twice. */
  lemma NobodyOvertakesTwice(last: nat, sends: seq<Send>, w: nat)
    requires Served(last, sends)
    requires forall i :: 0 <= i < |sends| ==> w in sends[i].ready && w != sends[i].id
    ensures forall a, b :: 0 <= a < b < |sends| ==> sends[a].id != sends[b].id
  {
    forall a, b | 0 <= a < b < |sends|
      ensures sends[a].id != sends[b].id
    {
      WaitingAhead(last, sends, w, a, b);
    }
  }

  lemma {:induction false} DistinctBound(sends: seq<Send>, ids: set<nat>)
    requires forall i :: 0 <= i < |sends| ==> sends[i].id in ids
    requires forall a, b :: 0 <= a < b < |sends| ==> sends[a].id != sends[b].id
    ensures |sends| <= |ids|
  {
    if sends != [] {
      var n := |sends| - 1;
      DistinctBound(sends[..n], ids - {sends[n].id});
    }
  }

  /** A stream that stays eligible is served after fewer sends than there are streams. */
  lemma WaitIsBounded(last: nat, sends: seq<Send>, w: nat, ids: set<nat>)
    requires Served(last, sends) && w in ids
    requires forall i :: 0 <= i < |sends| ==> w in sends[i].ready && sends[i].ready <= ids && w != sends[i].id
    ensures |sends| < |ids|
  {
    NobodyOvertakesTwice(last, sends, w);
    forall i | 0 <= i < |sends|
      ensures sends[i].id in ids - {w}
    {
      assert Picks(sends[i].ready, Visited(last, sends, i), sends[i].id);
    }
    DistinctBound(sends, ids - {w});
  }

  // The sending loop

  /** The stream has data or its end to send, and no RESET_STREAM or STOP_SENDING frame. */
  ghost predicate DataOnly(s: StreamHead)
    reads s
  {
    && SendFlow.InOrder(s) && (s.isActive ==> s.finRequested)
    && s.streamId < VARINT_LIMIT && s.maxdataRemote < VARINT_LIMIT
    && !s.resetRequested && !s.stopSendingRequested
  }

  /** A chosen stream fills part of any packet with room for twenty bytes. */
  method Serve(c: Connection, s: StreamHead, size: nat) returns (consumed: nat)
    requires DataOnly(s) && c.dataSent <= c.maxdataRemote && Eligible(c, s) && 20 <= size <= 16384
    modifies c`dataSent, c`lastVisitedStreamId, s`sentOffset, s`sendQueue, s`finSent
    ensures DataOnly(s) && old(c.dataSent) <= c.dataSent <= c.maxdataRemote
    ensures 0 < consumed <= size && c.lastVisitedStreamId == s.streamId
    ensures s.sentOffset >= old(s.sentOffset) && (old(s.finSent) ==> s.finSent)
    ensures s.sentOffset > old(s.sentOffset) || (old(s.sendQueue) == [] && s.finSent == s.finRequested)
  {
    SendFlow.SmallBufferFits(c, s, size);
    SendFlow.HeadIsShort(s);
    var buf := new byte[size];
    var _, n, _, _, _ := SendFlow.PrepareData(c, s, buf, size);
    consumed := n;
  }

  ghost predicate AllDataOnly(list: seq<StreamHead>)
    reads list
  {
    forall s :: s in list ==> DataOnly(s)
  }

  ghost function Ids(list: seq<StreamHead>): set<nat> {
    set k | 0 <= k < |list| :: list[k].streamId
  }

  lemma {:induction false} IdsBound(list: seq<StreamHead>)
    ensures |Ids(list)| <= |list|
  {
    if list == [] {
      assert Ids(list) == {};
    } else {
      var n := |list| - 1;
      IdsBound(list[..n]);
      assert Ids(list) == Ids(list[..n]) + {list[n].streamId};
    }
  }

  /** One packet: the chosen stream, if there is one, sends, and no other stream changes. */
  method Next(c: Connection, size: nat, ghost w: StreamHead) returns (r: StreamHead?, ghost ready: set<nat>)
    requires Ascending(c.streams) && AllDataOnly(c.streams) && c.dataSent <= c.maxdataRemote && 20 <= size <= 16384
    modifies c`dataSent, c`lastVisitedStreamId, c.streams`sentOffset, c.streams`sendQueue, c.streams`finSent
    ensures AllDataOnly(c.streams) && old(c.dataSent) <= c.dataSent <= c.maxdataRemote
    ensures ready == old(ReadyIds(c)) && ready <= Ids(c.streams) && (r == null <==> ready == {})
    ensures r == null ==> ReadyIds(c) == {} && c.dataSent == old(c.dataSent)
    ensures r != null ==> Picks(ready, old(c.lastVisitedStreamId), r.streamId) && c.lastVisitedStreamId == r.streamId
    ensures r != null ==> r in c.streams
    ensures r != w ==> unchanged(w)
    ensures w.sentOffset >= old(w.sentOffset) && (old(w.finSent) ==> w.finSent)
    ensures r == w ==>
      w.sentOffset > old(w.sentOffset) || (old(w.sendQueue) == [] && w.finSent == w.finRequested)
    ensures r == w ==> old(Eligible(c, w)) && w in c.streams
  {
    ready := ReadyIds(c);
    r := FindReady(c);
    if r != null {
      var _ := Serve(c, r, size);
    }
  }

  lemma SameId(list: seq<StreamHead>, a: StreamHead, b: StreamHead)
    requires Ascending(list) && a in list && b in list && a.streamId == b.streamId
    ensures a == b
  {
  }

  /** The stream has sent more of its data, or its end. */
  twostate predicate Progressed(w: StreamHead)
    reads w
  {
    w.sentOffset > old(w.sentOffset) || (w.finSent && !old(w.finSent))
  }

  /** One packet, as seen by a stream: if it was ready, it is served, or waits on unchanged. */
  method Watch(c: Connection, size: nat, ghost w: StreamHead) returns (r: StreamHead?, ghost ready: set<nat>)
    requires Ascending(c.streams) && AllDataOnly(c.streams) && c.dataSent <= c.maxdataRemote && 20 <= size <= 16384
    requires w in c.streams
    modifies c`dataSent, c`lastVisitedStreamId, c.streams`sentOffset, c.streams`sendQueue, c.streams`finSent
    ensures AllDataOnly(c.streams) && old(c.dataSent) <= c.dataSent <= c.maxdataRemote
    ensures w.sentOffset >= old(w.sentOffset) && (old(w.finSent) ==> w.finSent) && ready <= Ids(c.streams)
    ensures r == null ==> ReadyIds(c) == {} && c.dataSent == old(c.dataSent)
    ensures r != null ==> Picks(ready, old(c.lastVisitedStreamId), r.streamId) && c.lastVisitedStreamId == r.streamId
    ensures old(Eligible(c, w)) ==> r != null && w.streamId in ready
    ensures old(Eligible(c, w)) && !w.isActive && r == w ==> Progressed(w)
    ensures old(Eligible(c, w)) && r != null && r != w ==>
      r.streamId != w.streamId && (c.dataSent < c.maxdataRemote ==> Eligible(c, w))
  {
    hide SendFlow.InOrder;
    hide Picks;
    ghost var k :| 0 <= k < |c.streams| && c.streams[k] == w;
    assert Eligible(c, w) ==> w.streamId in ReadyIds(c);
    r, ready := Next(c, size, w);
    if r != null && r.streamId == w.streamId {
      SameId(c.streams, r, w);
    }
  }

  /** The stream visited last after some sends. */
  ghost function Latest(last: nat, sends: seq<Send>): nat {
    if sends == [] then last else sends[|sends| - 1].id
  }

  /** The stream with this identifier was ready at every send and never served. */
  ghost predicate Waited(last: nat, sends: seq<Send>, id: nat, ids: set<nat>) {
    && Served(last, sends)
    && forall i :: 0 <= i < |sends| ==> id in sends[i].ready && sends[i].ready <= ids && id != sends[i].id
  }

  lemma WaitedMore(last: nat, sends: seq<Send>, ready: set<nat>, p: nat, id: nat, ids: set<nat>)
    requires Waited(last, sends, id, ids) && Picks(ready, Latest(last, sends), p)
    requires id in ready && ready <= ids && id != p
    ensures Waited(last, sends + [Send(ready, p)], id, ids) && Latest(last, sends + [Send(ready, p)]) == p
  {
    var more := sends + [Send(ready, p)];
    forall i | 0 <= i < |more|
      ensures Picks(more[i].ready, Visited(last, more, i), more[i].id)
    {
      if i < |sends| {
        assert Picks(sends[i].ready, Visited(last, sends, i), sends[i].id);
      }
    }
  }

  lemma WaitedShort(last: nat, sends: seq<Send>, list: seq<StreamHead>, w: StreamHead)
    requires w in list && Waited(last, sends, w.streamId, Ids(list))
    ensures |sends| < |list|
  {
    var k :| 0 <= k < |list| && list[k] == w;
    assert list[k].streamId in Ids(list);
    IdsBound(list);
    WaitIsBounded(last, sends, w.streamId, Ids(list));
  }

  /** Packets of at least twenty bytes are filled until none is left or no stream is ready. Whichever ready stream is
      looked at, it has sent data or its end by the time there were as many packets as streams, unless the credit of
      the connection is used up. */
  method Loop(c: Connection, sizes: seq<nat>, ghost w: StreamHead) returns (filled: nat)
    requires Ascending(c.streams) && AllDataOnly(c.streams) && c.dataSent <= c.maxdataRemote
    requires forall i :: 0 <= i < |sizes| ==> 20 <= sizes[i] <= 16384
    requires w in c.streams
    modifies c`dataSent, c`lastVisitedStreamId, c.streams`sentOffset, c.streams`sendQueue, c.streams`finSent
    ensures AllDataOnly(c.streams) && old(c.dataSent) <= c.dataSent <= c.maxdataRemote
    ensures w.sentOffset >= old(w.sentOffset) && (old(w.finSent) ==> w.finSent)
    ensures filled == |sizes| || (filled < |sizes| && ReadyIds(c) == {})
    ensures old(Eligible(c, w)) && !w.isActive && |sizes| >= |c.streams| ==>
      Progressed(w) || c.dataSent == c.maxdataRemote
  {
    hide AllDataOnly;
    hide Picks;
    hide Eligible;
    ghost var sends: seq<Send>, last, ids := [], c.lastVisitedStreamId, Ids(c.streams);
    ghost var waiting := Eligible(c, w) && !w.isActive;
    filled := 0;
    for n := 0 to |sizes|
      invariant filled == n
      invariant AllDataOnly(c.streams) && old(c.dataSent) <= c.dataSent <= c.maxdataRemote
      invariant w.sentOffset >= old(w.sentOffset) && (old(w.finSent) ==> w.finSent)
      invariant old(Eligible(c, w)) && !w.isActive && !waiting ==> Progressed(w) || c.dataSent == c.maxdataRemote
      invariant waiting ==> Eligible(c, w) && !w.isActive && c.lastVisitedStreamId == Latest(last, sends)
      invariant waiting ==> |sends| == n && Waited(last, sends, w.streamId, ids)
    {
      var r;
      ghost var ready;
      r, ready := Watch(c, sizes[n], w);
      if r == null {
        break;
      }
      filled := filled + 1;
      if waiting && r != w {
        WaitedMore(last, sends, ready, r.streamId, w.streamId, ids);
      }
      sends, waiting := sends + [Send(ready, r.streamId)], waiting && r != w && c.dataSent < c.maxdataRemote;
    }
    if waiting {
      WaitedShort(last, sends, c.streams, w);
    }
  }
}
