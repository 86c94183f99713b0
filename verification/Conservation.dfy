/** Flow control over a whole connection: what it has sent and received is what its streams have, application and
    plugin streams together, and no limit is exceeded, over any run of frames. */
module Conservation {
  import opened Wrappers
  import opened Sequences
  import opened Varint
  import opened Streams
  import SendFlow
  import ReceiveFlow
  import PluginStream

  // ----- Sums over the stream heads -----

  /** What a stream counts for, in one direction. */
  ghost function Offset(s: StreamHead, received: bool): nat
    reads s`finOffset, s`sentOffset
  {
    if received then s.finOffset else s.sentOffset
  }

  /** The sum over the first n streams of a list. */
  ghost function Sum(list: seq<StreamHead>, n: nat, received: bool): nat
    requires n <= |list|
    reads list`finOffset, list`sentOffset
  {
    if n == 0 then 0 else Sum(list, n - 1, received) + Offset(list[n - 1], received)
  }

  /** What the streams of a list count for, written down. */
  type Page = map<StreamHead, nat>

  ghost predicate Counts(page: Page, received: bool)
    reads page.Keys`finOffset, page.Keys`sentOffset
  {
    forall s :: s in page ==> Offset(s, received) == page[s]
  }

  ghost predicate Lists(page: Page, list: seq<StreamHead>) {
    forall i :: 0 <= i < |list| ==> list[i] in page
  }

  ghost function Added(page: Page, list: seq<StreamHead>, n: nat): nat
    requires Lists(page, list) && n <= |list|
  {
    if n == 0 then 0 else Added(page, list, n - 1) + page[list[n - 1]]
  }

  lemma {:induction false} SumIsAdded(page: Page, list: seq<StreamHead>, n: nat, received: bool)
    requires Lists(page, list) && Counts(page, received) && n <= |list|
    ensures Sum(list, n, received) == Added(page, list, n)
  {
    if n > 0 {
      SumIsAdded(page, list, n - 1, received);
    }
  }

  lemma {:induction false} WriteDown(list: seq<StreamHead>, n: nat, received: bool) returns (page: Page)
    requires n <= |list|
    ensures Lists(page, list[..n]) && Counts(page, received) && forall s :: s in page ==> s in list
  {
    if n == 0 {
      page := map[];
    } else {
      page := WriteDown(list, n - 1, received);
      page := page[list[n - 1] := Offset(list[n - 1], received)];
    }
  }

  /** A sum follows the one number that moved. */
  lemma {:induction false} AddedMoved(before: Page, after: Page, list: seq<StreamHead>, n: nat, k: nat)
    requires Lists(before, list) && Lists(after, list) && n <= |list| && k < |list|
    requires forall i :: 0 <= i < |list| && i != k ==> after[list[i]] == before[list[i]]
    ensures Added(after, list, n) - Added(before, list, n) ==
            if k < n then after[list[k]] as int - before[list[k]] else 0
  {
    if n > 0 {
      AddedMoved(before, after, list, n - 1, k);
    }
  }

  /** A stream that joins the list adds what it counts for. */
  lemma {:induction false} SumInserted(list: seq<StreamHead>, k: nat, s: StreamHead, n: nat, received: bool)
    requires n <= |list| && k <= |list|
    ensures n <= k ==> Sum(Inserted(list, k, s), n, received) == Sum(list, n, received)
    ensures k <= n ==> Sum(Inserted(list, k, s), n + 1, received) == Sum(list, n, received) + Offset(s, received)
  {
    if n > 0 {
      SumInserted(list, k, s, n - 1, received);
    }
  }

  lemma {:induction false} AddedBound(page: Page, list: seq<StreamHead>, n: nat, k: nat)
    requires Lists(page, list) && k < n <= |list|
    ensures page[list[k]] <= Added(page, list, n)
  {
    if k < n - 1 {
      AddedBound(page, list, n - 1, k);
    }
  }

  // ----- The connection -----

  /** The application streams, then the plugin streams. */
  ghost function All(c: Connection): seq<StreamHead>
    reads c
  {
    c.streams + c.pluginStreams
  }

  ghost function Total(c: Connection, received: bool): nat
    reads c, c.streams`finOffset, c.streams`sentOffset, c.pluginStreams`finOffset, c.pluginStreams`sentOffset
  {
    Sum(All(c), |All(c)|, received)
  }

  /** Limits come in varints. */
  predicate Limited(c: Connection) {
    && c.remoteLimits.bidiLocal < VARINT_LIMIT && c.remoteLimits.bidiRemote < VARINT_LIMIT
    && c.remoteLimits.uni < VARINT_LIMIT
  }

  ghost predicate Listed(c: Connection)
    reads c
  {
    && Ascending(c.streams) && Ascending(c.pluginStreams)
    && (forall s :: s in c.streams ==> s !in c.pluginStreams)
    && Limited(c)
  }

  /** Both halves of a stream are in order. */
  ghost predicate Sound(s: StreamHead)
    reads s
  {
    && SendFlow.InOrder(s) && (s.isActive ==> s.finRequested)
    && s.streamId < VARINT_LIMIT && s.maxdataRemote < VARINT_LIMIT
    && ReceiveFlow.Received(s)
  }

  ghost predicate AllSound(list: seq<StreamHead>)
    reads list
  {
    forall s :: s in list ==> Sound(s)
  }

  /** The counters of the connection are the sums over its streams, within the limits. */
  ghost predicate Summed(c: Connection)
    reads c, c.streams`finOffset, c.streams`sentOffset, c.pluginStreams`finOffset, c.pluginStreams`sentOffset
  {
    && Listed(c)
    && c.dataSent == Total(c, false) <= c.maxdataRemote
    && c.dataReceived == Total(c, true) <= c.maxdataLocal
  }

  ghost predicate Balanced(c: Connection)
    reads c, c.streams, c.pluginStreams
  {
    Summed(c) && AllSound(c.streams) && AllSound(c.pluginStreams)
  }

  /** A stream is listed once. */
  lemma ListedOnce(c: Connection, i: nat, j: nat)
    requires Listed(c) && i < |All(c)| && j < |All(c)| && All(c)[i] == All(c)[j]
    ensures i == j
  {
    var n := |c.streams|;
    if i < n {
      assert c.streams[i] in c.streams;
    }
    if j < n {
      assert c.streams[j] in c.streams;
    }
  }

  /** The sum follows the one stream that moved. */
  lemma TotalMoved(c: Connection, before: Page, s: StreamHead, received: bool)
    requires Listed(c) && Lists(before, All(c)) && s in All(c)
    requires forall t :: t in before && t != s ==> Offset(t, received) == before[t]
    ensures Total(c, received) - Added(before, All(c), |All(c)|) == Offset(s, received) as int - before[s]
  {
    var k :| 0 <= k < |All(c)| && All(c)[k] == s;
    var after := before[s := Offset(s, received)];
    forall i | 0 <= i < |All(c)| && i != k
      ensures All(c)[i] != s
    {
      if All(c)[i] == s {
        ListedOnce(c, i, k);
      }
    }
    SumIsAdded(after, All(c), |All(c)|, received);
    AddedMoved(before, after, All(c), |All(c)|, k);
  }

  /** The counters and offsets before a step. */
  datatype Books = Books(all: seq<StreamHead>, sent: Page, received: Page, dataSent: nat, dataReceived: nat) {
    ghost predicate Fair() {
      && Lists(sent, all) && dataSent == Added(sent, all, |all|)
      && Lists(received, all) && dataReceived == Added(received, all, |all|)
    }
  }

  ghost predicate Booked(c: Connection, b: Books)
    reads c, b.sent.Keys, b.received.Keys
  {
    && b.Fair() && b.all == All(c) && c.dataSent == b.dataSent && c.dataReceived == b.dataReceived
    && Counts(b.sent, false) && Counts(b.received, true)
  }

  lemma Book(c: Connection) returns (b: Books)
    requires Summed(c)
    ensures Booked(c, b)
  {
    var all := All(c);
    var sent := WriteDown(all, |all|, false);
    var received := WriteDown(all, |all|, true);
    assert all[..|all|] == all;
    SumIsAdded(sent, all, |all|, false);
    SumIsAdded(received, all, |all|, true);
    b := Books(all, sent, received, c.dataSent, c.dataReceived);
  }

  /** A step on one stream that moves the counters of the connection as it moves those of the stream. */
  lemma StepSummed(c: Connection, b: Books, s: StreamHead)
    requires Listed(c) && All(c) == b.all && b.Fair() && s in b.sent && s in b.received && s in b.all
    requires forall t :: t in b.sent && t != s ==> Offset(t, false) == b.sent[t]
    requires forall t :: t in b.received && t != s ==> Offset(t, true) == b.received[t]
    requires c.dataSent - b.dataSent == s.sentOffset - b.sent[s] && c.dataSent <= c.maxdataRemote
    requires c.dataReceived - b.dataReceived == s.finOffset - b.received[s] && c.dataReceived <= c.maxdataLocal
    ensures Summed(c)
  {
    TotalMoved(c, b.sent, s, false);
    TotalMoved(c, b.received, s, true);
  }

  /** What one stream received is part of what the connection received. */
  lemma PartOfTotal(c: Connection, b: Books, s: StreamHead)
    requires Booked(c, b) && s in b.all
    ensures s in b.sent && s in b.received && s.finOffset <= c.dataReceived
  {
    var k :| 0 <= k < |b.all| && b.all[k] == s;
    AddedBound(b.received, b.all, |b.all|, k);
  }

  // ----- Steps of the sending side -----

  /** The bytes that the next STREAM frame takes from a stream. */
  ghost function Due(c: Connection, s: StreamHead, bytesMax: nat): nat
    requires Sound(s) && c.dataSent <= c.maxdataRemote
    reads c, s
  {
    if SendFlow.Writes(s, bytesMax) then SendFlow.Allowance(c, s, bytesMax - SendFlow.HeadSize(s)) else 0
  }

  /** The stream and the connection count the same bytes. */
  method SendSound(c: Connection, s: StreamHead, buf: array<byte>, bytesMax: nat) returns (ret: Ret, consumed: nat)
    requires Sound(s) && c.dataSent <= c.maxdataRemote
    requires 0 < bytesMax <= buf.Length && bytesMax < VARINT_LIMIT
    requires SendFlow.Writes(s, bytesMax) ==> SendFlow.FrameEnd(c, s, bytesMax) <= buf.Length
    modifies buf, c`dataSent, c`lastVisitedStreamId, s`sentOffset, s`sendQueue, s`finSent
    ensures Sound(s) && c.dataSent - old(c.dataSent) == s.sentOffset - old(s.sentOffset)
    ensures c.dataSent <= c.maxdataRemote
    ensures s.sentOffset == old(s.sentOffset) + old(Due(c, s, bytesMax))
  {
    var r, n, _, _, _ := SendFlow.PrepareData(c, s, buf, bytesMax);
    ret, consumed := r, n;
  }

  method SendOne(c: Connection, s: StreamHead, buf: array<byte>, bytesMax: nat) returns (ret: Ret, consumed: nat)
    requires Summed(c) && Sound(s) && s in c.streams
    requires 0 < bytesMax <= buf.Length && bytesMax < VARINT_LIMIT
    requires SendFlow.Writes(s, bytesMax) ==> SendFlow.FrameEnd(c, s, bytesMax) <= buf.Length
    modifies buf, c`dataSent, c`lastVisitedStreamId, s`sentOffset, s`sendQueue, s`finSent
    ensures Summed(c) && Sound(s)
    ensures s.sentOffset == old(s.sentOffset) + old(Due(c, s, bytesMax))
  {
    ghost var b := Book(c);
    PartOfTotal(c, b, s);
    ret, consumed := SendSound(c, s, buf, bytesMax);
    StepSummed(c, b, s);
  }

  /** A STREAM frame is written. */
  method SendStream(c: Connection, s: StreamHead, buf: array<byte>, bytesMax: nat) returns (ret: Ret, consumed: nat)
    requires Balanced(c) && s in c.streams
    requires 0 < bytesMax <= buf.Length && bytesMax < VARINT_LIMIT
    requires Sound(s) && SendFlow.Writes(s, bytesMax) ==> SendFlow.FrameEnd(c, s, bytesMax) <= buf.Length
    modifies buf, c`dataSent, c`lastVisitedStreamId, s`sentOffset, s`sendQueue, s`finSent
    ensures Balanced(c)
    ensures s.sentOffset == old(s.sentOffset) + old(Due(c, s, bytesMax))
  {
    ret, consumed := SendOne(c, s, buf, bytesMax);
  }

  method SendSoundPlugin(c: Connection, s: StreamHead, buf: array<byte>, bytesMax: nat)
    returns (ret: Ret, consumed: nat)
    requires Sound(s) && c.dataSent <= c.maxdataRemote && 2 <= bytesMax <= buf.Length
    modifies buf, c`dataSent, s`sentOffset, s`sendQueue, s`finSent
    ensures Sound(s) && c.dataSent - old(c.dataSent) == s.sentOffset - old(s.sentOffset)
    ensures c.dataSent <= c.maxdataRemote
    ensures s.sentOffset == old(s.sentOffset) + old(PluginStream.Amount(c, s, bytesMax))
  {
    ret, consumed := PluginStream.PreparePlugin(c, s, buf, bytesMax);
  }

  method SendOnePlugin(c: Connection, s: StreamHead, buf: array<byte>, bytesMax: nat) returns (ret: Ret, consumed: nat)
    requires Summed(c) && Sound(s) && s in c.pluginStreams && 2 <= bytesMax <= buf.Length
    modifies buf, c`dataSent, s`sentOffset, s`sendQueue, s`finSent
    ensures Summed(c) && Sound(s)
    ensures s.sentOffset == old(s.sentOffset) + old(PluginStream.Amount(c, s, bytesMax))
  {
    ghost var b := Book(c);
    PartOfTotal(c, b, s);
    ret, consumed := SendSoundPlugin(c, s, buf, bytesMax);
    StepSummed(c, b, s);
  }

  /** A PLUGIN frame is written. */
  method SendPlugin(c: Connection, s: StreamHead, buf: array<byte>, bytesMax: nat) returns (ret: Ret, consumed: nat)
    requires Balanced(c) && s in c.pluginStreams && 2 <= bytesMax <= buf.Length
    modifies buf, c`dataSent, s`sentOffset, s`sendQueue, s`finSent
    ensures Balanced(c)
    ensures s.sentOffset == old(s.sentOffset) + old(PluginStream.Amount(c, s, bytesMax))
  {
    ret, consumed := SendOnePlugin(c, s, buf, bytesMax);
  }

  method QueueSound(c: Connection, s: StreamHead, data: seq<byte>, setFin: bool, stopSendingReceived: bool)
    returns (ok: bool)
    requires Sound(s) && c.dataSent <= c.maxdataRemote
    modifies s`sendQueue, s`finRequested, s`isActive, s`queued
    ensures Sound(s)
    ensures s.queued == old(s.queued) + if ok then data else []
    ensures ok <==> !(setFin && old(s.finRequested) && data != []) && !s.resetSent && !stopSendingReceived
    ensures s.finRequested == (old(s.finRequested) || setFin)
  {
    ok := SendFlow.AddToStream(c, s, data, setFin, stopSendingReceived);
  }

  method QueueOne(c: Connection, s: StreamHead, data: seq<byte>, setFin: bool, stopSendingReceived: bool)
    returns (ok: bool)
    requires Summed(c) && Sound(s) && (s in c.streams || s in c.pluginStreams)
    modifies s`sendQueue, s`finRequested, s`isActive, s`queued
    ensures Summed(c) && Sound(s)
    ensures s.queued == old(s.queued) + if ok then data else []
    ensures ok <==> !(setFin && old(s.finRequested) && data != []) && !s.resetSent && !stopSendingReceived
    ensures s.finRequested == (old(s.finRequested) || setFin)
  {
    ghost var b := Book(c);
    PartOfTotal(c, b, s);
    ok := QueueSound(c, s, data, setFin, stopSendingReceived);
    StepSummed(c, b, s);
  }

  /** The application queues data or the end of a stream. */
  method Queue(c: Connection, s: StreamHead, data: seq<byte>, setFin: bool, stopSendingReceived: bool)
    returns (ok: bool)
    requires Balanced(c) && (s in c.streams || s in c.pluginStreams)
    modifies s`sendQueue, s`finRequested, s`isActive, s`queued
    ensures Balanced(c)
    ensures s.queued == old(s.queued) + if ok then data else []
    ensures ok <==> !(setFin && old(s.finRequested) && data != []) && !s.resetSent && !stopSendingReceived
    ensures s.finRequested == (old(s.finRequested) || setFin)
  {
    hide Summed;
    hide Sound;
    ok := QueueOne(c, s, data, setFin, stopSendingReceived);
  }

  /** A MAX_DATA frame is received. */
  method TakeMaxData(c: Connection, maximum: nat)
    requires Balanced(c)
    modifies c`maxdataRemote
    ensures Balanced(c) && c.maxdataRemote == SendFlow.Raised(old(c.maxdataRemote), maximum)
  {
    SendFlow.ProcessMaxData(c, maximum);
  }

  /** A step that moves no stream. */
  lemma StaysSummed(c: Connection, b: Books)
    requires Listed(c) && All(c) == b.all && b.Fair() && Counts(b.sent, false) && Counts(b.received, true)
    requires b.dataSent == c.dataSent <= c.maxdataRemote && b.dataReceived == c.dataReceived <= c.maxdataLocal
    ensures Summed(c)
  {
    SumIsAdded(b.sent, b.all, |b.all|, false);
    SumIsAdded(b.received, b.all, |b.all|, true);
  }

  /** A stream that joins a list, with nothing sent and nothing received. */
  lemma JoinSummed(c: Connection, b: Books, k: nat, s: StreamHead)
    requires Listed(c) && k <= |b.all| && All(c) == Inserted(b.all, k, s) && s.sentOffset == s.finOffset == 0
    requires b.Fair() && Counts(b.sent, false) && Counts(b.received, true)
    requires b.dataSent == c.dataSent <= c.maxdataRemote && b.dataReceived == c.dataReceived <= c.maxdataLocal
    ensures Summed(c)
  {
    SumIsAdded(b.sent, b.all, |b.all|, false);
    SumInserted(b.all, k, s, |b.all|, false);
    SumIsAdded(b.received, b.all, |b.all|, true);
    SumInserted(b.all, k, s, |b.all|, true);
  }

  /** A new stream is in order. */
  lemma BlankIsSound(s: StreamHead)
    requires Blank(s) && s.streamId < VARINT_LIMIT && s.maxdataRemote < VARINT_LIMIT
    ensures Sound(s)
  {
    assert s.queued[0..] == [];
  }

  /** What a new stream counts for, with a limit and perhaps a receiving half that is closed. */
  ghost function NewAccount(c: Connection, limit: nat, closed: bool): ReceiveFlow.Account
    reads c
  {
    ReceiveFlow.Account(closed, false, 0, limit, c.dataReceived, c.maxdataLocal)
  }

  /** What has been added to a list is new. */
  twostate predicate Onward(before: seq<StreamHead>, new after: seq<StreamHead>) {
    forall k :: 0 <= k < |after| ==> after[k] in before || fresh(after[k])
  }

  method OpenOne(c: Connection, id: nat) returns (s: StreamHead, created: bool)
    requires Summed(c) && id < VARINT_LIMIT
    modifies c`streams
    ensures Summed(c) && s in c.streams && s.streamId == id
    ensures forall t :: t in c.streams <==> t in old(c.streams) || (created && t == s)
    ensures created ==> fresh(s) && Sound(s)
    ensures created <==> forall t :: t in old(c.streams) ==> t.streamId != id
    ensures Onward(old(c.streams), c.streams)
    ensures created ==> ReceiveFlow.AccountOf(c, s) == NewAccount(c, LocalLimit(c, id), false)
  {
    ghost var b := Book(c);
    ghost var k;
    s, created, k := FindStream(c, id);
    if created {
      BlankIsSound(s);
      InsertedInConcat(old(c.streams), c.pluginStreams, k, s);
      JoinSummed(c, b, k, s);
    } else {
      StaysSummed(c, b);
    }
  }

  /** The application stream with this identifier, created if there is none. */
  method Open(c: Connection, id: nat) returns (s: StreamHead, created: bool)
    requires Balanced(c) && id < VARINT_LIMIT
    modifies c`streams
    ensures Balanced(c) && s in c.streams && s.streamId == id
    ensures forall t :: t in c.streams <==> t in old(c.streams) || (created && t == s)
    ensures created ==> fresh(s)
    ensures created <==> forall t :: t in old(c.streams) ==> t.streamId != id
    ensures Onward(old(c.streams), c.streams)
    ensures created ==> ReceiveFlow.AccountOf(c, s) == NewAccount(c, LocalLimit(c, id), false)
  {
    hide Summed;
    hide Sound;
    s, created := OpenOne(c, id);
  }

  method TakeOneMaxStreamData(c: Connection, id: nat, maximum: nat) returns (s: StreamHead, created: bool)
    requires Summed(c) && id < VARINT_LIMIT && maximum < VARINT_LIMIT
    modifies c`streams, c.streams`maxdataRemote
    ensures Summed(c) && s in c.streams && s.streamId == id
    ensures forall t :: t in c.streams <==> t in old(c.streams) || (created && t == s)
    ensures forall t :: t in old(c.streams) && t != s ==> t.maxdataRemote == old(t.maxdataRemote)
    ensures created ==> fresh(s) && Sound(s)
    ensures !created ==> s in old(c.streams) && s.maxdataRemote == SendFlow.Raised(old(s.maxdataRemote), maximum)
    ensures s.maxdataRemote >= maximum
    ensures Onward(old(c.streams), c.streams)
  {
    ghost var b := Book(c);
    ghost var k;
    s, created, k := SendFlow.ProcessMaxStreamData(c, id, maximum);
    if created {
      BlankIsSound(s);
      InsertedInConcat(old(c.streams), c.pluginStreams, k, s);
      JoinSummed(c, b, k, s);
    } else {
      StaysSummed(c, b);
    }
  }

  /** A MAX_STREAM_DATA frame is received. */
  method TakeMaxStreamData(c: Connection, id: nat, maximum: nat) returns (s: StreamHead, created: bool)
    requires Balanced(c) && id < VARINT_LIMIT && maximum < VARINT_LIMIT
    modifies c`streams, c.streams`maxdataRemote
    ensures Balanced(c) && s in c.streams && s.streamId == id
    ensures forall t :: t in c.streams <==> t in old(c.streams) || (created && t == s)
    ensures created ==> fresh(s)
    ensures s.maxdataRemote >= maximum
    ensures Onward(old(c.streams), c.streams)
    ensures forall t :: t in old(c.streams) && t != s ==> t.maxdataRemote == old(t.maxdataRemote)
    ensures !created ==> s in old(c.streams) && s.maxdataRemote == SendFlow.Raised(old(s.maxdataRemote), maximum)
  {
    hide Summed;
    hide ReceiveFlow.Received;
    hide SendFlow.Flat;
    s, created := TakeOneMaxStreamData(c, id, maximum);
  }

  function PluginLimit(c: Connection): nat {
    if c.clientMode then MAX_PLUGIN_DATA_LEN else 0
  }

  /** A server receives nothing on a plugin stream that it opens. */
  method CloseReceiving(s: StreamHead)
    requires Sound(s) && s.finOffset == s.consumedOffset == 0
    modifies s`finReceived, s`finSignalled, s`finEvents
    ensures Sound(s) && s.finReceived && s.finSignalled
  {
    s.finReceived, s.finSignalled, s.finEvents := true, true, [0];
  }

  method OpenSoundPlugin(c: Connection, id: nat, mayCreate: bool) returns (s: StreamHead?, created: bool, ghost k: nat)
    requires Ascending(c.pluginStreams) && id < VARINT_LIMIT
    modifies c`pluginStreams
    ensures Ascending(c.pluginStreams) && (s != null ==> s in c.pluginStreams && s.streamId == id)
    ensures forall t :: t in c.pluginStreams <==> t in old(c.pluginStreams) || (created && t == s)
    ensures created ==>
      s != null && k <= |old(c.pluginStreams)| && c.pluginStreams == Inserted(old(c.pluginStreams), k, s)
    ensures created ==>
      s != null && fresh(s) && Sound(s) && s.finReceived == !c.clientMode && s.sentOffset == s.finOffset == 0
    ensures !created ==> c.pluginStreams == old(c.pluginStreams)
    ensures created <==> mayCreate && forall t :: t in old(c.pluginStreams) ==> t.streamId != id
    ensures s == null <==> !mayCreate && forall t :: t in old(c.pluginStreams) ==> t.streamId != id
    ensures created ==> s != null && s.maxdataLocal == PluginLimit(c) && !s.resetReceived && s.finOffset == 0
  {
    s, created, k := FindPluginStream(c, id, mayCreate);
    if created {
      BlankIsSound(s);
      if !c.clientMode {
        CloseReceiving(s);
      }
    }
  }

  lemma JoinPlugin(c: Connection, b: Books, before: seq<StreamHead>, k: nat, s: StreamHead)
    requires k <= |before| && c.pluginStreams == Inserted(before, k, s) && b.all == c.streams + before
    requires Ascending(c.streams) && Ascending(c.pluginStreams) && Limited(c)
    requires (forall t :: t in c.streams ==> t !in before) && s !in c.streams && s.sentOffset == s.finOffset == 0
    requires b.Fair() && Counts(b.sent, false) && Counts(b.received, true)
    requires b.dataSent == c.dataSent <= c.maxdataRemote && b.dataReceived == c.dataReceived <= c.maxdataLocal
    ensures Summed(c)
  {
    InsertedInConcat(c.streams, before, k, s);
    JoinSummed(c, b, |c.streams| + k, s);
  }

  method OpenOnePlugin(c: Connection, id: nat, mayCreate: bool) returns (s: StreamHead?, created: bool)
    requires Summed(c) && id < VARINT_LIMIT
    modifies c`pluginStreams
    ensures Summed(c) && (s != null ==> s in c.pluginStreams && s.streamId == id)
    ensures forall t :: t in c.pluginStreams <==> t in old(c.pluginStreams) || (created && t == s)
    ensures created ==> s != null && fresh(s) && Sound(s) && s.finReceived == !c.clientMode
    ensures Onward(old(c.pluginStreams), c.pluginStreams)
    ensures created <==> mayCreate && forall t :: t in old(c.pluginStreams) ==> t.streamId != id
    ensures s == null <==> !mayCreate && forall t :: t in old(c.pluginStreams) ==> t.streamId != id
    ensures created ==> s != null && s.maxdataLocal == PluginLimit(c) && !s.resetReceived && s.finOffset == 0
  {
    ghost var b := Book(c);
    ghost var k;
    s, created, k := OpenSoundPlugin(c, id, mayCreate);
    if created {
      JoinPlugin(c, b, old(c.pluginStreams), k, s);
    } else {
      StaysSummed(c, b);
    }
  }

  /** The plugin stream with this identifier, created if there is none and it may be. */
  method OpenPlugin(c: Connection, id: nat, mayCreate: bool) returns (s: StreamHead?, created: bool)
    requires Balanced(c) && id < VARINT_LIMIT
    modifies c`pluginStreams
    ensures Balanced(c) && (s != null ==> s in c.pluginStreams && s.streamId == id)
    ensures forall t :: t in c.pluginStreams <==> t in old(c.pluginStreams) || (created && t == s)
    ensures created ==> s != null && fresh(s) && s.finReceived == !c.clientMode
    ensures Onward(old(c.pluginStreams), c.pluginStreams)
    ensures created <==> mayCreate && forall t :: t in old(c.pluginStreams) ==> t.streamId != id
    ensures s == null <==> !mayCreate && forall t :: t in old(c.pluginStreams) ==> t.streamId != id
    ensures created ==> s != null && s.maxdataLocal == PluginLimit(c) && !s.resetReceived && s.finOffset == 0
  {
    hide Summed;
    hide Sound;
    s, created := OpenOnePlugin(c, id, mayCreate);
  }

  // ----- Steps of the receiving side -----

  /** The end of the stream, once known, is kept. */
  twostate predicate EndKept(s: StreamHead)
    reads s
  {
    old(s.finReceived) ==> s.finReceived && s.finOffset == old(s.finOffset)
  }

  /** A frame that moves the receive side of a stream. */
  datatype Arrival =
    | StreamFrame(offset: nat, fin: bool, bytes: seq<byte>)
    | PluginFrame(offset: nat, fin: bool, bytes: seq<byte>)
    | ResetFrame(finalOffset: nat)

  function Event(frame: Arrival): ReceiveFlow.Event {
    match frame
    case StreamFrame(offset, fin, bytes) => ReceiveFlow.DataFrame(offset + |bytes|, fin)
    case PluginFrame(offset, fin, bytes) => ReceiveFlow.DataFrame(offset + |bytes|, fin)
    case ResetFrame(finalOffset) => ReceiveFlow.ResetFrame(finalOffset)
  }

  method ReceiveAny(c: Connection, s: StreamHead, frame: Arrival) returns (ok: bool)
    requires ReceiveFlow.Received(s)
    modifies c`dataReceived, s`finOffset, s`finReceived, s`resetReceived, s`resetSignalled
    modifies s`consumedOffset, s`streamData, s`finSignalled, s`delivered, s`finEvents
    ensures ok == old(ReceiveFlow.Step(ReceiveFlow.AccountOf(c, s), Event(frame))).Some?
    ensures ok ==> ReceiveFlow.Received(s)
    ensures ok ==> ReceiveFlow.AccountOf(c, s) == old(ReceiveFlow.Step(ReceiveFlow.AccountOf(c, s), Event(frame))).value
  {
    match frame
    case StreamFrame(offset, fin, bytes) =>
      var r, _, _ := ReceiveFlow.Input(c, s, offset, fin, bytes, []);
      ok := r;
    case PluginFrame(offset, fin, bytes) =>
      var r, _, _ := PluginStream.Input(c, s, offset, fin, bytes, []);
      ok := r;
    case ResetFrame(finalOffset) =>
      ok := ReceiveFlow.ResetInput(c, s, finalOffset);
  }

  method ReceiveSound(c: Connection, s: StreamHead, frame: Arrival) returns (ok: bool)
    requires Sound(s) && s.finOffset <= c.dataReceived <= c.maxdataLocal
    modifies c`dataReceived, s`finOffset, s`finReceived, s`resetReceived, s`resetSignalled
    modifies s`consumedOffset, s`streamData, s`finSignalled, s`delivered, s`finEvents
    ensures ok ==> Sound(s) && c.dataReceived - old(c.dataReceived) == s.finOffset - old(s.finOffset)
    ensures ok ==> c.dataReceived <= c.maxdataLocal && EndKept(s)
    ensures ok == old(ReceiveFlow.Step(ReceiveFlow.AccountOf(c, s), Event(frame))).Some?
    ensures ok ==> ReceiveFlow.AccountOf(c, s) == old(ReceiveFlow.Step(ReceiveFlow.AccountOf(c, s), Event(frame))).value
  {
    ghost var account := ReceiveFlow.AccountOf(c, s);
    ok := ReceiveAny(c, s, frame);
    if ok {
      ReceiveFlow.StepSound(account, Event(frame));
    }
  }

  method ReceiveOne(c: Connection, s: StreamHead, frame: Arrival) returns (ok: bool)
    requires Summed(c) && Sound(s) && (s in c.streams || s in c.pluginStreams)
    modifies c`dataReceived, s`finOffset, s`finReceived, s`resetReceived, s`resetSignalled
    modifies s`consumedOffset, s`streamData, s`finSignalled, s`delivered, s`finEvents
    ensures ok ==> Summed(c) && Sound(s) && EndKept(s)
    ensures ok == old(ReceiveFlow.Step(ReceiveFlow.AccountOf(c, s), Event(frame))).Some?
    ensures ok ==> ReceiveFlow.AccountOf(c, s) == old(ReceiveFlow.Step(ReceiveFlow.AccountOf(c, s), Event(frame))).value
  {
    ghost var b := Book(c);
    PartOfTotal(c, b, s);
    ok := ReceiveSound(c, s, frame);
    if !ok {
      return;
    }
    assert All(c) == b.all;
    StepSummed(c, b, s);
  }

  /** A STREAM, PLUGIN or RESET_STREAM frame arrives. */
  method Receive(c: Connection, s: StreamHead, frame: Arrival) returns (ok: bool)
    requires Balanced(c) && (s in c.streams || s in c.pluginStreams)
    modifies c`dataReceived, s`finOffset, s`finReceived, s`resetReceived, s`resetSignalled
    modifies s`consumedOffset, s`streamData, s`finSignalled, s`delivered, s`finEvents
    ensures ok ==> Balanced(c) && EndKept(s)
    ensures ok == old(ReceiveFlow.Step(ReceiveFlow.AccountOf(c, s), Event(frame))).Some?
    ensures ok ==> ReceiveFlow.AccountOf(c, s) == old(ReceiveFlow.Step(ReceiveFlow.AccountOf(c, s), Event(frame))).value
  {
    hide Summed;
    hide ReceiveFlow.Received;
    hide SendFlow.InOrder;
    ok := ReceiveOne(c, s, frame);
  }

  /** The connection announces a larger limit with a MAX_DATA frame. */
  method RaiseData(c: Connection, increase: nat)
    requires Balanced(c)
    modifies c`maxdataLocal
    ensures Balanced(c) && c.maxdataLocal == old(c.maxdataLocal) + increase
  {
    c.maxdataLocal := c.maxdataLocal + increase;
  }

  method RaiseSound(s: StreamHead, window: nat) returns (announced: bool)
    requires Sound(s)
    modifies s`maxdataLocal
    ensures Sound(s) && s.maxdataLocal >= old(s.maxdataLocal)
    ensures announced <==>
      !s.finReceived && !s.resetReceived && old(ReceiveFlow.Window(s.maxdataLocal, window, s.consumedOffset)).1
    ensures announced ==> s.maxdataLocal > old(s.maxdataLocal)
    ensures s.maxdataLocal ==
      if announced then old(ReceiveFlow.Window(s.maxdataLocal, window, s.consumedOffset)).0 else old(s.maxdataLocal)
  {
    announced := ReceiveFlow.AnnounceLimit(s, window);
  }

  /** The connection announces a larger limit for a stream, if one is due, with a MAX_STREAM_DATA frame. */
  method RaiseStream(c: Connection, s: StreamHead, window: nat) returns (announced: bool)
    requires Balanced(c) && s in c.streams
    modifies s`maxdataLocal
    ensures Balanced(c) && s.maxdataLocal >= old(s.maxdataLocal)
    ensures announced <==>
      !s.finReceived && !s.resetReceived && old(ReceiveFlow.Window(s.maxdataLocal, window, s.consumedOffset)).1
    ensures announced ==> s.maxdataLocal > old(s.maxdataLocal)
    ensures s.maxdataLocal ==
      if announced then old(ReceiveFlow.Window(s.maxdataLocal, window, s.consumedOffset)).0 else old(s.maxdataLocal)
  {
    announced := RaiseSound(s, window);
  }
}
