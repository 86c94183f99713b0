/** The stream heads and the connection fields that the stream engine of frames.c shares. */
module Streams {
  import opened Sequences
  import opened Varint

  /** A received piece of stream data that has not been delivered yet. */
  datatype Chunk = Chunk(offset: nat, bytes: seq<byte>) {
    function End(): nat {
      offset + |bytes|
    }
  }

  /** A queued piece of outgoing data, of which the first `offset` bytes have been sent. */
  datatype Pending = Pending(bytes: seq<byte>, offset: nat)

  class StreamHead {
    const streamId: nat
    // Receive side
    var consumedOffset: nat
    var finOffset: nat
    var maxdataLocal: nat
    var streamData: seq<Chunk>
    var finReceived: bool
    var finSignalled: bool
    var resetReceived: bool
    var resetSignalled: bool
    // Send side
    var sentOffset: nat
    var maxdataRemote: nat
    var sendQueue: seq<Pending>
    var isActive: bool
    var finRequested: bool
    var finSent: bool
    var resetRequested: bool
    var resetSent: bool
    var stopSendingRequested: bool
    var stopSendingSent: bool
    // What the application saw and asked for
    ghost var delivered: seq<byte>
    ghost var finEvents: seq<nat> // the offset consumed at each fin event; zero for a half closed from the start
    ghost var queued: seq<byte>

    constructor (id: nat, maxdataLocal: nat, maxdataRemote: nat)
      ensures streamId == id && this.maxdataLocal == maxdataLocal && this.maxdataRemote == maxdataRemote
      ensures Blank(this)
    {
      streamId := id;
      this.maxdataLocal, this.maxdataRemote := maxdataLocal, maxdataRemote;
      consumedOffset, finOffset, sentOffset := 0, 0, 0;
      streamData, sendQueue := [], [];
      finReceived, finSignalled, resetReceived, resetSignalled, isActive := false, false, false, false, false;
      finRequested, finSent, resetRequested, resetSent := false, false, false, false;
      stopSendingRequested, stopSendingSent := false, false;
      delivered, finEvents, queued := [], [], [];
    }
  }

  /** Nothing has happened on the stream. */
  ghost predicate Blank(s: StreamHead)
    reads s
  {
    && s.consumedOffset == s.finOffset == s.sentOffset == 0 && s.streamData == [] && s.sendQueue == []
    && !s.finReceived && !s.finSignalled && !s.resetReceived && !s.resetSignalled
    && !s.isActive && !s.finRequested && !s.finSent && !s.resetRequested && !s.resetSent
    && !s.stopSendingRequested && !s.stopSendingSent
    && s.delivered == [] && s.finEvents == [] && s.queued == []
  }

  /** The initial flow-control limits among the transport parameters of one side. */
  datatype Limits = Limits(bidiLocal: nat, bidiRemote: nat, uni: nat)

  const MAX_PLUGIN_DATA_LEN := 1024 * 1000

  class Connection {
    const clientMode: bool
    const localLimits: Limits
    const remoteLimits: Limits
    var maxStreamIdBidirLocal: nat
    var maxStreamIdUnidirLocal: nat
    var maxStreamIdBidirRemote: nat
    var maxdataLocal: nat
    var dataReceived: nat
    var maxdataRemote: nat
    var dataSent: nat
    var lastVisitedStreamId: nat
    var streams: seq<StreamHead> // the list that starts at first_stream
    var pluginStreams: seq<StreamHead> // the list that starts at first_plugin_stream
  }

  predicate IsClient(id: nat) {
    id % 2 == 0
  }

  predicate IsBidir(id: nat) {
    id / 2 % 2 == 0
  }

  predicate IsLocal(id: nat, clientMode: bool) {
    IsClient(id) == clientMode
  }

  /** A stream list is sorted by identifier, without duplicates. */
  ghost predicate Ascending(list: seq<StreamHead>) {
    forall j, k :: 0 <= j < k < |list| ==> list[j].streamId < list[k].streamId
  }

  /** Walk the list to the stream with this identifier. */
  method Find(list: seq<StreamHead>, id: nat) returns (k: nat)
    ensures k <= |list|
    ensures k < |list| ==> list[k].streamId == id
    ensures k == |list| ==> forall j :: 0 <= j < |list| ==> list[j].streamId != id
  {
    k := 0;
    while k < |list| && list[k].streamId != id
      invariant k <= |list|
      invariant forall j :: 0 <= j < k ==> list[j].streamId != id
    {
      k := k + 1;
    }
  }

  /** Link a new stream head before the first larger identifier. */
  method Link(list: seq<StreamHead>, stream: StreamHead) returns (after: seq<StreamHead>, k: nat)
    requires Ascending(list)
    requires forall j :: 0 <= j < |list| ==> list[j].streamId != stream.streamId
    ensures k <= |list| && after == Inserted(list, k, stream) && Ascending(after)
  {
    k := 0;
    while k < |list| && list[k].streamId < stream.streamId
      invariant k <= |list|
      invariant forall j :: 0 <= j < k ==> list[j].streamId < stream.streamId
    {
      k := k + 1;
    }
    after := Inserted(list, k, stream);
    assert forall j :: k < j < |list| ==> list[k].streamId < list[j].streamId;
  }

  /** A new application stream, with the limits its kind starts from. */
  method NewStream(c: Connection, id: nat) returns (stream: StreamHead)
    ensures fresh(stream) && stream.streamId == id && Blank(stream)
    ensures stream.maxdataLocal == LocalLimit(c, id) && stream.maxdataRemote == RemoteLimit(c, id)
  {
    stream := new StreamHead(id, LocalLimit(c, id), RemoteLimit(c, id));
  }

  /** The stream with this identifier, created if there is none. */
  method FindStream(c: Connection, id: nat) returns (s: StreamHead, created: bool, ghost k: nat)
    requires Ascending(c.streams)
    modifies c`streams
    ensures Ascending(c.streams) && s in c.streams && s.streamId == id
    ensures created <==> forall t :: t in old(c.streams) ==> t.streamId != id
    ensures created ==>
      fresh(s) && Blank(s) && s.maxdataLocal == LocalLimit(c, id) && s.maxdataRemote == RemoteLimit(c, id)
    ensures created ==> k <= |old(c.streams)| && c.streams == Inserted(old(c.streams), k, s)
    ensures !created ==> c.streams == old(c.streams)
    ensures forall t :: t in c.streams <==> t in old(c.streams) || (created && t == s)
  {
    var at := Find(c.streams, id);
    created := at == |c.streams|;
    if created {
      s := NewStream(c, id);
      c.streams, at := Link(c.streams, s);
    } else {
      s := c.streams[at];
    }
    k := at;
    assert c.streams[k] == s;
  }

  /** The plugin stream with this identifier, created if there is none and it may be. Only a server sends on it. */
  method FindPluginStream(c: Connection, id: nat, mayCreate: bool) returns (s: StreamHead?, created: bool, ghost k: nat)
    requires Ascending(c.pluginStreams)
    modifies c`pluginStreams
    ensures Ascending(c.pluginStreams) && (s != null ==> s in c.pluginStreams && s.streamId == id)
    ensures created <==> mayCreate && forall t :: t in old(c.pluginStreams) ==> t.streamId != id
    ensures s == null <==> !mayCreate && forall t :: t in old(c.pluginStreams) ==> t.streamId != id
    ensures created ==> s != null && fresh(s) && Blank(s)
    ensures created ==> s != null && s.maxdataLocal == (if c.clientMode then MAX_PLUGIN_DATA_LEN else 0)
    ensures created ==> s != null && s.maxdataRemote == (if c.clientMode then 0 else MAX_PLUGIN_DATA_LEN)
    ensures created ==>
      s != null && k <= |old(c.pluginStreams)| && c.pluginStreams == Inserted(old(c.pluginStreams), k, s)
    ensures !created ==> c.pluginStreams == old(c.pluginStreams)
    ensures forall t :: t in c.pluginStreams <==> t in old(c.pluginStreams) || (created && t == s)
  {
    var at := Find(c.pluginStreams, id);
    s, created, k := null, false, 0;
    if at < |c.pluginStreams| {
      s := c.pluginStreams[at];
    } else if mayCreate {
      var stream := new StreamHead(id, if c.clientMode then MAX_PLUGIN_DATA_LEN else 0,
                                   if c.clientMode then 0 else MAX_PLUGIN_DATA_LEN);
      c.pluginStreams, at := Link(c.pluginStreams, stream);
      assert c.pluginStreams[at] == stream;
      s, created, k := stream, true, at;
    }
  }

  function LocalLimit(c: Connection, id: nat): nat {
    if IsLocal(id, c.clientMode) then (if IsBidir(id) then c.localLimits.bidiLocal else 0)
    else (if IsBidir(id) then c.localLimits.bidiRemote else c.localLimits.uni)
  }

  function RemoteLimit(c: Connection, id: nat): nat {
    if IsLocal(id, c.clientMode) then (if IsBidir(id) then c.remoteLimits.bidiRemote else c.remoteLimits.uni)
    else (if IsBidir(id) then c.remoteLimits.bidiLocal else 0)
  }
}
