/** What a connection does with the frames it receives, the data it is given and the packets it fills, in any order: the
    balance of its counters, and what becomes of every single stream. */
module ConnectionRun {
  import opened Wrappers
  import opened Varint
  import opened Streams
  import SendFlow
  import ReceiveFlow
  import PluginStream
  import opened Conservation

  // ----- Single streams -----

  /** One of the application or of the plugin streams. */
  ghost predicate Member(c: Connection, s: StreamHead, plugin: bool)
    reads c`streams, c`pluginStreams
  {
    if plugin then s in c.pluginStreams else s in c.streams
  }

  /** A stream is known by its kind and its identifier. */
  lemma KnownById(c: Connection, s: StreamHead, p: bool, t: StreamHead, q: bool)
    requires Balanced(c) && Member(c, s, p) && Member(c, t, q)
    ensures s == t <==> p == q && s.streamId == t.streamId
  {
  }

  /** What the actions on a connection fix for one stream: the bytes queued, the request for their end, the limit of the
      peer, and what is known of the peer's data. */
  datatype Track = Track(queued: seq<byte>, finRequested: bool, limit: nat, finReceived: bool, resetReceived: bool,
                         finOffset: nat)

  ghost function TrackOf(s: StreamHead): Track
    reads s`queued, s`finRequested, s`maxdataRemote, s`finReceived, s`resetReceived, s`finOffset
  {
    Track(s.queued, s.finRequested, s.maxdataRemote, s.finReceived, s.resetReceived, s.finOffset)
  }

  /** What can happen to the flow control of a connection. */
  datatype Action =
    | Arrives(id: nat, frame: Arrival)
    | TakesMaxData(maximum: nat)
    | TakesMaxStreamData(id: nat, maximum: nat)
    | Writes(id: nat, plugin: bool, data: seq<byte>, fin: bool, stopped: bool)
    | Emits(id: nat, plugin: bool, size: nat)
    | RaisesData(increase: nat)
    | RaisesStream(id: nat, window: nat)
  {
    /** Identifiers and limits are varints; a frame is written into a packet. */
    ghost predicate Possible() {
      match this
      case Arrives(id, _) => id < VARINT_LIMIT
      case TakesMaxStreamData(id, maximum) => id < VARINT_LIMIT && maximum < VARINT_LIMIT
      case Writes(id, _, _, _, _) => id < VARINT_LIMIT
      case Emits(_, _, size) => 2 <= size <= 16384
      case _ => true
    }
  }

  function Max(a: nat, b: nat): nat {
    if a < b then b else a
  }

  /** An accepted frame: the highest offset grows to the end of the frame, unless the end is known. */
  function Told(t: Track, e: ReceiveFlow.Event): Track {
    match e
    case DataFrame(end, fin) => if t.finReceived then t else t.(finReceived := fin, finOffset := Max(t.finOffset, end))
    case ResetFrame(end) => t.(resetReceived := true, finOffset := Max(t.finOffset, end))
  }

  /** Data for a stream: refused with a second request for the end, after a reset, and when the peer wants no more. */
  function Given(t: Track, data: seq<byte>, fin: bool, stopped: bool, resetSent: bool): Track {
    var refused := (fin && t.finRequested && data != []) || resetSent || stopped;
    t.(queued := t.queued + if refused then [] else data, finRequested := t.finRequested || fin)
  }

  /** The stream of this kind and identifier after an action that is not refused. */
  function Tracked(t: Track, id: nat, plugin: bool, resetSent: bool, action: Action): Track {
    match action
    case Arrives(i, frame) => if i == id && frame.PluginFrame? == plugin then Told(t, Event(frame)) else t
    case TakesMaxStreamData(i, maximum) =>
      if i == id && !plugin then t.(limit := SendFlow.Raised(t.limit, maximum)) else t
    case Writes(i, p, data, fin, stopped) =>
      if i == id && p == plugin then Given(t, data, fin, stopped, resetSent) else t
    case _ => t
  }

  function Followed(t: Track, id: nat, plugin: bool, resetSent: bool, actions: seq<Action>): Track {
    if actions == [] then t
    else
      var n := |actions| - 1;
      Tracked(Followed(t, id, plugin, resetSent, actions[..n]), id, plugin, resetSent, actions[n])
  }

  /** The account of a stream follows what it is told. */
  lemma ToldIsStep(a: ReceiveFlow.Account, e: ReceiveFlow.Event, t: Track)
    requires ReceiveFlow.Step(a, e).Some? && t.finReceived == a.finReceived
    requires t.resetReceived == a.resetReceived && t.finOffset == a.finOffset
    ensures var b := ReceiveFlow.Step(a, e).value;
      Told(t, e) == t.(finReceived := b.finReceived, resetReceived := b.resetReceived, finOffset := b.finOffset)
  {
  }

  // ----- Received frames -----

  /** The peer may not open a stream of this kind, or not yet. */
  predicate Refused(c: Connection, id: nat)
    reads c`maxStreamIdBidirLocal, c`maxStreamIdUnidirLocal
  {
    IsLocal(id, c.clientMode) || id > if IsBidir(id) then c.maxStreamIdBidirLocal else c.maxStreamIdUnidirLocal
  }

  ghost predicate Absent(list: seq<StreamHead>, id: nat) {
    forall t :: t in list ==> t.streamId != id
  }

  method CloseSound(s: StreamHead)
    requires Sound(s)
    modifies s`finRequested, s`finSent
    ensures Sound(s) && s.finRequested && s.finSent
  {
    s.finRequested, s.finSent := true, true;
  }

  /** A stream that carries data in one direction only has nothing to send. */
  method CloseSending(c: Connection, s: StreamHead)
    requires Balanced(c) && s in c.streams
    modifies s`finRequested, s`finSent
    ensures Balanced(c) && s.finRequested && s.finSent
  {
    CloseSound(s);
  }

  /** The stream a received frame names, opened if the peer may open it. */
  method Locate(c: Connection, id: nat, ghost any: StreamHead) returns (s: StreamHead?, created: bool)
    requires Balanced(c) && id < VARINT_LIMIT
    modifies c`streams
    ensures Balanced(c) && (s != null ==> s in c.streams && s.streamId == id)
    ensures Onward(old(c.streams), c.streams) && (any in old(c.streams) ==> any in c.streams)
    ensures s == null <==> Refused(c, id) && Absent(old(c.streams), id)
    ensures created <==> s != null && Absent(old(c.streams), id)
    ensures created ==> s != null && fresh(s) && ReceiveFlow.AccountOf(c, s) == NewAccount(c, LocalLimit(c, id), false)
    ensures s != null && !created ==> s in old(c.streams)
  {
    hide Balanced;
    var at := Find(c.streams, id);
    if at == |c.streams| && Refused(c, id) {
      return null, false;
    }
    s, created := Open(c, id);
    if created && !IsBidir(id) {
      CloseSending(c, s);
    }
  }

  ghost function List(c: Connection, plugin: bool): seq<StreamHead>
    reads c`streams, c`pluginStreams
  {
    if plugin then c.pluginStreams else c.streams
  }

  function FirstLimit(c: Connection, id: nat, plugin: bool): nat {
    if plugin then PluginLimit(c) else LocalLimit(c, id)
  }

  /** The stream that a frame is for, if there is one or one may be opened. Whichever stream is looked at stays. */
  method Target(c: Connection, id: nat, plugin: bool, ghost any: StreamHead, ghost p: bool)
    returns (s: StreamHead?, created: bool, ghost account: ReceiveFlow.Account)
    requires Balanced(c) && id < VARINT_LIMIT
    modifies c`streams, c`pluginStreams
    ensures Balanced(c) && (s != null ==> Member(c, s, plugin) && s.streamId == id)
    ensures Onward(old(c.streams), c.streams) && Onward(old(c.pluginStreams), c.pluginStreams)
    ensures old(Member(c, any, p)) ==> Member(c, any, p)
    ensures s == null <==> Absent(old(List(c, plugin)), id) && if plugin then !c.clientMode else Refused(c, id)
    ensures created <==> s != null && Absent(old(List(c, plugin)), id)
    ensures s != null ==> account == ReceiveFlow.AccountOf(c, s)
    ensures created ==> s != null && fresh(s) && account == old(NewAccount(c, FirstLimit(c, id, plugin), false))
    ensures s != null && !created ==> s in old(List(c, plugin)) && account == old(ReceiveFlow.AccountOf(c, s))
  {
    hide Balanced;
    if plugin {
      s, created := OpenPlugin(c, id, c.clientMode);
    } else {
      s, created := Locate(c, id, any);
    }
    account := if s == null then NewAccount(c, 0, false) else ReceiveFlow.AccountOf(c, s);
  }

  /** A frame for a listed stream, as seen by any stream. */
  method Hear(c: Connection, s: StreamHead, frame: Arrival, ghost any: StreamHead, ghost account: ReceiveFlow.Account)
    returns (ok: bool)
    requires Balanced(c) && (s in c.streams || s in c.pluginStreams) && account == ReceiveFlow.AccountOf(c, s)
    modifies c`dataReceived, s`finOffset, s`finReceived, s`resetReceived, s`resetSignalled
    modifies s`consumedOffset, s`streamData, s`finSignalled, s`delivered, s`finEvents
    ensures ok == ReceiveFlow.Step(account, Event(frame)).Some?
    ensures ok ==> Balanced(c) && EndKept(any)
    ensures ok ==> TrackOf(any) == if any == s then Told(old(TrackOf(any)), Event(frame)) else old(TrackOf(any))
  {
    hide Balanced;
    ok := Receive(c, s, frame);
    if ok && any == s {
      ToldIsStep(account, Event(frame), old(TrackOf(any)));
    }
  }

  /** A frame that a peer sent for a stream is accepted exactly when the account of its stream accepts it, or that of a
      new one; then the stream is what the frame tells, and no other stream changes. */
  method Arrive(c: Connection, id: nat, frame: Arrival, ghost any: StreamHead, ghost p: bool)
    returns (ok: bool, s: StreamHead?, created: bool, ghost account: ReceiveFlow.Account)
    requires Balanced(c) && id < VARINT_LIMIT && Member(c, any, p)
    modifies c`streams, c`pluginStreams, c`dataReceived, c.streams, c.pluginStreams
    ensures Onward(old(c.streams), c.streams) && Onward(old(c.pluginStreams), c.pluginStreams)
    ensures var plugin := frame.PluginFrame?;
      s == null <==> Absent(old(List(c, plugin)), id) && if plugin then !c.clientMode else Refused(c, id)
    ensures created <==> s != null && Absent(old(List(c, frame.PluginFrame?)), id)
    ensures created ==> account == old(NewAccount(c, FirstLimit(c, id, frame.PluginFrame?), false))
    ensures s != null && !created ==>
      s.streamId == id && s in old(List(c, frame.PluginFrame?)) && account == old(ReceiveFlow.AccountOf(c, s))
    ensures ok == (s != null && ReceiveFlow.Step(account, Event(frame)).Some?)
    ensures any.streamId == id && frame.PluginFrame? == p ==> s == any && !created
    ensures ok ==> Balanced(c) && EndKept(any) && Member(c, any, p)
    ensures ok ==> TrackOf(any) == Tracked(old(TrackOf(any)), any.streamId, p, any.resetSent, Arrives(id, frame))
    ensures any.resetSent == old(any.resetSent) && any.sentOffset == old(any.sentOffset)
  {
    hide Balanced;
    ok := false;
    s, created, account := Target(c, id, frame.PluginFrame?, any, p);
    if s != null {
      KnownById(c, any, p, s, frame.PluginFrame?);
      ok := Hear(c, s, frame, any, account);
    }
  }

  // ----- Data to send -----

  /** The stream to write to: an open one, or a new one of this side. */
  method ForWriting(c: Connection, id: nat, ghost any: StreamHead) returns (s: StreamHead?)
    requires Balanced(c) && id < VARINT_LIMIT
    modifies c`streams
    ensures Balanced(c) && (s != null ==> s in c.streams && s.streamId == id)
    ensures Onward(old(c.streams), c.streams) && (any in old(c.streams) ==> any in c.streams)
    ensures s == null <==> !IsLocal(id, c.clientMode) && Absent(old(c.streams), id)
  {
    hide Balanced;
    var at := Find(c.streams, id);
    if at == |c.streams| && !IsLocal(id, c.clientMode) {
      return null;
    }
    var created;
    s, created := Open(c, id);
  }

  /** The same for either kind of stream; only a server opens plugin streams to write to. */
  method AnyForWriting(c: Connection, id: nat, plugin: bool, ghost any: StreamHead, ghost p: bool)
    returns (s: StreamHead?)
    requires Balanced(c) && id < VARINT_LIMIT
    modifies c`streams, c`pluginStreams
    ensures Balanced(c) && (s != null ==> Member(c, s, plugin) && s.streamId == id)
    ensures Onward(old(c.streams), c.streams) && Onward(old(c.pluginStreams), c.pluginStreams)
    ensures old(Member(c, any, p)) ==> Member(c, any, p)
    ensures s == null <==>
      Absent(old(List(c, plugin)), id) && if plugin then c.clientMode else !IsLocal(id, c.clientMode)
  {
    hide Balanced;
    if plugin {
      var t, _ := OpenPlugin(c, id, !c.clientMode);
      s := t;
    } else {
      s := ForWriting(c, id, any);
    }
  }

  /** The application or the plugin exchange writes to a stream, opened if this side may open it. */
  method Write(c: Connection, id: nat, plugin: bool, data: seq<byte>, fin: bool, stopped: bool, ghost any: StreamHead,
               ghost p: bool)
    returns (ok: bool)
    requires Balanced(c) && id < VARINT_LIMIT && Member(c, any, p)
    modifies c`streams, c`pluginStreams, c.streams, c.pluginStreams
    ensures Balanced(c) && EndKept(any) && Member(c, any, p)
    ensures Onward(old(c.streams), c.streams) && Onward(old(c.pluginStreams), c.pluginStreams)
    ensures TrackOf(any) ==
      Tracked(old(TrackOf(any)), any.streamId, p, any.resetSent, Writes(id, plugin, data, fin, stopped))
    ensures any.resetSent == old(any.resetSent) && any.sentOffset == old(any.sentOffset)
  {
    hide Balanced;
    var s := AnyForWriting(c, id, plugin, any, p);
    ok := s != null;
    if ok {
      KnownById(c, any, p, s, plugin);
      ok := Queue(c, s, data, fin, stopped);
    }
  }

  // ----- Frames written -----

  /** The bytes that the next frame takes from a stream. */
  ghost function Portion(c: Connection, s: StreamHead, plugin: bool, size: nat): nat
    requires Balanced(c) && Member(c, s, plugin)
    reads c, s, c.streams, c.pluginStreams
  {
    if plugin then PluginStream.Amount(c, s, size) else Due(c, s, size)
  }

  method EmitStream(c: Connection, s: StreamHead, size: nat)
    requires Balanced(c) && s in c.streams && 0 < size <= 16384
    modifies c`dataSent, c`lastVisitedStreamId, s`sentOffset, s`sendQueue, s`finSent
    ensures Balanced(c) && s.sentOffset == old(s.sentOffset) + old(Portion(c, s, false, size))
  {
    var buf := new byte[size];
    assert Sound(s);
    SendFlow.SmallBufferFits(c, s, size);
    var _, _ := SendStream(c, s, buf, size);
  }

  method EmitPlugin(c: Connection, s: StreamHead, size: nat)
    requires Balanced(c) && s in c.pluginStreams && 2 <= size <= 16384
    modifies c`dataSent, s`sentOffset, s`sendQueue, s`finSent
    ensures Balanced(c) && s.sentOffset == old(s.sentOffset) + old(Portion(c, s, true, size))
  {
    var buf := new byte[size];
    var _, _ := SendPlugin(c, s, buf, size);
  }

  /** A frame is written for a stream into a buffer of this size; no other stream moves. */
  method Emit(c: Connection, id: nat, plugin: bool, size: nat, ghost any: StreamHead, ghost p: bool)
    requires Balanced(c) && 2 <= size <= 16384 && Member(c, any, p)
    modifies c`dataSent, c`lastVisitedStreamId, c.streams, c.pluginStreams
    ensures Balanced(c) && EndKept(any) && TrackOf(any) == old(TrackOf(any)) && any.resetSent == old(any.resetSent)
    ensures any.sentOffset == old(any.sentOffset) +
            if any.streamId == id && p == plugin then old(Portion(c, any, p, size)) else 0
  {
    hide Balanced;
    hide Portion;
    if plugin {
      var at := Find(c.pluginStreams, id);
      if at < |c.pluginStreams| {
        KnownById(c, any, p, c.pluginStreams[at], true);
        EmitPlugin(c, c.pluginStreams[at], size);
      }
    } else {
      var at := Find(c.streams, id);
      if at < |c.streams| {
        KnownById(c, any, p, c.streams[at], false);
        EmitStream(c, c.streams[at], size);
      }
    }
  }

  // ----- Limits -----

  /** What a stream would be announced. */
  ghost function Offer(s: StreamHead, window: nat): (nat, bool)
    reads s
  {
    var (limit, due) := ReceiveFlow.Window(s.maxdataLocal, window, s.consumedOffset);
    if due && !s.finReceived && !s.resetReceived then (limit, true) else (s.maxdataLocal, false)
  }

  /** A larger limit is announced for a stream, if one is due. */
  method Announce(c: Connection, id: nat, window: nat, ghost any: StreamHead, ghost p: bool)
    requires Balanced(c) && Member(c, any, p)
    modifies c.streams`maxdataLocal
    ensures Balanced(c)
    ensures any.maxdataLocal == if any.streamId == id && !p then old(Offer(any, window)).0 else old(any.maxdataLocal)
  {
    hide Balanced;
    var at := Find(c.streams, id);
    if at < |c.streams| {
      KnownById(c, any, p, c.streams[at], false);
      var _ := RaiseStream(c, c.streams[at], window);
    }
  }

  /** A limit for a stream arrives. */
  method TakeStreamLimit(c: Connection, id: nat, maximum: nat, ghost any: StreamHead, ghost p: bool)
    requires Balanced(c) && id < VARINT_LIMIT && maximum < VARINT_LIMIT && Member(c, any, p)
    modifies c`streams, c.streams`maxdataRemote
    ensures Balanced(c) && Onward(old(c.streams), c.streams) && Member(c, any, p)
    ensures TrackOf(any) == Tracked(old(TrackOf(any)), any.streamId, p, any.resetSent, TakesMaxStreamData(id, maximum))
  {
    hide Balanced;
    var s, created := TakeMaxStreamData(c, id, maximum);
    KnownById(c, any, p, s, false);
  }

  // ----- Runs -----

  /** The limit announced to the peer after an action, and the one the peer has set. */
  function AnnouncedBy(limit: nat, action: Action): nat {
    if action.RaisesData? then limit + action.increase else limit
  }

  function AllowedBy(limit: nat, action: Action): nat {
    if action.TakesMaxData? then SendFlow.Raised(limit, action.maximum) else limit
  }

  function Announced(limit: nat, actions: seq<Action>): nat {
    if actions == [] then limit
    else AnnouncedBy(Announced(limit, actions[..|actions| - 1]), actions[|actions| - 1])
  }

  function Allowed(limit: nat, actions: seq<Action>): nat {
    if actions == [] then limit
    else AllowedBy(Allowed(limit, actions[..|actions| - 1]), actions[|actions| - 1])
  }

  lemma OneMore(limit: nat, t: Track, id: nat, plugin: bool, resetSent: bool, actions: seq<Action>, i: nat)
    requires i < |actions|
    ensures Announced(limit, actions[..i + 1]) == AnnouncedBy(Announced(limit, actions[..i]), actions[i])
    ensures Allowed(limit, actions[..i + 1]) == AllowedBy(Allowed(limit, actions[..i]), actions[i])
    ensures Followed(t, id, plugin, resetSent, actions[..i + 1]) ==
            Tracked(Followed(t, id, plugin, resetSent, actions[..i]), id, plugin, resetSent, actions[i])
  {
    assert actions[..i + 1][..i] == actions[..i];
  }

  lemma WholeRun(actions: seq<Action>)
    ensures actions[..|actions|] == actions
  {
  }

  /** An action takes this much from a stream. */
  ghost function Taken(c: Connection, any: StreamHead, p: bool, action: Action): nat
    requires Balanced(c) && Member(c, any, p)
    reads c, any, c.streams, c.pluginStreams
  {
    match action
    case Emits(id, plugin, size) => if any.streamId == id && p == plugin then Portion(c, any, p, size) else 0
    case _ => 0
  }

  /** One action, as seen by any stream. False is a connection error. */
  method Step(c: Connection, action: Action, ghost any: StreamHead, ghost p: bool) returns (ok: bool)
    requires Balanced(c) && action.Possible() && Member(c, any, p)
    modifies c, c.streams, c.pluginStreams
    ensures Onward(old(c.streams), c.streams) && Onward(old(c.pluginStreams), c.pluginStreams)
    ensures !action.Arrives? ==> ok
    ensures action.Arrives? && action.id == any.streamId && action.frame.PluginFrame? == p ==>
      ok == old(ReceiveFlow.Step(ReceiveFlow.AccountOf(c, any), Event(action.frame))).Some?
    ensures ok ==> Balanced(c) && EndKept(any) && Member(c, any, p)
    ensures ok ==> TrackOf(any) == Tracked(old(TrackOf(any)), any.streamId, p, any.resetSent, action)
    ensures any.resetSent == old(any.resetSent)
    ensures any.sentOffset == old(any.sentOffset) + old(Taken(c, any, p, action))
    ensures c.maxdataLocal == AnnouncedBy(old(c.maxdataLocal), action)
    ensures c.maxdataRemote == AllowedBy(old(c.maxdataRemote), action)
  {
    hide Balanced;
    hide Portion;
    ok := true;
    match action
    case Arrives(id, frame) =>
      var r, _, _, _ := Arrive(c, id, frame, any, p);
      ok := r;
    case TakesMaxData(maximum) => TakeMaxData(c, maximum);
    case TakesMaxStreamData(id, maximum) => TakeStreamLimit(c, id, maximum, any, p);
    case Writes(id, plugin, data, fin, stopped) => var _ := Write(c, id, plugin, data, fin, stopped, any, p);
    case Emits(id, plugin, size) => Emit(c, id, plugin, size, any, p);
    case RaisesData(increase) => RaiseData(c, increase);
    case RaisesStream(id, window) => Announce(c, id, window, any, p);
  }

  /** Whatever happens, in any order, until the first refused frame: the counters are the sums over the streams and both
      limits hold. Whichever stream is looked at, it has exactly the data and the end given to it, the limit its peer
      set, and the size and the end its peer told; the size does not change once the end is known. */
  method Run(c: Connection, actions: seq<Action>, ghost any: StreamHead, ghost p: bool) returns (ok: bool, done: nat)
    requires Balanced(c) && (forall i :: 0 <= i < |actions| ==> actions[i].Possible()) && Member(c, any, p)
    modifies c, c.streams, c.pluginStreams
    ensures if ok then done == |actions| else done < |actions| && actions[done].Arrives?
    ensures ok ==> Balanced(c) && EndKept(any) && Member(c, any, p)
    ensures ok ==> TrackOf(any) == Followed(old(TrackOf(any)), any.streamId, p, old(any.resetSent), actions)
    ensures ok ==> any.sentOffset >= old(any.sentOffset)
    ensures ok ==> c.maxdataLocal == Announced(old(c.maxdataLocal), actions)
    ensures ok ==> c.maxdataRemote == Allowed(old(c.maxdataRemote), actions)
  {
    hide Balanced;
    hide Tracked;
    ok, done := true, 0;
    for i := 0 to |actions|
      invariant ok && done == i && Balanced(c) && EndKept(any) && Member(c, any, p)
      invariant any.resetSent == old(any.resetSent) && any.sentOffset >= old(any.sentOffset)
      invariant TrackOf(any) == Followed(old(TrackOf(any)), any.streamId, p, old(any.resetSent), actions[..i])
      invariant c.maxdataLocal == Announced(old(c.maxdataLocal), actions[..i])
      invariant c.maxdataRemote == Allowed(old(c.maxdataRemote), actions[..i])
      invariant Onward(old(c.streams), c.streams) && Onward(old(c.pluginStreams), c.pluginStreams)
    {
      ok := Step(c, actions[i], any, p);
      if !ok {
        return;
      }
      done := done + 1;
      OneMore(old(c.maxdataLocal), old(TrackOf(any)), any.streamId, p, any.resetSent, actions, i);
      OneMore(old(c.maxdataRemote), old(TrackOf(any)), any.streamId, p, any.resetSent, actions, i);
    }
    WholeRun(actions);
  }
}
