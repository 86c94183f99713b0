/** From the packets a receiver gets to the packets its peer stops repeating. */
module AckExchange {
  import opened Wrappers
  import opened Varint
  import opened Sack
  import opened AckFrame
  import opened AckProcess

  /** The list holds exactly the numbers received. */
  ghost predicate Records(items: seq<Range>, received: seq<nat>) {
    WellFormed(items) && forall n: nat :: Has(items, n) <==> n in received
  }

  /** Records packets as they come, in any order, some of them twice; a packet is a duplicate iff it came before. */
  method Record(list: SackList, received: seq<nat>) returns (duplicates: seq<bool>)
    requires list.items == []
    modifies list
    ensures Records(list.items, received) && |duplicates| == |received|
    ensures forall i :: 0 <= i < |received| ==> (duplicates[i] <==> received[i] in received[..i])
  {
    duplicates := [];
    for i := 0 to |received|
      invariant Records(list.items, received[..i]) && |duplicates| == i
      invariant forall j :: 0 <= j < i ==> (duplicates[j] <==> received[j] in received[..j])
    {
      ghost var before, pn := list.items, received[i];
      var duplicate := list.Update(received[i], received[i]);
      assert duplicate <==> Has(before, pn);
      assert received[..i + 1] == received[..i] + [pn];
      duplicates := duplicates + [duplicate];
    }
    assert received[..|received|] == received;
  }

  lemma HasPrefix(l: seq<Range>, n: nat, x: nat)
    requires n <= |l| && Has(l[..n], x)
    ensures Has(l, x)
  {
  }

  /** The largest number of a list that records arrivals is one of them. */
  lemma LargestReceived(l: seq<Range>, received: seq<nat>)
    requires Records(l, received) && l != []
    ensures l[0].hi in received
  {
  }

  /** Nothing that did not arrive is in any part of the list. */
  lemma DroppedArrived(before: seq<Packet>, after: seq<Packet>, l: seq<Range>, n: nat, received: seq<nat>)
    requires Records(l, received) && n <= |l| && Trimmed(before, after, l[..n])
    ensures forall p :: p in before && p.number !in received ==> p in after
    ensures n == |l| ==> forall p :: p in after <==> p in before && p.number !in received
  {
    forall p
      ensures p in before && p.number !in received ==> p in after
      ensures n == |l| ==> (p in after <==> p in before && p.number !in received)
    {
      assert p in Packets(after) <==> p in Outside(before, l[..n]);
      if Has(l[..n], p.number) {
        HasPrefix(l, n, p.number);
      }
      if n == |l| {
        assert l[..n] == l;
      }
    }
  }

  /** The highest numbers of the first `n` ranges. */
  ghost function Highs(l: seq<Range>, n: nat): set<nat>
    requires n <= |l|
  {
    if n == 0 then {} else Highs(l, n - 1) + {l[n - 1].hi}
  }

  lemma {:induction false} HighsDistinct(l: seq<Range>, n: nat)
    requires WellFormed(l) && n <= |l|
    ensures |Highs(l, n)| == n && forall x :: x in Highs(l, n) ==> Has(l, x) && (n < |l| ==> x > l[n].hi)
  {
    if n > 0 {
      HighsDistinct(l, n - 1);
      assert Inside(l[n - 1], l[n - 1].hi);
      assert n < |l| ==> l[n].hi < l[n - 1].hi;
    }
  }

  ghost function Numbers(received: seq<nat>): (s: set<nat>)
    ensures |s| <= |received| && forall n :: n in received <==> n in s
  {
    if received == [] then {}
    else
      assert received == [received[0]] + received[1..];
      {received[0]} + Numbers(received[1..])
  }

  lemma SubsetSize(a: set<nat>, b: set<nat>)
    requires a <= b
    ensures |a| <= |b|
  {
    assert b == a + (b - a);
  }

  /** There are no more ranges than packets received. */
  lemma RangesBound(l: seq<Range>, received: seq<nat>)
    requires Records(l, received)
    ensures |l| <= |received|
  {
    HighsDistinct(l, |l|);
    SubsetSize(Highs(l, |l|), Numbers(received));
  }

  /** Writes an acknowledgement of a list, which the sender reads and processes: it drops exactly the packets in the
    * `n` ranges that fitted. */
  method Acknowledge(l: seq<Range>, delay: nat, buf: array<byte>, sender: PacketContext, skip: bool)
    returns (sent: bool, n: nat)
    requires WellFormed(l) && delay < VARINT_LIMIT && Descending(sender.queue)
    requires l != [] ==> l[0].hi < VARINT_LIMIT && l[0].hi < sender.sendSequence
    modifies buf, sender`queue, sender`delivered, sender`bytesInTransit
    ensures Descending(sender.queue) && sender.Credit() == old(sender.Credit())
    ensures sent <==> l != [] && 14 <= buf.Length && HeadSize(l[0].hi, delay, l[0].hi - l[0].lo) <= buf.Length
    ensures !sent ==> sender.queue == old(sender.queue)
    ensures sent ==> 0 < n <= |l| && Trimmed(old(sender.queue), sender.queue, l[..n])
    ensures sent && |l| <= MAX_ACK_BLOCKS + 1 && 27 + 16 * |l| <= buf.Length ==> n == |l|
  {
    hide AckBytes;
    hide AckOf;
    var _, consumed, blocks := PrepareAck(l, delay, buf, buf.Length);
    sent, n := consumed > 0, blocks + 1;
    if sent {
      var ack := ReadAck(buf[..], consumed, l[..n], delay);
      var _ := sender.ProcessAck(ack, skip);
    }
  }

  method ReadAck(packet: seq<byte>, ghost consumed: nat, ghost l: seq<Range>, ghost delay: nat) returns (a: Ack)
    requires WellFormed(l) && 0 < |l| <= MAX_ACK_BLOCKS + 1 && l[0].hi < VARINT_LIMIT && delay < VARINT_LIMIT
    requires consumed <= |packet| && packet[..consumed] == AckBytes(AckOf(l, delay))
    ensures a.largest == l[0].hi && Ranges(a) == Some(l)
  {
    assert packet == packet[..consumed] + packet[consumed..];
    AckRoundTrip(l, delay, packet[consumed..]);
    a := ParseAck(packet).value.value;
  }

  /** The receiver acknowledges what it got, in a buffer of any size; the sender processes what it reads. An
    * acknowledgement is sent iff a packet arrived and its fixed fields fit. The sender drops exactly the packets in the
    * first `n` ranges of the receiver's list, so none that did not arrive. All ranges fit in 27 bytes and 16 more for
    * every packet that arrived, up to 513 of them; then the sender drops exactly those that arrived. */
  method Exchange(list: SackList, received: seq<nat>, delay: nat, buf: array<byte>, sender: PacketContext, skip: bool)
    returns (sent: bool, n: nat)
    requires list.items == [] && delay < VARINT_LIMIT && Descending(sender.queue)
    requires forall n :: n in received ==> n < sender.sendSequence && n < VARINT_LIMIT
    modifies list, buf, sender`queue, sender`delivered, sender`bytesInTransit
    ensures Descending(sender.queue) && sender.Credit() == old(sender.Credit())
    ensures Records(list.items, received) && (list.items == [] <==> received == [])
    ensures sent <==> received != [] && 14 <= buf.Length
                      && HeadSize(list.items[0].hi, delay, list.items[0].hi - list.items[0].lo) <= buf.Length
    ensures received != [] && 27 <= buf.Length ==> sent
    ensures sent && |received| <= 513 && 27 + 16 * |received| <= buf.Length ==> n == |list.items|
    ensures !sent ==> sender.queue == old(sender.queue)
    ensures sent ==> 0 < n <= |list.items| && Trimmed(old(sender.queue), sender.queue, list.items[..n])
    ensures forall p :: p in old(sender.queue) && p.number !in received ==> p in sender.queue
    ensures sent && n == |list.items| ==>
      forall p :: p in sender.queue <==> p in old(sender.queue) && p.number !in received
  {
    ghost var before := sender.queue;
    var _ := Record(list, received);
    ListEmpty(list.items, received);
    if list.items != [] {
      LargestReceived(list.items, received);
    }
    RangesBound(list.items, received);
    sent, n := Acknowledge(list.items, delay, buf, sender, skip);
    if sent {
      DroppedArrived(before, sender.queue, list.items, n, received);
    }
  }

  lemma ListEmpty(l: seq<Range>, received: seq<nat>)
    requires Records(l, received)
    ensures l == [] <==> received == []
  {
    if received != [] {
      assert Has(l, received[0]);
    }
    if l != [] {
      LargestReceived(l, received);
    }
  }

  // ----- Runs -----

  /** A packet arrives; an acknowledgement is sent and processed; one that was sent earlier has been acknowledged. */
  datatype Event = Arrives(number: nat) | Reports(delay: nat, size: nat, skip: bool) | Prunes(start: nat, end: nat)

  ghost predicate Possible(e: Event, sendSequence: nat) {
    match e
    case Arrives(number) => number < sendSequence && number < VARINT_LIMIT
    case Reports(delay, _, _) => delay < VARINT_LIMIT
    case Prunes(start, end) => start <= end
  }

  /** The numbers that arrived, and those that acknowledged acknowledgements covered. */
  function Arrived(events: seq<Event>): set<nat> {
    if events == [] then {}
    else
      var e := events[|events| - 1];
      Arrived(events[..|events| - 1]) + if e.Arrives? then {e.number} else {}
  }

  ghost predicate Settled(events: seq<Event>, n: nat) {
    exists i :: 0 <= i < |events| && events[i].Prunes? && events[i].start <= n <= events[i].end
  }

  /** The list holds only numbers that arrived, and all of them but settled ones. */
  ghost predicate Keeps(items: seq<Range>, events: seq<Event>) {
    && WellFormed(items)
    && (forall n: nat :: Has(items, n) ==> n in Arrived(events))
    && (forall n: nat :: n in Arrived(events) && !Has(items, n) ==> Settled(events, n))
  }

  lemma EventsMore(events: seq<Event>, i: nat)
    requires i < |events|
    ensures Arrived(events[..i + 1]) == Arrived(events[..i]) + if events[i].Arrives? then {events[i].number} else {}
    ensures forall n: nat :: Settled(events[..i + 1], n) <==>
      Settled(events[..i], n) || (events[i].Prunes? && events[i].start <= n <= events[i].end)
  {
    var less, more := events[..i], events[..i + 1];
    assert more[..i] == less && more[i] == events[i];
    forall n: nat
      ensures Settled(more, n) <==> Settled(less, n) || (events[i].Prunes? && events[i].start <= n <= events[i].end)
    {
      if j :| 0 <= j < |less| && less[j].Prunes? && less[j].start <= n <= less[j].end {
        assert more[j] == less[j];
      }
      if j :| 0 <= j < i && more[j].Prunes? && more[j].start <= n <= more[j].end {
        assert less[j] == more[j];
      }
    }
  }

  lemma {:induction false} ArrivedPossible(events: seq<Event>, sendSequence: nat)
    requires forall i :: 0 <= i < |events| ==> Possible(events[i], sendSequence)
    ensures forall n :: n in Arrived(events) ==> n < sendSequence && n < VARINT_LIMIT
  {
    if events != [] {
      ArrivedPossible(events[..|events| - 1], sendSequence);
    }
  }

  /** No queued packet is one that the list holds. */
  ghost predicate Cleared(queue: seq<Packet>, items: seq<Range>) {
    forall p :: p in queue ==> !Has(items, p.number)
  }

  lemma TrimmedPackets(before: seq<Packet>, after: seq<Packet>, l: seq<Range>)
    requires Trimmed(before, after, l)
    ensures forall p :: p in after <==> p in before && !Has(l, p.number)
  {
    forall p
      ensures p in after <==> p in before && !Has(l, p.number)
    {
      assert p in Packets(after) <==> p in Outside(before, l);
    }
  }

  /** One event, on both sides. */
  method Handle(list: SackList, sender: PacketContext, e: Event)
    requires WellFormed(list.items) && Descending(sender.queue) && Possible(e, sender.sendSequence)
    requires list.items != [] ==> list.items[0].hi < VARINT_LIMIT && list.items[0].hi < sender.sendSequence
    modifies list, sender`queue, sender`delivered, sender`bytesInTransit
    ensures Descending(sender.queue) && sender.Credit() == old(sender.Credit())
    ensures WellFormed(list.items)
    ensures e.Arrives? ==>
      sender.queue == old(sender.queue) && Adds(old(list.items), list.items, Range(e.number, e.number))
    ensures e.Prunes? ==> sender.queue == old(sender.queue) && Forgets(old(list.items), list.items, e.start, e.end)
    ensures e.Reports? ==>
      && list.items == old(list.items)
      && (forall p :: p in sender.queue ==> p in old(sender.queue))
      && (forall p :: p in old(sender.queue) && !Has(list.items, p.number) ==> p in sender.queue)
      && (|list.items| <= 513 && 27 + 16 * |list.items| <= e.size ==> Cleared(sender.queue, list.items))
  {
    match e
    case Arrives(number) =>
      var _ := list.Update(number, number);
    case Prunes(start, end) =>
      PrunedIsSafe(list.items, start, end);
      list.AckOfAck(start, end);
    case Reports(delay, size, skip) =>
      var buf := new byte[size];
      ghost var l := list.items;
      var sent, n := Acknowledge(list.items, delay, buf, sender, skip);
      if sent {
        TrimmedPackets(old(sender.queue), sender.queue, l[..n]);
        assert l[..|l|] == l;
      }
  }

  lemma KeepsMore(before: seq<Range>, after: seq<Range>, events: seq<Event>, i: nat)
    requires i < |events| && Keeps(before, events[..i]) && WellFormed(after)
    requires events[i].Arrives? ==> Adds(before, after, Range(events[i].number, events[i].number))
    requires events[i].Prunes? ==> Forgets(before, after, events[i].start, events[i].end)
    requires events[i].Reports? ==> after == before
    ensures Keeps(after, events[..i + 1])
  {
    EventsMore(events, i);
    forall n: nat
      ensures Has(after, n) ==> n in Arrived(events[..i + 1])
      ensures n in Arrived(events[..i + 1]) && !Has(after, n) ==> Settled(events[..i + 1], n)
    {
      if events[i].Arrives? {
        assert Has(after, n) <==> Has(before, n) || Inside(Range(events[i].number, events[i].number), n);
      }
    }
  }

  lemma TopArrived(items: seq<Range>, events: seq<Event>, sendSequence: nat)
    requires Keeps(items, events) && items != []
    requires forall i :: 0 <= i < |events| ==> Possible(events[i], sendSequence)
    ensures items[0].hi < VARINT_LIMIT && items[0].hi < sendSequence
  {
    ArrivedPossible(events, sendSequence);
    assert Has(items, items[0].hi);
  }

  /** Arrivals, acknowledgements and the pruning of what has been acknowledged, in any order. The receiver's list keeps
      exactly what arrived, up to settled numbers. The sender drops only packets that arrived; after an acknowledgement
      with room for the list it has dropped all that the list holds. */
  method Run(list: SackList, sender: PacketContext, events: seq<Event>)
    requires list.items == [] && Descending(sender.queue)
    requires forall i :: 0 <= i < |events| ==> Possible(events[i], sender.sendSequence)
    modifies list, sender`queue, sender`delivered, sender`bytesInTransit
    ensures Keeps(list.items, events) && Descending(sender.queue) && sender.Credit() == old(sender.Credit())
    ensures forall p :: p in sender.queue ==> p in old(sender.queue)
    ensures forall p :: p in old(sender.queue) && p.number !in Arrived(events) ==> p in sender.queue
    ensures events != [] && events[|events| - 1].Reports? ==>
      |list.items| <= 513 && 27 + 16 * |list.items| <= events[|events| - 1].size ==> Cleared(sender.queue, list.items)
  {
    for i := 0 to |events|
      invariant Keeps(list.items, events[..i]) && Descending(sender.queue) && sender.Credit() == old(sender.Credit())
      invariant forall p :: p in sender.queue ==> p in old(sender.queue)
      invariant forall p :: p in old(sender.queue) && p.number !in Arrived(events[..i]) ==> p in sender.queue
      invariant i > 0 && events[i - 1].Reports? ==>
        |list.items| <= 513 && 27 + 16 * |list.items| <= events[i - 1].size ==> Cleared(sender.queue, list.items)
    {
      ghost var items := list.items;
      if items != [] {
        TopArrived(items, events[..i], sender.sendSequence);
      }
      Handle(list, sender, events[i]);
      KeepsMore(items, list.items, events, i);
      EventsMore(events, i);
    }
    assert events[..|events|] == events;
  }
}
