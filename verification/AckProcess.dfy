/** Processing a received ACK frame against the retransmission queue: process_ack_range and the
    range loop of process_ack_frame_maybe_ecn. */
module AckProcess {
  import opened Wrappers
  import opened Sack
  import opened AckFrame

  datatype Packet = Packet(number: nat, length: nat, sendLength: nat, congestionControlled: bool)

  /** Newest first. */
  ghost predicate Descending(q: seq<Packet>) {
    forall j, k :: 0 <= j < k < |q| ==> q[j].number > q[k].number
  }

  ghost function Bytes(q: seq<Packet>): nat {
    if q == [] then 0 else q[0].length + Bytes(q[1..])
  }

  lemma {:induction false} BytesWithout(q: seq<Packet>, k: nat)
    requires k < |q|
    ensures Bytes(q) == Bytes(q[..k] + q[k + 1..]) + q[k].length
  {
    if k == 0 {
      assert q[..0] + q[1..] == q[1..];
    } else {
      BytesWithout(q[1..], k - 1);
      assert (q[..k] + q[k + 1..])[1..] == q[1..][..k - 1] + q[1..][k..];
    }
  }

  /** What a packet contributes to the bytes in transit. */
  function Weight(p: Packet): nat {
    if p.congestionControlled then p.sendLength else 0
  }

  ghost function Transit(q: seq<Packet>): nat {
    if q == [] then 0 else Weight(q[0]) + Transit(q[1..])
  }

  lemma {:induction false} TransitWithout(q: seq<Packet>, k: nat)
    requires k < |q|
    ensures Transit(q) == Transit(q[..k] + q[k + 1..]) + Weight(q[k])
  {
    if k == 0 {
      assert q[..0] + q[1..] == q[1..];
    } else {
      TransitWithout(q[1..], k - 1);
      assert (q[..k] + q[k + 1..])[1..] == q[1..][..k - 1] + q[1..][k..];
    }
  }

  /** A descending queue is determined by the packets in it. */
  lemma {:induction false} DescendingUnique(a: seq<Packet>, b: seq<Packet>)
    requires Descending(a) && Descending(b) && forall p :: p in a <==> p in b
    ensures a == b
    decreases |a|
  {
    assert a == [] <==> b == [] by {
      assert a != [] ==> a[0] in b;
      assert b != [] ==> b[0] in a;
    }
    if a != [] {
      assert a[0] in b && b[0] in a;
      assert a[0] == b[0];
      forall p
        ensures p in a[1..] <==> p in b[1..]
      {
        assert p in a <==> p == a[0] || p in a[1..];
        assert p in b <==> p == b[0] || p in b[1..];
        assert a[0] !in a[1..] && b[0] !in b[1..];
      }
      DescendingUnique(a[1..], b[1..]);
      assert a == [a[0]] + a[1..] && b == [b[0]] + b[1..];
    }
  }

  ghost function Packets(q: seq<Packet>): set<Packet> {
    set p | p in q
  }

  /** The packets of a queue whose numbers are in none of the ranges. */
  ghost function Outside(q: seq<Packet>, l: seq<Range>): set<Packet> {
    set p | p in q && !Has(l, p.number)
  }

  /** `after` is what is left of `before` without the numbers in the ranges. */
  ghost predicate Trimmed(before: seq<Packet>, after: seq<Packet>, l: seq<Range>) {
    Packets(after) == Outside(before, l)
  }

  lemma TrimmedMore(before: seq<Packet>, mid: seq<Packet>, after: seq<Packet>, l: seq<Range>, r: Range)
    requires Trimmed(before, mid, l) && Trimmed(mid, after, [r])
    ensures Trimmed(before, after, l + [r])
  {
    forall p
      ensures p in Packets(after) <==> p in Outside(before, l + [r])
    {
      HasConcat(l, [r], p.number);
      assert p in Packets(mid) <==> p in Outside(before, l);
      assert p in Packets(after) <==> p in Outside(mid, [r]);
    }
  }

  /** The packets in front of position `k` have numbers above `bound`. */
  ghost predicate Passed(q: seq<Packet>, k: nat, bound: int) {
    k <= |q| && forall j :: 0 <= j < k ==> q[j].number > bound
  }

  ghost predicate AllBelow(l: seq<Range>, bound: nat) {
    forall k :: 0 <= k < |l| ==> l[k].hi < bound
  }

  /** Ranges below every packet left have nothing to remove. */
  lemma NothingBelow(before: seq<Packet>, after: seq<Packet>, done: seq<Range>, todo: seq<Range>, largest: nat)
    requires Trimmed(before, after, done) && Descending(after)
    requires after != [] ==> after[|after| - 1].number > largest
    requires AllBelow(todo, largest)
    ensures Trimmed(before, after, done + todo)
  {
    forall p
      ensures p in Packets(after) <==> p in Outside(before, done + todo)
    {
      HasConcat(done, todo, p.number);
      assert p in Packets(after) <==> p in Outside(before, done);
      if p in after {
        assert p.number > largest;
      }
    }
  }

  lemma NothingRemoved(q: seq<Packet>, highest: nat)
    ensures Trimmed(q, q, [Range(highest + 1, highest)])
  {
  }

  /** The next number down: if a packet carries it, that is the one at position `k`. */
  lemma OneRemoved(before: seq<Packet>, q: seq<Packet>, k: nat, h: nat, highest: nat)
    requires Descending(q) && k < |q| && Passed(q, k, h) && q[k].number <= h <= highest
    requires Trimmed(before, q, [Range(h + 1, highest)])
    ensures var after := if q[k].number == h then q[..k] + q[k + 1..] else q;
      Descending(after) && Passed(after, k, h - 1) && Trimmed(before, after, [Range(h, highest)])
  {
    var after := if q[k].number == h then q[..k] + q[k + 1..] else q;
    var wide, narrow := [Range(h, highest)], [Range(h + 1, highest)];
    forall p
      ensures p in Packets(after) <==> p in Outside(before, wide)
    {
      assert Has(wide, p.number) <==> Inside(wide[0], p.number);
      assert Has(narrow, p.number) <==> Inside(narrow[0], p.number);
      assert p in Packets(q) <==> p in Outside(before, narrow);
      if j :| 0 <= j < |q| && q[j] == p && j != k {
        assert q[k].number == h ==> after[if j < k then j else j - 1] == p;
      }
    }
  }

  /** Once every packet has been passed, the numbers left over concern none of them. */
  lemma AllPassed(before: seq<Packet>, q: seq<Packet>, h: nat, r: nat, highest: nat)
    requires Passed(q, |q|, h) && 0 < r <= h + 1 && h <= highest && Trimmed(before, q, [Range(h + 1, highest)])
    ensures Trimmed(before, q, [Range(h + 1 - r, highest)])
  {
    var wide, narrow := [Range(h + 1 - r, highest)], [Range(h + 1, highest)];
    forall p
      ensures p in Packets(q) <==> p in Outside(before, wide)
    {
      assert Has(wide, p.number) <==> Inside(wide[0], p.number);
      assert Has(narrow, p.number) <==> Inside(narrow[0], p.number);
      assert p in Packets(q) <==> p in Outside(before, narrow);
    }
  }

  // The ranges that are processed

  /** The ranges of the leading well-formed blocks, below a range of `range` numbers that ends at `largest`. */
  function Leading(largest: nat, range: nat, bs: seq<Block>): (l: seq<Range>)
    ensures |l| <= |bs|
    decreases bs
  {
    if bs == [] then []
    else
      var step := bs[0].gap + 1 + range;
      if largest < step || largest - step < bs[0].length then []
      else [Range(largest - step - bs[0].length, largest - step)] + Leading(largest - step, bs[0].length + 1, bs[1..])
  }

  /** They are all the ranges exactly when no block is malformed. */
  lemma {:induction false} LeadingAll(largest: nat, range: nat, bs: seq<Block>)
    ensures var lead := Leading(largest, range, bs);
      RangesBelow(largest, range, bs) == if |lead| == |bs| then Some(lead) else None
    decreases bs
  {
    if bs != [] {
      var step := bs[0].gap + 1 + range;
      if largest >= step && largest - step >= bs[0].length {
        LeadingAll(largest - step, bs[0].length + 1, bs[1..]);
      }
    }
  }

  lemma {:induction false} LeadingBelow(largest: nat, range: nat, bs: seq<Block>)
    ensures AllBelow(Leading(largest, range, bs), largest)
    decreases bs
  {
    if bs != [] {
      var step := bs[0].gap + 1 + range;
      if largest >= step && largest - step >= bs[0].length {
        LeadingBelow(largest - step, bs[0].length + 1, bs[1..]);
      }
    }
  }

  /** No packet is left at or below `bound`. */
  predicate AllAbove(q: seq<Packet>, bound: nat) {
    q == [] || q[|q| - 1].number > bound
  }

  class PacketContext {
    var queue: seq<Packet> // from retransmit_newest to retransmit_oldest
    var delivered: nat
    var bytesInTransit: nat
    var sendSequence: nat

    /** What has been delivered or is still queued. */
    ghost function Credit(): nat
      reads this
    {
      delivered + Bytes(queue)
    }

    /** What is in transit besides the queued packets. */
    ghost function Others(): int
      reads this
    {
      bytesInTransit - Transit(queue)
    }

    /** Unlink the packet at position `k`, credit its length and take it out of transit. */
    method Acknowledge(k: nat)
      requires Descending(queue) && k < |queue|
      modifies this`queue, this`delivered, this`bytesInTransit
      ensures queue == old(queue)[..k] + old(queue)[k + 1..]
      ensures delivered == old(delivered) + old(queue)[k].length
      ensures var w := Weight(old(queue)[k]);
        bytesInTransit == if old(bytesInTransit) > w then old(bytesInTransit) - w else 0
      ensures Credit() == old(Credit()) && (old(Others()) >= 0 ==> Others() == old(Others()))
    {
      BytesWithout(queue, k);
      TransitWithout(queue, k);
      var p := queue[k];
      delivered := delivered + p.length;
      queue := queue[..k] + queue[k + 1..];
      if p.congestionControlled {
        bytesInTransit := if bytesInTransit > p.sendLength then bytesInTransit - p.sendLength else 0;
      }
    }

    /** Remove the packet at position `k` if it carries the number `h`. */
    method Consider(k: nat, h: nat, highest: nat, ghost before: seq<Packet>)
      requires Descending(queue) && k < |queue| && Passed(queue, k, h) && queue[k].number <= h <= highest
      requires Trimmed(before, queue, [Range(h + 1, highest)])
      modifies this`queue, this`delivered, this`bytesInTransit
      ensures Descending(queue) && Passed(queue, k, h - 1) && Trimmed(before, queue, [Range(h, highest)])
      ensures Credit() == old(Credit()) && (old(Others()) >= 0 ==> Others() == old(Others())) && |queue| <= old(|queue|)
    {
      OneRemoved(before, queue, k, h, highest);
      if queue[k].number == h {
        Acknowledge(k);
      }
    }

    /** Remove the packets with numbers from `highest` down, `range` of them, starting at position `k0`. */
    method ProcessAckRange(highest: nat, range: nat, k0: nat) returns (k: nat)
      requires Descending(queue) && range <= highest + 1 && Passed(queue, k0, highest)
      modifies this`queue, this`delivered, this`bytesInTransit
      ensures Descending(queue) && Passed(queue, k, highest - range)
      ensures Trimmed(old(queue), queue, [Range(highest + 1 - range, highest)])
      ensures Credit() == old(Credit()) && (old(Others()) >= 0 ==> Others() == old(Others()))
    {
      k := k0;
      ghost var before, credit, others := queue, Credit(), Others();
      var h: int, r := highest, range;
      NothingRemoved(queue, highest);
      while k < |queue| && r > 0
        invariant 0 <= r <= range && h == highest - (range - r)
        invariant Descending(queue) && Passed(queue, k, h)
        invariant Trimmed(before, queue, [Range(h + 1, highest)])
        invariant Credit() == credit && (others >= 0 ==> Others() == others)
        decreases r + |queue| - k
      {
        if queue[k].number > h {
          k := k + 1;
        } else {
          Consider(k, h, highest, before);
          r := r - 1;
          h := h - 1;
        }
      }
      if r > 0 {
        AllPassed(before, queue, h, r, highest);
      }
    }

    /** Where processing starts: at the newest packet, or past those above `largest` when the
        acknowledgement is new and recent. */
    method TopPacket(largest: nat, skip: bool) returns (k: nat)
      ensures Passed(queue, k, largest)
    {
      k := 0;
      while skip && k < |queue| && queue[k].number > largest
        invariant Passed(queue, k, largest)
      {
        k := k + 1;
      }
    }

    /** One further block: skip the gap, then remove its range; false where the source reports an error. */
    method ProcessBlock(b: Block, above: nat, width: nat, k0: nat, ghost before: seq<Packet>, ghost done: seq<Range>)
      returns (ok: bool, largest: nat, range: nat, k: nat)
      requires Descending(queue) && 0 < width <= above + 1 && Trimmed(before, queue, done)
      requires Passed(queue, k0, above - width)
      modifies this`queue, this`delivered, this`bytesInTransit
      ensures Descending(queue) && Credit() == old(Credit()) && (old(Others()) >= 0 ==> Others() == old(Others()))
      ensures ok <==> b.gap + 1 + width <= above && b.length <= above - (b.gap + 1 + width)
      ensures !ok ==> queue == old(queue)
      ensures ok ==> largest == above - (b.gap + 1 + width) && range == b.length + 1
      ensures ok ==> Trimmed(before, queue, done + [Range(largest + 1 - range, largest)])
      ensures ok ==> Passed(queue, k, largest - range)
    {
      ok, largest, range, k := false, 0, 0, k0;
      var step := b.gap + 1 + width;
      if above < step {
        return;
      }
      largest := above - step;
      range := b.length + 1;
      if largest + 1 < range {
        return;
      }
      ghost var mid := queue;
      k := ProcessAckRange(largest, range, k0);
      TrimmedMore(before, mid, queue, done, Range(largest + 1 - range, largest));
      ok := true;
    }

    /** Between two blocks: the ranges done are removed, and position `k` is past what they cover. */
    ghost predicate Going(before: seq<Packet>, first: seq<Range>, done: seq<Range>, largest: nat, range: nat, k: nat)
      reads this
    {
      && Descending(queue) && 0 < range <= largest + 1 && Passed(queue, k, largest - range)
      && Trimmed(before, queue, first + done)
      && (done != [] ==> done[|done| - 1].hi == largest)
    }

    /** One block of those to come. */
    method NextBlock(rest: seq<Block>, above: nat, width: nat, k0: nat, ghost before: seq<Packet>,
                     ghost first: seq<Range>,
                     ghost done: seq<Range>, ghost lead: seq<Range>)
      returns (ok: bool, largest: nat, range: nat, k: nat, ghost done': seq<Range>)
      requires rest != [] && Going(before, first, done, above, width, k0) && Halfway(lead, done, above, width, rest)
      modifies this`queue, this`delivered, this`bytesInTransit
      ensures Descending(queue) && Credit() == old(Credit()) && (old(Others()) >= 0 ==> Others() == old(Others()))
      ensures !ok ==> lead == done && queue == old(queue)
      ensures ok ==> Going(before, first, done', largest, range, k) && Halfway(lead, done', largest, range, rest[1..])
      ensures ok ==> |done'| == |done| + 1
    {
      ok, largest, range, k := ProcessBlock(rest[0], above, width, k0, before, first + done);
      HalfwayOn(lead, done, above, width, rest);
      done' := if ok then done + [Range(largest + 1 - range, largest)] else done;
      assert ok ==> first + done + [Range(largest + 1 - range, largest)] == first + done';
    }

    /** The blocks after the first range, until none is left, one is malformed, or no packet is concerned any more.
        What is removed is what the leading well-formed blocks say. A malformed block goes unnoticed exactly when
        the block before it left no packet at or below its own numbers. */
    method ProcessBlocks(bs: seq<Block>, top: nat, width: nat, k0: nat, ghost before: seq<Packet>,
                         ghost first: seq<Range>)
      returns (ok: bool)
      requires Descending(queue) && 0 < width <= top + 1 && Trimmed(before, queue, first)
      requires Passed(queue, k0, top - width)
      modifies this`queue, this`delivered, this`bytesInTransit
      ensures Descending(queue) && Credit() == old(Credit()) && (old(Others()) >= 0 ==> Others() == old(Others()))
      ensures var lead := Leading(top, width, bs);
        && Trimmed(before, queue, first + lead)
        && (ok <==> |lead| == |bs| || (lead != [] && AllAbove(queue, lead[|lead| - 1].hi)))
    {
      var largest, range, k := top, width, k0;
      ghost var done, lead := [], Leading(top, width, bs);
      assert bs[0..] == bs && first + [] == first;
      var i := 0;
      while i < |bs|
        invariant i == |done| <= |bs|
        invariant Credit() == old(Credit()) && (old(Others()) >= 0 ==> Others() == old(Others()))
        invariant Going(before, first, done, largest, range, k) && Halfway(lead, done, largest, range, bs[i..])
        invariant i > 0 ==> !AllAbove(queue, largest)
      {
        assert bs[i..][1..] == bs[i + 1..];
        ok, largest, range, k, done := NextBlock(bs[i..], largest, range, k, before, first, done, lead);
        if !ok {
          return;
        }
        i := i + 1;
        if queue == [] || queue[|queue| - 1].number > largest {
          Unconcerned(before, queue, first, done, lead, largest, range, bs[i..]);
          return true;
        }
      }
      assert bs[|bs|..] == [] && done + [] == done;
      ok := true;
    }

    /** Process the ranges of an ACK frame; false where the source reports an error. */
    method ProcessAck(a: Ack, skip: bool) returns (ok: bool)
      requires Descending(queue)
      modifies this`queue, this`delivered, this`bytesInTransit
      ensures Descending(queue) && Credit() == old(Credit()) && (old(Others()) >= 0 ==> Others() == old(Others()))
      ensures a.largest >= sendSequence || a.first > a.largest ==> !ok && queue == old(queue)
      ensures a.largest < sendSequence && Ranges(a).Some? ==> ok && Trimmed(old(queue), queue, Ranges(a).value)
      ensures a.largest < sendSequence && a.first <= a.largest ==>
        var lead := Leading(a.largest, a.first + 1, a.blocks);
        && Trimmed(old(queue), queue, [Range(a.largest - a.first, a.largest)] + lead)
        && (ok <==> Ranges(a).Some? || (lead != [] && AllAbove(queue, lead[|lead| - 1].hi)))
    {
      if a.largest >= sendSequence {
        return false;
      }
      var k := TopPacket(a.largest, skip);
      var range := a.first + 1;
      if a.largest + 1 < range {
        return false;
      }
      k := ProcessAckRange(a.largest, range, k);
      LeadingAll(a.largest, range, a.blocks);
      ok := ProcessBlocks(a.blocks, a.largest, range, k, old(queue), [Range(a.largest + 1 - range, a.largest)]);
    }
  }

  /** The ranges done and those of the blocks to come. */
  ghost predicate Halfway(lead: seq<Range>, done: seq<Range>, largest: nat, range: nat, rest: seq<Block>) {
    lead == done + Leading(largest, range, rest)
  }

  /** The next block either leads on or ends the list. */
  lemma HalfwayOn(lead: seq<Range>, done: seq<Range>, largest: nat, range: nat, rest: seq<Block>)
    requires Halfway(lead, done, largest, range, rest) && rest != []
    ensures var b := rest[0]; var step := b.gap + 1 + range;
      if largest < step || largest - step < b.length then lead == done
      else Halfway(lead, done + [Range(largest - step - b.length, largest - step)], largest - step, b.length + 1,
                   rest[1..])
  {
  }

  /** The early exit loses nothing: no packet is left at or below the range just processed. */
  lemma Unconcerned(before: seq<Packet>, after: seq<Packet>, first: seq<Range>, done: seq<Range>, lead: seq<Range>,
                    largest: nat, range: nat, rest: seq<Block>)
    requires Trimmed(before, after, first + done) && Descending(after) && AllAbove(after, largest)
    requires Halfway(lead, done, largest, range, rest) && done != [] && done[|done| - 1].hi == largest
    ensures Trimmed(before, after, first + lead) && lead != [] && AllAbove(after, lead[|lead| - 1].hi)
  {
    var todo := Leading(largest, range, rest);
    LeadingBelow(largest, range, rest);
    NothingBelow(before, after, first + done, todo, largest);
    assert first + done + todo == first + lead;
  }
}
