/** ACK frames without ECN counts (sections 19.3 and 19.3.1 of RFC 9000): writing one from the list of
    received ranges, parsing it and turning its gaps and lengths back into ranges. */
module AckFrame {
  import opened Wrappers
  import opened Varint
  import opened Sack

  const ACK_FRAME_TYPE := 2
  const MAX_ACK_BLOCKS := 512

  datatype Block = Block(gap: nat, length: nat)

  datatype Ack = Ack(largest: nat, delay: nat, first: nat, blocks: seq<Block>)

  // Ranges and blocks

  /** The block that announces `next` after a range that starts at `lo`. */
  function BlockFor(lo: nat, next: Range): (b: Block)
    requires next.lo <= next.hi && next.hi + 1 < lo
  {
    Block(lo - next.hi - 2, next.hi - next.lo)
  }

  /** The blocks that announce the ranges after the first one. */
  ghost function Blocks(l: seq<Range>): (bs: seq<Block>)
    requires WellFormed(l) && l != []
    ensures |bs| == |l| - 1
  {
    if |l| == 1 then [] else Blocks(l[..|l| - 1]) + [BlockFor(l[|l| - 2].lo, l[|l| - 1])]
  }

  /** The receiver's arithmetic: the ranges of the remaining blocks, below a range of `range` numbers that
      ends at `largest`; None where it reports an error. */
  function RangesBelow(largest: nat, range: nat, bs: seq<Block>): (r: Option<seq<Range>>)
    decreases bs
  {
    if bs == [] then Some([])
    else
      var step := bs[0].gap + 1 + range;
      if largest < step then None
      else
        var top, count := largest - step, bs[0].length + 1;
        if top + 1 < count then None
        else
          var rest :- RangesBelow(top, count, bs[1..]);
          Some([Range(top + 1 - count, top)] + rest)
  }

  /** All the ranges an ACK frame acknowledges. */
  function Ranges(a: Ack): (r: Option<seq<Range>>) {
    if a.largest < a.first then None
    else
      var rest :- RangesBelow(a.largest, a.first + 1, a.blocks);
      Some([Range(a.largest - a.first, a.largest)] + rest)
  }

  lemma BlocksSnoc(l: seq<Range>, n: nat)
    requires WellFormed(l) && |l| == n + 1 > 1
    ensures WellFormed(l[..n]) && l[n].lo <= l[n].hi && l[n].hi + 1 < l[n - 1].lo
    ensures Blocks(l) == Blocks(l[..n]) + [BlockFor(l[n - 1].lo, l[n])]
  {
  }

  lemma WellFormedSlices(l: seq<Range>, n: nat)
    requires WellFormed(l) && n <= |l|
    ensures WellFormed(l[..n]) && WellFormed(l[n..])
  {
  }

  lemma TailFromFront(l: seq<Range>, n: nat, front: seq<Block>, first: Block)
    requires WellFormed(l) && |l| == n + 1 > 2 && WellFormed(l[..n]) && WellFormed(l[1..]) && WellFormed(l[1..n])
    requires front == Blocks(l[1..n]) && Blocks(l[..n]) == [first] + front
    ensures Blocks(l) == [first] + Blocks(l[1..])
  {
    var tail := l[1..];
    BlocksSnoc(l, n);
    BlocksSnoc(tail, n - 1);
    assert tail[..n - 1] == l[1..n];
    FirstAndLast(first, front, BlockFor(l[n - 1].lo, l[n]));
  }

  lemma {:induction false} BlocksTail(l: seq<Range>)
    requires WellFormed(l) && |l| > 1
    ensures WellFormed(l[1..]) && l[1].lo <= l[1].hi && l[1].hi + 1 < l[0].lo
    ensures Blocks(l) == [BlockFor(l[0].lo, l[1])] + Blocks(l[1..])
  {
    var n := |l| - 1;
    WellFormedSlices(l, 1);
    if n > 1 {
      WellFormedSlices(l, n);
      BlocksTail(l[..n]);
      assert l[..n][1..] == l[1..n];
      TailFromFront(l, n, Blocks(l[1..n]), BlockFor(l[0].lo, l[1]));
    }
  }

  lemma FirstAndLast(first: Block, mid: seq<Block>, last: Block)
    ensures [first] + mid + [last] == [first] + (mid + [last])
  {
  }

  lemma RangesBelowCons(largest: nat, range: nat, b: Block, bs: seq<Block>, top: nat, rest: seq<Range>)
    requires largest == top + b.gap + 1 + range && b.length <= top && RangesBelow(top, b.length + 1, bs) == Some(rest)
    ensures RangesBelow(largest, range, [b] + bs) == Some([Range(top - b.length, top)] + rest)
  {
    assert ([b] + bs)[1..] == bs;
  }

  /** The receiver's arithmetic inverts the sender's, without ever going below zero. */
  lemma {:induction false} BlocksInverse(l: seq<Range>)
    requires WellFormed(l) && l != []
    ensures RangesBelow(l[0].hi, l[0].hi - l[0].lo + 1, Blocks(l)) == Some(l[1..])
    decreases |l|
  {
    if |l| > 1 {
      var tail := l[1..];
      BlocksTail(l);
      BlocksInverse(tail);
      RangesBelowCons(l[0].hi, l[0].hi - l[0].lo + 1, BlockFor(l[0].lo, l[1]), Blocks(tail), l[1].hi, tail[1..]);
      assert tail == [l[1]] + tail[1..];
    }
  }

  /** Whatever a peer sends: the ranges of an accepted frame are well formed. */
  lemma {:induction false} RangesBelowWellFormed(largest: nat, range: nat, bs: seq<Block>)
    requires 0 < range <= largest + 1 && RangesBelow(largest, range, bs).Some?
    ensures WellFormed([Range(largest + 1 - range, largest)] + RangesBelow(largest, range, bs).value)
    decreases bs
  {
    var l := RangesBelow(largest, range, bs).value;
    if bs != [] {
      var top := largest - (bs[0].gap + 1 + range);
      var count := bs[0].length + 1;
      RangesBelowWellFormed(top, count, bs[1..]);
      assert l == [Range(top + 1 - count, top)] + RangesBelow(top, count, bs[1..]).value;
      Joined([], Range(largest + 1 - range, largest), l);
      assert [] + [Range(largest + 1 - range, largest)] + l == [Range(largest + 1 - range, largest)] + l;
    }
  }

  // Bytes

  ghost function BlockBytes(bs: seq<Block>): seq<byte> {
    if bs == [] then [] else Encoding(bs[0].gap) + (Encoding(bs[0].length) + BlockBytes(bs[1..]))
  }

  /** The number of blocks, always on two bytes. */
  function CountBytes(n: nat): seq<byte>
    requires n <= MAX_ACK_BLOCKS
  {
    [0x40 + n / 256, n % 256]
  }

  /** The frame up to its first length, for `n` blocks. */
  ghost function HeadBytes(largest: nat, delay: nat, n: nat, first: nat): seq<byte>
    requires n <= MAX_ACK_BLOCKS
  {
    [ACK_FRAME_TYPE] + Encoding(largest) + Encoding(delay) + CountBytes(n) + Encoding(first)
  }

  ghost function AckBytes(a: Ack): seq<byte>
    requires |a.blocks| <= MAX_ACK_BLOCKS
  {
    HeadBytes(a.largest, a.delay, |a.blocks|, a.first) + BlockBytes(a.blocks)
  }

  /** A value and the bytes after it. */
  datatype Parsed<T> = Parsed(value: T, rest: seq<byte>)

  /** Read one varint; None where the source returns a null pointer. */
  function Next(s: seq<byte>): (r: Option<Parsed<nat>>) {
    if s == [] || Decoding(s).len == 0 then None else Some(Parsed(Decoding(s).n, s[Decoding(s).len..]))
  }

  function ParseBlocks(s: seq<byte>, n: nat): (r: Option<Parsed<seq<Block>>>)
    decreases n
  {
    if n == 0 then Some(Parsed([], s))
    else
      var gap :- Next(s);
      var length :- Next(gap.rest);
      var more :- ParseBlocks(length.rest, n - 1);
      Some(Parsed([Block(gap.value, length.value)] + more.value, more.rest))
  }

  /** Parse an ACK frame; None where the source reports a FRAME_FORMAT_ERROR. */
  function ParseAck(s: seq<byte>): (r: Option<Parsed<Ack>>) {
    var kind :- Next(s);
    var largest :- Next(kind.rest);
    var delay :- Next(largest.rest);
    var count :- Next(delay.rest);
    if count.value > MAX_ACK_BLOCKS then None
    else
      var first :- Next(count.rest);
      var blocks :- ParseBlocks(first.rest, count.value);
      Some(Parsed(Ack(largest.value, delay.value, first.value, blocks.value), blocks.rest))
  }

  ghost predicate Small(bs: seq<Block>) {
    forall k :: 0 <= k < |bs| ==> bs[k].gap < VARINT_LIMIT && bs[k].length < VARINT_LIMIT
  }

  lemma Assoc(a: seq<byte>, b: seq<byte>, c: seq<byte>)
    ensures (a + b) + c == a + (b + c)
  {
  }

  lemma NextEncoded(n: nat, rest: seq<byte>)
    requires n < VARINT_LIMIT
    ensures Next(Encoding(n) + rest) == Some(Parsed(n, rest))
  {
    RoundTrip(n, rest);
    assert (Encoding(n) + rest)[Size(n)..] == rest;
  }

  lemma NextCount(n: nat, rest: seq<byte>)
    requires n <= MAX_ACK_BLOCKS
    ensures Next(CountBytes(n) + rest) == Some(Parsed(n, rest))
  {
    var c := CountBytes(n);
    var s := c + rest;
    assert s[..2] == c && s[2..] == rest;
    var w := c[0 := c[0] % 64];
    assert w == [n / 256, n % 256] && w[..1] == [n / 256];
    assert Spelled(w[..1]) == Spelled(w[..1][..0]) * 256 + n / 256;
    assert Spelled(w) == Spelled(w[..1]) * 256 + n % 256;
  }

  lemma {:induction false} ParseBlockBytes(bs: seq<Block>, rest: seq<byte>)
    requires Small(bs)
    ensures ParseBlocks(BlockBytes(bs) + rest, |bs|) == Some(Parsed(bs, rest))
    decreases bs
  {
    if bs == [] {
      assert BlockBytes(bs) + rest == rest;
    } else {
      var g, l, tail := Encoding(bs[0].gap), Encoding(bs[0].length), BlockBytes(bs[1..]);
      Assoc(g, l + tail, rest);
      Assoc(l, tail, rest);
      NextEncoded(bs[0].gap, l + (tail + rest));
      NextEncoded(bs[0].length, tail + rest);
      ParseBlockBytes(bs[1..], rest);
      assert bs == [bs[0]] + bs[1..];
    }
  }

  /** Parsing inverts the layout, whatever follows the frame. */
  lemma ParseAckBytes(a: Ack, rest: seq<byte>)
    requires |a.blocks| <= MAX_ACK_BLOCKS && Small(a.blocks)
    requires a.largest < VARINT_LIMIT && a.delay < VARINT_LIMIT && a.first < VARINT_LIMIT
    ensures ParseAck(AckBytes(a) + rest) == Some(Parsed(a, rest))
  {
    var k, g, d := [ACK_FRAME_TYPE], Encoding(a.largest), Encoding(a.delay);
    var c, f := CountBytes(|a.blocks|), Encoding(a.first);
    var t := BlockBytes(a.blocks) + rest;
    Assoc(HeadBytes(a.largest, a.delay, |a.blocks|, a.first), BlockBytes(a.blocks), rest);
    Assoc(k + g + d + c, f, t);
    Assoc(k + g + d, c, f + t);
    Assoc(k + g, d, c + (f + t));
    Assoc(k, g, d + (c + (f + t)));
    EncodingBytes(ACK_FRAME_TYPE);
    NextEncoded(ACK_FRAME_TYPE, g + (d + (c + (f + t))));
    NextEncoded(a.largest, d + (c + (f + t)));
    NextEncoded(a.delay, c + (f + t));
    NextCount(|a.blocks|, f + t);
    NextEncoded(a.first, t);
    ParseBlockBytes(a.blocks, rest);
  }

  // Writing a frame

  lemma {:induction false} BlockBytesSnoc(bs: seq<Block>, b: Block)
    ensures BlockBytes(bs + [b]) == BlockBytes(bs) + (Encoding(b.gap) + Encoding(b.length))
  {
    if bs == [] {
      assert BlockBytes([b]) == Encoding(b.gap) + (Encoding(b.length) + BlockBytes([b][1..]));
    } else {
      var g, l, last := Encoding(bs[0].gap), Encoding(bs[0].length), Encoding(b.gap) + Encoding(b.length);
      assert (bs + [b])[1..] == bs[1..] + [b];
      BlockBytesSnoc(bs[1..], b);
      Assoc(l, BlockBytes(bs[1..]), last);
      Assoc(g, l + BlockBytes(bs[1..]), last);
    }
  }

  /** The length of the fixed fields of a frame. */
  function HeadSize(largest: nat, delay: nat, first: nat): nat {
    3 + Size(largest) + Size(delay) + Size(first)
  }

  lemma {:induction false} BlockBytesBound(bs: seq<Block>)
    ensures |BlockBytes(bs)| <= 16 * |bs|
  {
    if bs != [] {
      BlockBytesBound(bs[1..]);
    }
  }

  /** The fixed fields of the frame; two bytes are left for the number of blocks, at `countAt`. */
  method WriteAckHead(buf: array<byte>, bytesMax: nat, largest: nat, delay: nat, first: nat)
    returns (fits: bool, at: nat, countAt: nat)
    requires 14 <= bytesMax <= buf.Length && largest < VARINT_LIMIT && delay < VARINT_LIMIT && first < VARINT_LIMIT
    modifies buf
    ensures fits <==> HeadSize(largest, delay, first) <= bytesMax
    ensures fits ==>
      at == HeadSize(largest, delay, first) && countAt == 1 + Size(largest) + Size(delay)
      && at == countAt + 2 + Size(first)
    ensures fits ==> buf[..countAt] == [ACK_FRAME_TYPE] + Encoding(largest) + Encoding(delay)
    ensures fits ==> buf[countAt + 2..at] == Encoding(first)
  {
    buf[0] := ACK_FRAME_TYPE;
    at := 1;
    var lDelay, lFirst := 0, 0;
    var lLargest := Append(buf, at, bytesMax - at, largest, buf[..at]);
    at := at + lLargest;
    if at < bytesMax {
      lDelay := Append(buf, at, bytesMax - at, delay, buf[..at]);
      at := at + lDelay;
    }
    countAt := at;
    ghost var head := buf[..countAt];
    at := at + 2;
    if at < bytesMax {
      ghost var before := buf[..at];
      lFirst := Append(buf, at, bytesMax - at, first, before);
      assert buf[..countAt] == before[..countAt] == head;
      at := at + lFirst;
    }
    fits := !(lDelay == 0 || lLargest == 0 || lFirst == 0 || at > bytesMax);
  }

  /** The frame for a list of received ranges. */
  ghost function AckOf(l: seq<Range>, delay: nat): (a: Ack)
    requires WellFormed(l) && l != []
  {
    Ack(l[0].hi, delay, l[0].hi - l[0].lo, Blocks(l))
  }

  lemma {:induction false} BlocksSmall(l: seq<Range>)
    requires WellFormed(l) && l != [] && l[0].hi < VARINT_LIMIT
    ensures Small(Blocks(l))
  {
    var n := |l| - 1;
    if n > 0 {
      BlocksSmall(l[..n]);
      assert n > 1 ==> l[n - 1].hi + 1 < l[0].lo;
    }
  }

  lemma RangesOfAck(l: seq<Range>, delay: nat)
    requires WellFormed(l) && l != []
    ensures Ranges(AckOf(l, delay)) == Some(l)
  {
    BlocksInverse(l);
    assert l == [l[0]] + l[1..];
  }

  /** What is written reads back as exactly the ranges announced: a receiver never sees a number
      acknowledged that is not in the list, and never runs into a negative number. */
  lemma AckRoundTrip(l: seq<Range>, delay: nat, rest: seq<byte>)
    requires WellFormed(l) && 0 < |l| <= MAX_ACK_BLOCKS + 1 && l[0].hi < VARINT_LIMIT && delay < VARINT_LIMIT
    ensures ParseAck(AckBytes(AckOf(l, delay)) + rest) == Some(Parsed(AckOf(l, delay), rest))
    ensures Ranges(AckOf(l, delay)) == Some(l)
  {
    BlocksSmall(l);
    ParseAckBytes(AckOf(l, delay), rest);
    RangesOfAck(l, delay);
  }

  /** The next block behind what has been written, if it fits: both of its numbers or nothing. */
  method WriteBlock(buf: array<byte>, bytesMax: nat, at: nat, b: Block, ghost head: seq<byte>)
    returns (end: nat, fits: bool)
    requires at <= bytesMax <= buf.Length && b.gap < VARINT_LIMIT && b.length < VARINT_LIMIT && head == buf[..at]
    modifies buf
    ensures fits <==> at + Size(b.gap) + Size(b.length) <= bytesMax
    ensures end == if fits then at + Size(b.gap) + Size(b.length) else at
    ensures buf[..end] == head + if fits then Encoding(b.gap) + Encoding(b.length) else []
  {
    var lGap, lRange := 0, 0;
    end := at;
    if at < bytesMax {
      lGap := Append(buf, at, bytesMax - at, b.gap, head);
    }
    ghost var mid := buf[..at + lGap];
    if at + lGap < bytesMax {
      lRange := Append(buf, at + lGap, bytesMax - at - lGap, b.length, mid);
    }
    fits := !(lGap == 0 || lRange == 0);
    if fits {
      end := at + lGap + lRange;
      Assoc(head, Encoding(b.gap), Encoding(b.length));
    } else {
      assert buf[..at] == mid[..at] == head;
    }
  }

  /** One more range adds one more block at the end. */
  lemma BlocksNext(l: seq<Range>, n: nat)
    requires WellFormed(l) && n + 1 < |l|
    ensures WellFormed(l[..n + 1]) && WellFormed(l[..n + 2]) && l[n + 1].lo <= l[n + 1].hi && l[n + 1].hi + 1 < l[n].lo
    ensures var b := BlockFor(l[n].lo, l[n + 1]);
      BlockBytes(Blocks(l[..n + 2])) == BlockBytes(Blocks(l[..n + 1])) + (Encoding(b.gap) + Encoding(b.length))
  {
    var b := BlockFor(l[n].lo, l[n + 1]);
    var less, more := l[..n + 1], l[..n + 2];
    WellFormedSlices(l, n + 2);
    assert more[..n + 1] == less;
    BlocksSnoc(more, n + 1);
    BlockBytesSnoc(Blocks(less), b);
  }

  /** The block of the next range does not fit any more. */
  ghost predicate NoRoom(l: seq<Range>, n: nat, room: nat)
    requires n + 1 < |l| && WellFormed(l)
  {
    var b := BlockFor(l[n].lo, l[n + 1]);
    Size(b.gap) + Size(b.length) > room
  }

  /** The blocks written so far announce the first `n + 1` ranges. */
  ghost predicate Announces(written: seq<byte>, l: seq<Range>, n: nat) {
    n < |l| && WellFormed(l[..n + 1]) && written == BlockBytes(Blocks(l[..n + 1]))
  }

  lemma AnnouncedLength(written: seq<byte>, l: seq<Range>, n: nat)
    requires Announces(written, l, n)
    ensures |written| <= 16 * n
  {
    BlockBytesBound(Blocks(l[..n + 1]));
  }

  /** One more block behind `head` and those written so far. */
  method WriteNext(buf: array<byte>, bytesMax: nat, at: nat, l: seq<Range>, n: nat, ghost head: seq<byte>,
                   ghost body: seq<byte>)
    returns (end: nat, fits: bool, ghost body': seq<byte>)
    requires at <= bytesMax <= buf.Length && WellFormed(l) && l != [] && l[0].hi < VARINT_LIMIT
    requires n + 1 < |l| && buf[..at] == head + body && Announces(body, l, n)
    modifies buf
    ensures at <= end <= bytesMax && buf[..end] == head + body'
    ensures fits ==> Announces(body', l, n + 1)
    ensures !fits ==> end == at && body' == body && NoRoom(l, n, bytesMax - at)
  {
    BlocksNext(l, n);
    assert n > 0 ==> l[n].hi + 1 < l[0].lo;
    var b := BlockFor(l[n].lo, l[n + 1]);
    end, fits := WriteBlock(buf, bytesMax, at, b, head + body);
    body' := if fits then body + (Encoding(b.gap) + Encoding(b.length)) else body;
    Assoc(head, body, if fits then Encoding(b.gap) + Encoding(b.length) else []);
  }

  /** As many further blocks as fit, at most 512. */
  method WriteBlocks(buf: array<byte>, bytesMax: nat, start: nat, l: seq<Range>, ghost head: seq<byte>)
    returns (at: nat, n: nat, ghost body: seq<byte>)
    requires start <= bytesMax <= buf.Length && WellFormed(l) && l != []
    requires l[0].hi < VARINT_LIMIT && head == buf[..start]
    modifies buf
    ensures start <= at <= bytesMax && n <= MAX_ACK_BLOCKS && buf[..at] == head + body && Announces(body, l, n)
    ensures n == |l| - 1 || n == MAX_ACK_BLOCKS || NoRoom(l, n, bytesMax - at)
  {
    at, n, body := start, 0, [];
    var fits := true;
    assert Blocks(l[..1]) == [];
    while n < MAX_ACK_BLOCKS && n + 1 < |l| && fits
      invariant start <= at <= bytesMax && n <= MAX_ACK_BLOCKS && buf[..at] == head + body && Announces(body, l, n)
      invariant !fits ==> n + 1 < |l| && NoRoom(l, n, bytesMax - at)
      decreases |l| - n, fits
    {
      at, fits, body := WriteNext(buf, bytesMax, at, l, n, head, body);
      if fits {
        n := n + 1;
      }
    }
  }

  /** Fill in the number of blocks between the two parts of the frame. */
  method SetCount(buf: array<byte>, countAt: nat, ghost end: nat, n: nat, ghost head: seq<byte>, ghost body: seq<byte>)
    requires countAt + 2 <= |head| <= end <= buf.Length && n <= MAX_ACK_BLOCKS && buf[..end] == head + body
    modifies buf
    ensures buf[..end] == head[..countAt] + CountBytes(n) + head[countAt + 2..] + body
  {
    ghost var was := head + body;
    buf[countAt], buf[countAt + 1] := 0x40 + n / 256, n % 256;
    assert buf[..end] == was[..countAt] + CountBytes(n) + was[countAt + 2..];
    assert was[..countAt] == head[..countAt] && was[countAt + 2..] == head[countAt + 2..] + body;
    Assoc(head[..countAt] + CountBytes(n), head[countAt + 2..], body);
  }

  /** Write an ACK frame for a list of received ranges, as far as the buffer allows: there is one iff the list is not
      empty and the fixed fields fit, and it stops early only at 512 blocks or when the next block does not fit. */
  method PrepareAck(l: seq<Range>, delay: nat, buf: array<byte>, bytesMax: nat)
    returns (ret: Ret, consumed: nat, n: nat)
    requires WellFormed(l) && bytesMax <= buf.Length && delay < VARINT_LIMIT && (l != [] ==> l[0].hi < VARINT_LIMIT)
    modifies buf
    ensures consumed > 0 <==> l != [] && 14 <= bytesMax && HeadSize(l[0].hi, delay, l[0].hi - l[0].lo) <= bytesMax
    ensures ret == if l == [] || consumed > 0 then Ok else BufferTooSmall
    ensures consumed > 0 ==> consumed <= bytesMax && n < |l| && n <= MAX_ACK_BLOCKS
    ensures consumed > 0 ==> consumed <= HeadSize(l[0].hi, delay, l[0].hi - l[0].lo) + 16 * n
    ensures consumed > 0 ==> WellFormed(l[..n + 1]) && buf[..consumed] == AckBytes(AckOf(l[..n + 1], delay))
    ensures consumed > 0 ==> n == |l| - 1 || n == MAX_ACK_BLOCKS || NoRoom(l, n, bytesMax - consumed)
  {
    ret, consumed, n := Ok, 0, 0;
    if l == [] {
      return;
    }
    if bytesMax < 14 {
      ret := BufferTooSmall;
      return;
    }
    var fits, at, countAt := WriteAckHead(buf, bytesMax, l[0].hi, delay, l[0].hi - l[0].lo);
    if !fits {
      ret := BufferTooSmall;
      return;
    }
    consumed, n := WriteRest(l, delay, buf, bytesMax, at, countAt);
  }

  /** The blocks and their number, behind the fixed fields. */
  method WriteRest(l: seq<Range>, ghost delay: nat, buf: array<byte>, bytesMax: nat, start: nat, countAt: nat)
    returns (end: nat, n: nat)
    requires WellFormed(l) && l != [] && l[0].hi < VARINT_LIMIT && bytesMax <= buf.Length
    requires start <= bytesMax && start == HeadSize(l[0].hi, delay, l[0].hi - l[0].lo)
    requires countAt == 1 + Size(l[0].hi) + Size(delay)
    requires buf[..countAt] == [ACK_FRAME_TYPE] + Encoding(l[0].hi) + Encoding(delay)
    requires buf[countAt + 2..start] == Encoding(l[0].hi - l[0].lo)
    modifies buf
    ensures start <= end <= bytesMax && end <= start + 16 * n && n < |l| && n <= MAX_ACK_BLOCKS
    ensures WellFormed(l[..n + 1]) && buf[..end] == AckBytes(AckOf(l[..n + 1], delay))
    ensures n == |l| - 1 || n == MAX_ACK_BLOCKS || NoRoom(l, n, bytesMax - end)
  {
    end, n := WriteCounted(l, buf, bytesMax, start, countAt, buf[..countAt], buf[countAt + 2..start]);
    AckAssembled(l[0].hi, delay, l[0].hi - l[0].lo, Blocks(l[..n + 1]));
  }

  method WriteCounted(l: seq<Range>, buf: array<byte>, bytesMax: nat, start: nat, countAt: nat, ghost pre: seq<byte>,
                      ghost post: seq<byte>)
    returns (end: nat, n: nat)
    requires WellFormed(l) && l != [] && l[0].hi < VARINT_LIMIT && countAt + 2 <= start <= bytesMax <= buf.Length
    requires pre == buf[..countAt] && post == buf[countAt + 2..start]
    modifies buf
    ensures start <= end <= bytesMax && end <= start + 16 * n
    ensures n < |l| && n <= MAX_ACK_BLOCKS && WellFormed(l[..n + 1])
    ensures buf[..end] == pre + CountBytes(n) + post + BlockBytes(Blocks(l[..n + 1]))
    ensures n == |l| - 1 || n == MAX_ACK_BLOCKS || NoRoom(l, n, bytesMax - end)
  {
    ghost var head := buf[..start];
    assert head[..countAt] == pre && head[countAt + 2..] == post;
    ghost var body;
    end, n, body := WriteBlocks(buf, bytesMax, start, l, head);
    AnnouncedLength(body, l, n);
    SetCount(buf, countAt, end, n, head, body);
  }

  lemma AckAssembled(largest: nat, delay: nat, first: nat, bs: seq<Block>)
    requires |bs| <= MAX_ACK_BLOCKS
    ensures AckBytes(Ack(largest, delay, first, bs)) ==
            [ACK_FRAME_TYPE] + Encoding(largest) + Encoding(delay) + CountBytes(|bs|) + Encoding(first) + BlockBytes(bs)
  {
  }
}
