/** The STREAM frame (section 19.8 of RFC 9000): its layout and picoquic_parse_stream_header. */
module StreamFrame {
  import opened Wrappers
  import opened Varint

  /** What the parser reports: the fields and how many header bytes it read. */
  datatype Header = Header(id: nat, offset: nat, dataLength: nat, fin: bool, consumed: nat)

  const STREAM_FRAME_TYPE := 8

  predicate FlagSet(b: byte, mask: int)
    requires mask in {1, 2, 4}
  {
    b / mask % 2 == 1
  }

  /** Read a varint at `at`, or report length 0 when nothing is left there. */
  function ReadAt(bytes: seq<byte>, at: nat): (d: Decoded)
    ensures d.len > 0 ==> at + d.len <= |bytes|
  {
    if at < |bytes| then Decoding(bytes[at..]) else Decoded(0, 0)
  }

  /** None is the parser's error return. */
  function Parse(bytes: seq<byte>): (r: Option<Header>)
    requires bytes != []
    ensures r.Some? ==> r.value.consumed + r.value.dataLength <= |bytes|
  {
    var off, len := FlagSet(bytes[0], 4), FlagSet(bytes[0], 2);
    var stream := ReadAt(bytes, 1);
    var i := 1 + stream.len;
    var offset := if off then ReadAt(bytes, i) else Decoded(0, 0);
    var j := i + offset.len;
    if stream.len == 0 || (off && offset.len == 0) then None
    else if !len then Some(Header(stream.n, offset.n, |bytes| - j, FlagSet(bytes[0], 1), j))
    else
      var length := ReadAt(bytes, j);
      var k := j + length.len;
      if length.len == 0 || k + length.n > |bytes| then None
      else Some(Header(stream.n, offset.n, length.n, FlagSet(bytes[0], 1), k))
  }

  function TypeByte(offset: nat, explicit: bool, fin: bool): (b: byte) {
    STREAM_FRAME_TYPE + (if offset > 0 then 4 else 0) + (if explicit then 2 else 0) + (if fin then 1 else 0)
  }

  /** The varint fields in front of the data. */
  function Fields(id: nat, offset: nat, length: nat, explicit: bool): seq<byte> {
    Encoding(id) + (if offset > 0 then Encoding(offset) else []) + (if explicit then Encoding(length) else [])
  }

  /** A STREAM frame, with its length field when `explicit`, else running to the end of the packet. */
  function Layout(id: nat, offset: nat, data: seq<byte>, fin: bool, explicit: bool): (s: seq<byte>)
    ensures s != []
  {
    [TypeByte(offset, explicit, fin)] + Fields(id, offset, |data|, explicit) + data
  }

  lemma ReadEncoded(before: seq<byte>, n: nat, after: seq<byte>)
    requires n < VARINT_LIMIT
    ensures ReadAt(before + Encoding(n) + after, |before|) == Decoded(Size(n), n)
  {
    assert (before + Encoding(n) + after)[|before|..] == Encoding(n) + after;
    RoundTrip(n, after);
  }

  lemma FirstBits(offset: nat, explicit: bool, fin: bool)
    ensures var b := TypeByte(offset, explicit, fin);
      FlagSet(b, 4) == (offset > 0) && FlagSet(b, 2) == explicit && FlagSet(b, 1) == fin
  {
  }

  lemma Regrouped<T>(a: seq<T>, b: seq<T>, c: seq<T>, d: seq<T>, e: seq<T>, f: seq<T>)
    ensures a + (b + c + d) + e + f == a + b + (c + d + e + f)
    ensures a + (b + c + d) + e + f == (a + b) + c + (d + e + f)
    ensures a + (b + c + d) + e + f == (a + b + c) + d + (e + f)
  {
  }

  /** The fields of a frame can be read back one after the other. */
  lemma FieldsRead(id: nat, offset: nat, data: seq<byte>, fin: bool, explicit: bool, rest: seq<byte>)
    requires id < VARINT_LIMIT && offset < VARINT_LIMIT && |data| < VARINT_LIMIT
    ensures var frame := Layout(id, offset, data, fin, explicit) + rest;
      && ReadAt(frame, 1) == Decoded(Size(id), id)
      && (offset > 0 ==> ReadAt(frame, 1 + Size(id)) == Decoded(Size(offset), offset))
      && (explicit ==>
            ReadAt(frame, 1 + Size(id) + (if offset > 0 then Size(offset) else 0)) == Decoded(Size(|data|), |data|))
  {
    var first := [TypeByte(offset, explicit, fin)];
    var frame := Layout(id, offset, data, fin, explicit) + rest;
    var off := if offset > 0 then Encoding(offset) else [];
    var len := if explicit then Encoding(|data|) else [];
    Regrouped(first, Encoding(id), off, len, data, rest);
    ReadEncoded(first, id, off + len + data + rest);
    if offset > 0 {
      ReadEncoded(first + Encoding(id), offset, len + data + rest);
    }
    if explicit {
      ReadEncoded(first + Encoding(id) + off, |data|, data + rest);
    }
  }

  lemma FieldsSize(id: nat, offset: nat, length: nat, explicit: bool)
    ensures |Fields(id, offset, length, explicit)| ==
            Size(id) + (if offset > 0 then Size(offset) else 0) + (if explicit then Size(length) else 0)
  {
  }

  lemma ParseFields(frame: seq<byte>, id: nat, offset: nat, length: nat, fin: bool, explicit: bool, k: nat)
    requires frame != [] && frame[0] == TypeByte(offset, explicit, fin)
    requires ReadAt(frame, 1) == Decoded(Size(id), id)
    requires offset > 0 ==> ReadAt(frame, 1 + Size(id)) == Decoded(Size(offset), offset)
    requires explicit ==>
      ReadAt(frame, 1 + Size(id) + (if offset > 0 then Size(offset) else 0)) == Decoded(Size(length), length)
    requires k == 1 + Size(id) + (if offset > 0 then Size(offset) else 0) + (if explicit then Size(length) else 0)
    requires if explicit then k + length <= |frame| else k + length == |frame|
    ensures Parse(frame) == Some(Header(id, offset, length, fin, k))
  {
    FirstBits(offset, explicit, fin);
  }

  /** Parsing inverts the layout, whatever follows a frame that carries its length. */
  lemma ParseLayout(id: nat, offset: nat, data: seq<byte>, fin: bool, explicit: bool, rest: seq<byte>)
    requires id < VARINT_LIMIT && offset < VARINT_LIMIT && |data| < VARINT_LIMIT
    requires explicit || rest == []
    ensures var k := 1 + |Fields(id, offset, |data|, explicit)|;
      var frame := Layout(id, offset, data, fin, explicit) + rest;
      && Parse(frame) == Some(Header(id, offset, |data|, fin, k))
      && frame[k..k + |data|] == data
  {
    FieldsRead(id, offset, data, fin, explicit, rest);
    FieldsSize(id, offset, |data|, explicit);
    var k := 1 + |Fields(id, offset, |data|, explicit)|;
    ParseFields(Layout(id, offset, data, fin, explicit) + rest, id, offset, |data|, fin, explicit, k);
  }
}
