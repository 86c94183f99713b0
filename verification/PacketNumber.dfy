/** Recovery of a full packet number from its truncated form (packet.c). */
module PacketNumber {
  import opened Varint

  /** The number of values that a truncation to `len` bytes tells apart. */
  function Span(len: nat): nat {
    Pow256(len)
  }

  /** The truncated number and the mask of the bits it leaves out, built byte by byte. */
  method Truncated(bytes: seq<byte>) returns (pn: nat, mask: nat)
    requires 1 <= |bytes| <= 4
    ensures pn == Spelled(bytes) < Span(|bytes|) && mask == UINT64 - Span(|bytes|)
  {
    pn, mask := 0, UINT64 - 1;
    for i := 0 to |bytes|
      invariant pn == Spelled(bytes[..i]) < Span(i)
      invariant mask == UINT64 - Span(i)
    {
      assert bytes[..i + 1][..i] == bytes[..i];
      pn := pn * 256 + bytes[i];
      mask := mask * 256 % UINT64;
      Shifted(i);
    }
    assert bytes[..|bytes|] == bytes;
  }

  lemma Shifted(i: nat)
    requires i < 4
    ensures (UINT64 - Span(i)) * 256 % UINT64 == UINT64 - Span(i + 1)
  {
    assert Pow256(1) == 256 && Pow256(2) == 65536 && Pow256(3) == 16777216 && Pow256(4) == 4294967296;
  }

  /** The number with the high part of the expected one and the received low part. */
  function Candidate(expected: nat, w: nat, pn: nat): nat
    requires w > 0
  {
    expected - expected % w + pn
  }

  /** The full number, for the highest one received so far (all ones when there is none). */
  function Expand(highest: nat, w: nat, pn: nat): (r: int)
    requires pn < w
  {
    var expected := (highest + 1) % UINT64;
    var c := Candidate(expected, w, pn);
    if c < expected then
      var delta := expected - c;
      if w - delta < delta then (c + w) % UINT64 else c
    else
      var delta := c - expected;
      if w - delta <= delta && c >= w then c - w else c
  }

  /** Packet numbers stay below 2^62 and truncations have at most four bytes. */
  predicate InRange(highest: nat, w: nat) {
    0 < w <= 0x1_0000_0000 && w % 2 == 0 && (highest + 1) % UINT64 <= VARINT_LIMIT
  }

  lemma CandidateCongruent(expected: nat, w: nat, pn: nat)
    requires pn < w
    ensures Candidate(expected, w, pn) % w == pn
    ensures expected - w < Candidate(expected, w, pn) < expected + w
    ensures (Candidate(expected, w, pn) + w) % w == pn
    ensures Candidate(expected, w, pn) >= w ==> (Candidate(expected, w, pn) - w) % w == pn
  {
    var q, c := expected / w, Candidate(expected, w, pn);
    assert c == q * w + pn;
    DivModUnique(c, w, q, pn);
    DivModUnique(c + w, w, q + 1, pn);
    if c >= w {
      DivModUnique(c - w, w, q - 1, pn);
    }
  }

  /** The same without wrapping around. */
  function Unwrapped(expected: nat, w: nat, pn: nat): int
    requires pn < w
  {
    var c := Candidate(expected, w, pn);
    if c < expected - w / 2 then c + w else if c >= expected + w / 2 && c >= w then c - w else c
  }

  lemma NoWrap(highest: nat, w: nat, pn: nat)
    requires pn < w && InRange(highest, w)
    ensures Expand(highest, w, pn) == Unwrapped((highest + 1) % UINT64, w, pn)
  {
  }

  lemma Doubled(w: nat)
    requires w % 2 == 0
    ensures w == w / 2 + w / 2
  {
  }

  lemma UnwrappedIsClosest(e: nat, w: nat, pn: nat)
    requires pn < w && w % 2 == 0
    ensures var r := Unwrapped(e, w, pn);
            && r >= 0 && r % w == pn
            && (e - w / 2 <= r < e + w / 2 || (r == pn && r >= e + w / 2))
  {
    CandidateCongruent(e, w, pn);
    Doubled(w);
    var c := Candidate(e, w, pn);
    if c < w {
      SmallIsItself(c, w);
    }
  }

  /** The result has the received low part. It is the number closest to the expected one that does, the lower of
    * two equally close ones, unless that would be negative: then it is the received part itself. */
  lemma ExpandIsClosest(highest: nat, w: nat, pn: nat)
    requires pn < w && InRange(highest, w)
    ensures var r, e := Expand(highest, w, pn), (highest + 1) % UINT64;
            && r >= 0 && r % w == pn
            && (e - w / 2 <= r < e + w / 2 || (r == pn && r >= e + w / 2))
  {
    NoWrap(highest, w, pn);
    UnwrappedIsClosest((highest + 1) % UINT64, w, pn);
  }

  lemma SmallIsItself(c: nat, w: nat)
    requires c < w
    ensures c % w == c
  {
  }

  lemma WindowUnique(a: int, b: int, lo: int, w: nat)
    requires w > 0 && lo <= a < lo + w && lo <= b < lo + w && a % w == b % w
    ensures a == b
  {
    var p, q := a / w, b / w;
    assert a == p * w + a % w && b == q * w + b % w;
    assert a - b == (p - q) * w;
    if p > q {
      MulAtLeast(p - q, w);
    } else if p < q {
      MulAtLeast(q - p, w);
    }
  }

  predicate Near(highest: nat, w: nat, n: nat) {
    var e := (highest + 1) % UINT64;
    e - w / 2 <= n < e + w / 2
  }

  /** A number that is within half a window of the expected one survives truncation. */
  lemma TruncationRecovered(highest: nat, w: nat, n: nat)
    requires InRange(highest, w)
    requires Near(highest, w, n)
    ensures Expand(highest, w, n % w) == n
  {
    var e, pn := (highest + 1) % UINT64, n % w;
    ExpandIsClosest(highest, w, pn);
    var r := Expand(highest, w, pn);
    if e - w / 2 <= r < e + w / 2 {
      WindowUnique(r, n, e - w / 2, w);
    } else {
      NoSmaller(n, pn, w);
    }
  }

  lemma NoSmaller(n: nat, pn: nat, w: nat)
    requires w > 0 && n % w == pn
    ensures n >= pn
  {
  }

  /** The sample algorithm of Appendix A.3 of RFC 9000. */
  function Sample(highest: nat, w: nat, pn: nat): int
    requires pn < w
  {
    var expected := (highest + 1) % UINT64;
    var c := Candidate(expected, w, pn);
    if c <= expected - w / 2 && c < VARINT_LIMIT - w then c + w
    else if c > expected + w / 2 && c >= w then c - w
    else c
  }

  /** Away from the end of the number space the two differ exactly at the half-window tie. */
  lemma DiffersOnlyAtTie(highest: nat, w: nat, pn: nat)
    requires pn < w && InRange(highest, w) && (highest + 1) % UINT64 + w <= VARINT_LIMIT
    ensures var e := (highest + 1) % UINT64;
            Expand(highest, w, pn) != Sample(highest, w, pn) <==> e >= w / 2 && (e + w / 2) % w == pn
  {
    var e := (highest + 1) % UINT64;
    NoWrap(highest, w, pn);
    Tie(e, w, pn);
    CandidateCongruent(e, w, pn);
    Doubled(w);
  }

  lemma Tie(e: nat, w: nat, pn: nat)
    requires pn < w && w % 2 == 0
    ensures (e + w / 2) % w == pn <==>
            Candidate(e, w, pn) == e + w / 2 || Candidate(e, w, pn) == e - w / 2
  {
    var c := Candidate(e, w, pn);
    CandidateCongruent(e, w, pn);
    Doubled(w);
    if (e + w / 2) % w == pn {
      if c < e {
        WindowUnique(c + w, e + w / 2, e, w);
      } else {
        WindowUnique(c, e + w / 2, e, w);
      }
    }
    if c == e - w / 2 {
      assert e + w / 2 == c + w;
    }
  }

  lemma SpanInRange(len: nat)
    requires 1 <= len <= 4
    ensures 0 < Span(len) <= 0x1_0000_0000 && Span(len) % 2 == 0
  {
    assert Pow256(1) == 256 && Pow256(2) == 65536 && Pow256(3) == 16777216 && Pow256(4) == 4294967296;
  }

  /** Decoding the low bytes of any number within half a window of the expected one gives that number. */
  method Decode(highest: nat, bytes: seq<byte>) returns (r: nat)
    requires 1 <= |bytes| <= 4 && (highest + 1) % UINT64 <= VARINT_LIMIT
    ensures r % Span(|bytes|) == Spelled(bytes)
    ensures forall n: nat :: n % Span(|bytes|) == Spelled(bytes) && Near(highest, Span(|bytes|), n) ==> r == n
  {
    var pn, mask := Truncated(bytes);
    var w := UINT64 - mask;
    SpanInRange(|bytes|);
    ExpandIsClosest(highest, w, pn);
    r := Expand(highest, w, pn);
    forall n: nat | n % w == pn && Near(highest, w, n)
      ensures r == n
    {
      TruncationRecovered(highest, w, n);
    }
  }
}
