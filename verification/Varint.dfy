/** Variable-length integers of intformat.c (section 16 of RFC 9000). */
module Varint {

  type byte = x: int | 0 <= x < 256

  const UINT64: int := 0x1_0000_0000_0000_0000
  const VARINT_LIMIT: int := 0x4000_0000_0000_0000

  /** The `k` low-order bytes of `n`, most significant first. */
  function BigEndian(n: nat, k: nat): (s: seq<byte>)
    ensures |s| == k
  {
    if k == 0 then [] else BigEndian(n / 256, k - 1) + [n % 256]
  }

  function Pow256(k: nat): (p: nat)
    ensures p > 0
  {
    if k == 0 then 1 else 256 * Pow256(k - 1)
  }

  /** The number that a sequence of bytes spells, most significant first. */
  function Spelled(s: seq<byte>): (n: nat) {
    if s == [] then 0 else Spelled(s[..|s| - 1]) * 256 + s[|s| - 1]
  }

  lemma {:induction false} SpelledBigEndian(n: nat, k: nat)
    ensures Spelled(BigEndian(n, k)) == n % Pow256(k)
  {
    if k > 0 {
      SpelledBigEndian(n / 256, k - 1);
      assert BigEndian(n, k)[..k - 1] == BigEndian(n / 256, k - 1);
      ModSplit(n, Pow256(k - 1));
    }
  }

  lemma ModSplit(n: nat, p: nat)
    requires p > 0
    ensures (n / 256) % p * 256 + n % 256 == n % (256 * p)
  {
    var q, r := n / 256, n % 256;
    var a, b := q / p, q % p;
    assert n == (a * p + b) * 256 + r;
    assert n == a * (256 * p) + (b * 256 + r);
    assert 0 <= b * 256 + r < 256 * p;
    DivModUnique(n, 256 * p, a, b * 256 + r);
  }

  lemma MulAtLeast(x: int, d: int)
    requires x >= 1 && d > 0
    ensures x * d >= d
  {
  }

  lemma DivModUnique(n: int, d: int, q: int, r: int)
    requires d > 0 && n == q * d + r && 0 <= r < d
    ensures n / d == q && n % d == r
  {
    var q', r' := n / d, n % d;
    assert n == q' * d + r' && 0 <= r' < d;
    assert (q - q') * d == q * d - q' * d;
    if q > q' {
      MulAtLeast(q - q', d);
      assert false;
    } else if q < q' {
      MulAtLeast(q' - q, d);
      assert false;
    }
  }

  lemma DivDiv(n: nat, p: nat)
    requires p > 0
    ensures n / 256 / p == n / (256 * p)
  {
    var q, r := n / 256, n % 256;
    assert n == (q / p * p + q % p) * 256 + r;
    DivModUnique(n, 256 * p, q / p, q % p * 256 + r);
  }

  lemma {:induction false} BigEndianAt(n: nat, k: nat, i: nat)
    requires i < k
    ensures BigEndian(n, k)[i] == n / Pow256(k - 1 - i) % 256
  {
    if i < k - 1 {
      BigEndianAt(n / 256, k - 1, i);
      DivDiv(n, Pow256(k - 2 - i));
    }
  }

  lemma {:induction false} SpelledBound(s: seq<byte>)
    ensures Spelled(s) < Pow256(|s|)
  {
    if s != [] {
      SpelledBound(s[..|s| - 1]);
    }
  }

  lemma Powers()
    ensures Pow256(0) == 1 && Pow256(1) == 0x100 && Pow256(2) == 0x1_0000 && Pow256(3) == 0x100_0000
    ensures Pow256(4) == 0x1_0000_0000 && Pow256(5) == 0x100_0000_0000 && Pow256(6) == 0x1_0000_0000_0000
    ensures Pow256(7) == 0x100_0000_0000_0000 && Pow256(8) == UINT64
  {
  }

  /** Number of bytes that `picoquic_varint_encode` uses. */
  function Size(n: nat): (k: nat) {
    if n < 64 then 1 else if n < 16384 then 2 else if n < 1073741824 then 4 else 8
  }

  /** The two top bits of the first byte, for each size. */
  function Tag(k: nat): nat {
    if k == 1 then 0 else if k == 2 then 1 else if k == 4 then 2 else 3
  }

  /** The bytes of a varint: big-endian, the two top bits replaced by the tag of the size. */
  function Encoding(n: nat): (s: seq<byte>)
    ensures |s| == Size(n)
  {
    var s := BigEndian(n, Size(n));
    s[0 := s[0] % 64 + 64 * Tag(|s|)]
  }

  /** Length announced by a first byte. */
  function Announced(b: byte): (k: nat)
    ensures k in {1, 2, 4, 8}
  {
    if b < 64 then 1 else if b < 128 then 2 else if b < 192 then 4 else 8
  }

  datatype Decoded = Decoded(len: nat, n: nat)

  /** What `picoquic_varint_decode` reads from the bytes available; length 0 is its failure. */
  function Decoding(s: seq<byte>): (d: Decoded)
    requires s != []
    ensures d.len <= |s|
  {
    var k := Announced(s[0]);
    if k > |s| then Decoded(0, 0) else Decoded(k, Spelled(s[..k][0 := s[0] % 64]))
  }

  lemma Shifted(a: nat, p: nat, b: nat)
    ensures (a * p + b) * 256 == a * (256 * p) + b * 256
  {
  }

  lemma {:induction false} SpelledTag(s: seq<byte>)
    requires s != []
    ensures Spelled(s) == s[0] * Pow256(|s| - 1) + Spelled(s[0 := 0])
  {
    var n := |s| - 1;
    var t := s[..n];
    assert s[0 := 0][..n] == if n == 0 then [] else t[0 := 0];
    if n > 0 {
      SpelledTag(t);
      Shifted(s[0], Pow256(n - 1), Spelled(t[0 := 0]));
      assert Pow256(n) == 256 * Pow256(n - 1);
    }
  }

  lemma ModTop(n: nat, p: nat)
    requires p > 0
    ensures n % (64 * p) == n / p % 64 * p + n % p
  {
    var q, r := n / p, n % p;
    assert n == q * p + r;
    var a, c := q / 64, q % 64;
    assert q * p == a * (64 * p) + c * p by { assert q == a * 64 + c; }
    MulMono(c, 63, p);
    DivModUnique(n, 64 * p, a, c * p + r);
  }

  lemma MulMono(a: int, b: int, p: int)
    requires a <= b && p >= 0
    ensures a * p <= b * p
  {
  }

  lemma {:induction false} LowBytes(n: nat, k: nat)
    requires k > 0
    ensures Spelled(BigEndian(n, k)[0 := 0]) == n % Pow256(k - 1)
  {
    if k > 1 {
      LowBytes(n / 256, k - 1);
      assert BigEndian(n, k)[0 := 0][..k - 1] == BigEndian(n / 256, k - 1)[0 := 0];
      ModSplit(n, Pow256(k - 2));
    }
  }

  lemma {:induction false} FirstByte(n: nat, k: nat)
    requires k > 0
    ensures BigEndian(n, k)[0] % 64 == n / Pow256(k - 1) % 64
  {
    if k == 1 {
      assert BigEndian(n, 1) == [n % 256] && Pow256(0) == 1;
      ModMod(n % 256, n);
    } else {
      var p := Pow256(k - 2);
      FirstByte(n / 256, k - 1);
      DivDiv(n, p);
      assert BigEndian(n, k)[0] == BigEndian(n / 256, k - 1)[0];
      assert Pow256(k - 1) == 256 * p;
    }
  }

  lemma ModMod(b: nat, x: nat)
    requires b == x % 256
    ensures b % 64 == x % 64
  {
  }

  lemma SpelledCleared(s: seq<byte>, top: byte)
    requires s != []
    ensures Spelled(s[0 := top]) == top * Pow256(|s| - 1) + Spelled(s[0 := 0])
  {
    hide Spelled;
    hide Pow256;
    var t := s[0 := top];
    assert t[0 := 0] == s[0 := 0];
    SpelledTag(t);
  }

  /** Clearing the two top bits of the first byte keeps the number modulo 2^(8k-2). */
  lemma TopBitsCleared(n: nat, k: nat)
    requires k > 0
    ensures var s := BigEndian(n, k); Spelled(s[0 := s[0] % 64]) == n % (64 * Pow256(k - 1))
  {
    var s, p := BigEndian(n, k), Pow256(k - 1);
    calc {
      Spelled(s[0 := s[0] % 64]);
      { SpelledCleared(s, s[0] % 64); }
      s[0] % 64 * p + Spelled(s[0 := 0]);
      { FirstByte(n, k); }
      n / p % 64 * p + Spelled(s[0 := 0]);
      { LowBytes(n, k); }
      n / p % 64 * p + n % p;
      { ModTop(n, p); }
      n % (64 * p);
    }
  }

  /** Encoding then decoding gives the number back modulo 2^62: exactly, iff it is below 2^62. */
  lemma RoundTrip(n: nat, rest: seq<byte>)
    requires n < UINT64
    ensures Decoding(Encoding(n) + rest) == Decoded(Size(n), n % VARINT_LIMIT)
  {
    var k := Size(n);
    var s := BigEndian(n, k);
    var t := Encoding(n) + rest;
    assert t[..k] == Encoding(n);
    assert t[..k][0 := t[0] % 64] == s[0 := s[0] % 64];
    TopBitsCleared(n, k);
    SizeFits(n);
  }

  lemma SizeFits(n: nat)
    requires n < UINT64
    ensures n % (64 * Pow256(Size(n) - 1)) == n % VARINT_LIMIT
  {
    Powers();
  }

  /** No shorter sequence of bytes decodes to the same number. */
  lemma Shortest(s: seq<byte>)
    requires s != [] && Decoding(s).len > 0
    ensures Size(Decoding(s).n) <= Decoding(s).len && Decoding(s).n < VARINT_LIMIT
  {
    Powers();
    var k := Decoding(s).len;
    var w := s[..k][0 := s[0] % 64];
    SpelledTag(w);
    SpelledBound(w[0 := 0][1..]);
    LeadingZero(w[0 := 0]);
  }

  lemma {:induction false} LeadingZero(s: seq<byte>)
    requires s != [] && s[0] == 0
    ensures Spelled(s) == Spelled(s[1..])
  {
    if |s| > 1 {
      LeadingZero(s[..|s| - 1]);
      assert s[..|s| - 1][1..] == s[1..][..|s| - 2];
    }
  }

  // The buffer routines

  lemma EncodingBytes(n: nat)
    requires n < UINT64
    ensures n < 64 ==> Encoding(n) == [n]
    ensures 64 <= n < 16384 ==> Encoding(n) == [n / 0x100 % 64 + 0x40, n % 256]
    ensures 16384 <= n < 1073741824 ==>
      Encoding(n) == [n / 0x100_0000 % 64 + 0x80, n / 0x1_0000 % 256, n / 0x100 % 256, n % 256]
    ensures 1073741824 <= n ==>
      Encoding(n) == [n / 0x100_0000_0000_0000 % 64 + 0xC0, n / 0x1_0000_0000_0000 % 256, n / 0x100_0000_0000 % 256,
        n / 0x1_0000_0000 % 256] + [n / 0x100_0000 % 256, n / 0x1_0000 % 256, n / 0x100 % 256, n % 256]
  {
    Powers();
    var k := Size(n);
    FirstByte(n, k);
    forall i | 0 < i < k
      ensures Encoding(n)[i] == n / Pow256(k - 1 - i) % 256
    {
      BigEndianAt(n, k, i);
    }
  }

  method Put4(buf: array<byte>, at: nat, a: byte, b: byte, c: byte, d: byte)
    requires at + 4 <= buf.Length
    modifies buf
    ensures buf[..] == old(buf[..at]) + [a, b, c, d] + old(buf[at + 4..])
  {
    buf[at], buf[at + 1], buf[at + 2], buf[at + 3] := a, b, c, d;
  }

  method Put2(buf: array<byte>, at: nat, a: byte, b: byte)
    requires at + 2 <= buf.Length
    modifies buf
    ensures buf[..] == old(buf[..at]) + [a, b] + old(buf[at + 2..])
  {
    buf[at], buf[at + 1] := a, b;
  }

  /** Write `n` at `at`, using at most `room` bytes; 0 when it does not fit. */
  method Encode(buf: array<byte>, at: nat, room: nat, n: nat) returns (len: nat)
    requires at + room <= buf.Length && n < UINT64
    modifies buf
    ensures len == if Size(n) <= room then Size(n) else 0
    ensures buf[..] == old(buf[..at]) + (if len > 0 then Encoding(n) else []) + old(buf[at + len..])
  {
    EncodingBytes(n);
    len := 0;
    if n < 16384 {
      if n < 64 {
        if room > 0 {
          buf[at] := n;
          len := 1;
        }
      } else {
        if room >= 2 {
          Put2(buf, at, n / 0x100 % 64 + 0x40, n % 256);
          len := 2;
        }
      }
    } else if n < 1073741824 {
      if room >= 4 {
        Put4(buf, at, n / 0x100_0000 % 64 + 0x80, n / 0x1_0000 % 256, n / 0x100 % 256, n % 256);
        len := 4;
      }
    } else {
      if room >= 8 {
        Put4(buf, at, n / 0x100_0000_0000_0000 % 64 + 0xC0, n / 0x1_0000_0000_0000 % 256, n / 0x100_0000_0000 % 256,
             n / 0x1_0000_0000 % 256);
        Put4(buf, at + 4, n / 0x100_0000 % 256, n / 0x1_0000 % 256, n / 0x100 % 256, n % 256);
        len := 8;
      }
    }
  }

  /** Encode right after what has been written so far. */
  method Append(buf: array<byte>, at: nat, room: nat, n: nat, ghost head: seq<byte>) returns (len: nat)
    requires at + room <= buf.Length && n < UINT64 && head == buf[..at]
    modifies buf
    ensures len == if Size(n) <= room then Size(n) else 0
    ensures buf[..at] == head && (len > 0 ==> buf[at..at + len] == Encoding(n) && buf[..at + len] == head + Encoding(n))
    ensures buf[at + len..] == old(buf[at + len..])
  {
    len := Encode(buf, at, room, n);
    if len > 0 {
      assert buf[..] == head + Encoding(n) + old(buf[at + len..]);
    }
  }

  /** Read a varint from `bytes[at..at + room]`; 0 when the announced length does not fit. */
  method Decode(bytes: seq<byte>, at: nat, room: nat) returns (len: nat, n: nat)
    requires 0 < room && at + room <= |bytes|
    ensures Decoded(len, n) == Decoding(bytes[at..at + room])
  {
    ghost var s := bytes[at..at + room];
    len := Announced(bytes[at]);
    if len > room {
      return 0, 0;
    }
    ghost var w := s[..len][0 := s[0] % 64];
    n := bytes[at] % 64;
    assert w[..1] == [n];
    assert Spelled([n]) == Spelled([n][..0]) * 256 + n;
    for i := 1 to len
      invariant n == Spelled(w[..i])
    {
      assert w[..i + 1][..i] == w[..i];
      n := n * 256 + bytes[at + i];
    }
    assert w[..len] == w;
  }
}
