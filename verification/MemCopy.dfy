/** Copying and filling of plugin memory (memcpy.c), over one array in which an index is an address. */
module MemCopy {
  import opened Varint

  const WSIZE := 4

  /** `m` is `m0` with the bytes at `src` copied to `dst`, for the offsets from `lo` up to `hi`. */
  ghost predicate Copied(m0: seq<byte>, m: seq<byte>, dst: nat, src: nat, lo: int, hi: int)
    requires src + hi <= |m0| && dst + hi <= |m0| && 0 <= lo
  {
    && |m| == |m0|
    && (forall k :: dst + lo <= k < dst + hi ==> m[k] == m0[k - dst + src])
    && (forall k :: 0 <= k < |m| && !(dst + lo <= k < dst + hi) ==> m[k] == m0[k])
  }

  /** A word store after a word load. */
  method CopyWord(memory: array<byte>, dst: nat, src: nat)
    requires src % WSIZE == 0 && dst % WSIZE == 0 && src + WSIZE <= memory.Length && dst + WSIZE <= memory.Length
    modifies memory
    ensures Copied(old(memory[..]), memory[..], dst, src, 0, WSIZE)
  {
    var a, b, c, d := memory[src], memory[src + 1], memory[src + 2], memory[src + 3];
    memory[dst], memory[dst + 1], memory[dst + 2], memory[dst + 3] := a, b, c, d;
  }

  /** Copying upwards: what is still to be read has not been written. */
  lemma CopiedUp(m0: seq<byte>, m1: seq<byte>, m2: seq<byte>, dst: nat, src: nat, from: nat)
    requires dst < src && src + from + WSIZE <= |m0|
    requires Copied(m0, m1, dst, src, 0, from) && Copied(m1, m2, dst + from, src + from, 0, WSIZE)
    ensures Copied(m0, m2, dst, src, 0, from + WSIZE)
  {
  }

  /** Copying downwards. */
  lemma CopiedDown(m0: seq<byte>, m1: seq<byte>, m2: seq<byte>, dst: nat, src: nat, to: nat, n: nat)
    requires src < dst && WSIZE <= to <= n && dst + n <= |m0|
    requires Copied(m0, m1, dst, src, to, n) && Copied(m1, m2, dst + to - WSIZE, src + to - WSIZE, 0, WSIZE)
    ensures Copied(m0, m2, dst, src, to - WSIZE, n)
  {
  }

  method BytesUp(memory: array<byte>, dst: nat, src: nat, from: nat, t: nat, ghost m0: seq<byte>)
    requires dst < src && src + from + t <= memory.Length == |m0|
    requires Copied(m0, memory[..], dst, src, 0, from)
    modifies memory
    ensures Copied(m0, memory[..], dst, src, 0, from + t)
  {
    for i := from to from + t
      invariant Copied(m0, memory[..], dst, src, 0, i)
    {
      memory[dst + i] := memory[src + i];
    }
  }

  method WordUp(memory: array<byte>, dst: nat, src: nat, at: nat, ghost m0: seq<byte>)
    requires dst < src && src + at + WSIZE <= memory.Length == |m0|
    requires (src + at) % WSIZE == 0 && (dst + at) % WSIZE == 0
    requires Copied(m0, memory[..], dst, src, 0, at)
    modifies memory
    ensures Copied(m0, memory[..], dst, src, 0, at + WSIZE)
  {
    ghost var m1 := memory[..];
    CopyWord(memory, dst + at, src + at);
    CopiedUp(m0, m1, memory[..], dst, src, at);
  }

  method WordsUp(memory: array<byte>, dst: nat, src: nat, from: nat, t: nat, ghost m0: seq<byte>)
    requires dst < src && src + from + WSIZE * t <= memory.Length == |m0|
    requires t > 0 ==> (src + from) % WSIZE == 0 && (dst + from) % WSIZE == 0
    requires Copied(m0, memory[..], dst, src, 0, from)
    modifies memory
    ensures Copied(m0, memory[..], dst, src, 0, from + WSIZE * t)
  {
    var at := from;
    for i := 0 to t
      invariant at == from + WSIZE * i && (t > 0 ==> (src + at) % WSIZE == 0 && (dst + at) % WSIZE == 0)
      invariant Copied(m0, memory[..], dst, src, 0, at)
    {
      WordUp(memory, dst, src, at, m0);
      at := at + WSIZE;
    }
  }

  method BytesDown(memory: array<byte>, dst: nat, src: nat, to: nat, t: nat, ghost m0: seq<byte>, ghost n: nat)
    requires src < dst && t <= to <= n && dst + n <= memory.Length == |m0|
    requires Copied(m0, memory[..], dst, src, to, n)
    modifies memory
    ensures Copied(m0, memory[..], dst, src, to - t, n)
  {
    for i := 0 to t
      invariant Copied(m0, memory[..], dst, src, to - i, n)
    {
      memory[dst + to - i - 1] := memory[src + to - i - 1];
    }
  }

  method WordDown(memory: array<byte>, dst: nat, src: nat, at: nat, ghost m0: seq<byte>, ghost n: nat)
    requires src < dst && WSIZE <= at <= n && dst + n <= memory.Length == |m0|
    requires (src + at) % WSIZE == 0 && (dst + at) % WSIZE == 0
    requires Copied(m0, memory[..], dst, src, at, n)
    modifies memory
    ensures Copied(m0, memory[..], dst, src, at - WSIZE, n)
  {
    ghost var m1 := memory[..];
    CopyWord(memory, dst + at - WSIZE, src + at - WSIZE);
    CopiedDown(m0, m1, memory[..], dst, src, at, n);
  }

  method WordsDown(memory: array<byte>, dst: nat, src: nat, to: nat, t: nat, ghost m0: seq<byte>, ghost n: nat)
    requires src < dst && WSIZE * t <= to <= n && dst + n <= memory.Length == |m0|
    requires t > 0 ==> (src + to) % WSIZE == 0 && (dst + to) % WSIZE == 0
    requires Copied(m0, memory[..], dst, src, to, n)
    modifies memory
    ensures Copied(m0, memory[..], dst, src, to - WSIZE * t, n)
  {
    var at := to;
    for i := 0 to t
      invariant at == to - WSIZE * i && (t > 0 ==> (src + at) % WSIZE == 0 && (dst + at) % WSIZE == 0)
      invariant Copied(m0, memory[..], dst, src, at, n)
    {
      WordDown(memory, dst, src, at, m0, n);
      at := at - WSIZE;
    }
  }

  method Forward(memory: array<byte>, dst: nat, src: nat, length: nat)
    requires dst < src && src + length <= memory.Length && length > 0
    modifies memory
    ensures Copied(old(memory[..]), memory[..], dst, src, 0, length)
  {
    ghost var m0 := memory[..];
    var done := 0;
    if src % WSIZE != 0 || dst % WSIZE != 0 {
      done := if src % WSIZE != dst % WSIZE || length < WSIZE then length else WSIZE - src % WSIZE;
      BytesUp(memory, dst, src, 0, done, m0);
    }
    var left := length - done;
    WordsUp(memory, dst, src, done, left / WSIZE, m0);
    BytesUp(memory, dst, src, done + WSIZE * (left / WSIZE), left % WSIZE, m0);
  }

  method Backward(memory: array<byte>, dst: nat, src: nat, length: nat)
    requires src < dst && dst + length <= memory.Length && length > 0
    modifies memory
    ensures Copied(old(memory[..]), memory[..], dst, src, 0, length)
  {
    ghost var m0 := memory[..];
    var left := length;
    var s, d := src + length, dst + length;
    if s % WSIZE != 0 || d % WSIZE != 0 {
      var t := if s % WSIZE != d % WSIZE || length <= WSIZE then length else s % WSIZE;
      BytesDown(memory, dst, src, length, t, m0, length);
      left := length - t;
    }
    WordsDown(memory, dst, src, left, left / WSIZE, m0, length);
    BytesDown(memory, dst, src, left % WSIZE, left % WSIZE, m0, length);
  }

  /** The destination receives what the source held before, however the two overlap and are aligned; every other
    * byte stays, and words are only moved between aligned addresses. */
  method MemCopy(memory: array<byte>, dst: nat, src: nat, length: nat)
    requires dst + length <= memory.Length && src + length <= memory.Length
    modifies memory
    ensures memory[dst..dst + length] == old(memory[src..src + length])
    ensures memory[..dst] == old(memory[..dst]) && memory[dst + length..] == old(memory[dst + length..])
  {
    if length == 0 || dst == src {
      return;
    }
    if dst < src {
      Forward(memory, dst, src, length);
    } else {
      Backward(memory, dst, src, length);
    }
  }

  /** Sets one word of four equal bytes. */
  method SetWord(memory: array<byte>, at: nat, c: byte)
    requires at % WSIZE == 0 && at + WSIZE <= memory.Length
    modifies memory
    ensures memory[..] == old(memory[..at]) + [c, c, c, c] + old(memory[at + WSIZE..])
  {
    memory[at], memory[at + 1], memory[at + 2], memory[at + 3] := c, c, c, c;
  }

  /** Inside [dst, dst + n) the `edge` bytes at each end and those from `lo` to `hi` are set; all outside is as
      before. */
  ghost predicate Set(m0: seq<byte>, m: seq<byte>, dst: nat, n: nat, c: byte, edge: nat, lo: nat, hi: nat) {
    && |m| == |m0|
    && (forall k :: 0 <= k < |m| && !(dst <= k < dst + n) ==> m[k] == m0[k])
    && (forall k :: 0 <= k < |m| && dst <= k < dst + n && (k < dst + edge || dst + n - edge <= k || lo <= k < hi) ==>
                      m[k] == c)
  }

  /** The head and the tail, from the outside in. Returns how many bytes of each are surely set. */
  method SetEdges(memory: array<byte>, dst: nat, c: byte, n: nat) returns (edge: nat)
    requires dst + n <= memory.Length
    modifies memory
    ensures Set(old(memory[..]), memory[..], dst, n, c, edge, 0, 0)
    ensures if n <= 8 then 2 * edge >= n else edge == 4
  {
    if n == 0 {
      return 0;
    }
    memory[dst + n - 1] := c;
    memory[dst] := c;
    if n <= 2 {
      return 1;
    }
    memory[dst + n - 2] := c;
    memory[dst + 1] := c;
    memory[dst + n - 3] := c;
    memory[dst + 2] := c;
    if n <= 6 {
      return 3;
    }
    memory[dst + n - 4] := c;
    memory[dst + 3] := c;
    return 4;
  }

  /** Sets exactly the `n` bytes at `dst`, to the low byte of `value`. */
  method MemSet(memory: array<byte>, dst: nat, value: int, n: nat)
    requires dst + n <= memory.Length
    modifies memory
    ensures forall k :: dst <= k < dst + n ==> memory[k] == value % 256
    ensures memory[..dst] == old(memory[..dst]) && memory[dst + n..] == old(memory[dst + n..])
  {
    ghost var m0 := memory[..];
    var c := value % 256;
    var edge := SetEdges(memory, dst, c, n);
    if n <= 8 {
      return;
    }
    var k := (WSIZE - dst % WSIZE) % WSIZE;
    SetWords(memory, dst, c, n, dst + k, (n - k) / WSIZE, m0);
  }

  method SetWords(memory: array<byte>, dst: nat, c: byte, n: nat, from: nat, words: nat, ghost m0: seq<byte>)
    requires dst + n <= memory.Length && Set(m0, memory[..], dst, n, c, 4, 0, 0)
    requires from % WSIZE == 0 && dst <= from && from + WSIZE * words <= dst + n
    modifies memory
    ensures Set(m0, memory[..], dst, n, c, 4, from, from + WSIZE * words)
  {
    var at := from;
    for i := 0 to words
      invariant at == from + WSIZE * i && at % WSIZE == 0
      invariant Set(m0, memory[..], dst, n, c, 4, from, at)
    {
      SetWord(memory, at, c);
      at := at + WSIZE;
    }
  }
}
