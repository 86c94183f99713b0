/** The plugin block allocator (memory.c): fixed-size blocks in one byte array, whose free list is threaded
  * through the blocks themselves and whose tail is threaded only when it is first needed. */
module Pool {
  import opened Sequences
  import opened Varint
  import opened Wrappers

  const BLOCK := 2100
  const HEADER := 8
  const MAGIC := 0xa110ca7ab1e

  // ----- The free list as a value -----

  /** `free` is threaded through `heads`, from its first block to the first one never used. */
  ghost predicate Threaded(heads: seq<nat>, free: seq<nat>, init: nat) {
    && init <= |heads|
    && (forall k :: 0 <= k < |free| ==> free[k] < init)
    && (forall k :: 0 < k < |free| ==> heads[free[k - 1]] == free[k])
    && (free != [] && init < |heads| ==> heads[free[|free| - 1]] == init)
  }

  /** The blocks used so far are the live and the free ones, each once. */
  ghost predicate Split(free: seq<nat>, live: set<nat>, init: nat) {
    && (forall j, k :: 0 <= j < k < |free| ==> free[j] != free[k])
    && (forall b: nat :: b < init <==> b in live || b in free)
    && (forall b :: b in free ==> b !in live)
    && |live| + |free| == init
  }

  ghost predicate Marked(heads: seq<nat>, live: set<nat>) {
    forall b :: b in live ==> b < |heads| && heads[b] == MAGIC
  }

  /** The block the next allocation takes, if there is one. */
  function Head(free: seq<nat>, init: nat, num: nat): Option<nat> {
    if free != [] then Some(free[0]) else if init < num then Some(init) else None
  }

  function Address(block: Option<nat>): Option<nat> {
    if block.Some? then Some(block.value * BLOCK) else None
  }

  /** Threading one more block onto the end of the list. */
  lemma Extended(heads: seq<nat>, free: seq<nat>, live: set<nat>, init: nat)
    requires Threaded(heads, free, init) && Split(free, live, init) && Marked(heads, live) && init < |heads|
    ensures var heads' := heads[init := init + 1];
            Threaded(heads', free + [init], init + 1) && Split(free + [init], live, init + 1) && Marked(heads', live)
  {
  }

  /** Taking the first block: its header names the next one, if any block is left. */
  lemma Popped(heads: seq<nat>, free: seq<nat>, live: set<nat>, init: nat)
    requires Threaded(heads, free, init) && Split(free, live, init) && Marked(heads, live) && free != []
    ensures free[0] < init <= |heads| && free[0] !in live
    ensures |free| - 1 + |heads| - init > 0 ==> Head(free[1..], init, |heads|) == Some(heads[free[0]])
    ensures |free| - 1 + |heads| - init == 0 ==> Head(free[1..], init, |heads|) == None
    ensures var heads', live' := heads[free[0] := MAGIC], live + {free[0]};
            Threaded(heads', free[1..], init) && Split(free[1..], live', init) && Marked(heads', live')
  {
  }

  /** Giving a block back: it goes in front, and its header names the block that was there. */
  lemma Pushed(heads: seq<nat>, free: seq<nat>, live: set<nat>, init: nat, b: nat, link: nat)
    requires Threaded(heads, free, init) && Split(free, live, init) && Marked(heads, live) && b in live
    requires var h := Head(free, init, |heads|); link == if h.Some? then h.value else |heads|
    ensures var heads' := heads[b := link];
            Threaded(heads', [b] + free, init) && Split([b] + free, live - {b}, init) && Marked(heads', live - {b})
  {
  }

  // ----- Blocks in memory -----

  ghost predicate Fits(mem: seq<byte>, num: nat) {
    num * BLOCK <= |mem|
  }

  ghost function HeadAt(mem: seq<byte>, b: nat): nat
    requires Fits(mem, b + 1)
  {
    Spelled(mem[b * BLOCK..b * BLOCK + HEADER])
  }

  /** What the user of a block may keep in it. */
  ghost function PayloadAt(mem: seq<byte>, b: nat): seq<byte>
    requires Fits(mem, b + 1)
  {
    mem[b * BLOCK + HEADER..b * BLOCK + BLOCK]
  }

  ghost function Heads(mem: seq<byte>, num: nat): (heads: seq<nat>)
    requires Fits(mem, num)
    ensures |heads| == num && forall b :: 0 <= b < num ==> heads[b] == HeadAt(mem, b)
  {
    seq(num, b requires 0 <= b < num => HeadAt(mem, b))
  }

  ghost function Payloads(mem: seq<byte>, num: nat): (payloads: seq<seq<byte>>)
    requires Fits(mem, num)
    ensures |payloads| == num && forall b :: 0 <= b < num ==> payloads[b] == PayloadAt(mem, b)
  {
    seq(num, b requires 0 <= b < num => PayloadAt(mem, b))
  }

  function Updated(payloads: seq<seq<byte>>, b: nat, offset: nat, value: byte): seq<seq<byte>>
    requires b < |payloads| && offset < |payloads[b]|
  {
    var p := payloads[b];
    payloads[b := p[..offset] + [value] + p[offset + 1..]]
  }

  ghost predicate SameOutside(mem: seq<byte>, mem': seq<byte>, lo: nat, hi: nat) {
    |mem| == |mem'| && forall k :: 0 <= k < |mem| && !(lo <= k < hi) ==> mem[k] == mem'[k]
  }

  /** Writing inside one header changes that header and no payload. */
  lemma HeadWritten(mem: seq<byte>, mem': seq<byte>, num: nat, b: nat)
    requires Fits(mem, num) && b < num && SameOutside(mem, mem', b * BLOCK, b * BLOCK + HEADER)
    ensures Heads(mem', num) == Heads(mem, num)[b := HeadAt(mem', b)] && Payloads(mem', num) == Payloads(mem, num)
  {
    forall c: nat | c < num
      ensures c != b ==> HeadAt(mem', c) == HeadAt(mem, c)
      ensures PayloadAt(mem', c) == PayloadAt(mem, c)
    {
      var at := c * BLOCK;
      assert c != b ==> mem'[at..at + HEADER] == mem[at..at + HEADER];
    }
  }

  /** Writing inside one payload changes that payload and no header. */
  lemma PayloadWritten(mem: seq<byte>, mem': seq<byte>, num: nat, b: nat)
    requires Fits(mem, num) && b < num && SameOutside(mem, mem', b * BLOCK + HEADER, b * BLOCK + BLOCK)
    ensures Heads(mem', num) == Heads(mem, num) && Payloads(mem', num) == Payloads(mem, num)[b := PayloadAt(mem', b)]
  {
    forall c: nat | c < num
      ensures HeadAt(mem', c) == HeadAt(mem, c)
      ensures c != b ==> PayloadAt(mem', c) == PayloadAt(mem, c)
    {
      var at := c * BLOCK;
      assert mem'[at..at + HEADER] == mem[at..at + HEADER];
    }
  }

  // ----- The allocator -----

  lemma WordSpelled(value: nat)
    requires value < UINT64
    ensures |BigEndian(value, HEADER)| == HEADER && Spelled(BigEndian(value, HEADER)) == value
  {
    SpelledBigEndian(value, HEADER);
    Powers();
  }

  /** A machine word written to memory; the byte order is immaterial. */
  method StoreWord(memory: array<byte>, at: nat, value: nat)
    requires at + HEADER <= memory.Length && value < UINT64
    modifies memory
    ensures Spelled(memory[at..at + HEADER]) == value
    ensures SameOutside(old(memory[..]), memory[..], at, at + HEADER)
  {
    hide Spelled;
    hide BigEndian;
    WordSpelled(value);
    var bytes := BigEndian(value, HEADER);
    for i := 0 to HEADER
      invariant memory[at..at + i] == bytes[..i]
      invariant SameOutside(old(memory[..]), memory[..], at, at + HEADER)
    {
      memory[at + i] := bytes[i];
    }
    assert memory[at..at + HEADER] == bytes;
  }

  method LoadWord(memory: array<byte>, at: nat) returns (value: nat)
    requires at + HEADER <= memory.Length
    ensures value == Spelled(memory[at..at + HEADER])
  {
    value := 0;
    for i := 0 to HEADER
      invariant value == Spelled(memory[at..at + i])
    {
      assert memory[at..at + i + 1][..i] == memory[at..at + i];
      value := 256 * value + memory[at + i];
    }
  }

  class Manager {
    const memory: array<byte>
    const numOfBlocks: nat
    var numFreeBlocks: nat
    var numInitialized: nat
    var next: Option<nat>
    ghost var free: seq<nat>
    ghost var live: set<nat>

    ghost predicate Valid()
      reads this, memory
    {
      && numOfBlocks * BLOCK <= memory.Length && numOfBlocks < UINT64
      && var heads := Heads(memory[..], numOfBlocks);
      && Threaded(heads, free, numInitialized)
      && Split(free, live, numInitialized)
      && Marked(heads, live)
      && numFreeBlocks == |free| + numOfBlocks - numInitialized
      && next == Address(Head(free, numInitialized, numOfBlocks))
    }

    /** The payload of every block. */
    ghost function Contents(): seq<seq<byte>>
      requires Fits(memory[..], numOfBlocks)
      reads this, memory
    {
      Payloads(memory[..], numOfBlocks)
    }

    constructor (memory: array<byte>)
      requires BLOCK <= memory.Length < UINT64
      ensures Valid() && this.memory == memory && numOfBlocks == memory.Length / BLOCK
      ensures live == {} && free == [] && numInitialized == 0
    {
      this.memory := memory;
      numOfBlocks := memory.Length / BLOCK;
      numInitialized, numFreeBlocks := 0, memory.Length / BLOCK;
      next := Some(0);
      free, live := [], {};
    }

    method SetHead(at: nat, ghost b: nat, value: nat)
      requires Fits(memory[..], numOfBlocks) && b < numOfBlocks && at == b * BLOCK && value < UINT64
      modifies memory
      ensures Heads(memory[..], numOfBlocks) == old(Heads(memory[..], numOfBlocks))[b := value]
      ensures Contents() == old(Contents())
    {
      ghost var before := memory[..];
      StoreWord(memory, at, value);
      HeadWritten(before, memory[..], numOfBlocks, b);
      assert memory[at..at + HEADER] == memory[..][at..at + HEADER];
    }

    /** Threads the next unused block onto the free list. */
    method Initialize()
      requires Valid()
      modifies this`numInitialized, this`free, memory
      ensures Valid() && live == old(live) && Contents() == old(Contents())
      ensures numFreeBlocks > 0 ==> free != []
    {
      if numInitialized < numOfBlocks {
        Extended(Heads(memory[..], numOfBlocks), free, live, numInitialized);
        SetHead(numInitialized * BLOCK, numInitialized, numInitialized + 1);
        free := free + [numInitialized];
        numInitialized := numInitialized + 1;
      }
    }

    /** The block number that a block's header holds. */
    method LoadHead(at: nat, ghost b: nat) returns (value: nat)
      requires Fits(memory[..], numOfBlocks) && b < numOfBlocks && at == b * BLOCK
      ensures value == Heads(memory[..], numOfBlocks)[b]
    {
      value := LoadWord(memory, at);
      assert memory[at..at + HEADER] == memory[..][at..at + HEADER];
    }

    /** Where the list goes on after its first block, according to that block's header. */
    method Successor(at: nat) returns (n: Option<nat>)
      requires Valid() && free != [] && at == free[0] * BLOCK
      ensures n == Address(Head(free[1..], numInitialized, numOfBlocks))
    {
      Popped(Heads(memory[..], numOfBlocks), free, live, numInitialized);
      if numFreeBlocks - 1 > 0 {
        var link := LoadHead(at, free[0]);
        return Some(link * BLOCK);
      }
      return None;
    }

    /** Takes the first block off the free list. */
    method Take() returns (at: nat)
      requires Valid() && free != []
      modifies this, memory
      ensures Valid() && Contents() == old(Contents())
      ensures var b := old(free[0]); b !in old(live) && live == old(live) + {b} && at == b * BLOCK
    {
      hide Threaded;
      hide Split;
      hide Marked;
      hide HeadAt;
      hide PayloadAt;
      at := next.value;
      ghost var b := free[0];
      Popped(Heads(memory[..], numOfBlocks), free, live, numInitialized);
      next := Successor(at);
      numFreeBlocks := numFreeBlocks - 1;
      SetHead(at, b, MAGIC);
      free, live := free[1..], live + {b};
    }

    /** Allocates `size` bytes: fails exactly when they do not fit in a block or every block is live, and
      * otherwise returns the payload of a block that was not live. No payload changes. */
    method Malloc(size: nat) returns (r: Option<nat>, ghost b: nat)
      requires Valid()
      modifies this, memory
      ensures Valid() && Contents() == old(Contents())
      ensures r.Some? <==> size <= BLOCK - HEADER && |old(live)| < numOfBlocks
      ensures r.None? ==> live == old(live)
      ensures r.Some? ==>
        b < numOfBlocks && b !in old(live) && live == old(live) + {b} && r.value == b * BLOCK + HEADER
    {
      r, b := None, 0;
      if size > BLOCK - HEADER {
        return;
      }
      Initialize();
      if numFreeBlocks > 0 {
        b := free[0];
        var at := Take();
        r := Some(at + HEADER);
      }
    }

    /** Gives a live block back. No payload changes. */
    method Free(ptr: nat, ghost b: nat)
      requires Valid() && b in live && ptr == b * BLOCK + HEADER
      modifies this, memory
      ensures Valid() && Contents() == old(Contents()) && live == old(live) - {b}
    {
      var at := ptr - HEADER;
      var link := if next.Some? then next.value / BLOCK else numOfBlocks;
      Pushed(Heads(memory[..], numOfBlocks), free, live, numInitialized, b, link);
      SetHead(at, b, link);
      next := Some(at);
      numFreeBlocks := numFreeBlocks + 1;
      free, live := [b] + free, live - {b};
    }

    /** A pointer is returned as it is while the new size fits, whatever it points to; otherwise its block is given
        back. */
    method Realloc(ptr: nat, ghost b: nat, size: nat) returns (r: Option<nat>)
      requires Valid() && (size > BLOCK - HEADER ==> b in live && ptr == b * BLOCK + HEADER)
      modifies this, memory
      ensures Valid() && Contents() == old(Contents())
      ensures r == if size <= BLOCK - HEADER then Some(ptr) else None
      ensures live == old(live) - if r.None? then {b} else {}
    {
      if size > BLOCK - HEADER {
        Free(ptr, b);
        return None;
      }
      return Some(ptr);
    }

    /** A plugin writing to a block it holds disturbs neither the free list nor another block. */
    method Write(ptr: nat, ghost b: nat, offset: nat, value: byte)
      requires Valid() && b in live && ptr == b * BLOCK + HEADER && offset < BLOCK - HEADER
      modifies memory
      ensures Valid() && Contents() == Updated(old(Contents()), b, offset, value)
    {
      ghost var before := memory[..];
      memory[ptr + offset] := value;
      PayloadWritten(before, memory[..], numOfBlocks, b);
      ghost var was := PayloadAt(before, b);
      assert PayloadAt(memory[..], b) == was[..offset] + [value] + was[offset + 1..];
    }

    /** The threaded list and the blocks never used are exactly those that are not live. */
    lemma FreeIsTheRest()
      requires Valid()
      ensures forall b: nat :: b < numOfBlocks ==> (b !in live <==> b in free || numInitialized <= b)
      ensures numFreeBlocks == numOfBlocks - |live|
    {
    }
  }

  // ----- Any client run -----

  /** A client holds blocks in a list, and names them by their place in it. */
  datatype Op = Alloc(size: nat) | Release(i: nat) | Store(i: nat, offset: nat, value: byte)

  /** What an allocator is for: independent cells, at most `num` at a time, each remembering its writes. */
  type Cell = map<nat, byte>

  function Noted(cell: Cell, offset: nat, value: byte): Cell {
    cell[offset := value]
  }

  function Apply(cells: seq<Cell>, op: Op, num: nat): seq<Cell> {
    match op
    case Alloc(size) => if size <= BLOCK - HEADER && |cells| < num then cells + [map[]] else cells
    case Release(i) => if i < |cells| then Removed(cells, i) else cells
    case Store(i, offset, value) =>
      if i < |cells| && offset < BLOCK - HEADER then cells[i := Noted(cells[i], offset, value)] else cells
  }

  function ApplyAll(cells: seq<Cell>, ops: seq<Op>, num: nat): seq<Cell> {
    if ops == [] then cells else Apply(ApplyAll(cells, ops[..|ops| - 1], num), ops[|ops| - 1], num)
  }

  ghost predicate ReadsAs(payload: seq<byte>, cell: Cell) {
    forall o :: o in cell ==> o < |payload| && payload[o] == cell[o]
  }

  /** The client's pointers lead to the live blocks, each once, and what it reads there is its cells. */
  ghost predicate Holds(live: set<nat>, contents: seq<seq<byte>>, ptrs: seq<nat>, cells: seq<Cell>) {
    && |live| == |ptrs| == |cells|
    && (forall b :: b in live ==> b < |contents|)
    && (forall i :: 0 <= i < |ptrs| ==> ptrs[i] % BLOCK == HEADER && ptrs[i] / BLOCK in live)
    && (forall i, j :: 0 <= i < j < |ptrs| ==> ptrs[i] / BLOCK != ptrs[j] / BLOCK)
    && (forall i :: 0 <= i < |ptrs| ==> ReadsAs(contents[ptrs[i] / BLOCK], cells[i]))
  }

  lemma Allocated(live: set<nat>, contents: seq<seq<byte>>, ptrs: seq<nat>, cells: seq<Cell>, b: nat)
    requires Holds(live, contents, ptrs, cells) && b !in live && b < |contents|
    ensures Holds(live + {b}, contents, ptrs + [b * BLOCK + HEADER], cells + [map[]])
  {
  }

  lemma Released(live: set<nat>, contents: seq<seq<byte>>, ptrs: seq<nat>, cells: seq<Cell>, i: nat)
    requires Holds(live, contents, ptrs, cells) && i < |ptrs|
    ensures Holds(live - {ptrs[i] / BLOCK}, contents, Removed(ptrs, i), Removed(cells, i))
  {
  }

  lemma Stored(live: set<nat>, contents: seq<seq<byte>>, ptrs: seq<nat>, cells: seq<Cell>, i: nat, offset: nat,
               value: byte)
    requires Holds(live, contents, ptrs, cells) && i < |ptrs| && offset < |contents[ptrs[i] / BLOCK]|
    ensures var contents' := Updated(contents, ptrs[i] / BLOCK, offset, value);
            Holds(live, contents', ptrs, cells[i := Noted(cells[i], offset, value)])
  {
  }

  method AllocStep(m: Manager, ptrs: seq<nat>, ghost cells: seq<Cell>, size: nat) returns (ptrs': seq<nat>)
    requires m.Valid() && Holds(m.live, m.Contents(), ptrs, cells)
    modifies m, m.memory
    ensures m.Valid() && Holds(m.live, m.Contents(), ptrs', Apply(cells, Alloc(size), m.numOfBlocks))
  {
    ptrs' := ptrs;
    ghost var live := m.live;
    var r, b := m.Malloc(size);
    if r.Some? {
      Allocated(live, m.Contents(), ptrs, cells, b);
      ptrs' := ptrs + [r.value];
    }
  }

  method ReleaseStep(m: Manager, ptrs: seq<nat>, ghost cells: seq<Cell>, i: nat) returns (ptrs': seq<nat>)
    requires m.Valid() && Holds(m.live, m.Contents(), ptrs, cells)
    modifies m, m.memory
    ensures m.Valid() && Holds(m.live, m.Contents(), ptrs', Apply(cells, Release(i), m.numOfBlocks))
  {
    ptrs' := ptrs;
    if i < |ptrs| {
      Released(m.live, m.Contents(), ptrs, cells, i);
      m.Free(ptrs[i], ptrs[i] / BLOCK);
      ptrs' := Removed(ptrs, i);
    }
  }

  method StoreStep(m: Manager, ptrs: seq<nat>, ghost cells: seq<Cell>, i: nat, offset: nat, value: byte)
    requires m.Valid() && Holds(m.live, m.Contents(), ptrs, cells)
    modifies m, m.memory
    ensures m.Valid() && Holds(m.live, m.Contents(), ptrs, Apply(cells, Store(i, offset, value), m.numOfBlocks))
  {
    if i < |ptrs| && offset < BLOCK - HEADER {
      Stored(m.live, m.Contents(), ptrs, cells, i, offset, value);
      m.Write(ptrs[i], ptrs[i] / BLOCK, offset, value);
    }
  }

  /** After any run of a client on a fresh pool, its pointers lead to distinct blocks, as many as it was promised,
    * and reading through any of them gives what was last written there since it was allocated. */
  method Run(m: Manager, ops: seq<Op>) returns (ptrs: seq<nat>)
    requires m.Valid() && m.live == {}
    modifies m, m.memory
    ensures m.Valid() && Holds(m.live, m.Contents(), ptrs, ApplyAll([], ops, m.numOfBlocks))
  {
    ptrs := [];
    for n := 0 to |ops|
      invariant m.Valid() && Holds(m.live, m.Contents(), ptrs, ApplyAll([], ops[..n], m.numOfBlocks))
    {
      ghost var cells := ApplyAll([], ops[..n], m.numOfBlocks);
      assert ops[..n + 1][..n] == ops[..n];
      match ops[n]
      case Alloc(size) => ptrs := AllocStep(m, ptrs, cells, size);
      case Release(i) => ptrs := ReleaseStep(m, ptrs, cells, i);
      case Store(i, offset, value) => StoreStep(m, ptrs, cells, i, offset, value);
    }
    assert ops[..|ops|] == ops;
  }
}
