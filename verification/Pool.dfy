/**
 The memory pool of src/base/nv_pool.c: a bump allocator over a list of blocks
 with first fit, auto-extension, large blocks and statistics. Addresses are
 numbers; what the system allocator answers is a parameter; size_t arithmetic
 wraps at 2^64.
 */
module Pool {
  import opened Powers

  const WORD: nat := 0x1_0000_0000_0000_0000

  datatype Option<+T> = None | Some(value: T)

  datatype Block = Block(start: nat, size: nat, used: nat, cur: nat)

  /** A block of memory handed out. */
  datatype Range = Range(addr: nat, len: nat)

  datatype Stats = Stats(totalBlocks: nat, totalSize: int, usedSize: int, freeSize: int, allocs: nat, frees: nat)

  datatype Config = Config(initialSize: nat, maxSize: nat, minSize: nat, autoExtend: bool)

  // ----- blocks -----

  /** nv_pool_align_size, with wrap-around. */
  function AlignSize(size: nat): nat {
    (size + 7) % WORD / 8 * 8
  }

  lemma AlignSizeExact(size: nat)
    requires size + 7 < WORD
    ensures size <= AlignSize(size) < size + 8 && AlignSize(size) % 8 == 0 && AlignSize(size) < WORD
    ensures size % 8 == 0 <==> AlignSize(size) == size
  {
  }

  /** The rounding covers the request unless it is within 7 bytes of the word's end; then it becomes 0. */
  lemma AlignSizeRightIff(size: nat)
    requires size < WORD
    ensures size <= AlignSize(size) <==> size + 7 < WORD
    ensures size + 7 >= WORD ==> AlignSize(size) == 0
  {
    if size + 7 >= WORD {
      assert (size + 7) % WORD == size + 7 - WORD;
    } else {
      AlignSizeExact(size);
    }
  }

  /** The bytes the caller relies on: its request, rounded up where that is possible. */
  function Need(size: nat): nat {
    if size + 7 < WORD then AlignSize(size) else size
  }

  ghost predicate BlockOk(b: Block) {
    && 0 < b.start && b.start + b.size < WORD && b.used <= b.size && b.cur == b.start + b.used
    && b.start % 8 == 0 && b.size % 8 == 0 && b.used % 8 == 0
  }

  /** The test of nv_pool_alloc, in size_t arithmetic. */
  predicate Fits(b: Block, s: nat) {
    (b.used + s) % WORD <= b.size
  }

  /** The test is right exactly when its sum does not wrap. */
  lemma FitTestExact(b: Block, s: nat)
    requires BlockOk(b) && s < WORD
    ensures (Fits(b, s) == (b.used + s <= b.size)) <==> b.used + s < WORD
  {
    if b.used + s >= WORD {
      assert (b.used + s) % WORD == b.used + s - WORD;
    }
  }

  /** nv_pool_block_alloc: None where the pointer test refuses. */
  function Bump(b: Block, s: nat): Option<Block> {
    if (b.cur + s) % WORD > b.start + b.size then None
    else Some(b.(cur := (b.cur + s) % WORD, used := (b.used + s) % WORD))
  }

  /** Where the sum does not wrap, a block that passes the test is bumped by exactly s. */
  lemma BumpExact(b: Block, s: nat)
    requires BlockOk(b) && b.used + s < WORD && s % 8 == 0 && Fits(b, s)
    ensures b.used + s <= b.size
    ensures Bump(b, s) == Some(Advanced(b, s)) && BlockOk(Bump(b, s).value)
  {
    SmallModulo(b.used + s);
    SmallModulo(b.cur + s);
    MultiplesOf8(b.used, s);
  }

  lemma SmallModulo(x: nat)
    ensures x < WORD ==> x % WORD == x
  {
  }

  lemma MultiplesOf8(x: nat, y: nat)
    requires x % 8 == 0 && y % 8 == 0
    ensures (x + y) % 8 == 0
  {
  }

  /** A request whose sum wraps is granted and moves the block's mark back over memory in use. */
  lemma WrappedRequestRewinds(b: Block, s: nat)
    requires BlockOk(b) && s < WORD && s % 8 == 0 && b.used + s >= WORD
    ensures Fits(b, s) && Bump(b, s).Some? && Bump(b, s).value.cur < b.cur
  {
    assert (b.used + s) % WORD == b.used + s - WORD;
    assert (b.cur + s) % WORD == b.cur + s - WORD;
  }

  // ----- lists of blocks -----

  ghost predicate Apart(b: Block, c: Block) {
    b.start + b.size <= c.start || c.start + c.size <= b.start
  }

  ghost predicate Disjoint(bs: seq<Block>) {
    forall i: nat, j: nat {:trigger Apart(bs[i], bs[j])} :: i < j < |bs| ==> Apart(bs[i], bs[j])
  }

  ghost predicate AllOk(bs: seq<Block>) {
    Disjoint(bs) && forall b :: b in bs ==> BlockOk(b)
  }

  function SumUsed(bs: seq<Block>): int {
    if bs == [] then 0 else bs[0].used + SumUsed(bs[1..])
  }

  function SumSize(bs: seq<Block>): int {
    if bs == [] then 0 else bs[0].size + SumSize(bs[1..])
  }

  lemma {:induction false} SumsUpdate(bs: seq<Block>, i: nat, b: Block)
    requires i < |bs|
    ensures SumUsed(bs[i := b]) == SumUsed(bs) - bs[i].used + b.used
    ensures SumSize(bs[i := b]) == SumSize(bs) - bs[i].size + b.size
  {
    if i > 0 {
      assert bs[i := b][1..] == bs[1..][i - 1 := b];
      SumsUpdate(bs[1..], i - 1, b);
    }
  }

  lemma {:induction false} SumsAppend(a: seq<Block>, b: seq<Block>)
    ensures SumUsed(a + b) == SumUsed(a) + SumUsed(b) && SumSize(a + b) == SumSize(a) + SumSize(b)
  {
    if a == [] {
      assert a + b == b;
    } else {
      assert (a + b)[1..] == a[1..] + b;
      SumsAppend(a[1..], b);
    }
  }

  // ----- what has been handed out -----

  ghost predicate Inside(r: Range, b: Block) {
    b.start <= r.addr && r.addr + r.len <= b.cur
  }

  ghost predicate Housed(bs: seq<Block>, r: Range) {
    exists b :: b in bs && Inside(r, b)
  }

  ghost predicate ApartRanges(q: Range, r: Range) {
    q.addr + q.len <= r.addr || r.addr + r.len <= q.addr
  }

  /** Every range handed out lies in the used part of a block, on an 8-byte boundary, apart from all others. */
  ghost predicate LiveOk(bs: seq<Block>, live: seq<Range>) {
    && (forall r :: r in live ==> Housed(bs, r) && r.addr % 8 == 0 && r.len > 0)
    && (forall i: nat, j: nat {:trigger ApartRanges(live[i], live[j])} :: i < j < |live| ==> ApartRanges(live[i], live[j]))
  }

  function Advanced(b: Block, s: nat): Block {
    b.(cur := b.cur + s, used := b.used + s)
  }

  /** Replacing a block by the same block with a later mark. */
  lemma AdvanceOk(bs: seq<Block>, i: nat, s: nat)
    requires AllOk(bs) && i < |bs| && s % 8 == 0 && bs[i].used + s <= bs[i].size
    ensures AllOk(bs[i := Advanced(bs[i], s)])
  {
    var b := Advanced(bs[i], s);
    var bs' := bs[i := b];
    assert bs[i] in bs;
    forall j: nat, k: nat | j < k < |bs'| ensures Apart(bs'[j], bs'[k]) {
      assert Apart(bs[j], bs[k]);
    }
    forall c | c in bs' ensures BlockOk(c) {
      assert c == b || c in bs;
    }
  }

  lemma AdvanceHouses(bs: seq<Block>, i: nat, s: nat, r: Range)
    requires i < |bs| && Housed(bs, r)
    ensures Housed(bs[i := Advanced(bs[i], s)], r)
  {
    var b' := Advanced(bs[i], s);
    var bs' := bs[i := b'];
    var b :| b in bs && Inside(r, b);
    var j: nat :| j < |bs| && bs[j] == b;
    assert bs'[j] in bs' && Inside(r, bs'[j]);
  }

  /** Nothing handed out reaches past a block's mark. */
  lemma FreshIsApart(bs: seq<Block>, i: nat, s: nat, r: Range)
    requires AllOk(bs) && i < |bs| && bs[i].used + s <= bs[i].size && Housed(bs, r)
    ensures ApartRanges(r, Range(bs[i].cur, s))
  {
    var b :| b in bs && Inside(r, b);
    var j: nat :| j < |bs| && bs[j] == b;
    assert bs[i] in bs;
    if j < i { assert Apart(bs[j], bs[i]); }
    if i < j { assert Apart(bs[i], bs[j]); }
  }

  /** Handing out s bytes at the mark of block i: all that is handed out lies in a block, */
  lemma HandOutHoused(bs: seq<Block>, live: seq<Range>, i: nat, s: nat)
    requires AllOk(bs) && LiveOk(bs, live) && i < |bs| && s > 0 && bs[i].used + s <= bs[i].size
    ensures forall r :: r in live + [Range(bs[i].cur, s)] ==> Housed(bs[i := Advanced(bs[i], s)], r) && r.addr % 8 == 0 && r.len > 0
  {
    var bs', n := bs[i := Advanced(bs[i], s)], Range(bs[i].cur, s);
    assert bs[i] in bs && bs'[i] in bs' && Inside(n, bs'[i]);
    MultiplesOf8(bs[i].start, bs[i].used);
    forall r | r in live + [n] ensures Housed(bs', r) && r.addr % 8 == 0 && r.len > 0 {
      if r in live { AdvanceHouses(bs, i, s, r); }
    }
  }

  /** and apart from the rest. */
  lemma HandOut(bs: seq<Block>, live: seq<Range>, i: nat, s: nat)
    requires AllOk(bs) && LiveOk(bs, live) && i < |bs| && s % 8 == 0 && s > 0 && bs[i].used + s <= bs[i].size
    ensures AllOk(bs[i := Advanced(bs[i], s)]) && LiveOk(bs[i := Advanced(bs[i], s)], live + [Range(bs[i].cur, s)])
  {
    AdvanceOk(bs, i, s);
    HandOutHoused(bs, live, i, s);
    var live' := live + [Range(bs[i].cur, s)];
    forall j: nat, k: nat | j < k < |live'| ensures ApartRanges(live'[j], live'[k]) {
      if k == |live| {
        assert live[j] in live;
        FreshIsApart(bs, i, s, live[j]);
      } else {
        assert ApartRanges(live[j], live[k]);
      }
    }
  }

  /** A new block of memory from the system, disjoint from all others. */
  ghost predicate NewBlock(bs: seq<Block>, b: Block) {
    BlockOk(b) && b.used == 0 && forall c :: c in bs ==> Apart(b, c)
  }

  lemma InsertBlock(x: seq<Block>, y: seq<Block>, live: seq<Range>, b: Block)
    requires AllOk(x + y) && LiveOk(x + y, live) && NewBlock(x + y, b)
    ensures AllOk(x + [b] + y) && LiveOk(x + [b] + y, live)
  {
    var bs, bs', n := x + y, x + [b] + y, |x|;
    forall j: nat, k: nat | j < k < |bs'| ensures Apart(bs'[j], bs'[k]) {
      if j == n { assert bs[k - 1] in bs; }
      else if k == n { assert bs[j] in bs; }
      else { assert Apart(bs[if j < n then j else j - 1], bs[if k < n then k else k - 1]); }
    }
    forall r | r in live ensures Housed(bs', r) {
      var c :| c in bs && Inside(r, c);
      assert c in bs';
    }
  }

  lemma SumsInsert(x: seq<Block>, y: seq<Block>, b: Block)
    ensures SumUsed(x + [b] + y) == SumUsed(x + y) + b.used && SumSize(x + [b] + y) == SumSize(x + y) + b.size
  {
    SumsAppend(x, y);
    SumsAppend(x + [b], y);
    SumsAppend(x, [b]);
  }

  /** No block's fit test wraps for this request. */
  ghost predicate NoWrap(bs: seq<Block>, s: nat) {
    forall b :: b in bs ==> b.used + s < WORD
  }

  ghost predicate NoneFits(bs: seq<Block>, s: nat) {
    forall b :: b in bs ==> b.used + s > b.size
  }

  ghost predicate NonePasses(bs: seq<Block>, s: nat) {
    forall b :: b in bs ==> !Fits(b, s)
  }

  function Max(a: nat, b: nat): nat {
    if a > b then a else b
  }

  /** What a pool consists of beside its counters. */
  datatype Layout = Layout(blocks: seq<Block>, large: seq<Block>, current: Option<nat>)

  /** The current block if the request fits there, else the first block where it fits. */
  ghost predicate Chosen(blocks: seq<Block>, current: Option<nat>, i: nat, s: nat) {
    && i < |blocks| && blocks[i].used + s <= blocks[i].size
    && (current == Some(i)
        || (&& (current.Some? && current.value < |blocks| ==> blocks[current.value].used + s > blocks[current.value].size)
            && forall j :: 0 <= j < i ==> blocks[j].used + s > blocks[j].size))
  }

  // ----- nv_pool_t -----

  class MemoryPool {
    const maxSize: nat
    const minSize: nat
    const autoExtend: bool
    var blocks: seq<Block>
    var large: seq<Block>
    var current: Option<nat>
    var stats: Stats
    ghost var live: seq<Range>

    ghost predicate Valid()
      reads this
    {
      && AllOk(blocks + large) && LiveOk(blocks + large, live)
      && (current.Some? ==> current.value < |blocks|)
      && minSize + 7 < WORD
    }

    ghost function View(): Layout
      reads this
    {
      Layout(blocks, large, current)
    }

    /** An extension: a block of at least min_size in front, which becomes current. */
    ghost predicate Extended(was: Layout, s: nat, mem: nat)
      reads this
    {
      View() == Layout([Block(mem, AlignSize(Max(s, minSize)), s, mem + s)] + was.blocks, was.large, Some(0))
    }

    /** A block of its own, used up by the request. */
    ghost predicate Enlarged(was: Layout, s: nat, mem: nat)
      reads this
    {
      View() == Layout(was.blocks, [Block(mem, s, s, mem + s)] + was.large, was.current)
    }

    /** The size a new block counts for. */
    ghost function NewSize(s: nat): nat {
      if autoExtend && Max(s, minSize) <= maxSize then Max(s, minSize) else s
    }

    /** Growth for a request: an extension where that is allowed and not too large, else a large block, and nothing without memory. */
    ghost predicate Grown(was: Layout, s: nat, mem: Option<nat>, granted: bool)
      reads this
    {
      if !granted then View() == was
      else mem.Some? && if autoExtend && Max(s, minSize) <= maxSize then Extended(was, s, mem.value) else Enlarged(was, s, mem.value)
    }

    /** The counters agree with the blocks. */
    ghost predicate Accounted()
      reads this
    {
      && stats.usedSize == SumUsed(blocks + large) && stats.freeSize == stats.totalSize - stats.usedSize
      && stats.totalBlocks == |blocks| + |large| && stats.allocs == |live|
    }

    /** total_size is the memory held. */
    ghost predicate Sized()
      reads this
    {
      stats.totalSize == SumSize(blocks + large)
    }

    /** nv_pool_create: the initial block counts with its configured, not its rounded size. */
    constructor (c: Config, mem: nat)
      requires c.minSize + 7 < WORD && c.initialSize < WORD
      requires c.initialSize > 0 ==> BlockOk(Block(mem, AlignSize(c.initialSize), 0, mem))
      ensures Valid() && Accounted() && live == []
      ensures maxSize == c.maxSize && minSize == c.minSize && autoExtend == c.autoExtend
      ensures Sized() <==> c.initialSize % 8 == 0
      ensures stats.totalSize == c.initialSize
      ensures View() == if c.initialSize == 0 then Layout([], [], None) else Layout([Block(mem, AlignSize(c.initialSize), 0, mem)], [], Some(0))
    {
      maxSize, minSize, autoExtend := c.maxSize, c.minSize, c.autoExtend;
      large, live := [], [];
      if c.initialSize > 0 {
        blocks := [Block(mem, AlignSize(c.initialSize), 0, mem)];
        current := Some(0);
        stats := Stats(1, c.initialSize, 0, c.initialSize, 0, 0);
      } else {
        blocks, current, stats := [], None, Stats(0, 0, 0, 0, 0, 0);
      }
      new;
      assert blocks + large == blocks;
      AlignSizeRightIff(c.initialSize);
      if c.initialSize + 7 < WORD { AlignSizeExact(c.initialSize); }
      assert SumSize(blocks) == if blocks == [] then 0 else AlignSize(c.initialSize) + SumSize([]);
    }

    /**
     Bump block i, which passes the fit test, and count the allocation; the caller takes the result for `need` bytes.
     All is well if the test was right and s is what the caller needs.
     */
    method TakeFrom(i: nat, s: nat, ghost need: nat) returns (p: nat)
      requires Valid() && i < |blocks| && Fits(blocks[i], s) && s < WORD && s % 8 == 0
      modifies this`blocks, this`stats, this`live
      ensures p == old(blocks)[i].cur && live == old(live) + [Range(p, need)]
      ensures old(blocks)[i].used + s < WORD ==> blocks == old(blocks)[i := Advanced(old(blocks)[i], s)]
      ensures old(blocks)[i].used + s < WORD && s == need > 0 ==>
                && Valid()
                && (old(Accounted()) ==> Accounted()) && (old(Sized()) <==> Sized())
      ensures stats.totalSize == old(stats.totalSize)
    {
      var b := blocks[i];
      assert b in blocks + large;
      if b.used + s < WORD {
        BumpExact(b, s);
        if s == need > 0 { HandOut(blocks + large, live, i, s); }
      } else {
        WrappedRequestRewinds(b, s);
      }
      var b' := Bump(b, s).value;
      SumsUpdate(blocks + large, i, b');
      assert (blocks + large)[i := b'] == blocks[i := b'] + large;
      p := b.cur;
      blocks := blocks[i := b'];
      stats := stats.(usedSize := stats.usedSize + s, freeSize := stats.freeSize - s, allocs := stats.allocs + 1);
      live := live + [Range(p, need)];
    }

    /** First fit. */
    method FindFit(s: nat) returns (i: nat)
      ensures i <= |blocks| && (i < |blocks| ==> Fits(blocks[i], s))
      ensures forall j :: 0 <= j < i ==> !Fits(blocks[j], s)
    {
      i := 0;
      while i < |blocks| && !Fits(blocks[i], s)
        invariant i <= |blocks| && forall j :: 0 <= j < i ==> !Fits(blocks[j], s)
      {
        i := i + 1;
      }
    }

    /** A new block becomes the first and current one; its size counts as asked for. */
    method PushBlock(mem: nat, asked: nat)
      requires Valid() && NewBlock(blocks + large, Block(mem, AlignSize(asked), 0, mem))
      modifies this`blocks, this`current, this`stats
      ensures Valid() && blocks == [Block(mem, AlignSize(asked), 0, mem)] + old(blocks) && current == Some(0)
      ensures old(Accounted()) ==> Accounted()
      ensures old(Sized()) ==> (Sized() <==> AlignSize(asked) == asked)
      ensures stats.totalSize == old(stats.totalSize) + asked
    {
      var b := Block(mem, AlignSize(asked), 0, mem);
      assert [] + (blocks + large) == blocks + large && [] + [b] + (blocks + large) == ([b] + blocks) + large;
      InsertBlock([], blocks + large, live, b);
      SumsInsert([], blocks + large, b);
      blocks := [b] + blocks;
      current := Some(0);
      stats := stats.(totalBlocks := stats.totalBlocks + 1, totalSize := stats.totalSize + asked, freeSize := stats.freeSize + asked);
    }

    /** A block of its own for a request above max_size. */
    method PushLarge(mem: nat, s: nat) returns (p: nat)
      requires Valid() && s % 8 == 0 && s > 0 && NewBlock(blocks + large, Block(mem, s, 0, mem))
      modifies this`large, this`stats, this`live
      ensures p == mem && Valid() && live == old(live) + [Range(p, s)] && large == [Block(mem, s, s, mem + s)] + old(large)
      ensures old(Accounted()) ==> Accounted()
      ensures old(Sized()) ==> Sized()
      ensures stats.totalSize == old(stats.totalSize) + s
    {
      var b := Block(mem, s, 0, mem);
      BumpExact(b, s);
      var b' := Bump(b, s).value;
      InsertBlock(blocks, large, live, b);
      SumsInsert(blocks, large, b);
      var bs := blocks + [b] + large;
      HandOut(bs, live, |blocks|, s);
      SumsUpdate(bs, |blocks|, b');
      assert bs[|blocks| := b'] == blocks + ([b'] + large);
      p := mem;
      large := [b'] + large;
      stats := Stats(stats.totalBlocks + 1, stats.totalSize + s, stats.usedSize + s, stats.freeSize + s - s, stats.allocs + 1, stats.frees);
      live := live + [Range(p, s)];
    }

    /** The size of the block a request would be given if none fits; None if none would be made. */
    function Wanted(s: nat): Option<nat> {
      var grown := if s > minSize then s else minSize;
      if autoExtend && grown <= maxSize then Some(grown) else if s > maxSize then Some(s) else None
    }

    /** No block is made exactly for a request within max_size of a pool that must not extend, or not by so little. */
    lemma WantedIff(s: nat)
      ensures Wanted(s).None? <==> s <= maxSize && !(autoExtend && minSize <= maxSize)
      ensures Wanted(s).Some? ==> Wanted(s).value == if autoExtend && Max(s, minSize) <= maxSize then Max(s, minSize) else s
    {
    }

    /** An extension for this request counts min_size, which is not the size of its block. */
    predicate Miscounts(s: nat) {
      autoExtend && s < minSize <= maxSize && minSize % 8 != 0
    }

    /** nv_malloc's answer for that block: an 8-aligned piece of memory apart from all blocks. */
    ghost predicate MemOk(s: nat, mem: Option<nat>)
      reads this
    {
      Wanted(s).Some? && mem.Some? ==>
        NewBlock(blocks + large, Block(mem.value, AlignSize(Wanted(s).value), 0, mem.value))
    }

    /** The extension: the new block serves the request. */
    method GrowBlock(s: nat, ghost need: nat, mem: nat, grown: nat) returns (p: nat)
      requires Valid() && s % 8 == 0 && s <= grown && grown + 7 < WORD && grown == Max(s, minSize)
      requires NewBlock(blocks + large, Block(mem, AlignSize(grown), 0, mem))
      modifies this`blocks, this`current, this`stats, this`live
      ensures p == mem && live == old(live) + [Range(p, need)] && Extended(old(View()), s, mem)
      ensures stats.totalSize == old(stats.totalSize) + grown
      ensures s == need > 0 ==>
                Valid() && (old(Accounted()) ==> Accounted()) && (old(Sized()) ==> (Sized() <==> AlignSize(grown) == grown))
    {
      AlignSizeExact(grown);
      ghost var was := blocks;
      PushBlock(mem, grown);
      SmallModulo(0 + s);
      p := TakeFrom(0, s, need);
      assert blocks == [Advanced(Block(mem, AlignSize(grown), 0, mem), s)] + was;
    }

    /** The part of nv_pool_alloc that makes a new block. */
    method Grow(s: nat, ghost need: nat, mem: Option<nat>) returns (r: Option<nat>)
      requires Valid() && s % 8 == 0 && s < WORD && (s == need || s == 0) && MemOk(s, mem)
      modifies this`blocks, this`large, this`current, this`stats, this`live
      ensures s == need > 0 || r.None? ==>
                Valid() && (old(Accounted()) ==> Accounted()) && (old(Sized()) ==> (Sized() <==> r.None? || !Miscounts(s)))
      ensures r.Some? <==> Wanted(s).Some? && mem.Some?
      ensures r.Some? ==> r.value == mem.value
      ensures Grown(old(View()), s, mem, r.Some?) && (r.None? ==> stats == old(stats))
      ensures r.Some? ==> stats.totalSize == old(stats.totalSize) + NewSize(s)
      ensures live == old(live) + if r.Some? then [Range(r.value, need)] else []
    {
      r := None;
      if mem.None? { return; }
      var grown := if s > minSize then s else minSize;
      AlignSizeExact(grown);
      AlignSizeExact(s);
      if autoExtend && grown <= maxSize {
        var p := GrowBlock(s, need, mem.value, grown);
        return Some(p);
      }
      if s > maxSize {
        var p := PushLarge(mem.value, s);
        return Some(p);
      }
    }

    /** At most one block is chosen, and one is unless none has room. */
    lemma ChosenOnce(s: nat)
      ensures forall i, j :: Chosen(blocks, current, i, s) && Chosen(blocks, current, j, s) ==> i == j
      ensures NoneFits(blocks, s) ==> forall i :: !Chosen(blocks, current, i, s)
    {
      forall i: nat | Chosen(blocks, current, i, s) ensures !NoneFits(blocks, s) {
        assert blocks[i] in blocks;
      }
    }

    /** If the fit test wraps in some block, only blocks where it wraps pass it. */
    lemma OnlyWrapsPass(s: nat, b: Block)
      requires Valid() && s < WORD && !NoWrap(blocks, s) && b in blocks && Fits(b, s)
      ensures b.used + s >= WORD
    {
      var c :| c in blocks && c.used + s >= WORD;
      var i: nat :| i < |blocks| && blocks[i] == b;
      var j: nat :| j < |blocks| && blocks[j] == c;
      var bs := blocks + large;
      assert bs[i] == b && bs[j] == c && b in bs && c in bs;
      if i < j { assert Apart(bs[i], bs[j]); }
      if j < i { assert Apart(bs[j], bs[i]); }
      SmallModulo(b.used + s);
    }

    /** Nothing valid reaches the end of the address space. */
    lemma Unhoused(r: Range)
      requires r in live && r.addr + r.len >= WORD
      ensures !Valid()
    {
      if Valid() { InsideWord(r); }
    }

    /** The current block if it passes the test, else the first that does. */
    method Pick(s: nat) returns (i: nat)
      requires Valid() && s < WORD
      ensures i <= |blocks| && (i == |blocks| <==> NonePasses(blocks, s)) && (i < |blocks| ==> Fits(blocks[i], s))
      ensures NoWrap(blocks, s) ==> forall j: nat :: Chosen(blocks, current, j, s) <==> j == i < |blocks|
      ensures i == |blocks| ==> NoWrap(blocks, s)
    {
      if NoWrap(blocks, s) { FitsMeansRoom(s); }
      ChosenOnce(s);
      if current.Some? && Fits(blocks[current.value], s) {
        assert blocks[current.value] in blocks;
        return current.value;
      }
      i := FindFit(s);
      if i < |blocks| {
        assert blocks[i] in blocks;
      } else {
        NonePassesNoWrap(s);
      }
    }

    /** Block i passes the test: what is granted is sound exactly if no test wraps and the rounding is right. */
    method Grant(i: nat, s: nat, ghost need: nat) returns (p: nat)
      requires Valid() && i < |blocks| && Fits(blocks[i], s) && s % 8 == 0 && s < WORD && (s == need > 0 || (s == 0 && need + 7 >= WORD))
      modifies this`blocks, this`current, this`stats, this`live
      ensures p == old(blocks)[i].cur && live == old(live) + [Range(p, need)] && current == Some(i) && stats.totalSize == old(stats.totalSize)
      ensures Valid() <==> s == need && NoWrap(old(blocks), s)
      ensures Valid() ==> blocks == old(blocks)[i := Advanced(old(blocks)[i], s)] && (old(Accounted()) ==> Accounted()) && (old(Sized()) <==> Sized())
    {
      assert blocks[i] in blocks && blocks[i] in blocks + large;
      ghost var right := s == need && NoWrap(blocks, s);
      if !NoWrap(blocks, s) { OnlyWrapsPass(s, blocks[i]); }
      p := TakeFrom(i, s, need);
      current := Some(i);
      if !right { Unhoused(live[|live| - 1]); }
    }

    /** The search for a block, for a request of `need` bytes that was rounded to s. */
    method Place(s: nat, ghost need: nat, mem: Option<nat>) returns (r: Option<nat>, ghost i: nat)
      requires Valid() && s % 8 == 0 && s < WORD && MemOk(s, mem) && (s == need > 0 || (s == 0 && need + 7 >= WORD))
      modifies this`blocks, this`large, this`current, this`stats, this`live
      ensures live == old(live) + if r.Some? then [Range(r.value, need)] else []
      ensures r.None? <==> NonePasses(old(blocks), s) && (Wanted(s).None? || mem.None?)
      ensures r.None? ==> View() == old(View()) && stats == old(stats)
      ensures Valid() <==> r.None? || (s == need && NoWrap(old(blocks), s))
      ensures Valid() && old(Accounted()) ==> Accounted()
      ensures Valid() && old(Sized()) ==> (Sized() <==> r.None? || !(NonePasses(old(blocks), s) && Miscounts(s)))
      ensures i <= |old(blocks)| && (NoWrap(old(blocks), s) ==> forall j: nat :: Chosen(old(blocks), old(current), j, s) <==> j == i < |old(blocks)|)
      ensures s == need && NoWrap(old(blocks), s) && i < |old(blocks)| ==>
                r == Some(old(blocks)[i].cur) && blocks == old(blocks)[i := Advanced(old(blocks)[i], s)]
                && current == Some(i) && large == old(large)
      ensures NonePasses(old(blocks), s) ==> Grown(old(View()), s, mem, r.Some?) && (r.Some? ==> r == mem)
      ensures r.Some? ==> stats.totalSize == old(stats.totalSize) + if NonePasses(old(blocks), s) then NewSize(s) else 0
    {
      var k := Pick(s);
      i := k;
      if k < |blocks| {
        var p := Grant(k, s, need);
        return Some(p), k;
      }
      r := GrowFor(s, need, mem);
    }

    /** The new block is of no use if the request was rounded to nothing. */
    method GrowFor(s: nat, ghost need: nat, mem: Option<nat>) returns (r: Option<nat>)
      requires Valid() && s % 8 == 0 && s < WORD && MemOk(s, mem) && (s == need > 0 || (s == 0 && need + 7 >= WORD))
      modifies this`blocks, this`large, this`current, this`stats, this`live
      ensures live == old(live) + if r.Some? then [Range(r.value, need)] else []
      ensures r.None? <==> Wanted(s).None? || mem.None?
      ensures r.None? ==> stats == old(stats)
      ensures Valid() <==> r.None? || s == need
      ensures Valid() && old(Accounted()) ==> Accounted()
      ensures Valid() && old(Sized()) ==> (Sized() <==> r.None? || !Miscounts(s))
      ensures Grown(old(View()), s, mem, r.Some?) && (r.Some? ==> r == mem)
      ensures r.Some? ==> stats.totalSize == old(stats.totalSize) + NewSize(s)
    {
      r := Grow(s, need, mem);
      if r.Some? && s != need { Unhoused(live[|live| - 1]); }
    }

    lemma NonePassesNoWrap(s: nat)
      requires Valid() && s < WORD && NonePasses(blocks, s)
      ensures NoWrap(blocks, s) && NoneFits(blocks, s)
    {
      forall b | b in blocks ensures b.used + s < WORD && b.used + s > b.size {
        assert b in blocks + large;
        if b.used + s >= WORD { FitTestExact(b, s); } else { SmallModulo(b.used + s); }
      }
    }

    /**
     nv_pool_alloc, for every size_t: the current block, else first fit, else a new block. Valid() says that everything
     handed out lies in its block, is aligned, and overlaps nothing; a request that is granted keeps it
     exactly if its rounding and no block's fit test wrap.
     */
    method Alloc(size: nat, mem: Option<nat>) returns (r: Option<nat>)
      requires Valid() && size < WORD && MemOk(AlignSize(size), mem)
      modifies this`blocks, this`large, this`current, this`stats, this`live
      ensures live == old(live) + if r.Some? then [Range(r.value, Need(size))] else []
      ensures r.None? <==> size == 0 || (NonePasses(old(blocks), AlignSize(size)) && (Wanted(AlignSize(size)).None? || mem.None?))
      ensures size > 0 && autoExtend && minSize <= maxSize && mem.Some? ==> r.Some?
      ensures Valid() <==> r.None? || (size + 7 < WORD && NoWrap(old(blocks), AlignSize(size)))
      ensures Valid() && old(Accounted()) ==> Accounted()
      ensures Valid() && old(Sized()) ==> (Sized() <==> r.None? || !(NonePasses(old(blocks), AlignSize(size)) && Miscounts(AlignSize(size))))
      ensures forall i: nat :: 0 < size && size + 7 < WORD && NoWrap(old(blocks), AlignSize(size)) && Chosen(old(blocks), old(current), i, AlignSize(size)) ==>
                r == Some(old(blocks)[i].cur) && blocks == old(blocks)[i := Advanced(old(blocks)[i], AlignSize(size))]
                && current == Some(i) && large == old(large)
      ensures size > 0 && NonePasses(old(blocks), AlignSize(size)) ==> Grown(old(View()), AlignSize(size), mem, r.Some?) && (r.Some? ==> r == mem)
      ensures r.Some? ==> stats.totalSize == old(stats.totalSize) + if NonePasses(old(blocks), AlignSize(size)) then NewSize(AlignSize(size)) else 0
      ensures r.None? ==> View() == old(View()) && stats == old(stats)
    {
      if size == 0 { return None; }
      AlignSizeRightIff(size);
      if size + 7 < WORD { AlignSizeExact(size); }
      ghost var i;
      r, i := Place(AlignSize(size), Need(size), mem);
    }

    lemma FitsMeansRoom(s: nat)
      requires Valid() && s < WORD && NoWrap(blocks, s)
      ensures forall b :: b in blocks ==> (Fits(b, s) <==> b.used + s <= b.size)
    {
      forall b | b in blocks ensures Fits(b, s) <==> b.used + s <= b.size {
        assert b in blocks + large;
        FitTestExact(b, s);
      }
    }

    /**
     nv_pool_align, for every size_t and every power of two: what it returns is an aligned range of the size asked for
     inside its own allocation, in a pool that is still sound, exactly if no sum wraps.
     */
    method Align(size: nat, k: nat, mem: Option<nat>) returns (r: Option<nat>)
      requires Valid() && size < WORD && Pow2(k) < WORD && MemOk(AlignSize(Padded(size, Pow2(k))), mem)
      modifies this`blocks, this`large, this`current, this`stats, this`live
      ensures var s := AlignSize(Padded(size, Pow2(k)));
              r.None? <==> Padded(size, Pow2(k)) == 0 || (NonePasses(old(blocks), s) && (Wanted(s).None? || mem.None?))
      ensures r.None? ==> Valid() && live == old(live)
      ensures r.Some? ==> |live| == |old(live)| + 1 && live == old(live) + [live[|live| - 1]]
      ensures r.Some? ==> (Valid() && Serves(live[|live| - 1], r.value, size, Pow2(k))
                           <==> size + Pow2(k) + 6 < WORD && NoWrap(old(blocks), AlignSize(Padded(size, Pow2(k)))))
      ensures Valid() && old(Accounted()) ==> Accounted()
      ensures Valid() && old(Sized()) && minSize % 8 == 0 ==> Sized()
    {
      r := Alloc(Padded(size, Pow2(k)), mem);
      if r.Some? {
        ghost var a := live[|live| - 1];
        if Valid() { InsideWord(a); }
        AlignedIff(a, size, k, Valid(), NoWrap(old(blocks), AlignSize(Padded(size, Pow2(k)))));
        r := Some(RoundUp(r.value, Pow2(k)));
      }
    }

    lemma AlignedIff(a: Range, size: nat, k: nat, valid: bool, noWrap: bool)
      requires size < WORD && Pow2(k) < WORD && a.len == Need(Padded(size, Pow2(k)))
      requires valid ==> a.addr + a.len < WORD
      requires valid <==> Padded(size, Pow2(k)) + 7 < WORD && noWrap
      ensures valid && Serves(a, RoundUp(a.addr, Pow2(k)), size, Pow2(k)) <==> size + Pow2(k) + 6 < WORD && noWrap
    {
      SmallModulo(size + Pow2(k) - 1);
      if valid {
        NeedBounds(Padded(size, Pow2(k)));
        AlignedOrShort(a, size, k);
      }
    }

    /** The range allocated serves the request if the sum was right, and is too short if it wrapped. */
    lemma AlignedOrShort(a: Range, size: nat, k: nat)
      requires size < WORD && Pow2(k) < WORD && a.len == Need(Padded(size, Pow2(k))) && a.addr + a.len < WORD && Padded(size, Pow2(k)) + 7 < WORD
      ensures Serves(a, RoundUp(a.addr, Pow2(k)), size, Pow2(k)) <==> size + Pow2(k) + 6 < WORD
    {
      var bits := 64;
      WordIsPow2(bits);
      NeedBounds(Padded(size, Pow2(k)));
      if size + Pow2(k) - 1 < WORD {
        SmallModulo(size + Pow2(k) - 1);
        AlignedServes(a, size, k, bits);
      } else {
        WrappedPadding(size, k, bits);
        TooShort(a, RoundUp(a.addr, Pow2(k)), size, Pow2(k));
      }
    }

    lemma TooShort(a: Range, p: nat, size: nat, alignment: nat)
      requires a.len < size && alignment > 0
      ensures !Serves(a, p, size, alignment)
    {
    }

    lemma AlignedServes(a: Range, size: nat, k: nat, bits: nat)
      requires Pow2(k) < WORD == Pow2(bits) && size + Pow2(k) + 6 < WORD && a.len >= size + Pow2(k) - 1 && a.addr + a.len < WORD
      ensures Serves(a, RoundUp(a.addr, Pow2(k)), size, Pow2(k))
    {
      SmallModulo(a.addr + Pow2(k) - 1);
      RoundsUp(a.addr, bits, k);
    }

    lemma NeedBounds(n: nat)
      requires n < WORD
      ensures n + 7 < WORD ==> n <= Need(n) <= n + 7
      ensures n + 7 >= WORD ==> Need(n) == n
    {
      if n + 7 < WORD { AlignSizeExact(n); }
    }

    /** A sum that wraps falls short of the request by half the word at least. */
    lemma WrappedPadding(size: nat, k: nat, bits: nat)
      requires size < WORD && Pow2(k) < WORD == Pow2(bits) && size + Pow2(k) - 1 >= WORD && bits > 4
      ensures Padded(size, Pow2(k)) + 8 < size
    {
      if k >= bits { Pow2Monotone(bits, k); }
      Pow2Monotone(k, bits - 1);
      assert Pow2(bits) == 2 * Pow2(bits - 1);
      assert (size + Pow2(k) - 1) % WORD == size + Pow2(k) - 1 - WORD;
    }

    lemma InsideWord(r: Range)
      requires Valid() && r in live
      ensures r.addr + r.len < WORD
    {
      assert Housed(blocks + large, r);
    }

    /** nv_pool_free finds the block, counts, and gives nothing back. */
    method Free(ptr: nat) returns (ok: bool)
      requires Valid()
      modifies this`stats
      ensures ok <==> exists b :: b in blocks + large && b.start <= ptr < b.start + b.size
      ensures stats == old(stats).(frees := old(stats).frees + if ok then 1 else 0)
      ensures old(Accounted()) ==> Accounted()
    {
      var i := FindBlock(blocks, ptr);
      ok := i < |blocks|;
      if ok {
        assert blocks[i] in blocks + large;
      } else {
        i := FindBlock(large, ptr);
        ok := i < |large|;
        if ok { assert large[i] in blocks + large; }
      }
      if ok { stats := stats.(frees := stats.frees + 1); }
    }

    /** nv_pool_reset: all blocks are kept and empty. */
    method Reset()
      requires Valid()
      modifies this`blocks, this`large, this`current, this`stats, this`live
      ensures Valid() && live == [] && SumUsed(blocks + large) == 0
      ensures |blocks| == |old(blocks)| && |large| == |old(large)| && SumSize(blocks + large) == SumSize(old(blocks) + old(large))
      ensures View() == Layout(Emptied(old(blocks)), Emptied(old(large)), if old(blocks) == [] then None else Some(0)) && stats.frees == 0
      ensures old(Accounted()) ==> Accounted()
      ensures old(Sized()) ==> Sized()
    {
      EmptiedOk(blocks + large);
      assert Emptied(blocks + large) == Emptied(blocks) + Emptied(large);
      blocks := EmptyEach(blocks);
      large := EmptyEach(large);
      live := [];
      stats := stats.(usedSize := 0, freeSize := stats.totalSize, allocs := 0, frees := 0);
      current := if blocks == [] then None else Some(0);
    }

    /** nv_pool_extend */
    method Extend(size: nat, mem: Option<nat>) returns (ok: bool)
      requires Valid() && size < WORD
      requires mem.Some? ==> NewBlock(blocks + large, Block(mem.value, AlignSize(size), 0, mem.value))
      modifies this`blocks, this`current, this`stats
      ensures Valid() && (old(Accounted()) ==> Accounted()) && (old(Sized()) ==> Sized())
      ensures ok <==> size > 0 && mem.Some?
      ensures View() == if ok then Layout([Block(mem.value, AlignSize(size), 0, mem.value)] + old(blocks), old(large), Some(0)) else old(View())
    {
      if size == 0 || mem.None? { return false; }
      AlignSizeRightIff(size);
      if size + 7 < WORD { AlignSizeExact(size); }
      AlignSizeExact(AlignSize(size));
      PushBlock(mem.value, AlignSize(size));
      return true;
    }
  }

  const DefaultConfig := Config(16 * 1024, 1024 * 1024, 4 * 1024, true)

  /**
   nv_pool_create: without a configuration the default one; no pool if the system has no memory for it or for its
   first block. `self` says whether it has for the pool itself, `mem` what it gives for the block.
   */
  method Create(config: Option<Config>, self: bool, mem: Option<nat>) returns (pool: MemoryPool?)
    requires var c := if config.Some? then config.value else DefaultConfig;
             && c.minSize + 7 < WORD && c.initialSize < WORD
             && (c.initialSize > 0 && mem.Some? ==> BlockOk(Block(mem.value, AlignSize(c.initialSize), 0, mem.value)))
    ensures var c := if config.Some? then config.value else DefaultConfig;
            && (pool == null <==> !self || (c.initialSize > 0 && mem.None?))
            && (pool != null ==> fresh(pool) && pool.Valid() && pool.Accounted() && pool.live == [] && (pool.Sized() <==> c.initialSize % 8 == 0))
            && (pool != null ==> pool.maxSize == c.maxSize && pool.minSize == c.minSize && pool.autoExtend == c.autoExtend)
            && (pool != null && c.initialSize > 0 ==> pool.View() == Layout([Block(mem.value, AlignSize(c.initialSize), 0, mem.value)], [], Some(0)))
    ensures config.None? && pool != null ==>
              && pool.View() == Layout([Block(mem.value, 16384, 0, mem.value)], [], Some(0))
              && pool.minSize == 4096 && pool.maxSize == 1048576 && pool.autoExtend
  {
    var c := if config.Some? then config.value else DefaultConfig;
    if !self { return null; }
    if c.initialSize > 0 && mem.None? { return null; }
    pool := new MemoryPool(c, if mem.Some? then mem.value else 0);
  }

  method FindBlock(bs: seq<Block>, ptr: nat) returns (i: nat)
    ensures i <= |bs| && (i < |bs| ==> bs[i].start <= ptr < bs[i].start + bs[i].size)
    ensures i == |bs| ==> forall b :: b in bs ==> !(b.start <= ptr < b.start + b.size)
  {
    i := 0;
    while i < |bs| && !(bs[i].start <= ptr < bs[i].start + bs[i].size)
      invariant i <= |bs| && forall j :: 0 <= j < i ==> !(bs[j].start <= ptr < bs[j].start + bs[j].size)
    {
      i := i + 1;
    }
  }

  /** (addr + a - 1) & ~(a - 1), where a is a power of two and ~(a - 1) is 2^64 - a. */
  function RoundUp(addr: nat, a: nat): nat
    requires 0 < a <= WORD
  {
    And((addr + a - 1) % WORD, WORD - a)
  }

  /** The size nv_pool_align asks for. */
  function Padded(size: nat, a: nat): nat
    requires a > 0
  {
    (size + a - 1) % WORD
  }

  ghost predicate Serves(a: Range, p: nat, size: nat, alignment: nat)
    requires alignment > 0
  {
    p % alignment == 0 && a.addr <= p && p + size <= a.addr + a.len
  }

  lemma RoundsUp(addr: nat, n: nat, k: nat)
    requires addr + Pow2(k) - 1 < WORD == Pow2(n)
    ensures Pow2(k) <= WORD
    ensures var p := RoundUp(addr, Pow2(k)); p % Pow2(k) == 0 && addr <= p < addr + Pow2(k)
  {
    if k > n { Pow2Monotone(n + 1, k); }
    var x := addr + Pow2(k) - 1;
    SmallModulo(x);
    ClearsLowBits(x, n, k);
    HighBitsValue(n, k);
    MultipleIsZero(Pow2(k), ShiftRight(x, k));
  }

  lemma {:induction false} WordIsPow2(bits: nat)
    requires bits == 64
    ensures Pow2(bits) == WORD
  {
    Pow2Plus16(bits - 64);
    Pow2Plus16(bits - 48);
    Pow2Plus16(bits - 32);
    Pow2Plus16(bits - 16);
  }

  function Emptied(bs: seq<Block>): (r: seq<Block>)
    ensures |r| == |bs| && forall i :: 0 <= i < |bs| ==> r[i] == bs[i].(used := 0, cur := bs[i].start)
  {
    seq(|bs|, i requires 0 <= i < |bs| => bs[i].(used := 0, cur := bs[i].start))
  }

  method EmptyEach(bs: seq<Block>) returns (r: seq<Block>)
    ensures r == Emptied(bs)
  {
    r := bs;
    for i := 0 to |bs|
      invariant |r| == |bs| && r[..i] == Emptied(bs)[..i] && r[i..] == bs[i..]
    {
      assert r[i] == bs[i..][0] == bs[i];
      r := r[i := bs[i].(used := 0, cur := bs[i].start)];
      assert r[..i + 1] == r[..i] + [r[i]];
      assert bs[i + 1..] == bs[i..][1..];
    }
  }

  lemma {:induction false} EmptiedSums(bs: seq<Block>)
    ensures SumUsed(Emptied(bs)) == 0 && SumSize(Emptied(bs)) == SumSize(bs)
  {
    if bs != [] {
      assert Emptied(bs)[1..] == Emptied(bs[1..]);
      EmptiedSums(bs[1..]);
    }
  }

  lemma EmptiedOk(bs: seq<Block>)
    requires AllOk(bs)
    ensures AllOk(Emptied(bs)) && LiveOk(Emptied(bs), [])
    ensures SumUsed(Emptied(bs)) == 0 && SumSize(Emptied(bs)) == SumSize(bs)
  {
    var r := Emptied(bs);
    EmptiedSums(bs);
    forall j: nat, k: nat | j < k < |r| ensures Apart(r[j], r[k]) {
      assert Apart(bs[j], bs[k]);
    }
    forall i: nat | i < |r| ensures BlockOk(r[i]) {
      assert bs[i] in bs;
    }
  }
}
