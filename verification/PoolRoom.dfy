/**
 What the memory pool needs of the system: requests that fit the current block are served from it, one behind the
 other, and no memory is asked for. So a new pool, an extended pool and a reset pool serve what their blocks hold.
 */
module PoolRoom {
  import opened Pool

  /** What the requests take together, each rounded. */
  function Total(sizes: seq<nat>): nat {
    if sizes == [] then 0 else Total(sizes[..|sizes| - 1]) + AlignSize(sizes[|sizes| - 1])
  }

  predicate Requests(sizes: seq<nat>) {
    forall size :: size in sizes ==> 0 < size && size + 7 < WORD
  }

  lemma TotalSnoc(sizes: seq<nat>, k: nat)
    requires k < |sizes|
    ensures Total(sizes[..k + 1]) == Total(sizes[..k]) + AlignSize(sizes[k])
  {
    assert sizes[..k + 1][..k] == sizes[..k];
  }

  lemma {:induction false} TotalGrows(sizes: seq<nat>, k: nat)
    requires k <= |sizes|
    ensures Total(sizes[..k]) <= Total(sizes)
  {
    if k == |sizes| {
      assert sizes[..k] == sizes;
    } else {
      var n := |sizes| - 1;
      TotalGrows(sizes[..n], k);
      assert sizes[..n][..k] == sizes[..k];
    }
  }

  /** A request that one block has room for wraps in no other block. */
  lemma RoomMeansNoWrap(bs: seq<Block>, n: nat, c: nat, s: nat)
    requires AllOk(bs) && n <= |bs| && c < n && bs[c].used + s <= bs[c].size
    ensures NoWrap(bs[..n], s)
  {
    forall b | b in bs[..n] ensures b.used + s < WORD {
      var j: nat :| j < n && bs[j] == b;
      assert bs[c] in bs && bs[j] in bs;
      if j < c { assert Pool.Apart(bs[j], bs[c]); }
      if c < j { assert Pool.Apart(bs[c], bs[j]); }
    }
  }

  /** One request within the room of the current block. */
  method ServeOne(pool: MemoryPool, size: nat) returns (p: nat)
    requires pool.Valid() && 0 < size && size + 7 < WORD && pool.current.Some?
    requires var b := pool.blocks[pool.current.value]; b.used + AlignSize(size) <= b.size
    modifies pool`blocks, pool`large, pool`current, pool`stats, pool`live
    ensures pool.Valid() && p == old(pool.blocks)[old(pool.current.value)].cur && pool.live == old(pool.live) + [Range(p, AlignSize(size))]
    ensures pool.current == old(pool.current) && pool.large == old(pool.large)
    ensures var c := old(pool.current.value); pool.blocks == old(pool.blocks)[c := Advanced(old(pool.blocks)[c], AlignSize(size))]
  {
    ghost var c := pool.current.value;
    AlignSizeExact(size);
    RoomMeansNoWrap(pool.blocks + pool.large, |pool.blocks|, c, AlignSize(size));
    assert (pool.blocks + pool.large)[..|pool.blocks|] == pool.blocks;
    assert Chosen(pool.blocks, pool.current, c, AlignSize(size));
    assert !NonePasses(pool.blocks, AlignSize(size)) by {
      assert pool.blocks[c] in pool.blocks + pool.large;
      Passes(pool.blocks, c, AlignSize(size));
    }
    var r := pool.Alloc(size, None);
    p := r.value;
  }

  lemma Passes(bs: seq<Block>, c: nat, s: nat)
    requires c < |bs| && bs[c].used + s <= bs[c].size < WORD
    ensures !NonePasses(bs, s)
  {
    assert bs[c] in bs && Fits(bs[c], s);
  }

  /** Any requests within the room of the current block are served from it in order, one behind the other, without memory from the system. */
  method Serve(pool: MemoryPool, sizes: seq<nat>) returns (ps: seq<nat>)
    requires pool.Valid() && Requests(sizes) && pool.current.Some?
    requires var b := pool.blocks[pool.current.value]; b.used + Total(sizes) <= b.size
    modifies pool`blocks, pool`large, pool`current, pool`stats, pool`live
    ensures pool.Valid() && |ps| == |sizes|
    ensures forall k :: 0 <= k < |ps| ==> ps[k] == old(pool.blocks)[old(pool.current.value)].cur + Total(sizes[..k])
    ensures pool.current == old(pool.current) && pool.large == old(pool.large)
    ensures var c := old(pool.current.value); pool.blocks == old(pool.blocks)[c := Advanced(old(pool.blocks)[c], Total(sizes))]
  {
    ps := [];
    ghost var c := pool.current.value;
    ghost var b := pool.blocks[c];
    for k := 0 to |sizes|
      invariant pool.Valid() && |ps| == k && pool.current == Some(c) && pool.large == old(pool.large)
      invariant pool.blocks == old(pool.blocks)[c := Advanced(b, Total(sizes[..k]))]
      invariant forall j :: 0 <= j < k ==> ps[j] == b.cur + Total(sizes[..j])
    {
      assert sizes[k] in sizes;
      TotalSnoc(sizes, k);
      TotalGrows(sizes, k + 1);
      var p := ServeOne(pool, sizes[k]);
      ps := ps + [p];
    }
    assert sizes[..|sizes|] == sizes;
  }

  /** A request that no block passes, where an extension is allowed. */
  ghost predicate MustExtend(pool: MemoryPool, s: nat)
    reads pool
  {
    NonePasses(pool.blocks, s) && pool.autoExtend && Max(s, pool.minSize) <= pool.maxSize
  }

  method ExtendFor(pool: MemoryPool, size: nat, mem: nat) returns (p: nat)
    requires pool.Valid() && 0 < size && size + 7 < WORD && MustExtend(pool, AlignSize(size)) && pool.MemOk(AlignSize(size), Some(mem))
    modifies pool`blocks, pool`large, pool`current, pool`stats, pool`live
    ensures pool.Valid() && p == mem && pool.Extended(old(pool.View()), AlignSize(size), mem)
  {
    AlignSizeExact(size);
    pool.NonePassesNoWrap(AlignSize(size));
    var r := pool.Alloc(size, Some(mem));
    p := r.value;
  }

  /** After an extension for a request, what is left of min_size, or of the request if it is larger, serves the next ones. */
  method ExtendThenServe(pool: MemoryPool, size: nat, mem: nat, sizes: seq<nat>) returns (p: nat, ps: seq<nat>)
    requires pool.Valid() && 0 < size && size + 7 < WORD && MustExtend(pool, AlignSize(size)) && pool.MemOk(AlignSize(size), Some(mem))
    requires Requests(sizes) && AlignSize(size) + Total(sizes) <= Max(AlignSize(size), pool.minSize)
    modifies pool`blocks, pool`large, pool`current, pool`stats, pool`live
    ensures pool.Valid() && p == mem && |ps| == |sizes| && pool.large == old(pool.large) && |pool.blocks| == |old(pool.blocks)| + 1
    ensures forall k :: 0 <= k < |ps| ==> ps[k] == mem + AlignSize(size) + Total(sizes[..k])
  {
    p := ExtendFor(pool, size, mem);
    RoundedHolds(AlignSize(size), pool.minSize);
    ps := Serve(pool, sizes);
  }

  lemma RoundedHolds(s: nat, min: nat)
    requires s + 7 < WORD && min + 7 < WORD
    ensures Max(s, min) <= AlignSize(Max(s, min))
  {
    AlignSizeExact(Max(s, min));
  }

  /** A new pool serves requests up to its rounded initial size from its first block. */
  method NewPoolServes(c: Config, mem: nat, sizes: seq<nat>) returns (pool: MemoryPool, ps: seq<nat>)
    requires c.minSize + 7 < WORD && 0 < c.initialSize < WORD && BlockOk(Block(mem, AlignSize(c.initialSize), 0, mem))
    requires Requests(sizes) && Total(sizes) <= AlignSize(c.initialSize)
    ensures pool.Valid() && |ps| == |sizes| && |pool.blocks| == 1 && pool.large == []
    ensures forall k :: 0 <= k < |ps| ==> ps[k] == mem + Total(sizes[..k])
  {
    pool := new MemoryPool(c, mem);
    ps := Serve(pool, sizes);
  }

  /** A reset pool hands out the memory of its first block again, from its start. */
  method ResetThenServe(pool: MemoryPool, sizes: seq<nat>) returns (ps: seq<nat>)
    requires pool.Valid() && pool.blocks != [] && Requests(sizes) && Total(sizes) <= pool.blocks[0].size
    modifies pool`blocks, pool`large, pool`current, pool`stats, pool`live
    ensures pool.Valid() && |ps| == |sizes| && |pool.blocks| == |old(pool.blocks)| && |pool.large| == |old(pool.large)|
    ensures forall k :: 0 <= k < |ps| ==> ps[k] == old(pool.blocks)[0].start + Total(sizes[..k])
  {
    pool.Reset();
    ps := Serve(pool, sizes);
  }
}
