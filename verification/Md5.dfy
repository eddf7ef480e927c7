/**
 The streaming layer of src/base/algo/nv_md5.c: chunks of any size are buffered
 into 64-byte blocks, a split 64-bit counter keeps the length in bits, and
 finalisation pads. The block transform is an arbitrary function, so every
 result holds for the one in the source.
 */
module Md5 {

  type byte = n: nat | n < 0x100

  const W32: nat := 0x1_0000_0000
  const W64: nat := 0x1_0000_0000_0000_0000
  type u32 = n: nat | n < 0x1_0000_0000

  datatype Words = Words(a: u32, b: u32, c: u32, d: u32)

  type Transform = (Words, seq<byte>) -> Words

  const INIT: Words := Words(0x67452301, 0xefcdab89, 0x98badcfe, 0x10325476)

  // ----- the hash of a message, without any buffering -----

  /** The transform over all whole blocks of m. */
  function Fold(t: Transform, s: Words, m: seq<byte>): Words
    decreases |m|
  {
    if |m| < 64 then s else Fold(t, t(s, m[..64]), m[64..])
  }

  /** What is left after the whole blocks. */
  function Tail(m: seq<byte>): (r: seq<byte>)
    ensures |r| < 64 && |r| == |m| % 64
    decreases |m|
  {
    if |m| < 64 then m else Tail(m[64..])
  }

  /** 0x80, then zeros up to 56 bytes modulo 64. */
  function Padding(n: nat): (r: seq<byte>)
    ensures 0 < |r| <= 64 && (n + |r|) % 64 == 56
    ensures r[0] == 0x80 && forall k :: 1 <= k < |r| ==> r[k] == 0
  {
    var index := n % 64;
    var len := if index < 56 then 56 - index else 120 - index;
    [0x80] + seq(len - 1, _ => 0)
  }

  function LittleEndian(x: u32): (r: seq<byte>)
    ensures |r| == 4
  {
    [x % 0x100, x / 0x100 % 0x100, x / 0x10000 % 0x100, x / 0x1000000]
  }

  /** The length field: the high word of the bit count comes first. */
  function LengthField(bits: nat): (r: seq<byte>)
    requires bits < W64
    ensures |r| == 8
  {
    LittleEndian(bits / W32) + LittleEndian(bits % W32)
  }

  function Encode(s: Words): (r: seq<byte>)
    ensures |r| == 16
  {
    LittleEndian(s.a) + LittleEndian(s.b) + LittleEndian(s.c) + LittleEndian(s.d)
  }

  function Padded(m: seq<byte>, bits: nat): seq<byte>
    requires bits < W64
  {
    m + Padding(|m|) + LengthField(bits)
  }

  /** The digest of m under a given bit count. */
  function DigestWith(t: Transform, m: seq<byte>, bits: nat): seq<byte>
    requires bits < W64
  {
    Encode(Fold(t, INIT, Padded(m, bits)))
  }

  function Digest(t: Transform, m: seq<byte>): seq<byte> {
    DigestWith(t, m, 8 * |m| % W64)
  }

  /** Padding always fills whole blocks: no byte is left unprocessed. */
  lemma PaddingFillsBlocks(m: seq<byte>, bits: nat)
    requires bits < W64
    ensures |Padded(m, bits)| % 64 == 0 && Tail(Padded(m, bits)) == []
  {
  }

  // ----- what the bytes say -----

  /** Four bytes read low byte first. */
  function Value(b: seq<nat>): nat
    requires |b| == 4
  {
    b[0] + 0x100 * b[1] + 0x10000 * b[2] + 0x1000000 * b[3]
  }

  lemma LittleEndianValue(x: u32)
    ensures Value(LittleEndian(x)) == x
  {
    var y, z := x / 0x100, x / 0x10000;
    assert x == x % 0x100 + 0x100 * y && y == y % 0x100 + 0x100 * (y / 0x100) && z == z % 0x100 + 0x100 * (z / 0x100);
    assert y / 0x100 == z && z / 0x100 == x / 0x1000000;
  }

  /** Bytes 4k to 4k + 3 of the digest are word k of the state, so different states have different digests. */
  lemma DigestHoldsState(s: Words)
    ensures var e := Encode(s); Words(Value(e[..4]), Value(e[4..8]), Value(e[8..12]), Value(e[12..])) == s
  {
    var e := Encode(s);
    assert e[..4] == LittleEndian(s.a) && e[4..8] == LittleEndian(s.b) && e[8..12] == LittleEndian(s.c) && e[12..] == LittleEndian(s.d);
    LittleEndianValue(s.a);
    LittleEndianValue(s.b);
    LittleEndianValue(s.c);
    LittleEndianValue(s.d);
  }

  /** The length field is the bit count, its high half in the first four bytes. */
  lemma LengthFieldHolds(bits: nat)
    requires bits < W64
    ensures W32 * Value(LengthField(bits)[..4]) + Value(LengthField(bits)[4..]) == bits
  {
    var r := LengthField(bits);
    assert r[..4] == LittleEndian(bits / W32) && r[4..] == LittleEndian(bits % W32);
    LittleEndianValue(bits / W32);
    LittleEndianValue(bits % W32);
  }

  lemma Marker(m: seq<byte>)
    ensures (m + Padding(|m|))[|m|] == 0x80 && (m + Padding(|m|))[..|m|] == m
  {
  }

  lemma ZeroBehind(m: seq<byte>, k: nat)
    requires |m| < k < |m + Padding(|m|)|
    ensures (m + Padding(|m|))[k] == 0
  {
  }

  lemma MarkerTells(m: seq<byte>, m': seq<byte>)
    requires m + Padding(|m|) == m' + Padding(|m'|)
    ensures m == m'
  {
    if |m| < |m'| { ZeroBehind(m, |m'|); }
    if |m'| < |m| { ZeroBehind(m', |m|); }
    Marker(m);
    Marker(m');
  }

  /** What is hashed determines message and bit count: no two are padded alike. */
  lemma PaddedInjective(m: seq<byte>, bits: nat, m': seq<byte>, bits': nat)
    requires bits < W64 && bits' < W64 && Padded(m, bits) == Padded(m', bits')
    ensures m == m' && bits == bits'
  {
    var x, y := m + Padding(|m|), m' + Padding(|m'|);
    var p := Padded(m, bits);
    assert |x| == |y| && p[..|x|] == x && p[..|y|] == y && p[|x|..] == LengthField(bits) && p[|y|..] == LengthField(bits');
    MarkerTells(m, m');
    LengthFieldHolds(bits);
    LengthFieldHolds(bits');
  }

  // ----- concatenation -----

  lemma {:induction false} FoldAppend(t: Transform, s: Words, m: seq<byte>, x: seq<byte>)
    ensures Fold(t, s, m + x) == Fold(t, Fold(t, s, m), Tail(m) + x)
    ensures Tail(m + x) == Tail(Tail(m) + x)
    decreases |m|
  {
    if |m| >= 64 {
      assert (m + x)[..64] == m[..64] && (m + x)[64..] == m[64..] + x;
      FoldAppend(t, t(s, m[..64]), m[64..], x);
    }
  }

  // ----- the bit counter -----

  /** The two counter words after an update, with uint32_t arithmetic. */
  function Count0(c0: u32, len: nat): u32 {
    (c0 + len % W32 * 8 % W32) % W32
  }

  function Count1(c0: u32, c1: u32, len: nat): u32 {
    var carry := if Count0(c0, len) < len % W32 * 8 % W32 then 1 else 0;
    ((c1 + carry) % W32 + len % W32 / 0x2000_0000) % W32
  }

  /** The low words add up with a carry, the high words modulo 2^32. */
  lemma CounterWords(c0: u32, c1: u32, len: nat)
    ensures var lo, hi := len % W32 * 8 % W32, len % W32 / 0x2000_0000;
            var n0, n1 := Count0(c0, len), Count1(c0, c1, len);
            var carry := if n0 < lo then 1 else 0;
            && 8 * (len % W32) == lo + W32 * hi
            && c0 + lo == n0 + W32 * carry
            && exists over: nat :: c1 + carry + hi == n1 + W32 * over
  {
    var lo, hi := len % W32 * 8 % W32, len % W32 / 0x2000_0000;
    var n0, n1 := Count0(c0, len), Count1(c0, c1, len);
    var carry := if n0 < lo then 1 else 0;
    var k := (c1 + carry) / W32;
    var j := ((c1 + carry) % W32 + hi) / W32;
    assert c1 + carry + hi == n1 + W32 * (j + k);
  }

  lemma Remainder(x: nat, y: nat, over: nat)
    requires y < W64 && x == y + W64 * over
    ensures x % W64 == y
  {
  }

  /** Together they count 8 * len more bits modulo 2^64, where only len modulo 2^32 is seen. */
  lemma CounterAdds(c0: u32, c1: u32, len: nat)
    ensures Count0(c0, len) + W32 * Count1(c0, c1, len) == (c0 + W32 * c1 + 8 * (len % W32)) % W64
  {
    CounterWords(c0, c1, len);
    var n0, n1 := Count0(c0, len), Count1(c0, c1, len);
    var lo, hi := len % W32 * 8 % W32, len % W32 / 0x2000_0000;
    var carry := if n0 < lo then 1 else 0;
    var over: nat :| c1 + carry + hi == n1 + W32 * over;
    Remainder(c0 + W32 * c1 + 8 * (len % W32), n0 + W32 * n1, over);
  }

  lemma AddModulo(x: nat, y: nat)
    ensures (x % W64 + y) % W64 == (x + y) % W64
  {
    var q, k := x / W64, (x % W64 + y) / W64;
    Remainder(x + y, (x % W64 + y) % W64, q + k);
  }

  lemma SixtyFours(n: nat, x: nat, z: int)
    requires n == x - 64 * z
    ensures n % 64 == x % 64
  {
  }

  /** The low six bits of the byte count, read off the low counter word. */
  lemma IndexFromCounter(counted: nat, bits: nat, length: nat)
    requires bits == 8 * counted % W64 && counted % 64 == length % 64
    ensures bits % W32 / 8 % 64 == length % 64
  {
    var q, h, lo := 8 * counted / W64, bits / W32, bits % W32;
    assert 8 * counted == lo + W32 * h + W64 * q;
    assert lo / 8 == counted - 64 * (0x80_0000 * h + 0x80_0000_0000_0000 * q);
    SixtyFours(lo / 8, counted, 0x80_0000 * h + 0x80_0000_0000_0000 * q);
  }

  /** Lengths modulo 2^32 agree with lengths modulo 64. */
  lemma LengthModulo(counted: nat, n: nat, len: nat)
    requires counted % 64 == n % 64
    ensures (counted + len % W32) % 64 == (n + len) % 64
  {
    var q := len / W32;
    var c, k := counted / 64, n / 64;
    assert len == len % W32 + 64 * (0x400_0000 * q);
    SixtyFours(counted + len % W32, n + len, 0x400_0000 * q - c + k);
  }

  // ----- MD5_CTX -----

  class Context {
    const transform: Transform
    var state: Words
    var count0: u32
    var count1: u32
    const buffer: array<byte>

    ghost function BitCount(): nat
      reads this
    {
      count0 + W32 * count1
    }

    /** The context has taken in message m, and its counter has seen `counted` bytes. */
    ghost predicate Absorbed(m: seq<byte>, counted: nat)
      reads this, buffer
    {
      && buffer.Length == 64
      && state == Fold(transform, INIT, m)
      && buffer[..|Tail(m)|] == Tail(m)
      && BitCount() == 8 * counted % W64
      && counted % 64 == |m| % 64
    }

    /** MD5Init */
    constructor (t: Transform)
      ensures Absorbed([], 0) && transform == t && fresh(buffer)
      ensures state == Words(0x67452301, 0xefcdab89, 0x98badcfe, 0x10325476) && count0 == count1 == 0
    {
      transform := t;
      state := INIT;
      count0, count1 := 0, 0;
      buffer := new byte[64](_ => 0);
    }

    method AddLength(len: nat, ghost counted: nat)
      requires BitCount() == 8 * counted % W64
      modifies this`count0, this`count1
      ensures BitCount() == 8 * (counted + len % W32) % W64
    {
      CounterAdds(count0, count1, len);
      AddModulo(8 * counted, 8 * (len % W32));
      var c0 := Count0(count0, len);
      count1 := Count1(count0, count1, len);
      count0 := c0;
    }

    /** memcpy into the buffer from index on. */
    method Store(index: nat, input: seq<byte>)
      requires buffer.Length == 64 && index + |input| <= 64
      modifies buffer
      ensures buffer[..index + |input|] == old(buffer[..index]) + input
    {
      var k := 0;
      while k < |input|
        invariant 0 <= k <= |input|
        invariant buffer[..index + k] == old(buffer[..index]) + input[..k]
      {
        buffer[index + k] := input[k];
        k := k + 1;
        assert input[..k] == input[..k - 1] + [input[k - 1]];
        assert buffer[..index + k] == buffer[..index + k - 1] + [input[k - 1]];
      }
      assert input[..k] == input;
    }

    /** The block loop of MD5Update over input, from position i. */
    method Blocks(input: seq<byte>, start: nat) returns (i: nat)
      requires start <= |input|
      modifies this`state
      ensures start <= i <= |input| && |input| - i < 64
      ensures state == Fold(transform, old(state), input[start..]) && input[i..] == Tail(input[start..])
    {
      i := start;
      while i + 63 < |input|
        invariant start <= i <= |input|
        invariant Fold(transform, state, input[i..]) == Fold(transform, old(state), input[start..])
        invariant Tail(input[i..]) == Tail(input[start..])
      {
        assert input[i..][..64] == input[i..i + 64] && input[i..][64..] == input[i + 64..];
        state := transform(state, input[i..i + 64]);
        i := i + 64;
      }
    }

    /** The part of MD5Update that moves bytes, with `tail` in the buffer. */
    method Absorb(input: seq<byte>, index0: nat, ghost tail: seq<byte>)
      requires buffer.Length == 64 && index0 == |tail| < 64 && buffer[..index0] == tail
      modifies this`state, buffer
      ensures state == Fold(transform, old(state), tail + input)
      ensures buffer[..|Tail(tail + input)|] == Tail(tail + input)
    {
      var index, i, partLen := index0, 0, 64 - index0;
      if |input| >= partLen {
        Store(index, input[..partLen]);
        var block := buffer[..];
        assert block == tail + input[..partLen];
        assert (tail + input)[..64] == block && (tail + input)[64..] == input[partLen..];
        state := transform(state, block);
        i := Blocks(input, partLen);
        index := 0;
      } else {
        assert input[0..] == input;
      }
      Store(index, input[i..]);
    }

    /** How many bytes wait in the buffer. */
    function Index(): nat
      reads this
    {
      count0 / 8 % 64
    }

    lemma IndexIsTail(m: seq<byte>, counted: nat)
      requires Absorbed(m, counted)
      ensures Index() == |Tail(m)|
    {
      var bits := BitCount();
      assert bits % W32 == count0;
      IndexFromCounter(counted, bits, |m|);
    }

    /** MD5Update */
    method Update(input: seq<byte>, ghost m: seq<byte>, ghost counted: nat)
      requires Absorbed(m, counted)
      modifies this, buffer
      ensures Absorbed(m + input, counted + |input| % W32)
    {
      IndexIsTail(m, counted);
      FoldAppend(transform, INIT, m, input);
      LengthModulo(counted, |m|, |input|);
      var index := Index();
      AddLength(|input|, counted);
      Absorb(input, index, Tail(m));
    }

    /** MD5Final: the length is captured before padding changes the counter. */
    method Final(ghost m: seq<byte>, ghost counted: nat) returns (digest: seq<byte>)
      requires Absorbed(m, counted)
      modifies this, buffer
      ensures digest == DigestWith(transform, m, 8 * counted % W64)
    {
      IndexIsTail(m, counted);
      CounterSplit(count0, count1);
      var bits := LittleEndian(count1) + LittleEndian(count0);
      PaddingIndex(|m|);
      var padding := Padding(Index());
      Update(padding, m, counted);
      Update(bits, m + padding, counted + |padding| % W32);
      digest := Encode(state);
    }
  }

  lemma PaddingIndex(n: nat)
    ensures Padding(n % 64) == Padding(n)
  {
  }

  lemma CounterSplit(c0: u32, c1: u32)
    ensures (c0 + W32 * c1) / W32 == c1 && (c0 + W32 * c1) % W32 == c0 && c0 + W32 * c1 < W64
  {
  }

  // ----- whole messages -----

  function Concat(chunks: seq<seq<byte>>): seq<byte> {
    if chunks == [] then [] else Concat(chunks[..|chunks| - 1]) + chunks[|chunks| - 1]
  }

  /** What the counter sees of a list of chunks. */
  function Counted(chunks: seq<seq<byte>>): nat {
    if chunks == [] then 0 else Counted(chunks[..|chunks| - 1]) + |chunks[|chunks| - 1]| % W32
  }

  lemma {:induction false} CountedIsLength(chunks: seq<seq<byte>>)
    requires forall k :: 0 <= k < |chunks| ==> |chunks[k]| < W32
    ensures Counted(chunks) == |Concat(chunks)|
  {
    if chunks != [] {
      CountedIsLength(chunks[..|chunks| - 1]);
    }
  }

  /** Init, any updates, Final. */
  method HashChunks(t: Transform, chunks: seq<seq<byte>>) returns (digest: seq<byte>)
    ensures digest == DigestWith(t, Concat(chunks), 8 * Counted(chunks) % W64)
    ensures (forall k :: 0 <= k < |chunks| ==> |chunks[k]| < W32) ==> digest == Digest(t, Concat(chunks))
  {
    var ctx := new Context(t);
    var k := 0;
    while k < |chunks|
      invariant 0 <= k <= |chunks| && fresh(ctx) && fresh(ctx.buffer) && ctx.transform == t
      invariant ctx.Absorbed(Concat(chunks[..k]), Counted(chunks[..k]))
    {
      assert chunks[..k + 1][..k] == chunks[..k] && chunks[..k + 1][k] == chunks[k];
      ctx.Update(chunks[k], Concat(chunks[..k]), Counted(chunks[..k]));
      k := k + 1;
    }
    assert chunks[..k] == chunks;
    digest := ctx.Final(Concat(chunks), Counted(chunks));
    if forall k :: 0 <= k < |chunks| ==> |chunks[k]| < W32 {
      CountedIsLength(chunks);
    }
  }

  /** The bytes of a C string. */
  function UpToNul(s: seq<byte>): seq<byte> {
    if s == [] || s[0] == 0 then [] else [s[0]] + UpToNul(s[1..])
  }

  lemma {:induction false} NulFree(s: seq<byte>)
    requires 0 !in s
    ensures UpToNul(s) == s
  {
    if s != [] {
      assert s[0] in s && forall x :: x in s[1..] ==> x in s;
      NulFree(s[1..]);
    }
  }

  lemma SmallModulo(x: nat)
    ensures x < W32 ==> x % W32 == x
  {
  }

  /** nv_MD5 */
  method HashString(t: Transform, input: seq<byte>) returns (digest: seq<byte>)
    ensures digest == DigestWith(t, UpToNul(input), 8 * (|UpToNul(input)| % W32) % W64)
    ensures |UpToNul(input)| < W32 ==> digest == Digest(t, UpToNul(input))
  {
    var m := UpToNul(input);
    ghost var n := |m| % W32;
    var ctx := new Context(t);
    ctx.Update(m, [], 0);
    assert [] + m == m && 0 + n == n;
    digest := ctx.Final(m, n);
    SmallModulo(|m|);
  }

  datatype FileResult = Failed | Hashed(digest: seq<byte>)

  const BUFFER_SIZE: nat := 4096

  /** nv_calculate_file_md5: pieces are what fread delivered before end of file or error. */
  method HashFile(t: Transform, found: bool, pieces: seq<seq<byte>>, failed: bool) returns (r: FileResult)
    requires forall k :: 0 <= k < |pieces| ==> 0 < |pieces[k]| <= BUFFER_SIZE
    ensures r == if found && !failed then Hashed(Digest(t, Concat(pieces))) else Failed
  {
    if !found { return Failed; }
    var digest := HashChunks(t, pieces);
    if failed { return Failed; }
    return Hashed(digest);
  }

  /**
   Cutting does not matter: two ways of cutting the same bytes into chunks under 2^32 bytes give the
   same digest, also the same as hashing NUL-free bytes as one string.
   */
  lemma ChunkingIsIrrelevant(t: Transform, xs: seq<seq<byte>>, ys: seq<seq<byte>>)
    requires Concat(xs) == Concat(ys)
    requires forall k :: 0 <= k < |xs| ==> |xs[k]| < W32
    requires forall k :: 0 <= k < |ys| ==> |ys[k]| < W32
    ensures DigestWith(t, Concat(xs), 8 * Counted(xs) % W64) == DigestWith(t, Concat(ys), 8 * Counted(ys) % W64) == Digest(t, Concat(xs))
    ensures 0 !in Concat(xs) ==> Digest(t, UpToNul(Concat(xs))) == Digest(t, Concat(xs))
  {
    CountedIsLength(xs);
    CountedIsLength(ys);
    if 0 !in Concat(xs) { NulFree(Concat(xs)); }
  }

  /** The whole multiples of 2^32 bytes in the chunks, which the counter does not see. */
  function Unseen(chunks: seq<seq<byte>>): nat {
    if chunks == [] then 0 else Unseen(chunks[..|chunks| - 1]) + |chunks[|chunks| - 1]| / W32
  }

  lemma {:induction false} CountedAndUnseen(chunks: seq<seq<byte>>)
    ensures |Concat(chunks)| == Counted(chunks) + W32 * Unseen(chunks)
  {
    if chunks != [] { CountedAndUnseen(chunks[..|chunks| - 1]); }
  }

  lemma ShiftedRemainder(x: nat, d: nat, q: nat)
    requires d < W64
    ensures (x + d + W64 * q) % W64 == x % W64 <==> d == 0
  {
    var a, k := x % W64, x / W64;
    if a + d < W64 {
      Remainder(x + d + W64 * q, a + d, k + q);
    } else {
      Remainder(x + d + W64 * q, a + d - W64, k + q + 1);
    }
  }

  /** The length field is right exactly when the unseen multiples of 2^32 bytes are a multiple of 2^29. */
  lemma CounterRightIff(chunks: seq<seq<byte>>)
    ensures 8 * Counted(chunks) % W64 == 8 * |Concat(chunks)| % W64 <==> Unseen(chunks) % 0x2000_0000 == 0
  {
    CountedAndUnseen(chunks);
    var u := Unseen(chunks);
    var q, r := u / 0x2000_0000, u % 0x2000_0000;
    assert 8 * (W32 * u) == 8 * W32 * r + W64 * q;
    ShiftedRemainder(8 * Counted(chunks), 8 * W32 * r, q);
  }

  /** A single update of 2^32 bytes leaves the counter at zero. */
  lemma HugeUpdateIsNotCounted(x: seq<byte>)
    requires |x| == W32
    ensures 8 * Counted([x]) % W64 == 0 && 8 * |Concat([x])| % W64 == 8 * W32
  {
    assert Counted([x]) == Counted([]) + |x| % W32;
    assert Concat([x]) == Concat([]) + x;
  }
}
