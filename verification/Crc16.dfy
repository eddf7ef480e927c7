/**
 The CRC-16 of src/base/algo/nv_crc16.c: reflected polynomial 0x8408, register
 preset to 0xFFFF, the register update of appendix C.2 of RFC 1662 without the
 final complement. The reference is the bit-serial register, fed the least
 significant bit of each byte first; on it the error-detection theorems are
 proved for messages of any length.
 */
module Crc16 {
  import opened Powers

  type byte = n: nat | n < 0x100
  type word = n: nat | n < 0x10000

  // ----- bit strings, lowest bit first -----

  type Bits = seq<bool>

  function Zeros(n: nat): (r: Bits)
    ensures |r| == n && forall i :: 0 <= i < n ==> !r[i]
  {
    seq(n, _ => false)
  }

  function Xor(a: Bits, b: Bits): (r: Bits)
    requires |a| == |b|
    ensures |r| == |a| && forall i :: 0 <= i < |a| ==> r[i] == (a[i] != b[i])
  {
    seq(|a|, i requires 0 <= i < |a| => a[i] != b[i])
  }

  /** The polynomial x^16 + x^12 + x^5 + 1, reflected, without its leading term. */
  function Poly(): (r: Bits)
    ensures |r| == 16 && forall i :: 0 <= i < 16 ==> r[i] == (i == 3 || i == 10 || i == 15)
  {
    seq(16, i => i == 3 || i == 10 || i == 15)
  }

  type Register = r: Bits | |r| == 16 witness Zeros(16)

  /** One shift: the bit shifted out, if set, adds the polynomial. */
  function Shift(r: Register): Register {
    Xor(r[1..] + [false], if r[0] then Poly() else Zeros(16))
  }

  function Feed(r: Register, bit: bool): Register {
    Shift(r[0 := r[0] != bit])
  }

  function FeedAll(r: Register, bits: Bits): Register
    decreases |bits|
  {
    if bits == [] then r else FeedAll(Feed(r, bits[0]), bits[1..])
  }

  /** The n low bits of c. */
  function ToBits(c: nat, n: nat): (r: Bits)
    ensures |r| == n
  {
    if n == 0 then [] else [c % 2 == 1] + ToBits(c / 2, n - 1)
  }

  function MessageBits(data: seq<byte>): (r: Bits)
    ensures |r| == 8 * |data|
  {
    if data == [] then [] else ToBits(data[0], 8) + MessageBits(data[1..])
  }

  /** The checksum, bit by bit. */
  function Crc(data: seq<byte>): Register {
    FeedAll(ToBits(0xFFFF, 16), MessageBits(data))
  }

  // ----- machine words -----

  /** Exclusive or of unsigned words. */
  function XorWord(a: nat, b: nat): nat
    decreases a + b
  {
    if a == 0 then b else if b == 0 then a
    else 2 * XorWord(a / 2, b / 2) + (if a % 2 == b % 2 then 0 else 1)
  }

  lemma {:induction false} ZeroBits(n: nat)
    ensures ToBits(0, n) == Zeros(n)
  {
    if n > 0 { ZeroBits(n - 1); }
  }

  lemma XorCons(x: bool, a: Bits, y: bool, b: Bits)
    requires |a| == |b|
    ensures Xor([x] + a, [y] + b) == [x != y] + Xor(a, b)
  {
  }

  lemma XorWithZeros(a: Bits)
    ensures Xor(a, Zeros(|a|)) == a == Xor(Zeros(|a|), a)
  {
  }

  lemma {:induction false} XorWordBits(a: nat, b: nat, n: nat)
    ensures ToBits(XorWord(a, b), n) == Xor(ToBits(a, n), ToBits(b, n))
  {
    ZeroBits(n);
    if a == 0 {
      XorWithZeros(ToBits(b, n));
    } else if b == 0 {
      XorWithZeros(ToBits(a, n));
    } else if n > 0 {
      XorWordBits(a / 2, b / 2, n - 1);
      XorCons(a % 2 == 1, ToBits(a / 2, n - 1), b % 2 == 1, ToBits(b / 2, n - 1));
    }
  }

  lemma {:induction false} XorWordFits(a: nat, b: nat, n: nat)
    requires a < Pow2(n) && b < Pow2(n)
    ensures XorWord(a, b) < Pow2(n)
  {
    if a > 0 && b > 0 { XorWordFits(a / 2, b / 2, n - 1); }
  }

  lemma Pow2Sixteen()
    ensures Pow2(8) == 0x100 && Pow2(16) == 0x10000
  {
    assert Pow2(4) == 16;
    assert Pow2(8) == 16 * Pow2(4);
    assert Pow2(12) == 16 * Pow2(8);
    assert Pow2(16) == 16 * Pow2(12);
  }

  /** Bits beyond the value are zero. */
  lemma {:induction false} BitsPad(c: nat, n: nat, m: nat)
    requires c < Pow2(n)
    ensures ToBits(c, n + m) == ToBits(c, n) + Zeros(m)
  {
    if n == 0 {
      ZeroBits(m);
      assert [] + Zeros(m) == Zeros(m);
    } else {
      BitsPad(c / 2, n - 1, m);
    }
  }

  lemma {:induction false} BitsInjective(a: nat, b: nat, n: nat)
    requires a < Pow2(n) && b < Pow2(n) && ToBits(a, n) == ToBits(b, n)
    ensures a == b
  {
    if n > 0 {
      assert ToBits(a, n)[0] == ToBits(b, n)[0];
      assert ToBits(a, n)[1..] == ToBits(a / 2, n - 1) && ToBits(b, n)[1..] == ToBits(b / 2, n - 1);
      BitsInjective(a / 2, b / 2, n - 1);
    }
  }

  function Nibble(x: nat): (r: Bits)
    ensures |r| == 4
  {
    [x % 2 == 1, x / 2 % 2 == 1, x / 2 / 2 % 2 == 1, x / 2 / 2 / 2 % 2 == 1]
  }

  lemma NibbleBits(x: nat)
    ensures ToBits(x, 4) == Nibble(x)
  {
    assert ToBits(x, 4) == [x % 2 == 1] + ToBits(x / 2, 3);
    assert ToBits(x / 2, 3) == [x / 2 % 2 == 1] + ToBits(x / 2 / 2, 2);
    assert ToBits(x / 2 / 2, 2) == [x / 2 / 2 % 2 == 1] + ToBits(x / 2 / 2 / 2, 1);
  }

  lemma NibbleStep(x: nat, h: nat, c: nat, n: nat)
    requires x < 16 && c == x + 16 * h
    ensures ToBits(c, 4 + n) == Nibble(x) + ToBits(h, n)
  {
    assert Pow2(4) == 16;
    NibbleBits(x);
    BitsSplit(x, h, 4, n);
  }

  lemma PolyNibbles()
    ensures Poly() == Nibble(8) + (Nibble(0) + (Nibble(4) + Nibble(8)))
  {
  }

  lemma PolyBits(c: nat)
    requires c == 0x8408
    ensures ToBits(c, 16) == Poly()
  {
    NibbleStep(8, 0x840, c, 12);
    NibbleStep(0, 0x84, 0x840, 8);
    NibbleStep(4, 0x8, 0x84, 4);
    NibbleBits(8);
    PolyNibbles();
  }

  const POLYNOMIAL: word := 0x8408

  function ShiftWord(c: word): (r: nat) {
    if c % 2 != 0 then XorWord(c / 2, POLYNOMIAL) else c / 2
  }

  /** Shifting the word is shifting the register. */
  lemma ShiftWordBits(c: word)
    ensures ShiftWord(c) < 0x10000 && ToBits(ShiftWord(c), 16) == Shift(ToBits(c, 16))
  {
    Pow2Sixteen();
    BitsPad(c, 16, 1);
    assert ToBits(c, 17)[1..] == ToBits(c / 2, 16);
    assert ToBits(c, 16) + Zeros(1) == ToBits(c, 16) + [false];
    assert ToBits(c / 2, 16) == ToBits(c, 16)[1..] + [false];
    PolyBits(POLYNOMIAL);
    XorWordBits(c / 2, POLYNOMIAL, 16);
    XorWordFits(c / 2, POLYNOMIAL, 16);
  }

  // ----- the register is linear -----

  lemma FeedLinear(a: Register, b: Register, x: bool, y: bool)
    ensures Feed(Xor(a, b), x != y) == Xor(Feed(a, x), Feed(b, y))
  {
  }

  lemma {:induction false} FeedAllLinear(a: Register, b: Register, xs: Bits, ys: Bits)
    requires |xs| == |ys|
    ensures FeedAll(Xor(a, b), Xor(xs, ys)) == Xor(FeedAll(a, xs), FeedAll(b, ys))
    decreases |xs|
  {
    if xs != [] {
      FeedLinear(a, b, xs[0], ys[0]);
      FeedAllLinear(Feed(a, xs[0]), Feed(b, ys[0]), xs[1..], ys[1..]);
      assert Xor(xs, ys)[1..] == Xor(xs[1..], ys[1..]);
    }
  }

  lemma {:induction false} FeedAppend(r: Register, xs: Bits, ys: Bits)
    ensures FeedAll(r, xs + ys) == FeedAll(FeedAll(r, xs), ys)
    decreases |xs|
  {
    if xs == [] {
      assert xs + ys == ys;
    } else {
      assert (xs + ys)[1..] == xs[1..] + ys;
      FeedAppend(Feed(r, xs[0]), xs[1..], ys);
    }
  }

  lemma {:induction false} BitsAppend(a: seq<byte>, b: seq<byte>)
    ensures MessageBits(a + b) == MessageBits(a) + MessageBits(b)
  {
    if a == [] {
      assert a + b == b;
    } else {
      assert (a + b)[1..] == a[1..] + b;
      BitsAppend(a[1..], b);
    }
  }

  // ----- nv_crc16_compute -----

  function ShiftN(n: nat, r: Register): Register
    decreases n
  {
    if n == 0 then r else ShiftN(n - 1, Shift(r))
  }

  /** A short bit string as the low end of a register. */
  function Pad(w: Bits): (r: Register)
    requires |w| <= 16
    ensures forall i :: 0 <= i < 16 ==> r[i] == (i < |w| && w[i])
  {
    w + Zeros(16 - |w|)
  }

  lemma AheadStep(r: Register, w: Bits)
    requires 0 < |w| <= 16
    ensures Shift(Xor(r, Pad(w))) == Xor(Feed(r, w[0]), Pad(w[1..]))
  {
  }

  lemma PadNothing(r: Register, w: Bits)
    requires w == []
    ensures Xor(r, Pad(w)) == r && Pad(w) == Zeros(16)
  {
  }

  /** Message bits may be added to the register ahead of time. */
  lemma {:induction false} FeedAhead(r: Register, w: Bits, n: nat)
    requires n == |w| <= 16
    ensures ShiftN(n, Xor(r, Pad(w))) == FeedAll(r, w)
    decreases n
  {
    if n == 0 {
      PadNothing(r, w);
    } else {
      calc {
        ShiftN(n, Xor(r, Pad(w)));
        ShiftN(n - 1, Shift(Xor(r, Pad(w))));
        { AheadStep(r, w); }
        ShiftN(n - 1, Xor(Feed(r, w[0]), Pad(w[1..])));
        { FeedAhead(Feed(r, w[0]), w[1..], n - 1); }
        FeedAll(Feed(r, w[0]), w[1..]);
        FeedAll(r, w);
      }
    }
  }

  lemma XorAhead(c: word, b: byte, n: nat)
    requires n == 8
    ensures XorWord(c, b) < 0x10000
    ensures ShiftN(n, ToBits(XorWord(c, b), 16)) == FeedAll(ToBits(c, 16), ToBits(b, n))
  {
    Pow2Sixteen();
    XorWordFits(c, b, 16);
    XorWordBits(c, b, 16);
    BitsPad(b, n, 8);
    FeedAhead(ToBits(c, 16), ToBits(b, n), n);
  }

  /** One turn of the inner loop. */
  method ShiftOnce(c: word) returns (crc: word)
    ensures ToBits(crc, 16) == Shift(ToBits(c, 16))
  {
    ShiftWordBits(c);
    if c % 2 != 0 {
      crc := XorWord(c / 2, POLYNOMIAL);
    } else {
      crc := c / 2;
    }
  }

  /** The inner loop. */
  method ShiftTimes(c: word, n: nat) returns (crc: word)
    ensures ToBits(crc, 16) == ShiftN(n, ToBits(c, 16))
  {
    crc := c;
    for i := 0 to n
      invariant ShiftN(n - i, ToBits(crc, 16)) == ShiftN(n, ToBits(c, 16))
    {
      crc := ShiftOnce(crc);
    }
  }

  /** A byte xored into the register and shifted through. */
  method Byte(c: word, b: byte) returns (crc: word)
    ensures ToBits(crc, 16) == FeedAll(ToBits(c, 16), ToBits(b, 8))
  {
    var n := 8;
    XorAhead(c, b, n);
    crc := ShiftTimes(XorWord(c, b), n);
  }

  /** One more byte, on the reference. */
  lemma CrcSnoc(data: seq<byte>, b: byte)
    ensures Crc(data + [b]) == FeedAll(Crc(data), ToBits(b, 8))
  {
    BitsAppend(data, [b]);
    assert MessageBits([b]) == ToBits(b, 8) + [] == ToBits(b, 8);
    FeedAppend(ToBits(0xFFFF, 16), MessageBits(data), MessageBits([b]));
  }

  /** nv_crc16_compute: the byte loop computes the bit-serial checksum. */
  method Compute(data: array<byte>, length: nat) returns (crc: word)
    requires length <= data.Length && length < 0x10000
    ensures ToBits(crc, 16) == Crc(data[..length])
  {
    crc := 0xFFFF;
    for k := 0 to length
      invariant ToBits(crc, 16) == Crc(data[..k])
    {
      CrcSnoc(data[..k], data[k]);
      assert data[..k + 1] == data[..k] + [data[k]];
      crc := Byte(crc, data[k]);
    }
  }

  // ----- appending the checksum -----

  lemma SelfStep(w: Bits)
    requires 0 < |w| <= 16
    ensures Feed(Pad(w), w[0]) == Pad(w[1..])
  {
  }

  /** A register fed its own contents empties. */
  lemma {:induction false} FeedSelf(w: Bits)
    requires |w| <= 16
    ensures FeedAll(Pad(w), w) == Zeros(16)
    decreases |w|
  {
    if w == [] {
      PadNothing(Zeros(16), w);
    } else {
      SelfStep(w);
      FeedSelf(w[1..]);
    }
  }

  lemma {:induction false} BitsSplit(lo: nat, h: nat, n: nat, m: nat)
    requires lo < Pow2(n)
    ensures ToBits(lo + Pow2(n) * h, n + m) == ToBits(lo, n) + ToBits(h, m)
  {
    if n > 0 {
      var x, p := lo + Pow2(n) * h, Pow2(n - 1);
      assert Pow2(n) * h == 2 * (p * h);
      assert x % 2 == lo % 2 && x / 2 == lo / 2 + p * h;
      BitsSplit(lo / 2, h, n - 1, m);
    }
  }

  lemma FeedOwnBytes(r: Register, c: word)
    requires ToBits(c, 16) == r
    ensures FeedAll(FeedAll(r, ToBits(c % 0x100, 8)), ToBits(c / 0x100, 8)) == Zeros(16)
  {
    var n := 8;
    TwoBytes(c, n);
    FeedAppend(r, ToBits(c % 0x100, n), ToBits(c / 0x100, n));
    assert Pad(r) == r;
    FeedSelf(r);
  }

  lemma TwoBytes(c: word, n: nat)
    requires n == 8
    ensures ToBits(c, n + n) == ToBits(c % 0x100, n) + ToBits(c / 0x100, n)
  {
    Pow2Sixteen();
    BitsSplit(c % 0x100, c / 0x100, n, n);
  }

  /** A message followed by its checksum c, low byte first, has checksum 0. */
  lemma AppendedChecksumIsZero(data: seq<byte>, c: word)
    requires ToBits(c, 16) == Crc(data)
    ensures Crc(data + [c % 0x100, c / 0x100]) == Zeros(16)
  {
    var lo, hi := c % 0x100, c / 0x100;
    CrcSnoc(data, lo);
    CrcSnoc(data + [lo], hi);
    assert data + [lo] + [hi] == data + [lo, hi];
    FeedOwnBytes(Crc(data), c);
  }

  // ----- errors that are always detected -----

  lemma {:induction false} FeedZeros(n: nat)
    ensures FeedAll(Zeros(16), Zeros(n)) == Zeros(16)
  {
    if n > 0 {
      FeedZeros(n - 1);
      assert Feed(Zeros(16), false) == Zeros(16);
      assert Zeros(n)[1..] == Zeros(n - 1);
    }
  }

  /** Only the zero register shifts to zero. */
  lemma ShiftInjective(r: Register)
    ensures Shift(r) == Zeros(16) ==> r == Zeros(16)
  {
    if Shift(r) == Zeros(16) {
      assert Shift(r)[15] == r[0];
      forall i | 0 <= i < 16 ensures !r[i] {
        if i > 0 { assert !Shift(r)[i - 1]; }
      }
    }
  }

  lemma {:induction false} QuietTail(r: Register, n: nat)
    ensures FeedAll(r, Zeros(n)) == Zeros(16) ==> r == Zeros(16)
    decreases n
  {
    if n > 0 {
      assert r[0 := r[0] != false] == r && Zeros(n)[1..] == Zeros(n - 1);
      QuietTail(Shift(r), n - 1);
      ShiftInjective(r);
    }
  }

  /** If n bits can bring the register to zero, only its n lowest bits are set. */
  lemma {:induction false} SmallStart(r: Register, w: Bits)
    requires |w| <= 16 && FeedAll(r, w) == Zeros(16)
    ensures forall i :: |w| <= i < 16 ==> !r[i]
    decreases |w|
  {
    if w != [] {
      var r' := Feed(r, w[0]);
      SmallStart(r', w[1..]);
      var x := r[0 := r[0] != w[0]];
      assert !r'[15] && r'[15] == x[0];
      forall i | |w| <= i < 16 ensures !r[i] {
        assert !r'[i - 1] && r'[i - 1] == x[i];
      }
    }
  }

  /** A zero register is left zero by at most 16 bits only if they are all zero. */
  lemma {:induction false} ShortBurst(w: Bits)
    requires |w| <= 16
    ensures FeedAll(Zeros(16), w) == Zeros(16) ==> w == Zeros(|w|)
    decreases |w|
  {
    if w != [] && FeedAll(Zeros(16), w) == Zeros(16) {
      SmallStart(Feed(Zeros(16), w[0]), w[1..]);
      assert Feed(Zeros(16), w[0])[15] == w[0];
      assert Feed(Zeros(16), false) == Zeros(16);
      ShortBurst(w[1..]);
      assert w == [w[0]] + w[1..];
    }
  }

  lemma FramedBurst(k: nat, w: Bits, t: nat)
    requires |w| <= 16
    ensures FeedAll(Zeros(16), Zeros(k) + (w + Zeros(t))) == Zeros(16) ==> w == Zeros(|w|)
  {
    FeedAppend(Zeros(16), Zeros(k), w + Zeros(t));
    FeedZeros(k);
    FeedAppend(Zeros(16), w, Zeros(t));
    QuietTail(FeedAll(Zeros(16), w), t);
    ShortBurst(w);
  }

  /** An error pattern confined to 16 consecutive bits leaves a mark. */
  lemma BurstLeavesMark(e: Bits, k: nat, n: nat)
    requires k + n <= |e| && n <= 16
    requires forall i :: 0 <= i < k || k + n <= i < |e| ==> !e[i]
    ensures FeedAll(Zeros(16), e) == Zeros(16) ==> e == Zeros(|e|)
  {
    BurstShape(e, k, n);
    FramedBurst(k, e[k..k + n], |e| - k - n);
  }

  lemma BurstShape(e: Bits, k: nat, n: nat)
    requires k + n <= |e| && forall i :: 0 <= i < k || k + n <= i < |e| ==> !e[i]
    ensures e == Zeros(k) + (e[k..k + n] + Zeros(|e| - k - n))
    ensures e[k..k + n] == Zeros(n) ==> e == Zeros(|e|)
  {
    if e[k..k + n] == Zeros(n) {
      forall i | 0 <= i < |e| ensures !e[i] {
        if k <= i < k + n { assert e[i] == e[k..k + n][i - k]; }
      }
    }
  }

  lemma XorSelf(a: Bits, b: Bits)
    requires |a| == |b|
    ensures Xor(a, b) == Zeros(|a|) <==> a == b
  {
    if Xor(a, b) == Zeros(|a|) {
      forall i | 0 <= i < |a| ensures a[i] == b[i] { assert !Xor(a, b)[i]; }
    }
  }

  /** Equal checksums mean that the error pattern leaves no mark. */
  lemma MarkIsDifference(r: Register, xs: Bits, ys: Bits)
    requires |xs| == |ys|
    ensures FeedAll(r, xs) == FeedAll(r, ys) <==> FeedAll(Zeros(16), Xor(xs, ys)) == Zeros(16)
  {
    FeedAllLinear(r, r, xs, ys);
    XorSelf(r, r);
    XorSelf(FeedAll(r, xs), FeedAll(r, ys));
  }

  /** Two bit streams that differ, but only within 16 consecutive bits, have different checksums. */
  lemma DetectsBursts(r: Register, xs: Bits, ys: Bits, k: nat, n: nat)
    requires |xs| == |ys| && xs != ys && k + n <= |xs| && n <= 16
    requires forall i :: 0 <= i < k || k + n <= i < |xs| ==> xs[i] == ys[i]
    ensures FeedAll(r, xs) != FeedAll(r, ys)
  {
    MarkIsDifference(r, xs, ys);
    BurstLeavesMark(Xor(xs, ys), k, n);
    XorSelf(xs, ys);
  }

  lemma {:induction false} MessageBitsSlices(data: seq<byte>, k: nat)
    requires k <= |data|
    ensures MessageBits(data) == MessageBits(data[..k]) + MessageBits(data[k..])
  {
    assert data == data[..k] + data[k..];
    BitsAppend(data[..k], data[k..]);
  }

  lemma {:induction false} MessageBitsInjective(a: seq<byte>, b: seq<byte>)
    requires |a| == |b| && MessageBits(a) == MessageBits(b)
    ensures a == b
  {
    if a != [] {
      var x, y := MessageBits(a), MessageBits(b);
      assert x[..8] == ToBits(a[0], 8) && y[..8] == ToBits(b[0], 8);
      assert x[8..] == MessageBits(a[1..]) && y[8..] == MessageBits(b[1..]);
      Pow2Sixteen();
      BitsInjective(a[0], b[0], 8);
      MessageBitsInjective(a[1..], b[1..]);
      assert a == [a[0]] + a[1..] && b == [b[0]] + b[1..];
    }
  }

  lemma TwoBytesInside(a: seq<byte>, b: seq<byte>, k: nat)
    requires |a| == |b| && a != b && k + 2 <= |a|
    requires a[..k] == b[..k] && a[k + 2..] == b[k + 2..]
    ensures Crc(a) != Crc(b)
  {
    var x, y := MessageBits(a), MessageBits(b);
    if x == y { MessageBitsInjective(a, b); }
    MessageBitsSlices(a, k);
    MessageBitsSlices(b, k);
    MessageBitsSlices(a[k..], 2);
    MessageBitsSlices(b[k..], 2);
    assert a[k..][2..] == a[k + 2..] && b[k..][2..] == b[k + 2..];
    assert x[..8 * k] == y[..8 * k];
    assert x[8 * k + 16..] == y[8 * k + 16..];
    forall i | 0 <= i < 8 * k || 8 * k + 16 <= i < |x| ensures x[i] == y[i] {
      if i < 8 * k { assert x[i] == x[..8 * k][i]; }
      else { assert x[i] == x[8 * k + 16..][i - 8 * k - 16]; }
    }
    DetectsBursts(ToBits(0xFFFF, 16), x, y, 8 * k, 16);
  }

  /** Two messages of any length that differ, but only in byte k or the one after it, have different checksums. */
  lemma DetectsTwoBytes(a: seq<byte>, b: seq<byte>, k: nat)
    requires |a| == |b| && a != b && forall i :: 0 <= i < |a| && i != k && i != k + 1 ==> a[i] == b[i]
    ensures Crc(a) != Crc(b)
  {
    if |a| >= 2 {
      var m := if k + 2 <= |a| then k else |a| - 2;
      TwoBytesInside(a, b, m);
    } else {
      var x, y := MessageBits(a), MessageBits(b);
      if x == y { MessageBitsInjective(a, b); }
      DetectsBursts(ToBits(0xFFFF, 16), x, y, 0, |x|);
    }
  }

  // ----- parity -----

  /** Whether an odd number of bits is set. */
  function Odd(bits: Bits): bool {
    bits != [] && (bits[0] != Odd(bits[1..]))
  }

  lemma {:induction false} OddXor(a: Bits, b: Bits)
    requires |a| == |b|
    ensures Odd(Xor(a, b)) == (Odd(a) != Odd(b))
  {
    if a != [] {
      OddXor(a[1..], b[1..]);
      assert Xor(a, b)[1..] == Xor(a[1..], b[1..]);
    }
  }

  lemma {:induction false} OddSnoc(a: Bits, x: bool)
    ensures Odd(a + [x]) == (Odd(a) != x)
  {
    if a != [] {
      assert (a + [x])[1..] == a[1..] + [x];
      OddSnoc(a[1..], x);
    }
  }

  lemma {:induction false} OddZeros(n: nat)
    ensures !Odd(Zeros(n))
  {
    if n > 0 { OddZeros(n - 1); assert Zeros(n)[1..] == Zeros(n - 1); }
  }

  function OneHot(n: nat, k: int): (r: Bits)
    ensures |r| == n && forall i :: 0 <= i < n ==> r[i] == (i == k)
  {
    seq(n, i => i == k)
  }

  lemma {:induction false} OddOneHot(n: nat, k: int)
    requires 0 <= k < n
    ensures Odd(OneHot(n, k))
  {
    if k == 0 {
      assert OneHot(n, k)[1..] == Zeros(n - 1);
      OddZeros(n - 1);
    } else {
      assert OneHot(n, k)[1..] == OneHot(n - 1, k - 1);
      OddOneHot(n - 1, k - 1);
    }
  }

  lemma OddPoly()
    ensures Odd(Poly())
  {
    var a, b, c := OneHot(16, 3), OneHot(16, 10), OneHot(16, 15);
    assert Poly() == Xor(Xor(a, b), c);
    OddXor(a, b);
    OddXor(Xor(a, b), c);
    OddOneHot(16, 3);
    OddOneHot(16, 10);
    OddOneHot(16, 15);
  }

  /** Shifting keeps the parity of the register. */
  lemma OddShift(r: Register)
    ensures Odd(Shift(r)) == Odd(r)
  {
    OddXor(r[1..] + [false], if r[0] then Poly() else Zeros(16));
    OddSnoc(r[1..], false);
    OddPoly();
    OddZeros(16);
  }

  /** The checksum's parity is the parity of the message and the start value. */
  lemma {:induction false} OddFeedAll(r: Register, bits: Bits)
    ensures Odd(FeedAll(r, bits)) == (Odd(r) != Odd(bits))
    decreases |bits|
  {
    if bits != [] {
      var x := r[0 := r[0] != bits[0]];
      assert x[1..] == r[1..];
      OddShift(x);
      OddFeedAll(Feed(r, bits[0]), bits[1..]);
    }
  }

  /** Two messages that differ in an odd number of bits have different checksums. */
  lemma DetectsOddErrors(a: seq<byte>, b: seq<byte>)
    requires |a| == |b| && Odd(Xor(MessageBits(a), MessageBits(b)))
    ensures Crc(a) != Crc(b)
  {
    OddXor(MessageBits(a), MessageBits(b));
    OddFeedAll(ToBits(0xFFFF, 16), MessageBits(a));
    OddFeedAll(ToBits(0xFFFF, 16), MessageBits(b));
  }
}
