/**
 Leading zero bytes: because the register is preset to all ones, zero bytes in front of a message change its checksum,
 except for multiples of 32767 of them. With a preset of zero none would ever be noticed.
 */
module Crc16Zeros {
  import opened Crc16
  import opened Crc16Pairs

  // ----- shifting is linear -----

  lemma ShiftXor(a: Register, b: Register)
    ensures Shift(Xor(a, b)) == Xor(Shift(a), Shift(b))
  {
    FeedLinear(a, b, false, false);
    FeedZero(a);
    FeedZero(b);
    FeedZero(Xor(a, b));
  }

  lemma FeedZero(r: Register)
    ensures Feed(r, false) == Shift(r)
  {
    assert r[0 := r[0] != false] == r;
  }

  lemma {:induction false} ShiftNXor(n: nat, a: Register, b: Register)
    ensures ShiftN(n, Xor(a, b)) == Xor(ShiftN(n, a), ShiftN(n, b))
    decreases n
  {
    if n > 0 {
      ShiftXor(a, b);
      ShiftNXor(n - 1, Shift(a), Shift(b));
    }
  }

  lemma {:induction false} ShiftAdds(n: nat, m: nat, r: Register)
    ensures ShiftN(n + m, r) == ShiftN(n, ShiftN(m, r))
    decreases m
  {
    if m > 0 { ShiftAdds(n, m - 1, Shift(r)); }
  }

  lemma ShiftNInjective(n: nat, a: Register, b: Register)
    ensures ShiftN(n, a) == ShiftN(n, b) <==> a == b
  {
    ShiftNXor(n, a, b);
    XorSelf(a, b);
    XorSelf(ShiftN(n, a), ShiftN(n, b));
    FeedZerosShifts(Xor(a, b), n);
    QuietTail(Xor(a, b), n);
  }

  // ----- sums of shifts -----

  /** r, shifted 0, 1, ..., n - 1 times, added up. */
  function Sum(n: nat, r: Register): Register {
    if n == 0 then Zeros(16) else Xor(Sum(n - 1, r), ShiftN(n - 1, r))
  }

  lemma XorSwap(a: Register, b: Register, c: Register, d: Register)
    ensures Xor(Xor(a, b), Xor(c, d)) == Xor(Xor(a, c), Xor(b, d))
  {
  }

  lemma SumStep(r: Register, s: Register, x: Register, s1: Register, x1: Register)
    requires Xor(s, s1) == Xor(r, x)
    ensures Xor(Xor(s, x), Xor(s1, x1)) == Xor(r, x1)
  {
    forall i | 0 <= i < 16 ensures Xor(Xor(s, x), Xor(s1, x1))[i] == Xor(r, x1)[i] {
      assert Xor(s, s1)[i] == Xor(r, x)[i];
    }
  }

  lemma ShiftLast(n: nat, r: Register)
    ensures ShiftN(n + 1, r) == Shift(ShiftN(n, r))
  {
    ShiftAdds(1, n, r);
    assert ShiftN(1, ShiftN(n, r)) == ShiftN(0, Shift(ShiftN(n, r)));
  }

  lemma SumUnfold(n: nat, r: Register)
    ensures Sum(n + 1, r) == Xor(Sum(n, r), ShiftN(n, r))
  {
  }

  lemma NothingShifts(r: Register)
    ensures Xor(Zeros(16), Shift(Zeros(16))) == Xor(r, r)
  {
    assert Shift(Zeros(16)) == Zeros(16);
    XorSelf(Zeros(16), Zeros(16));
    XorSelf(r, r);
  }

  /** One more shift of the sum changes only its ends. */
  lemma {:induction false} SumShifts(n: nat, r: Register)
    ensures Xor(Sum(n, r), Shift(Sum(n, r))) == Xor(r, ShiftN(n, r))
  {
    if n == 0 {
      NothingShifts(r);
    } else {
      var m := n - 1;
      var s, x := Sum(m, r), ShiftN(m, r);
      assert Xor(s, Shift(s)) == Xor(r, x) by { SumShifts(m, r); }
      calc {
        Xor(Sum(n, r), Shift(Sum(n, r)));
        { SumUnfold(m, r); }
        Xor(Xor(s, x), Shift(Xor(s, x)));
        { ShiftXor(s, x); }
        Xor(Xor(s, x), Xor(Shift(s), Shift(x)));
        { SumStep(r, s, x, Shift(s), Shift(x)); }
        Xor(r, Shift(x));
        { ShiftLast(m, r); }
        Xor(r, ShiftN(n, r));
      }
    }
  }

  lemma {:induction false} SumXor(n: nat, a: Register, b: Register)
    ensures Sum(n, Xor(a, b)) == Xor(Sum(n, a), Sum(n, b))
  {
    if n == 0 {
      XorSelf(Zeros(16), Zeros(16));
    } else {
      var a1, b1, a2, b2 := Sum(n - 1, a), Sum(n - 1, b), ShiftN(n - 1, a), ShiftN(n - 1, b);
      assert Sum(n - 1, Xor(a, b)) == Xor(a1, b1) by { SumXor(n - 1, a, b); }
      assert ShiftN(n - 1, Xor(a, b)) == Xor(a2, b2) by { ShiftNXor(n - 1, a, b); }
      XorSwap(a1, b1, a2, b2);
    }
  }

  lemma {:induction false} ShiftZeros(k: nat)
    ensures ShiftN(k, Zeros(16)) == Zeros(16)
  {
    FeedZerosShifts(Zeros(16), k);
    FeedZeros(k);
  }

  lemma Commute(n: nat, k: nat, r: Register)
    ensures ShiftN(n, ShiftN(k, r)) == ShiftN(k, ShiftN(n, r))
  {
    ShiftAdds(n, k, r);
    ShiftAdds(k, n, r);
  }

  lemma {:induction false} SumOfShifted(n: nat, k: nat, r: Register)
    ensures Sum(n, ShiftN(k, r)) == ShiftN(k, Sum(n, r))
  {
    if n == 0 {
      ShiftZeros(k);
    } else {
      var m, q := n - 1, ShiftN(k, r);
      calc {
        Sum(n, q);
        { SumUnfold(m, q); }
        Xor(Sum(m, q), ShiftN(m, q));
        { SumOfShifted(m, k, r); Commute(m, k, r); }
        Xor(ShiftN(k, Sum(m, r)), ShiftN(k, ShiftN(m, r)));
        { ShiftNXor(k, Sum(m, r), ShiftN(m, r)); }
        ShiftN(k, Xor(Sum(m, r), ShiftN(m, r)));
        { SumUnfold(m, r); }
        ShiftN(k, Sum(n, r));
      }
    }
  }

  lemma {:induction false} SumOfZeros(n: nat)
    ensures Sum(n, Zeros(16)) == Zeros(16)
  {
    if n > 0 {
      SumOfZeros(n - 1);
      ShiftZeros(n - 1);
      XorSelf(Zeros(16), Zeros(16));
    }
  }

  // ----- all ones are a sum of shifts -----

  function Top(): Register { OneHot(16, 15) }

  lemma ShiftOneHot(i: nat)
    requires 0 < i < 16
    ensures Shift(OneHot(16, i)) == OneHot(16, i - 1)
  {
  }

  lemma {:induction false} TopFalls(i: nat)
    requires i < 16
    ensures ShiftN(i, Top()) == OneHot(16, 15 - i)
  {
    if i > 0 {
      TopFalls(i - 1);
      ShiftLast(i - 1, Top());
      ShiftOneHot(15 - (i - 1));
    }
  }

  lemma {:induction false} TopsAdd(n: nat)
    requires n <= 16
    ensures forall i :: 0 <= i < 16 ==> Sum(n, Top())[i] == (i >= 16 - n)
  {
    if n > 0 {
      TopsAdd(n - 1);
      TopFalls(n - 1);
    }
  }

  function Ones(): (r: Register)
    ensures forall i :: 0 <= i < 16 ==> r[i]
  {
    seq(16, _ => true)
  }

  lemma {:induction false} OnesBits(n: nat, c: nat)
    requires c + 1 == Powers.Pow2(n)
    ensures forall i :: 0 <= i < n ==> ToBits(c, n)[i]
  {
    if n > 0 {
      assert c == 2 * (Powers.Pow2(n - 1) - 1) + 1;
      OnesBits(n - 1, c / 2);
    }
  }

  /** The preset. */
  lemma PresetIsOnes(c: nat, n: nat)
    requires c == 0xFFFF && n == 16
    ensures ToBits(c, n) == Ones() == Sum(n, Top())
  {
    Pow2Sixteen();
    OnesBits(n, c);
    TopsAdd(n);
  }

  // ----- what a shift leaves as it is -----

  lemma OddParts(a: Bits, b: Bits)
    ensures Odd(a + b) == (Odd(a) != Odd(b))
    decreases |a|
  {
    if a == [] {
      assert a + b == b;
    } else {
      OddParts(a[1..], b);
      assert (a + b)[1..] == a[1..] + b;
    }
  }

  lemma OddRun()
    ensures !Odd([true, true, true, true]) && Odd([true, true, true, true, true])
  {
    OddSnoc([], true);
    OddSnoc([true], true);
    OddSnoc([true, true], true);
    OddSnoc([true, true, true], true);
    OddSnoc([true, true, true, true], true);
    assert [] + [true] == [true] && [true] + [true] == [true, true] && [true, true] + [true] == [true, true, true];
    assert [true, true, true] + [true] == [true, true, true, true];
    assert [true, true, true, true] + [true] == [true, true, true, true, true];
  }

  lemma FixedBits(y: Register, i: nat)
    requires Shift(y) == y && i < 16
    ensures y[i] == ((i < 15 && y[i + 1]) != (y[0] && (i == 3 || i == 10 || i == 15)))
  {
    ShiftBit(y, i);
  }

  /** A register that a shift leaves as it is, is zero or has an odd number of bits set. */
  lemma FixedIsOdd(y: Register)
    requires Shift(y) == y
    ensures !Odd(y) ==> y == Zeros(16)
  {
    FixedBits(y, 15); FixedBits(y, 14); FixedBits(y, 13); FixedBits(y, 12); FixedBits(y, 11); FixedBits(y, 10); FixedBits(y, 9); FixedBits(y, 8);
    FixedBits(y, 7); FixedBits(y, 6); FixedBits(y, 5); FixedBits(y, 4); FixedBits(y, 3); FixedBits(y, 2); FixedBits(y, 1);
    if y[0] { NineBits(y); }
  }

  lemma NineBits(y: Register)
    requires y[0] && y[1] && y[2] && y[3] && !y[4] && !y[5] && !y[6] && !y[7] && !y[8] && !y[9] && !y[10] && y[11] && y[12] && y[13] && y[14] && y[15]
    ensures Odd(y)
  {
    var a, b, c := [true, true, true, true], Zeros(7), [true, true, true, true, true];
    assert y == a + (b + c);
    OddParts(a, b + c);
    OddParts(b, c);
    OddZeros(7);
    OddRun();
  }

  lemma {:induction false} OddShiftN(n: nat, r: Register)
    ensures Odd(ShiftN(n, r)) == Odd(r)
    decreases n
  {
    if n > 0 {
      OddShift(r);
      OddShiftN(n - 1, Shift(r));
    }
  }

  lemma {:induction false} FixedTimes(n: nat, k: nat, y: Register)
    requires ShiftN(n, y) == y
    ensures ShiftN(k * n, y) == y
    decreases k
  {
    if k > 0 {
      FixedTimes(n, k - 1, y);
      assert k * n == n + (k - 1) * n;
      ShiftAdds(n, (k - 1) * n, y);
    }
  }

  // ----- the period of the preset -----

  /** The top bit comes back exactly when the lowest does. */
  lemma TopPeriod(d: nat, full: nat)
    requires full == 32767
    ensures ShiftN(d, Top()) == Top() <==> d % full == 0
  {
    LowIsTop(15, d);
    ShiftPeriod(d, full);
  }

  lemma LowIsTop(m: nat, d: nat)
    requires m == 15
    ensures ShiftN(d, Pad([true])) == Pad([true]) <==> ShiftN(d, Top()) == Top()
  {
    assert Pad([true]) == ShiftN(m, Top()) by {
      TopFalls(m);
      assert OneHot(16, 0) == Pad([true]);
    }
    Commute(d, m, Top());
    ShiftNInjective(m, ShiftN(d, Top()), Top());
  }

  /** What d shifts change in the top bit is itself left alone by a shift, if d shifts leave all ones alone. */
  lemma ChangeIsFixed(d: nat, y: Register, n: nat, full: nat)
    requires n == 16 && full == 32767 && y == Xor(ShiftN(d, Top()), Top())
    requires ShiftN(d, Sum(n, Top())) == Sum(n, Top())
    ensures Shift(y) == y
  {
    assert Sum(n, y) == Zeros(16) by {
      SumXor(n, ShiftN(d, Top()), Top());
      SumOfShifted(n, d, Top());
      XorSelf(Sum(n, Top()), Sum(n, Top()));
    }
    EmptySum(n, y);
    FixedTimes(n, 2048, y);
    ChangeComesBack(d, y, full);
    OneMore(full, 2048 * n, y);
  }

  lemma EmptySum(n: nat, y: Register)
    requires Sum(n, y) == Zeros(16)
    ensures ShiftN(n, y) == y
  {
    SumShifts(n, y);
    assert Shift(Zeros(16)) == Zeros(16);
    XorSelf(Zeros(16), Zeros(16));
    XorSelf(y, ShiftN(n, y));
  }

  lemma OneMore(n: nat, m: nat, y: Register)
    requires m == n + 1 && ShiftN(n, y) == y == ShiftN(m, y)
    ensures Shift(y) == y
  {
    ShiftLast(n, y);
  }

  lemma ChangeComesBack(d: nat, y: Register, full: nat)
    requires full == 32767 && y == Xor(ShiftN(d, Top()), Top())
    ensures ShiftN(full, y) == y
  {
    TopPeriod(full, full);
    ShiftAdds(full, d, Top());
    ShiftAdds(d, full, Top());
    ShiftNXor(full, ShiftN(d, Top()), Top());
  }

  /** All ones come back exactly after multiples of 32767 shifts. */
  lemma OnesPeriod(d: nat, n: nat, full: nat)
    requires n == 16 && full == 32767
    ensures ShiftN(d, Sum(n, Top())) == Sum(n, Top()) <==> d % full == 0
  {
    var y := Xor(ShiftN(d, Top()), Top());
    TopPeriod(d, full);
    XorSelf(ShiftN(d, Top()), Top());
    if d % full == 0 {
      SumOfShifted(n, d, Top());
    }
    if ShiftN(d, Sum(n, Top())) == Sum(n, Top()) {
      ChangeIsFixed(d, y, n, full);
      OddXor(ShiftN(d, Top()), Top());
      OddShiftN(d, Top());
      FixedIsOdd(y);
    }
  }

  // ----- leading zero bytes -----

  lemma {:induction false} ZeroBytes(data: seq<byte>)
    requires forall b :: b in data ==> b == 0
    ensures MessageBits(data) == Zeros(8 * |data|)
  {
    if data != [] {
      assert data[0] in data && forall b :: b in data[1..] ==> b in data;
      ZeroBytes(data[1..]);
      ZeroBits(8);
    }
  }

  lemma {:induction false} FeedInjective(a: Register, b: Register, xs: Bits)
    ensures FeedAll(a, xs) == FeedAll(b, xs) <==> a == b
  {
    FeedAllLinear(a, b, xs, xs);
    XorSelf(xs, xs);
    XorSelf(a, b);
    XorSelf(FeedAll(a, xs), FeedAll(b, xs));
    QuietTail(Xor(a, b), |xs|);
    FeedZeros(|xs|);
  }

  lemma EightTimes(n: nat, full: nat)
    requires full == 32767
    ensures 8 * n % full == 0 <==> n % full == 0
  {
    if 8 * n % full == 0 {
      var q := 8 * n / full;
      assert n == full * (4096 * q - n);
    }
    if n % full == 0 {
      var q := n / full;
      assert 8 * n == full * (8 * q);
    }
  }

  /** Zero bytes in front of a message leave its checksum as it is exactly if they are a multiple of 32767. */
  lemma LeadingZerosIff(zeros: seq<byte>, data: seq<byte>)
    requires forall b :: b in zeros ==> b == 0
    ensures Crc(zeros + data) == Crc(data) <==> |zeros| % 32767 == 0
  {
    LeadingZeros(zeros, data, 0xFFFF, 16, 32767);
  }

  lemma LeadingZeros(zeros: seq<byte>, data: seq<byte>, c: nat, n: nat, full: nat)
    requires (forall b :: b in zeros ==> b == 0) && c == 0xFFFF && n == 16 && full == 32767
    ensures FeedAll(ToBits(c, n), MessageBits(zeros + data)) == FeedAll(ToBits(c, n), MessageBits(data)) <==> |zeros| % full == 0
  {
    var r, k := ToBits(c, n), 8 * |zeros|;
    BitsAppend(zeros, data);
    ZeroBytes(zeros);
    FeedAppend(r, Zeros(k), MessageBits(data));
    FeedZerosShifts(r, k);
    FeedInjective(ShiftN(k, r), r, MessageBits(data));
    PresetIsOnes(c, n);
    OnesPeriod(k, n, full);
    EightTimes(|zeros|, full);
  }

  /** The checksum of nothing is the preset. */
  lemma EmptyMessage(i: nat)
    requires i < 16
    ensures Crc([])[i]
  {
    PresetIsOnes(0xFFFF, 16);
  }
}
