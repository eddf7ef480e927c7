/**
 Two single-bit errors: the CRC-16 detects them whenever they are less than 32767 bits apart, because
 shifting returns to a register with one bit set only after multiples of 32767 = 7 * 31 * 151 shifts.
 */
module Crc16Pairs {
  import opened Crc16

  // ----- registers, bit by bit -----

  datatype W = W(b0: bool, b1: bool, b2: bool, b3: bool, b4: bool, b5: bool, b6: bool, b7: bool,
                 b8: bool, b9: bool, b10: bool, b11: bool, b12: bool, b13: bool, b14: bool, b15: bool)

  function One(): W {
    W(true, false, false, false, false, false, false, false, false, false, false, false, false, false, false, false)
  }

  function Down(w: W): W {
    W(w.b1, w.b2, w.b3, w.b4 != w.b0, w.b5, w.b6, w.b7, w.b8, w.b9, w.b10, w.b11 != w.b0, w.b12, w.b13, w.b14, w.b15, w.b0)
  }

  /** The register that shifts to w: w times x, for polynomials modulo the reflected one. */
  function Up(w: W): W {
    W(w.b15, w.b0, w.b1, w.b2, w.b3 != w.b15, w.b4, w.b5, w.b6, w.b7, w.b8, w.b9, w.b10 != w.b15, w.b11, w.b12, w.b13, w.b14)
  }

  /** w times w. */
  function Square(w: W): W {
    W(w.b0 != (w.b8 != (w.b13 != w.b14)), w.b11, w.b1 != (w.b9 != (w.b14 != w.b15)), w.b12,
      w.b2 != (w.b8 != (w.b10 != (w.b13 != (w.b14 != w.b15)))), w.b11 != w.b13, w.b3 != (w.b9 != (w.b11 != (w.b14 != w.b15))), w.b12 != w.b14,
      w.b4 != (w.b10 != (w.b12 != w.b15)), w.b13 != w.b15, w.b5 != (w.b11 != w.b13), w.b8 != w.b13,
      w.b6 != (w.b11 != (w.b12 != w.b14)), w.b9 != w.b14, w.b7 != (w.b12 != (w.b13 != w.b15)), w.b10 != w.b15)
  }

  lemma UpDown(w: W)
    ensures Up(Down(w)) == w
  {
  }

  lemma SquareUp0(w: W)
    ensures var l, r := Square(Up(w)), Up(Up(Square(w)));
            l.b0 == r.b0 && l.b1 == r.b1 && l.b2 == r.b2 && l.b3 == r.b3
  {
  }

  lemma SquareUp4(w: W)
    ensures var l, r := Square(Up(w)), Up(Up(Square(w)));
            l.b4 == r.b4 && l.b5 == r.b5 && l.b6 == r.b6 && l.b7 == r.b7
  {
  }

  lemma SquareUp8(w: W)
    ensures var l, r := Square(Up(w)), Up(Up(Square(w)));
            l.b8 == r.b8 && l.b9 == r.b9 && l.b10 == r.b10 && l.b11 == r.b11
  {
  }

  lemma SquareUp12(w: W)
    ensures var l, r := Square(Up(w)), Up(Up(Square(w)));
            l.b12 == r.b12 && l.b13 == r.b13 && l.b14 == r.b14 && l.b15 == r.b15
  {
  }

  lemma SquareUp(w: W)
    ensures Square(Up(w)) == Up(Up(Square(w)))
  {
    SquareUp0(w);
    SquareUp4(w);
    SquareUp8(w);
    SquareUp12(w);
  }

  function UpN(n: nat, w: W): W {
    if n == 0 then w else Up(UpN(n - 1, w))
  }

  lemma {:induction false} UpAdds(n: nat, m: nat, w: W)
    ensures UpN(n, UpN(m, w)) == UpN(n + m, w)
  {
    if n > 0 { UpAdds(n - 1, m, w); }
  }

  /** Squaring doubles the number of shifts. */
  lemma {:induction false} UpDoubles(n: nat)
    ensures UpN(2 * n, One()) == Square(UpN(n, One()))
  {
    if n > 0 {
      UpDoubles(n - 1);
      SquareUp(UpN(n - 1, One()));
      assert UpN(2 * n, One()) == Up(Up(UpN(2 * (n - 1), One())));
    }
  }

  // ----- shifts by squaring -----

  function Step(w: W, odd: bool): W {
    if odd then Up(Square(w)) else Square(w)
  }

  lemma OneStep(n: nat, odd: bool)
    ensures UpN(2 * n + (if odd then 1 else 0), One()) == Step(UpN(n, One()), odd)
  {
    UpDoubles(n);
  }

  /** Four binary digits at a time. */
  function Four(w: W, a: bool, b: bool, c: bool, d: bool): W {
    Step(Step(Step(Step(w, a), b), c), d)
  }

  function Digit(a: bool, b: bool, c: bool, d: bool): nat {
    (if a then 8 else 0) + (if b then 4 else 0) + (if c then 2 else 0) + (if d then 1 else 0)
  }

  lemma FourSteps(n: nat, a: bool, b: bool, c: bool, d: bool)
    ensures UpN(16 * n + Digit(a, b, c, d), One()) == Four(UpN(n, One()), a, b, c, d)
  {
    var n1 := 2 * n + (if a then 1 else 0);
    var n2 := 2 * n1 + (if b then 1 else 0);
    var n3 := 2 * n2 + (if c then 1 else 0);
    OneStep(n, a);
    OneStep(n1, b);
    OneStep(n2, c);
    OneStep(n3, d);
    assert 16 * n + Digit(a, b, c, d) == 2 * n3 + (if d then 1 else 0);
  }

  /** A word by its hexadecimal digits, highest first. */
  function Hex(h3: nat, h2: nat, h1: nat, h0: nat): W {
    W(h0 % 2 == 1, h0 / 2 % 2 == 1, h0 / 4 % 2 == 1, h0 / 8 % 2 == 1, h1 % 2 == 1, h1 / 2 % 2 == 1, h1 / 4 % 2 == 1, h1 / 8 % 2 == 1,
      h2 % 2 == 1, h2 / 2 % 2 == 1, h2 / 4 % 2 == 1, h2 / 8 % 2 == 1, h3 % 2 == 1, h3 / 2 % 2 == 1, h3 / 4 % 2 == 1, h3 / 8 % 2 == 1)
  }

  /** n shifts upwards from the lowest bit lead to w. */
  ghost predicate At(n: nat, w: W) {
    UpN(n, One()) == w
  }

  lemma From13(n: nat)
    requires At(n, Hex(0x2, 0x0, 0x0, 0x0))
    ensures At(16 * n + 9, Hex(0x8, 0xf, 0x2, 0x7))
  {
    assert Step(Hex(0x2, 0x0, 0x0, 0x0), true) == Hex(0x9, 0xc, 0x6, 0x2);
    assert Step(Hex(0x9, 0xc, 0x6, 0x2), false) == Hex(0x1, 0x3, 0xa, 0xa);
    assert Step(Hex(0x1, 0x3, 0xa, 0xa), false) == Hex(0x3, 0xd, 0x9, 0x9);
    assert Step(Hex(0x3, 0xd, 0x9, 0x9), true) == Hex(0x8, 0xf, 0x2, 0x7);
    FourSteps(n, true, false, false, true);
  }

  lemma From4(n: nat)
    requires At(n, Hex(0x0, 0x0, 0x1, 0x0))
    ensures At(16 * n + 2, Hex(0x2, 0xa, 0x0, 0x3))
  {
    assert Step(Hex(0x0, 0x0, 0x1, 0x0), false) == Hex(0x0, 0x1, 0x0, 0x0);
    assert Step(Hex(0x0, 0x1, 0x0, 0x0), false) == Hex(0x0, 0x8, 0x1, 0x1);
    assert Step(Hex(0x0, 0x8, 0x1, 0x1), true) == Hex(0x2, 0xa, 0xc, 0x6);
    assert Step(Hex(0x2, 0xa, 0xc, 0x6), false) == Hex(0x2, 0xa, 0x0, 0x3);
    FourSteps(n, false, false, true, false);
  }

  lemma From66(n: nat)
    requires At(n, Hex(0x2, 0xa, 0x0, 0x3))
    ensures At(16 * n + 1, Hex(0xe, 0xe, 0x4, 0x3))
  {
    assert Step(Hex(0x2, 0xa, 0x0, 0x3), false) == Hex(0x7, 0xa, 0x1, 0x2);
    assert Step(Hex(0x7, 0xa, 0x1, 0x2), false) == Hex(0x1, 0xa, 0x4, 0xe);
    assert Step(Hex(0x1, 0xa, 0x4, 0xe), false) == Hex(0x7, 0x5, 0xf, 0xa);
    assert Step(Hex(0x7, 0x5, 0xf, 0xa), true) == Hex(0xe, 0xe, 0x4, 0x3);
    FourSteps(n, false, false, false, true);
  }

  lemma From1(n: nat)
    requires At(n, Hex(0x0, 0x0, 0x0, 0x2))
    ensures At(16 * n + 2, Hex(0x2, 0x0, 0x4, 0x4))
  {
    assert Step(Hex(0x0, 0x0, 0x0, 0x2), false) == Hex(0x0, 0x0, 0x0, 0x4);
    assert Step(Hex(0x0, 0x0, 0x0, 0x4), false) == Hex(0x0, 0x0, 0x1, 0x0);
    assert Step(Hex(0x0, 0x0, 0x1, 0x0), true) == Hex(0x0, 0x2, 0x0, 0x0);
    assert Step(Hex(0x0, 0x2, 0x0, 0x0), false) == Hex(0x2, 0x0, 0x4, 0x4);
    FourSteps(n, false, false, true, false);
  }

  lemma From18(n: nat)
    requires At(n, Hex(0x2, 0x0, 0x4, 0x4))
    ensures At(16 * n + 4, Hex(0xe, 0xe, 0xe, 0x6))
  {
    assert Step(Hex(0x2, 0x0, 0x4, 0x4), false) == Hex(0x5, 0xe, 0x2, 0x1);
    assert Step(Hex(0x5, 0xe, 0x2, 0x1), true) == Hex(0xa, 0x8, 0xc, 0x5);
    assert Step(Hex(0xa, 0x8, 0xc, 0x5), false) == Hex(0xc, 0x9, 0x1, 0x6);
    assert Step(Hex(0xc, 0x9, 0x1, 0x6), false) == Hex(0xe, 0xe, 0xe, 0x6);
    FourSteps(n, false, true, false, false);
  }

  lemma From292(n: nat)
    requires At(n, Hex(0xe, 0xe, 0xe, 0x6))
    ensures At(16 * n + 9, Hex(0xd, 0xf, 0xd, 0x8))
  {
    assert Step(Hex(0xe, 0xe, 0xe, 0x6), true) == Hex(0xb, 0x9, 0x2, 0x4);
    assert Step(Hex(0xb, 0x9, 0x2, 0x4), false) == Hex(0xc, 0x4, 0x8, 0xe);
    assert Step(Hex(0xc, 0x4, 0x8, 0xe), false) == Hex(0x3, 0x2, 0xc, 0x5);
    assert Step(Hex(0x3, 0x2, 0xc, 0x5), true) == Hex(0xd, 0xf, 0xd, 0x8);
    FourSteps(n, true, false, false, true);
  }

  lemma From7(n: nat)
    requires At(n, Hex(0x0, 0x0, 0x8, 0x0))
    ensures At(16 * n + 15, Hex(0x9, 0x7, 0x5, 0x9))
  {
    assert Step(Hex(0x0, 0x0, 0x8, 0x0), true) == Hex(0x8, 0x0, 0x0, 0x0);
    assert Step(Hex(0x8, 0x0, 0x0, 0x0), true) == Hex(0x8, 0xe, 0xb, 0x9);
    assert Step(Hex(0x8, 0xe, 0xb, 0x9), true) == Hex(0x6, 0x6, 0x4, 0x6);
    assert Step(Hex(0x6, 0x6, 0x4, 0x6), true) == Hex(0x9, 0x7, 0x5, 0x9);
    FourSteps(n, true, true, true, true);
  }

  lemma From127(n: nat)
    requires At(n, Hex(0x9, 0x7, 0x5, 0x9))
    ensures At(16 * n + 15, Hex(0xe, 0x2, 0x4, 0xc))
  {
    assert Step(Hex(0x9, 0x7, 0x5, 0x9), true) == Hex(0x5, 0x5, 0xb, 0x0);
    assert Step(Hex(0x5, 0x5, 0xb, 0x0), true) == Hex(0x5, 0x2, 0xa, 0x9);
    assert Step(Hex(0x5, 0x2, 0xa, 0x9), true) == Hex(0x0, 0xa, 0xb, 0x0);
    assert Step(Hex(0x0, 0xa, 0xb, 0x0), true) == Hex(0xe, 0x2, 0x4, 0xc);
    FourSteps(n, true, true, true, true);
  }

  lemma From2047(n: nat)
    requires At(n, Hex(0xe, 0x2, 0x4, 0xc))
    ensures At(16 * n + 15, Hex(0x0, 0x0, 0x0, 0x1))
  {
    assert Step(Hex(0xe, 0x2, 0x4, 0xc), true) == Hex(0x1, 0x3, 0x5, 0x9);
    assert Step(Hex(0x1, 0x3, 0x5, 0x9), true) == Hex(0xd, 0x1, 0x3, 0x8);
    assert Step(Hex(0xd, 0x1, 0x3, 0x8), true) == Hex(0x5, 0x6, 0xa, 0x1);
    assert Step(Hex(0x5, 0x6, 0xa, 0x1), true) == Hex(0x0, 0x0, 0x0, 0x1);
    FourSteps(n, true, true, true, true);
  }

  lemma Starts()
    ensures At(1, Hex(0, 0, 0, 0x2)) && At(4, Hex(0, 0, 0x1, 0)) && At(7, Hex(0, 0, 0x8, 0)) && At(13, Hex(0x2, 0, 0, 0))
  {
  }

  /** The shifts by 32767 / 151, 32767 / 31 and 32767 / 7 do not come back, */
  lemma NotAfter217(n: nat, m: nat)
    requires n == 13 && m == 16 * n + 9
    ensures UpN(m, One()) != One()
  {
    Starts();
    From13(n);
  }

  lemma NotAfter1057(n: nat, m: nat)
    requires n == 4 && m == 16 * (16 * n + 2) + 1
    ensures UpN(m, One()) != One()
  {
    Starts();
    From4(n);
    From66(16 * n + 2);
  }

  lemma NotAfter4681(n: nat, m: nat)
    requires n == 1 && m == 16 * (16 * (16 * n + 2) + 4) + 9
    ensures UpN(m, One()) != One()
  {
    Starts();
    From1(n);
    From18(16 * n + 2);
    From292(16 * (16 * n + 2) + 4);
  }

  /** and those by 32767 do. */
  lemma After32767(n: nat, m: nat)
    requires n == 7 && m == 16 * (16 * (16 * n + 15) + 15) + 15
    ensures UpN(m, One()) == One()
  {
    Starts();
    From7(n);
    From127(16 * n + 15);
    From2047(16 * (16 * n + 15) + 15);
    assert Hex(0, 0, 0, 0x1) == One();
  }

  // ----- periods -----

  ghost predicate Period(d: nat) {
    UpN(d, One()) == One()
  }

  lemma {:induction false} Multiples(d: nat, k: nat)
    requires Period(d)
    ensures Period(k * d)
  {
    if k > 0 {
      Multiples(d, k - 1);
      UpAdds(d, (k - 1) * d, One());
      assert d + (k - 1) * d == k * d;
    }
  }

  lemma Difference(a: nat, b: nat)
    requires Period(a) && Period(a + b)
    ensures Period(b)
  {
    UpAdds(b, a, One());
  }

  lemma {:induction false} Bezout(a: nat, b: nat) returns (x: int, y: int, g: nat)
    requires a > 0
    ensures g > 0 && x * a + y * b == g && a % g == 0 && b % g == 0
    decreases b
  {
    if b == 0 {
      x, y, g := 1, 0, a;
    } else {
      var u, v;
      u, v, g := Bezout(b, a % b);
      x, y := v, u - v * (a / b);
      BezoutStep(a, b, u, v, g);
    }
  }

  lemma BezoutStep(a: nat, b: nat, u: int, v: int, g: nat)
    requires b > 0 && g > 0 && u * b + v * (a % b) == g && b % g == 0 && (a % b) % g == 0
    ensures v * a + (u - v * (a / b)) * b == g && a % g == 0
  {
    var q, r := a / b, a % b;
    assert a == b * q + r;
    assert v * a == v * (b * q) + v * r == (v * q) * b + v * r;
    assert (u - v * q) * b == u * b - (v * q) * b;
    var i, j := b / g, r / g;
    assert b == g * i && r == g * j;
    assert a == g * (i * q + j) by { assert b * q == g * (i * q); }
    Divides(g, i * q + j);
  }

  lemma Divides(g: nat, k: int)
    requires g > 0
    ensures (g * k) % g == 0
  {
    var m, q := (g * k) % g, (g * k) / g;
    assert g * k == g * q + m;
    assert g * (k - q) == m;
    assert k - q >= 1 ==> g * (k - q) >= g;
    assert k - q <= -1 ==> g * (k - q) <= -(g as int);
  }

  lemma SmallFactor(p: nat, c: nat, x: nat)
    requires (p == 7 || p == 31 || p == 151) && c * x == p && 2 <= c <= 12
    ensures c == p
  {
    if c == 2 { } else if c == 3 { } else if c == 4 { } else if c == 5 { } else if c == 6 { } else if c == 7 { }
    else if c == 8 { } else if c == 9 { } else if c == 10 { } else if c == 11 { } else { }
  }

  lemma IsPrime(p: nat, g: nat)
    requires (p == 7 || p == 31 || p == 151) && g > 0 && p % g == 0
    ensures g == 1 || g == p
  {
    var h := p / g;
    assert p == g * h == h * g;
    if 2 <= g <= 12 {
      SmallFactor(p, g, h);
    } else if 2 <= h <= 12 {
      SmallFactor(p, h, g);
    }
  }

  /** Modulo one of the primes, what is not 0 has an inverse. */
  lemma Inverse(p: nat, d: nat) returns (k: nat, t: nat)
    requires (p == 7 || p == 31 || p == 151) && d % p != 0
    ensures k * d == 1 + p * t
  {
    var x, y, g := Bezout(p, d);
    IsPrime(p, g);
    var q := y / p;
    k := y - p * q;
    assert k == y % p;
    assert k * d == y * d - p * (q * d) by { assert (p * q) * d == p * (q * d); }
    var u := -x - q * d;
    assert k * d == 1 + p * u by { assert p * u == -(x * p) - p * (q * d); }
    t := u;
  }

  lemma InverseScaled(p: nat, n: nat, full: nat, d: nat, k: nat, t: nat)
    requires p * n == full && k * d == 1 + p * t
    ensures (k * n) * d == t * full + n
  {
    assert (k * n) * d == n * (k * d);
    assert n * (k * d) == n + n * (p * t);
    assert n * (p * t) == t * (p * n);
  }

  /** A period is a multiple of each prime p, because the quotient n is none. */
  lemma PrimeDivides(p: nat, n: nat, full: nat, d: nat)
    requires (p == 7 || p == 31 || p == 151) && p * n == full && Period(full) && !Period(n) && Period(d)
    ensures d % p == 0
  {
    if d % p != 0 {
      var k, t := Inverse(p, d);
      Multiples(d, k * n);
      Multiples(full, t);
      InverseScaled(p, n, full, d, k, t);
      Difference(t * full, n);
      assert false;
    }
  }

  lemma ThreePrimes(d: nat)
    requires d % 7 == 0 && d % 31 == 0 && d % 151 == 0
    ensures d % 32767 == 0
  {
    var a, b, c := d / 7, d / 31, d / 151;
    var e := 9 * b - 2 * a;
    assert a == 31 * e;
    var f := 135 * c - 194 * e;
    assert d == 32767 * f;
  }

  /** Shifting comes back to the lowest bit exactly after multiples of 32767. */
  lemma PeriodIff(d: nat, full: nat)
    requires full == 32767
    ensures Period(d) <==> d % full == 0
  {
    After32767(7, full);
    if d % full == 0 {
      Multiples(full, d / full);
      assert d / full * full == d;
    }
    if Period(d) {
      Quotients(full, d);
      ThreePrimes(d);
    }
  }

  lemma Quotients(full: nat, d: nat)
    requires full == 32767 && Period(full) && Period(d)
    ensures d % 7 == 0 && d % 31 == 0 && d % 151 == 0
  {
    var n7, n31, n151 := full / 7, full / 31, full / 151;
    NotAfter4681(1, n7);
    NotAfter1057(4, n31);
    NotAfter217(13, n151);
    PrimeDivides(7, n7, full, d);
    PrimeDivides(31, n31, full, d);
    PrimeDivides(151, n151, full, d);
  }

  // ----- the checksum's register -----

  /** The register holds the word. */
  ghost predicate Same(r: Register, w: W) {
    && r[0] == w.b0 && r[1] == w.b1 && r[2] == w.b2 && r[3] == w.b3 && r[4] == w.b4 && r[5] == w.b5 && r[6] == w.b6 && r[7] == w.b7
    && r[8] == w.b8 && r[9] == w.b9 && r[10] == w.b10 && r[11] == w.b11 && r[12] == w.b12 && r[13] == w.b13 && r[14] == w.b14 && r[15] == w.b15
  }

  function DownN(n: nat, w: W): W {
    if n == 0 then w else DownN(n - 1, Down(w))
  }

  lemma ShiftBit(r: Register, i: nat)
    requires i < 16
    ensures Shift(r)[i] == ((i < 15 && r[i + 1]) != (r[0] && (i == 3 || i == 10 || i == 15)))
  {
  }

  lemma SameDown(r: Register, w: W)
    requires Same(r, w)
    ensures Same(Shift(r), Down(w))
  {
    ShiftBit(r, 0); ShiftBit(r, 1); ShiftBit(r, 2); ShiftBit(r, 3);
    ShiftBit(r, 4); ShiftBit(r, 5); ShiftBit(r, 6); ShiftBit(r, 7);
    ShiftBit(r, 8); ShiftBit(r, 9); ShiftBit(r, 10); ShiftBit(r, 11);
    ShiftBit(r, 12); ShiftBit(r, 13); ShiftBit(r, 14); ShiftBit(r, 15);
  }

  lemma {:induction false} SameDownN(n: nat, r: Register, w: W)
    requires Same(r, w)
    ensures Same(ShiftN(n, r), DownN(n, w))
    decreases n
  {
    if n > 0 {
      SameDown(r, w);
      SameDownN(n - 1, Shift(r), Down(w));
    }
  }

  lemma {:induction false} UpAfterDown(n: nat, w: W)
    ensures UpN(n, DownN(n, w)) == w
    decreases n
  {
    if n > 0 {
      UpAfterDown(n - 1, Down(w));
      UpDown(w);
    }
  }

  lemma {:induction false} UpInjective(n: nat, v: W, w: W)
    requires UpN(n, v) == UpN(n, w)
    ensures v == w
  {
    if n > 0 {
      DownUp(UpN(n - 1, v));
      DownUp(UpN(n - 1, w));
      UpInjective(n - 1, v, w);
    }
  }

  lemma DownUp(w: W)
    ensures Down(Up(w)) == w
  {
  }

  lemma SameIsEqual(r: Register, q: Register, w: W)
    requires Same(r, w)
    ensures Same(q, w) <==> q == r
  {
    if Same(q, w) {
      forall i | 0 <= i < 16 ensures q[i] == r[i] {
        if i == 0 { } else if i == 1 { } else if i == 2 { } else if i == 3 { } else if i == 4 { } else if i == 5 { } else if i == 6 { }
        else if i == 7 { } else if i == 8 { } else if i == 9 { } else if i == 10 { } else if i == 11 { } else if i == 12 { }
        else if i == 13 { } else if i == 14 { } else { }
      }
    }
  }

  /** The register with its lowest bit set comes back to itself exactly after multiples of 32767 shifts. */
  lemma ShiftPeriod(d: nat, full: nat)
    requires full == 32767
    ensures ShiftN(d, Pad([true])) == Pad([true]) <==> d % full == 0
  {
    var r := Pad([true]);
    assert Same(r, One());
    SameDownN(d, r, One());
    SameIsEqual(r, ShiftN(d, r), One());
    SameIsEqual(ShiftN(d, r), ShiftN(d, r), DownN(d, One()));
    UpAfterDown(d, One());
    if Period(d) { UpInjective(d, DownN(d, One()), One()); }
    PeriodIff(d, full);
    if Same(ShiftN(d, r), One()) { SameWord(ShiftN(d, r), One(), DownN(d, One())); }
  }

  lemma SameWord(r: Register, v: W, w: W)
    requires Same(r, v) && Same(r, w)
    ensures v == w
  {
  }

  // ----- two single-bit errors -----

  lemma {:induction false} FeedZerosShifts(r: Register, n: nat)
    ensures FeedAll(r, Zeros(n)) == ShiftN(n, r)
    decreases n
  {
    if n > 0 {
      assert r[0 := r[0] != false] == r && Zeros(n)[1..] == Zeros(n - 1);
      FeedZerosShifts(Shift(r), n - 1);
    }
  }

  /** A set bit, n - 1 zeros and a set bit leave the register empty exactly after a full period. */
  lemma PairMark(n: nat, full: nat)
    requires n > 0 && full == 32767
    ensures FeedAll(Zeros(16), [true] + (Zeros(n - 1) + [true])) == Zeros(16) <==> n % full == 0
  {
    var z, p := Zeros(16), Pad([true]);
    var bits := [true] + (Zeros(n - 1) + [true]);
    assert z[0 := z[0] != true] == p && bits[1..] == Zeros(n - 1) + [true];
    FeedAppend(Shift(p), Zeros(n - 1), [true]);
    FeedZerosShifts(Shift(p), n - 1);
    var r := ShiftN(n, p);
    assert [true][1..] == [];
    assert FeedAll(z, bits) == Feed(r, true) == Shift(r[0 := r[0] != true]);
    ShiftInjective(r[0 := r[0] != true]);
    assert Shift(z) == z;
    FlippedIsZero(r);
    ShiftPeriod(n, full);
  }

  lemma FlippedIsZero(r: Register)
    ensures r[0 := r[0] != true] == Zeros(16) <==> r == Pad([true])
  {
    var q, p := r[0 := r[0] != true], Pad([true]);
    if q == Zeros(16) {
      forall i | 0 <= i < 16 ensures r[i] == p[i] { assert q[i] == (if i == 0 then !r[0] else r[i]); }
    }
  }

  lemma PairShape(e: Bits, i: nat, j: nat)
    requires i < j < |e| && forall k :: 0 <= k < |e| ==> e[k] == (k == i || k == j)
    ensures e == Zeros(i) + (([true] + (Zeros(j - i - 1) + [true])) + Zeros(|e| - j - 1))
  {
  }

  /** Zeros around a pattern do not change whether it leaves a mark. */
  lemma FramedMark(i: nat, mid: Bits, n: nat)
    ensures FeedAll(Zeros(16), Zeros(i) + (mid + Zeros(n))) == Zeros(16) <==> FeedAll(Zeros(16), mid) == Zeros(16)
  {
    FeedAppend(Zeros(16), Zeros(i), mid + Zeros(n));
    FeedZeros(i);
    FeedAppend(Zeros(16), mid, Zeros(n));
    QuietTail(FeedAll(Zeros(16), mid), n);
    FeedZeros(n);
  }

  /** The streams differ in the two places i and j and nowhere else. */
  ghost predicate DifferAt(xs: Bits, ys: Bits, i: nat, j: nat) {
    |xs| == |ys| && i < j < |xs| && forall k :: 0 <= k < |xs| ==> (xs[k] != ys[k] <==> k == i || k == j)
  }

  /**
   Two bit streams that differ in exactly two places have the same checksum exactly if these are a multiple of
   32767 bits apart; so two single-bit errors closer than that are always detected.
   */
  lemma PairUndetectedIff(r: Register, xs: Bits, ys: Bits, i: nat, j: nat)
    requires DifferAt(xs, ys, i, j)
    ensures FeedAll(r, xs) == FeedAll(r, ys) <==> (j - i) % 32767 == 0
  {
    var e := Xor(xs, ys);
    assert FeedAll(r, xs) == FeedAll(r, ys) <==> FeedAll(Zeros(16), e) == Zeros(16) by { MarkIsDifference(r, xs, ys); }
    PairShape(e, i, j);
    FramedMark(i, [true] + (Zeros(j - i - 1) + [true]), |e| - j - 1);
    PairMark(j - i, 32767);
  }

  /** Two messages that differ in exactly two bits less than 32767 bits apart have different checksums. */
  lemma DetectsTwoBits(a: seq<byte>, b: seq<byte>, i: nat, j: nat)
    requires DifferAt(MessageBits(a), MessageBits(b), i, j) && j - i < 32767
    ensures Crc(a) != Crc(b)
  {
    NearPair(ToBits(0xFFFF, 16), MessageBits(a), MessageBits(b), i, j);
  }

  lemma NearPair(r: Register, xs: Bits, ys: Bits, i: nat, j: nat)
    requires DifferAt(xs, ys, i, j) && j - i < 32767
    ensures FeedAll(r, xs) != FeedAll(r, ys)
  {
    NoMultiple(j - i);
    PairUndetectedIff(r, xs, ys, i, j);
  }

  lemma NoMultiple(d: nat)
    requires 0 < d < 32767
    ensures d % 32767 != 0
  {
  }
}
