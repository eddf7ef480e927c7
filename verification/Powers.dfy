/** Powers of two and the masks made of them. */
module Powers {

  function Pow2(k: nat): (p: nat)
    ensures p >= 1
  {
    if k == 0 then 1 else 2 * Pow2(k - 1)
  }

  lemma {:induction false} Pow2Monotone(j: nat, k: nat)
    requires j <= k
    ensures Pow2(j) <= Pow2(k)
  {
    if j < k { Pow2Monotone(j, k - 1); }
  }

  lemma {:induction false} Pow2Double(k: nat)
    ensures Pow2(2 * k) == Pow2(k) * Pow2(k)
  {
    if k > 0 {
      Pow2Double(k - 1);
      var p := Pow2(k - 1);
      assert Pow2(2 * k) == 2 * Pow2(2 * k - 1) == 4 * Pow2(2 * (k - 1));
      assert (2 * p) * (2 * p) == 4 * (p * p);
    }
  }

  lemma {:induction false} Pow2Plus4(k: nat)
    ensures Pow2(k + 4) == 16 * Pow2(k)
  {
    assert Pow2(k + 4) == 2 * Pow2(k + 3);
    assert Pow2(k + 3) == 2 * Pow2(k + 2);
    assert Pow2(k + 2) == 2 * Pow2(k + 1);
  }

  lemma {:induction false} Pow2Plus16(k: nat)
    ensures Pow2(k + 16) == 0x1_0000 * Pow2(k)
  {
    Pow2Plus4(k);
    Pow2Plus4(k + 4);
    Pow2Plus4(k + 8);
    Pow2Plus4(k + 12);
  }

  /** Bitwise AND of two unsigned words. */
  function And(a: nat, b: nat): nat
    decreases a
  {
    if a == 0 || b == 0 then 0
    else 2 * And(a / 2, b / 2) + (if a % 2 == 1 && b % 2 == 1 then 1 else 0)
  }

  function ShiftRight(x: nat, k: nat): nat {
    if k == 0 then x else ShiftRight(x / 2, k - 1)
  }

  /** The n-bit word whose low k bits are clear and whose other bits are set. */
  function HighBits(n: nat, k: nat): nat
    requires k <= n
  {
    if k == 0 then Pow2(n) - 1 else 2 * HighBits(n - 1, k - 1)
  }

  lemma {:induction false} HighBitsValue(n: nat, k: nat)
    requires k <= n
    ensures HighBits(n, k) == Pow2(n) - Pow2(k)
  {
    if k > 0 { HighBitsValue(n - 1, k - 1); }
  }

  /** Clearing the low k bits of an n-bit word rounds it down to a multiple of 2^k. */
  lemma {:induction false} ClearsLowBits(x: nat, n: nat, k: nat)
    requires k <= n && x < Pow2(n)
    ensures var m := And(x, HighBits(n, k)); m == Pow2(k) * ShiftRight(x, k) && m <= x < m + Pow2(k)
  {
    if k == 0 {
      AndOnes(x, n);
    } else {
      ClearsLowBits(x / 2, n - 1, k - 1);
      var y := HighBits(n - 1, k - 1);
      AndEven(x, y);
      OneBitMore(x, Pow2(k - 1), ShiftRight(x / 2, k - 1), And(x / 2, y));
    }
  }

  lemma {:induction false} AndEven(x: nat, y: nat)
    ensures And(x, 2 * y) == 2 * And(x / 2, y)
  {
    var z := 2 * y;
    assert z / 2 == y && z % 2 == 0;
    if x != 0 && z != 0 {
      assert And(x, z) == 2 * And(x / 2, z / 2);
    }
  }

  lemma OneBitMore(x: nat, h: nat, q: nat, m: nat)
    requires m == h * q && m <= x / 2 < m + h
    ensures 2 * m == (2 * h) * q && 2 * m <= x < 2 * m + 2 * h
  {
  }

  lemma {:induction false} AndOnes(x: nat, n: nat)
    requires x < Pow2(n)
    ensures And(x, Pow2(n) - 1) == x
  {
    if n > 0 {
      AndOnes(x / 2, n - 1);
      assert Pow2(n) - 1 == 2 * (Pow2(n - 1) - 1) + 1;
    }
  }

  lemma MultipleIsZero(a: nat, q: nat)
    requires a > 0
    ensures (a * q) % a == 0
  {
    var m := (a * q) % a;
    var d := (a * q) / a;
    assert a * q == a * d + m;
    assert a * (q - d) == m;
    assert q - d >= 1 ==> a * (q - d) >= a;
    assert q - d <= -1 ==> a * (q - d) <= -(a as int);
  }
}
