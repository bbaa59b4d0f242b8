/** Unsigned machine words as naturals: powers of two, masks, shifts and the bitwise operators. */
module Bits {

  const WORD: nat := 0x1_0000_0000_0000_0000

  function Pow2(k: nat): (p: nat)
    ensures p >= 1
  {
    if k == 0 then 1 else 2 * Pow2(k - 1)
  }

  function And(x: nat, y: nat): nat {
    if x == 0 || y == 0 then 0 else 2 * And(x / 2, y / 2) + (if x % 2 == 1 && y % 2 == 1 then 1 else 0)
  }

  function Or(x: nat, y: nat): nat
    decreases x + y
  {
    if x == 0 then y else if y == 0 then x else
      2 * Or(x / 2, y / 2) + (if x % 2 == 1 || y % 2 == 1 then 1 else 0)
  }

  lemma QuotientFits(x: nat, d: nat)
    requires d >= 1
    ensures 0 <= x / d <= x
  {
    ProductFits(x / d, x % d, d);
  }

  lemma ProductFits(q: int, r: nat, d: nat)
    requires d >= 1 && r < d && q * d + r >= 0
    ensures 0 <= q <= q * d + r
  {
    if q < 0 { AtLeastOneMore(-q, d); } else if q > 0 { AtLeastOneMore(d, q); }
  }

  /** x >> n for a non-negative x. */
  function ShiftRight(x: nat, n: nat): nat {
    QuotientFits(x, Pow2(n));
    x / Pow2(n)
  }

  lemma {:induction false} Pow2Add(a: nat, b: nat)
    ensures Pow2(a + b) == Pow2(a) * Pow2(b)
  {
    if b > 0 {
      Pow2Add(a, b - 1);
      assert Pow2(a + b) == 2 * Pow2(a + (b - 1));
      assert 2 * (Pow2(a) * Pow2(b - 1)) == Pow2(a) * (2 * Pow2(b - 1));
    }
  }

  lemma {:induction false} Pow2Monotone(a: nat, b: nat)
    requires a <= b
    ensures Pow2(a) <= Pow2(b)
    decreases b
  {
    if a < b { Pow2Monotone(a, b - 1); }
  }

  lemma {:induction false} Pow2Strict(a: nat, b: nat)
    requires Pow2(a) < Pow2(b)
    ensures a < b
  {
    if b <= a { Pow2Monotone(b, a); }
  }

  lemma WordIsPow2()
    ensures Pow2(64) == WORD
  {
    assert Pow2(16) == 0x1_0000 by { assert Pow2(8) == 0x100; }
    Pow2Add(16, 16);
    Pow2Add(32, 32);
  }

  lemma AtLeastOneMore(n: int, d: nat)
    requires n >= 1
    ensures n * d >= d
  {
    assert (n - 1) * d >= 0;
  }

  /** Quotient and remainder are determined. */
  lemma DivModUnique(q: int, r: int, p: int, t: int, d: nat)
    requires 0 <= r < d && 0 <= t < d
    requires q * d + r == p * d + t
    ensures q == p && r == t
  {
    assert (q - p) * d == t - r;
    assert (p - q) * d == r - t;
    if q > p { AtLeastOneMore(q - p, d); } else if q < p { AtLeastOneMore(p - q, d); }
  }

  lemma ModUnique(q: nat, d: nat, r: nat)
    requires r < d
    ensures (q * d + r) % d == r && (q * d + r) / d == q
  {
    var x := q * d + r;
    assert x == (x / d) * d + x % d;
    DivModUnique(x / d, x % d, q, r, d);
  }

  lemma ModAddMultiple(a: nat, q: nat, d: nat)
    requires d > 0
    ensures (q * d + a) % d == a % d
  {
    var c := a / d;
    assert a == c * d + a % d;
    assert q * d + a == (q + c) * d + a % d;
    ModUnique(q + c, d, a % d);
  }

  /** Reducing first modulo a larger power of two changes nothing. */
  lemma {:induction false} ModPow2Twice(x: nat, big: nat, small: nat)
    requires small <= big
    ensures (x % Pow2(big)) % Pow2(small) == x % Pow2(small)
  {
    Pow2Add(big - small, small);
    ModOfProduct(x, Pow2(big - small), Pow2(small));
  }

  lemma ModOfProduct(x: nat, e: nat, d: nat)
    requires e >= 1 && d >= 1 && e * d >= 1
    ensures (x % (e * d)) % d == x % d
  {
    var q, r := x / (e * d), x % (e * d);
    assert x == q * (e * d) + r;
    Regroup(q, e, d);
    ModAddMultiple(r, q * e, d);
  }

  lemma Regroup(a: nat, b: nat, c: nat)
    ensures a * (b * c) == (a * b) * c
  {
  }

  /** x mod 2^(k+1), split into the lowest bit and the rest. */
  lemma ModPow2Step(x: nat, k: nat)
    ensures x % Pow2(k + 1) == 2 * ((x / 2) % Pow2(k)) + x % 2
  {
    var p, h := Pow2(k), x / 2;
    var q, r := h / p, h % p;
    assert h == q * p + r;
    assert x == q * (2 * p) + (2 * r + x % 2);
    assert 2 * r + x % 2 < 2 * p;
    ModUnique(q, 2 * p, 2 * r + x % 2);
  }

  /** Masking with k ones is reduction modulo 2^k. */
  lemma {:induction false} MaskIsMod(x: nat, k: nat)
    ensures And(x, Pow2(k) - 1) == x % Pow2(k)
    decreases k
  {
    if k == 0 {
      assert x % 1 == 0;
    } else if x == 0 {
      assert 0 % Pow2(k) == 0;
    } else {
      var m := Pow2(k) - 1;
      MaskHalf(k);
      assert And(x, m) == 2 * And(x / 2, m / 2) + x % 2;
      MaskIsMod(x / 2, k - 1);
      ModPow2Step(x, k - 1);
    }
  }

  lemma MaskHalf(k: nat)
    requires k > 0
    ensures (Pow2(k) - 1) / 2 == Pow2(k - 1) - 1 && (Pow2(k) - 1) % 2 == 1
  {
  }

  lemma HalfThenDiv(x: nat, d: nat)
    requires d > 0
    ensures (x / 2) / d == x / (2 * d)
  {
    var h := x / 2;
    var q, r := h / d, h % d;
    assert h == q * d + r;
    assert x == q * (2 * d) + (2 * r + x % 2);
    assert 2 * r + x % 2 < 2 * d;
    ModUnique(q, 2 * d, 2 * r + x % 2);
  }


  /** Shifting twice is shifting once by the sum. */
  lemma {:induction false} ShiftTwice(x: nat, a: nat, b: nat)
    ensures ShiftRight(ShiftRight(x, a), b) == ShiftRight(x, a + b)
    decreases a
  {
    if a > 0 {
      HalfThenDiv(x, Pow2(a - 1));
      HalfThenDiv(x, Pow2(a - 1 + b));
      ShiftTwice(x / 2, a - 1, b);
    }
  }

  lemma ShiftHalf(x: nat, n: nat)
    requires n > 0
    ensures ShiftRight(x, n) == ShiftRight(x / 2, n - 1)
  {
    HalfThenDiv(x, Pow2(n - 1));
  }

  lemma {:induction false} OrShift(x: nat, y: nat, n: nat)
    ensures ShiftRight(Or(x, y), n) == Or(ShiftRight(x, n), ShiftRight(y, n))
    decreases n
  {
    if n > 0 {
      OrShift(x / 2, y / 2, n - 1);
      ShiftHalf(x, n);
      ShiftHalf(y, n);
      ShiftHalf(Or(x, y), n);
      OrHalf(x, y);
    }
  }

  lemma {:induction false} OrHalf(x: nat, y: nat)
    ensures Or(x, y) / 2 == Or(x / 2, y / 2)
  {
    if x == 0 { assert x / 2 == 0; } else if y == 0 { assert y / 2 == 0; assert Or(x / 2, 0) == x / 2; }
  }

  lemma {:induction false} OrOdd(x: nat, y: nat)
    requires y % 2 == 1
    ensures Or(x, y) == 2 * Or(x / 2, y / 2) + 1
  {
    if x == 0 { assert Or(x / 2, y / 2) == y / 2; }
  }

  lemma Redouble(q: nat, h: nat)
    ensures 2 * (q * h + h - 1) + 1 == q * (2 * h) + 2 * h - 1
  {
    assert 2 * (q * h) == q * (2 * h);
  }

  /** Or with n ones sets exactly the lowest n bits. */
  lemma {:induction false} OrLowOnes(x: nat, n: nat)
    ensures Or(x, Pow2(n) - 1) == ShiftRight(x, n) * Pow2(n) + Pow2(n) - 1
    decreases n
  {
    if n == 0 {
      assert Or(x, 0) == x;
    } else {
      OrOdd(x, Pow2(n) - 1);
      MaskHalf(n);
      OrLowOnes(x / 2, n - 1);
      HalfThenDiv(x, Pow2(n - 1));
      Redouble(ShiftRight(x, n), Pow2(n - 1));
    }
  }

  lemma {:induction false} OrBound(x: nat, y: nat, n: nat)
    requires x < Pow2(n) && y < Pow2(n)
    ensures x <= Or(x, y) < Pow2(n)
    decreases n
  {
    if n > 0 {
      OrBound(x / 2, y / 2, n - 1);
      OrHalf(x, y);
    }
  }
}
