/** The table of byte values that the rolling hash adds up. */
module Gear {
  import opened Bits
  import opened Chunker
  import opened Types

  const GOLDEN: nat := 0x9e37_79b9_7f4a_7c15
  const FIRST_FACTOR: nat := 0xbf58_476d_1ce4_e5b9
  const SECOND_FACTOR: nat := 0x94d0_49bb_1331_11eb

  function Xor(x: nat, y: nat): nat
    decreases x + y
  {
    if x == 0 then y else if y == 0 then x else 2 * Xor(x / 2, y / 2) + (if x % 2 != y % 2 then 1 else 0)
  }

  function XorShift(z: nat, s: nat): nat {
    Xor(z, ShiftRight(z, s))
  }

  function Times(z: nat, factor: nat): nat {
    (z * factor) % WORD
  }

  /** The mixing steps, from a seed to a table entry. */
  function Mix(z: nat): nat {
    XorShift(AfterSecond(z), 31)
  }

  function AfterFirst(z: nat): (r: nat)
    ensures r < WORD
  {
    Times(XorShift(z, 30), FIRST_FACTOR)
  }

  function AfterSecond(z: nat): (r: nat)
    ensures r < WORD
  {
    Times(XorShift(AfterFirst(z), 27), SECOND_FACTOR)
  }

  function Seed(i: nat): nat {
    Times(i + 2, GOLDEN)
  }

  function GearTable(): seq<nat> {
    seq(256, i requires 0 <= i < 256 => Mix(Seed(i)))
  }

  method MakeGearTable() returns (gear: seq<nat>)
    ensures gear == GearTable()
  {
    var table := new nat[256];
    var seed := GOLDEN;
    for i := 0 to 256
      invariant seed == Times(i + 1, GOLDEN)
      invariant forall j :: 0 <= j < i ==> table[j] == Mix(Seed(j))
    {
      NextSeed(i + 1);
      seed := (seed + GOLDEN) % WORD;
      table[i] := MixSeed(seed);
    }
    gear := table[..];
  }

  method MixSeed(seed: nat) returns (z: nat)
    ensures z == Mix(seed)
  {
    z := seed;
    z := (Xor(z, ShiftRight(z, 30)) * FIRST_FACTOR) % WORD;
    z := (Xor(z, ShiftRight(z, 27)) * SECOND_FACTOR) % WORD;
    z := Xor(z, ShiftRight(z, 31));
  }

  lemma NextSeed(i: nat)
    ensures Times(i + 1, GOLDEN) == (Times(i, GOLDEN) + GOLDEN) % WORD
  {
    var n := i * GOLDEN;
    assert (i + 1) * GOLDEN == n + GOLDEN;
    assert n + GOLDEN == (n / WORD) * WORD + (n % WORD + GOLDEN);
    ModAddMultiple(n % WORD + GOLDEN, n / WORD, WORD);
  }

  // ---- Every entry is a word -----------------------------------------------------------

  lemma {:induction false} XorParts(x: nat, y: nat)
    ensures Xor(x, y) % 2 == (x + y) % 2 && Xor(x, y) / 2 == Xor(x / 2, y / 2)
  {
    if x != 0 && y != 0 {
      var q, b := Xor(x / 2, y / 2), if x % 2 != y % 2 then 1 else 0;
      assert Xor(x, y) == 2 * q + b;
      LowBit(q, b);
      LowBitOfSum(x, y);
    }
  }

  lemma LowBit(q: nat, b: nat)
    requires b < 2
    ensures (2 * q + b) % 2 == b && (2 * q + b) / 2 == q
  {
  }

  lemma LowBitOfSum(x: nat, y: nat)
    ensures (x + y) % 2 == if x % 2 != y % 2 then 1 else 0
  {
  }

  lemma {:induction false} XorBound(x: nat, y: nat, k: nat)
    requires x < Pow2(k) && y < Pow2(k)
    ensures Xor(x, y) < Pow2(k)
  {
    if k > 0 {
      XorBound(x / 2, y / 2, k - 1);
      XorParts(x, y);
    }
  }

  lemma XorShiftBound(z: nat, s: nat)
    requires z < WORD
    ensures XorShift(z, s) < WORD
  {
    WordIsPow2();
    QuotientFits(z, Pow2(s));
    XorBound(z, ShiftRight(z, s), 64);
  }

  lemma GearIsValid()
    ensures ValidGear(GearTable())
  {
    forall i | 0 <= i < 256 ensures Mix(Seed(i)) < WORD {
      XorShiftBound(AfterSecond(Seed(i)), 31);
    }
  }

  // ---- All entries differ --------------------------------------------------------------

  /** A word can be told from its shifted exclusive-or with itself. */
  lemma {:induction false} XorShiftInjective(x: nat, y: nat, s: nat)
    requires s >= 1 && XorShift(x, s) == XorShift(y, s)
    ensures x == y
    decreases x + y
  {
    if x != 0 || y != 0 {
      Halved(x, s);
      Halved(y, s);
      XorParts(x, ShiftRight(x, s));
      XorParts(y, ShiftRight(y, s));
      XorShiftInjective(x / 2, y / 2, s);
    }
  }

  lemma Halved(x: nat, s: nat)
    requires s >= 1
    ensures ShiftRight(x, s) == ShiftRight(x / 2, s - 1) && ShiftRight(x, s) / 2 == ShiftRight(x / 2, s)
  {
    assert Pow2(1) == 2;
    ShiftTwice(x, 1, s - 1);
    ShiftTwice(x, s, 1);
    ShiftTwice(x, 1, s);
  }

  /** Multiplying by a factor with an inverse modulo 2^64 loses nothing. */
  lemma TimesInjective(x: nat, y: nat, factor: nat, inverse: nat, k: nat)
    requires x < WORD && y < WORD && factor * inverse == k * WORD + 1
    requires Times(x, factor) == Times(y, factor)
    ensures x == y
  {
    var m, p, q := Times(x, factor), (x * factor) / WORD, (y * factor) / WORD;
    Undo(x, factor, inverse, k, p, m);
    Undo(y, factor, inverse, k, q, m);
    DivModUnique(k * x - p * inverse, x, k * y - q * inverse, y, WORD);
  }

  lemma Undo(x: nat, factor: nat, inverse: nat, k: nat, q: nat, m: nat)
    requires factor * inverse == k * WORD + 1 && x * factor == q * WORD + m
    ensures (k * x - q * inverse) * WORD + x == m * inverse
  {
    calc {
      m * inverse;
      (x * factor - q * WORD) * inverse;
      x * (factor * inverse) - (q * inverse) * WORD;
      x * (k * WORD + 1) - (q * inverse) * WORD;
      (k * x - q * inverse) * WORD + x;
    }
  }

  lemma GoldenInjective(x: nat, y: nat)
    requires x < WORD && y < WORD && Times(x, GOLDEN) == Times(y, GOLDEN)
    ensures x == y
  {
    TimesInjective(x, y, GOLDEN, 0xf1de_83e1_9937_733d, 0x957b_bf35_006e_d677);
  }

  lemma FirstInjective(x: nat, y: nat)
    requires x < WORD && y < WORD && Times(x, FIRST_FACTOR) == Times(y, FIRST_FACTOR)
    ensures x == y
  {
    TimesInjective(x, y, FIRST_FACTOR, 0x96de_1b17_3f11_9089, 0x70c3_bca7_8f27_f46c);
  }

  lemma SecondInjective(x: nat, y: nat)
    requires x < WORD && y < WORD && Times(x, SECOND_FACTOR) == Times(y, SECOND_FACTOR)
    ensures x == y
  {
    TimesInjective(x, y, SECOND_FACTOR, 0x3196_42b2_d24d_8ec3, 0x1cd3_36ed_a85f_1453);
  }

  /** A multiplication after a shift and exclusive-or loses nothing either. */
  lemma StepInjective(x: nat, y: nat, s: nat, second: bool)
    requires x < WORD && y < WORD && s >= 1
    requires var factor := if second then SECOND_FACTOR else FIRST_FACTOR;
             Times(XorShift(x, s), factor) == Times(XorShift(y, s), factor)
    ensures x == y
  {
    XorShiftBound(x, s);
    XorShiftBound(y, s);
    if second {
      SecondInjective(XorShift(x, s), XorShift(y, s));
    } else {
      FirstInjective(XorShift(x, s), XorShift(y, s));
    }
    XorShiftInjective(x, y, s);
  }

  lemma MixInjective(x: nat, y: nat)
    requires x < WORD && y < WORD && Mix(x) == Mix(y)
    ensures x == y
  {
    XorShiftInjective(AfterSecond(x), AfterSecond(y), 31);
    StepInjective(AfterFirst(x), AfterFirst(y), 27, true);
    StepInjective(x, y, 30, false);
  }

  /** No two bytes share a table entry. */
  lemma GearDistinct(i: nat, j: nat)
    requires i < 256 && j < 256 && GearTable()[i] == GearTable()[j]
    ensures i == j
  {
    MixInjective(Seed(i), Seed(j));
    GoldenInjective(i + 2, j + 2);
  }

  /** Two streams that differ only in their last byte have different hashes. */
  lemma {:induction false} LastByteMatters(data: Bytes, b: Byte, c: Byte)
    requires ValidGear(GearTable()) && b != c
    ensures RollHash(GearTable(), data + [b]) != RollHash(GearTable(), data + [c])
  {
    var gear := GearTable();
    RollSnoc(gear, data, b);
    RollSnoc(gear, data, c);
    if gear[b as int] == gear[c as int] {
      GearDistinct(b as int, c as int);
    }
    AddInjective((2 * RollHash(gear, data)) % WORD, gear[b as int], gear[c as int]);
  }

  lemma AddInjective(h: nat, x: nat, y: nat)
    requires h < WORD && x < WORD && y < WORD && x != y
    ensures (h + x) % WORD != (h + y) % WORD
  {
  }
}
