/** The content-defined chunker: a wrapping 64-bit rolling hash with minimum and maximum sizes. */
module Chunker {
  import opened Bits
  import opened Splitting
  import opened Types

  const DEFAULT_CHUNK_SIZE: nat := 524288
  const MAX_CHUNK_SIZE: nat := 67108864
  const MIN_FLOOR: nat := 8192

  // ---- Powers of two -------------------------------------------------------------------

  const INT64_SIGN: int := 0x8000_0000_0000_0000

  /** A signed 64-bit addition wraps. */
  function WrapInt64(x: int): (r: int)
    ensures -INT64_SIGN <= r < INT64_SIGN
    ensures -INT64_SIGN <= x < INT64_SIGN ==> r == x
  {
    (x + INT64_SIGN) % WORD - INT64_SIGN
  }

  /** The top t of v's p + 1 bits are ones. */
  ghost predicate TopOnes(v: nat, p: nat, t: nat) {
    1 <= t <= p + 1 && v < Pow2(p + 1) && ShiftRight(v, p + 1 - t) == Pow2(t) - 1
  }

  lemma FewerTopOnes(v: nat, p: nat, t: nat, e: nat)
    requires TopOnes(v, p, t) && 1 <= e <= t
    ensures TopOnes(v, p, e)
  {
    ShiftTwice(v, p + 1 - t, t - e);
    OnesShift(t, t - e);
  }

  /** Shifting n ones right by k leaves n - k ones. */
  lemma OnesShift(n: nat, k: nat)
    requires k <= n
    ensures ShiftRight(Pow2(n) - 1, k) == Pow2(n - k) - 1
  {
    Pow2Add(n - k, k);
    Distribute(Pow2(n - k), Pow2(k));
    ModUnique(Pow2(n - k) - 1, Pow2(k), Pow2(k) - 1);
  }

  /** How many ones one smearing step adds: it doubles the run, up to the whole width. */
  ghost function Gain(p: nat, t: nat): nat
    requires t <= p + 1
  {
    if 2 * t <= p + 1 then t else p + 1 - t
  }

  lemma {:induction false} SmearStep(v: nat, p: nat, t: nat)
    requires TopOnes(v, p, t)
    ensures TopOnes(Or(v, ShiftRight(v, t)), p, t + Gain(p, t))
  {
    var e := Gain(p, t);
    if e == 0 {
      FullOnes(v, p);
    } else {
      ShiftShrinks(v, t);
      OrBound(v, ShiftRight(v, t), p + 1);
      SmearedTop(v, p, t, e);
    }
  }

  lemma SmearedTop(v: nat, p: nat, t: nat, e: nat)
    requires TopOnes(v, p, t) && 1 <= e <= t && t + e <= p + 1
    requires e == t || t + e == p + 1
    ensures ShiftRight(Or(v, ShiftRight(v, t)), p + 1 - t - e) == Pow2(t + e) - 1
  {
    var d := p + 1 - t - e;
    var a := ShiftRight(v, d);
    OrShift(v, ShiftRight(v, t), d);
    ShiftTwice(v, t, d);
    assert ShiftRight(ShiftRight(v, t), d) == Pow2(e) - 1 by {
      FewerTopOnes(v, p, t, e);
      assert t + d == p + 1 - e;
    }
    OrLowOnes(a, e);
    ShiftTwice(v, d, e);
    assert ShiftRight(a, e) == Pow2(t) - 1;
    Pow2Add(t, e);
    Distribute(Pow2(t), Pow2(e));
  }

  lemma Distribute(a: nat, b: nat)
    requires a >= 1 && b >= 1
    ensures (a - 1) * b + b - 1 == a * b - 1
  {
  }

  lemma {:induction false} ShiftShrinks(v: nat, t: nat)
    ensures ShiftRight(v, t) <= v
    decreases t
  {
    if t > 0 {
      HalfThenDiv(v, Pow2(t - 1));
      ShiftShrinks(v / 2, t - 1);
    }
  }

  lemma FullOnes(v: nat, p: nat)
    requires TopOnes(v, p, p + 1)
    ensures v == Pow2(p + 1) - 1
    ensures forall k: nat :: TopOnes(Or(v, ShiftRight(v, k)), p, p + 1)
  {
    assert Pow2(0) == 1;
    forall k: nat ensures TopOnes(Or(v, ShiftRight(v, k)), p, p + 1) {
      ShiftShrinks(v, k);
      OrBound(v, ShiftRight(v, k), p + 1);
    }
  }

  /** The run of ones under the top bit after the shifts below the given one. */
  ghost function Run(p: nat, shift: nat): nat {
    if shift <= p + 1 then shift else p + 1
  }

  lemma {:induction false} SmearRun(v: nat, p: nat, shift: nat)
    requires shift >= 1 && TopOnes(v, p, Run(p, shift))
    ensures TopOnes(Or(v, ShiftRight(v, shift)), p, Run(p, 2 * shift))
  {
    if shift <= p + 1 { SmearStep(v, p, shift); } else { FullOnes(v, p); }
  }

  /** The exponent of the highest set bit. */
  ghost function TopBit(v: nat): (p: nat)
    requires v >= 1
    ensures Pow2(p) <= v < Pow2(p + 1)
  {
    if v == 1 then 0 else TopBit(v / 2) + 1
  }

  /** The exponent of the least power of two that is at least v. */
  ghost function CeilLog2(v: nat): (k: nat)
    ensures v <= Pow2(k)
    ensures forall j: nat :: v <= Pow2(j) ==> k <= j
  {
    if v <= 1 then 0 else
      assert forall j: nat :: v <= Pow2(j) ==> TopBit(v - 1) + 1 <= j by {
        forall j: nat | v <= Pow2(j) ensures TopBit(v - 1) + 1 <= j {
          Pow2Strict(TopBit(v - 1), j);
        }
      }
      TopBit(v - 1) + 1
  }

  /**
   * Rounds up to a power of two by smearing the highest bit downwards. Up to 2^62 the result is
   * the least power of two that is at least the argument; above that the final increment wraps.
   */
  method NextPowerOfTwo(value: int) returns (r: int)
    requires -INT64_SIGN <= value < INT64_SIGN
    ensures value <= 1 ==> r == 1
    ensures 1 <= value <= 0x4000_0000_0000_0000 ==> r == Pow2(CeilLog2(value))
    ensures value > 0x4000_0000_0000_0000 ==> r == -INT64_SIGN
  {
    if value <= 1 {
      return 1;
    }
    var v: nat := value - 1;
    ghost var p := TopBit(v);
    TopBitBound(v);
    TopBitOnes(v);
    var shift: nat := 1;
    while shift < 64
      invariant 1 <= shift && (shift < 64 || p < shift)
      invariant TopOnes(v, p, Run(p, shift))
      decreases 64 - shift
    {
      SmearRun(v, p, shift);
      v := Or(v, ShiftRight(v, shift));
      shift := shift * 2;
    }
    FullOnes(v, p);
    r := WrapInt64(v + 1);
    SizeOfTop(value);
  }

  lemma {:induction false} TopBitOnes(v: nat)
    requires v >= 1
    ensures TopOnes(v, TopBit(v), 1)
  {
    var p := TopBit(v);
    ModUnique(1, Pow2(p), v - Pow2(p));
  }

  lemma Pow2At62And63()
    ensures Pow2(62) == 0x4000_0000_0000_0000 && Pow2(63) == INT64_SIGN
  {
    WordIsPow2();
    assert Pow2(64) == 2 * Pow2(63) && Pow2(63) == 2 * Pow2(62);
  }

  lemma {:induction false} TopBitBound(v: nat)
    requires 1 <= v < INT64_SIGN
    ensures TopBit(v) + 1 <= 63
  {
    Pow2At62And63();
    Pow2Strict(TopBit(v), 63);
  }

  lemma SizeOfTop(value: nat)
    requires 2 <= value < INT64_SIGN
    ensures value <= 0x4000_0000_0000_0000 ==> Pow2(TopBit(value - 1) + 1) <= 0x4000_0000_0000_0000
    ensures value > 0x4000_0000_0000_0000 ==> Pow2(TopBit(value - 1) + 1) == INT64_SIGN
  {
    var p := TopBit(value - 1);
    Pow2At62And63();
    if value <= 0x4000_0000_0000_0000 {
      Pow2Strict(p, 62);
      Pow2Monotone(p + 1, 62);
    } else {
      TopBitBound(value - 1);
      Pow2Strict(62, p + 1);
    }
  }

  // ---- The rolling hash ----------------------------------------------------------------

  ghost predicate ValidGear(gear: seq<nat>) {
    |gear| == 256 && forall b :: 0 <= b < 256 ==> gear[b] < WORD
  }

  /** One step of the wrapping 64-bit hash: shift left, then add the byte's gear value. */
  function Roll(gear: seq<nat>, hash: nat, b: Byte): (r: nat)
    requires ValidGear(gear)
    ensures r < WORD
  {
    ((2 * hash) % WORD + gear[b as int]) % WORD
  }

  function RollHash(gear: seq<nat>, data: Bytes): (r: nat)
    requires ValidGear(gear)
    ensures r < WORD
  {
    if data == [] then 0 else Roll(gear, RollHash(gear, data[..|data| - 1]), data[|data| - 1])
  }

  /** The sum over j < n of gear[data[|data| - 1 - j]] * 2^j, without wrap-around. */
  ghost function WindowSum(gear: seq<nat>, data: Bytes, n: nat): nat
    requires ValidGear(gear) && n <= |data|
  {
    if n == 0 then 0 else WindowSum(gear, data, n - 1) + gear[data[|data| - n] as int] * Pow2(n - 1)
  }

  /** Appending a byte doubles every older term. */
  lemma {:induction false} WindowSumSnoc(gear: seq<nat>, data: Bytes, n: nat)
    requires ValidGear(gear) && 1 <= n <= |data|
    ensures WindowSum(gear, data, n)
         == 2 * WindowSum(gear, data[..|data| - 1], n - 1) + gear[data[|data| - 1] as int]
    decreases n
  {
    var older := data[..|data| - 1];
    if n == 1 {
      assert WindowSum(gear, data, 0) == 0 && Pow2(0) == 1;
    } else {
      WindowSumSnoc(gear, data, n - 1);
      assert older[|older| - (n - 1)] == data[|data| - n];
      var g := gear[data[|data| - n] as int];
      assert g * Pow2(n - 1) == 2 * (g * Pow2(n - 2));
    }
  }

  /** The hash of a prefix is the whole weighted sum of its bytes, reduced modulo 2^64. */
  lemma {:induction false} HashIsWindowSum(gear: seq<nat>, data: Bytes)
    requires ValidGear(gear)
    ensures RollHash(gear, data) == WindowSum(gear, data, |data|) % WORD
    decreases |data|
  {
    if data != [] {
      var older := data[..|data| - 1];
      HashIsWindowSum(gear, older);
      WindowSumSnoc(gear, data, |data|);
      RollMod(WindowSum(gear, older, |older|), gear[data[|data| - 1] as int]);
    }
  }

  lemma RollMod(x: nat, g: nat)
    ensures ((2 * (x % WORD)) % WORD + g) % WORD == (2 * x + g) % WORD
  {
    var q, r := x / WORD, x % WORD;
    assert 2 * x + g == (2 * q) * WORD + (2 * r + g);
    ModAddMultiple(2 * r + g, 2 * q, WORD);
    var s := (2 * r) / WORD;
    assert 2 * r + g == s * WORD + ((2 * r) % WORD + g);
    ModAddMultiple((2 * r) % WORD + g, s, WORD);
  }

  lemma HeavyTerm(a: nat, g: nat, e: nat, d: nat)
    requires d > 0
    ensures (a + g * (e * d)) % d == a % d
  {
    assert g * (e * d) == (g * e) * d;
    ModAddMultiple(a, g * e, d);
  }

  /** Terms with weight 2^k or more vanish modulo 2^k. */
  lemma {:induction false} OnlyWindowCounts(gear: seq<nat>, data: Bytes, n: nat, k: nat)
    requires ValidGear(gear) && k <= n <= |data|
    ensures WindowSum(gear, data, n) % Pow2(k) == WindowSum(gear, data, k) % Pow2(k)
    decreases n
  {
    if n > k {
      OnlyWindowCounts(gear, data, n - 1, k);
      Pow2Add(n - 1 - k, k);
      HeavyTerm(WindowSum(gear, data, n - 1), gear[data[|data| - n] as int], Pow2(n - 1 - k), Pow2(k));
    }
  }

  lemma {:induction false} WindowSumSuffix(gear: seq<nat>, p: Bytes, q: Bytes, n: nat)
    requires ValidGear(gear) && n <= |p| && n <= |q|
    requires p[|p| - n..] == q[|q| - n..]
    ensures WindowSum(gear, p, n) == WindowSum(gear, q, n)
    decreases n
  {
    if n > 0 {
      assert p[|p| - n] == p[|p| - n..][0] == q[|q| - n..][0] == q[|q| - n];
      assert p[|p| - (n - 1)..] == p[|p| - n..][1..] == q[|q| - (n - 1)..];
      WindowSumSuffix(gear, p, q, n - 1);
    }
  }

  /** The low k bits of the hash: the part that the cut test looks at. */
  lemma {:induction false} LowBits(gear: seq<nat>, data: Bytes, k: nat)
    requires ValidGear(gear) && k <= 64 && k <= |data|
    ensures And(RollHash(gear, data), Pow2(k) - 1) == WindowSum(gear, data, k) % Pow2(k)
  {
    MaskIsMod(RollHash(gear, data), k);
    HashIsWindowSum(gear, data);
    WordIsPow2();
    ModPow2Twice(WindowSum(gear, data, |data|), 64, k);
    OnlyWindowCounts(gear, data, |data|, k);
  }

  // ---- One chunk -----------------------------------------------------------------------

  /** The chunker's parameters for one target size; the hash mask is 2^bits - 1. */
  datatype Cutter = Cutter(gear: seq<nat>, minSize: nat, maxSize: nat, bits: nat)

  ghost predicate ValidCutter(c: Cutter) {
    ValidGear(c.gear) && 1 <= c.minSize <= c.maxSize && c.bits <= c.minSize && c.bits <= 64
  }

  /** The cut test on the bytes of the open chunk. */
  predicate Hit(c: Cutter, data: Bytes)
    requires ValidGear(c.gear)
  {
    And(RollHash(c.gear, data), Pow2(c.bits) - 1) == 0
  }

  /** The test depends on the last bits bytes only, whatever came before them. */
  lemma HitIsLocal(c: Cutter, p: Bytes, q: Bytes)
    requires ValidCutter(c) && |p| >= c.bits && |q| >= c.bits
    requires p[|p| - c.bits..] == q[|q| - c.bits..]
    ensures Hit(c, p) == Hit(c, q)
  {
    LowBits(c.gear, p, c.bits);
    LowBits(c.gear, q, c.bits);
    WindowSumSuffix(c.gear, p, q, c.bits);
  }

  /** An open chunk of n bytes may close here: it is long enough and the test passes, or it is full. */
  predicate Closes(c: Cutter, s: Bytes, n: nat)
    requires ValidGear(c.gear) && n <= |s|
  {
    (c.minSize <= n && Hit(c, s[..n])) || n == c.maxSize
  }

  /** Where the chunk that holds n bytes of s so far ends. */
  function CutFrom(c: Cutter, s: Bytes, n: nat): (cut: nat)
    requires ValidCutter(c) && n <= |s| && n <= c.maxSize
    ensures n <= cut <= |s| && cut <= c.maxSize
    ensures n < c.maxSize && n < |s| ==> n < cut
    decreases |s| - n
  {
    if n == c.maxSize || n == |s| then n
    else if c.minSize <= n + 1 && Hit(c, s[..n + 1]) then n + 1
    else CutFrom(c, s, n + 1)
  }

  /** A cut is the first closing position, or the end of the stream when there is none. */
  ghost predicate FirstClosing(c: Cutter, s: Bytes, from: nat, cut: nat)
    requires ValidGear(c.gear)
  {
    from < cut <= |s|
    && (cut == |s| || Closes(c, s, cut))
    && forall m :: from < m < cut ==> !Closes(c, s, m)
  }

  lemma {:induction false} CutIsFirstClosing(c: Cutter, s: Bytes, n: nat)
    requires ValidCutter(c) && n < |s| && n < c.maxSize
    ensures FirstClosing(c, s, n, CutFrom(c, s, n))
    decreases |s| - n
  {
    if !(c.minSize <= n + 1 && Hit(c, s[..n + 1])) && n + 1 < c.maxSize && n + 1 < |s| {
      CutIsFirstClosing(c, s, n + 1);
    }
  }

  /** FirstClosing leaves no choice. */
  lemma FirstClosingUnique(c: Cutter, s: Bytes, n: nat, a: nat, b: nat)
    requires ValidGear(c.gear) && FirstClosing(c, s, n, a) && FirstClosing(c, s, n, b)
    ensures a == b
  {
  }

  // ---- Parameters for a target size ----------------------------------------------------

  function MinSize(target: nat): nat {
    if target / 4 < MIN_FLOOR then MIN_FLOOR else target / 4
  }

  function MaxSize(target: nat): nat {
    if target * 4 < MinSize(target) then MinSize(target) else target * 4
  }

  /** The mask width: log2 of the target rounded up, or the default's when that mask is zero. */
  ghost function MaskBits(target: nat): nat {
    if CeilLog2(target) == 0 then 19 else CeilLog2(target)
  }

  ghost function CutterFor(gear: seq<nat>, targetSize: int): Cutter {
    var target := if targetSize <= 0 then DEFAULT_CHUNK_SIZE else targetSize;
    Cutter(gear, MinSize(target), MaxSize(target), MaskBits(target))
  }

  lemma LargestMask()
    ensures Pow2(26) == MAX_CHUNK_SIZE
  {
    Pow2Add(13, 13);
    assert Pow2(13) == 8192;
  }

  /** Every accepted target size has a window of at most 26 bytes, far below the minimum size. */
  lemma WindowIsFull(gear: seq<nat>, targetSize: int)
    requires ValidGear(gear) && targetSize <= MAX_CHUNK_SIZE
    ensures CutterFor(gear, targetSize).bits <= 26 < 8192 <= CutterFor(gear, targetSize).minSize
    ensures ValidCutter(CutterFor(gear, targetSize))
  {
    var target := if targetSize <= 0 then DEFAULT_CHUNK_SIZE else targetSize;
    LargestMask();
    assert target <= Pow2(26);
  }

  lemma DefaultMask()
    ensures Pow2(19) == DEFAULT_CHUNK_SIZE
  {
    Pow2Add(9, 10);
    assert Pow2(9) == 512;
  }

  // ---- Reading one chunk ---------------------------------------------------------------

  datatype ByteRead = GotByte(b: Byte) | EndOfInput | ByteFailed
  datatype ChunkRead = Piece(data: Bytes) | NoMore | ReadFailed

  /** An upload stream: it delivers data and then either ends or fails. */
  class Reader {
    const data: Bytes
    const broken: bool
    var pos: nat

    ghost predicate Valid() reads this { pos <= |data| }

    ghost function Rest(): Bytes
      reads this
      requires Valid()
    {
      data[pos..]
    }

    constructor (data: Bytes, broken: bool)
      ensures Valid() && Rest() == data && this.data == data && this.broken == broken
    {
      this.data, this.broken, this.pos := data, broken, 0;
    }

    method ReadByte() returns (r: ByteRead)
      requires Valid()
      modifies this
      ensures Valid()
      ensures old(pos) == |data| ==> r == (if broken then ByteFailed else EndOfInput) && pos == old(pos)
      ensures old(pos) < |data| ==> r == GotByte(data[old(pos)]) && pos == old(pos) + 1
    {
      if pos < |data| {
        r := GotByte(data[pos]);
        pos := pos + 1;
      } else {
        r := if broken then ByteFailed else EndOfInput;
      }
    }
  }

  /** What reading a chunk from rest must deliver. A failing stream loses its unfinished chunk. */
  ghost function NextPiece(c: Cutter, rest: Bytes, broken: bool): ChunkRead
    requires ValidCutter(c)
  {
    var cut := CutFrom(c, rest, 0);
    if broken && !Closes(c, rest, cut) then ReadFailed
    else if rest == [] then NoMore
    else Piece(rest[..cut])
  }

  lemma {:induction false} RollSnoc(gear: seq<nat>, data: Bytes, b: Byte)
    requires ValidGear(gear)
    ensures RollHash(gear, data + [b]) == Roll(gear, RollHash(gear, data), b)
  {
    assert (data + [b])[..|data|] == data;
  }

  lemma TakeByte(c: Cutter, rest: Bytes, n: nat)
    requires ValidCutter(c) && n < |rest| && n < c.maxSize
    ensures rest[..n + 1] == rest[..n] + [rest[n]]
    ensures RollHash(c.gear, rest[..n + 1]) == Roll(c.gear, RollHash(c.gear, rest[..n]), rest[n])
    ensures CutFrom(c, rest, n)
         == if c.minSize <= n + 1 && Hit(c, rest[..n + 1]) then n + 1 else CutFrom(c, rest, n + 1)
  {
    assert rest[..n + 1] == rest[..n] + [rest[n]];
    RollSnoc(c.gear, rest[..n], rest[n]);
  }

  /** The size limits and the hash mask for a target size. */
  method CutParameters(gear: seq<nat>, targetSize: int) returns (minSize: nat, maxSize: nat, mask: nat)
    requires ValidGear(gear) && targetSize <= MAX_CHUNK_SIZE
    ensures var c := CutterFor(gear, targetSize);
            ValidCutter(c) && minSize == c.minSize && maxSize == c.maxSize && mask == Pow2(c.bits) - 1
  {
    WindowIsFull(gear, targetSize);
    DefaultMask();
    var target: nat := if targetSize <= 0 then DEFAULT_CHUNK_SIZE else targetSize;
    minSize := target / 4;
    if minSize < MIN_FLOOR {
      minSize := MIN_FLOOR;
    }
    maxSize := target * 4;
    if maxSize < minSize {
      maxSize := minSize;
    }
    var power := NextPowerOfTwo(target);
    mask := power - 1;
    if mask == 0 {
      mask := DEFAULT_CHUNK_SIZE - 1;
    }
  }

  method ReadContentDefinedChunk(gear: seq<nat>, r: Reader, targetSize: int) returns (out: ChunkRead)
    requires ValidGear(gear) && r.Valid() && targetSize <= MAX_CHUNK_SIZE
    modifies r
    ensures r.Valid()
    ensures ValidCutter(CutterFor(gear, targetSize))
    ensures out == NextPiece(CutterFor(gear, targetSize), old(r.Rest()), r.broken)
    ensures out.Piece? ==> |out.data| <= |old(r.Rest())| && r.Rest() == old(r.Rest())[|out.data|..]
  {
    ghost var start := r.pos;
    var minSize, maxSize, mask := CutParameters(gear, targetSize);
    out := FillChunk(gear, r, minSize, maxSize, mask, CutterFor(gear, targetSize));
    if out.Piece? {
      DropDrop(r.data, start, |out.data|);
    }
  }

  /** The byte loop: wait for a natural cut, but respect the size limits. */
  method FillChunk(gear: seq<nat>, r: Reader, minSize: nat, maxSize: nat, mask: nat, ghost c: Cutter)
    returns (out: ChunkRead)
    requires ValidCutter(c) && r.Valid()
    requires gear == c.gear && minSize == c.minSize && maxSize == c.maxSize && mask == Pow2(c.bits) - 1
    modifies r
    ensures r.Valid()
    ensures out == NextPiece(c, old(r.Rest()), r.broken)
    ensures out.Piece? ==> r.pos == old(r.pos) + |out.data|
  {
    ghost var start := r.pos;
    ghost var rest := r.data[start..];
    var data: Bytes := [];
    var hash: nat := 0;
    while |data| < maxSize
      invariant r.Valid() && |data| <= |rest| && |data| <= maxSize
      invariant data == rest[..|data|] && r.pos == start + |data|
      invariant hash == RollHash(gear, data)
      invariant CutFrom(c, rest, 0) == CutFrom(c, rest, |data|)
      invariant |data| < maxSize ==> !Closes(c, rest, |data|)
      decreases maxSize - |data|
    {
      var read := r.ReadByte();
      match read {
        case EndOfInput =>
          assert data == rest;
          return if |data| == 0 then NoMore else Piece(data);
        case ByteFailed =>
          return ReadFailed;
        case GotByte(b) =>
          TakeByte(c, rest, |data|);
          data := data + [b];
          hash := Roll(gear, hash, b);
          if |data| >= minSize && And(hash, mask) == 0 {
            return Piece(data);
          }
      }
    }
    return Piece(data);
  }

  // ---- The whole stream ----------------------------------------------------------------

  /** The chunker as a splitting rule. */
  ghost function CutRule(c: Cutter): (cut: Rule)
    requires ValidCutter(c)
    ensures Progresses(cut)
  {
    (s: Bytes) => CutFrom(c, s, 0)
  }

  /** The chunks of a stream that ends normally. */
  ghost function Chunks(c: Cutter, s: Bytes): seq<Bytes>
    requires ValidCutter(c)
  {
    Split(CutRule(c), s)
  }

  /** All chunks that reading the stream to its end or its failure delivers. */
  ghost function Delivered(c: Cutter, s: Bytes, broken: bool): seq<Bytes>
    requires ValidCutter(c)
    decreases |s|
  {
    match NextPiece(c, s, broken)
    case Piece(d) => [d] + Delivered(c, s[|d|..], broken)
    case NoMore => []
    case ReadFailed => []
  }

  /** A stream that ends delivers all its chunks; one that fails loses at most the last. */
  lemma {:induction false} DeliveredChunks(c: Cutter, s: Bytes, broken: bool)
    requires ValidCutter(c)
    ensures !broken ==> Delivered(c, s, broken) == Chunks(c, s)
    ensures Delivered(c, s, broken) <= Chunks(c, s)
    ensures |Delivered(c, s, broken)| + 1 >= |Chunks(c, s)|
    decreases |s|
  {
    if s != [] {
      var cut := CutFrom(c, s, 0);
      SplitCons(CutRule(c), s);
      if NextPiece(c, s, broken).Piece? {
        DeliveredChunks(c, s[cut..], broken);
      } else {
        CutIsFirstClosing(c, s, 0);
        assert s[cut..] == [];
      }
    }
  }

  /** Chunking loses nothing of a stream that ends, and nothing but the tail of one that fails. */
  lemma {:induction false} ChunksPartition(c: Cutter, s: Bytes, broken: bool)
    requires ValidCutter(c)
    ensures !broken ==> Flatten(Delivered(c, s, broken)) == s
    ensures Flatten(Delivered(c, s, broken)) <= s
  {
    DeliveredChunks(c, s, broken);
    Partition(CutRule(c), s);
    FlattenPrefix(Delivered(c, s, broken), Chunks(c, s));
  }

  /** Every chunk but the last is cut at the first admissible position; none is too long or empty. */
  lemma {:induction false} ChunkSizes(c: Cutter, s: Bytes, i: nat)
    requires ValidCutter(c) && i < |Chunks(c, s)|
    ensures Offset(Chunks(c, s), i) < |s|
    ensures var rest, n := s[Offset(Chunks(c, s), i)..], |Chunks(c, s)[i]|;
            && 1 <= n <= c.maxSize && n <= |rest| && Chunks(c, s)[i] == rest[..n]
            && (forall m :: 0 < m < n ==> !Closes(c, rest, m))
            && (i + 1 < |Chunks(c, s)| ==> n >= c.minSize && Closes(c, rest, n))
  {
    PieceFollowsRule(CutRule(c), s, i);
    CutIsFirstClosing(c, s[Offset(Chunks(c, s), i)..], 0);
    if i + 1 < |Chunks(c, s)| { LaterPieceFits(CutRule(c), s, i); }
  }

  /** The sizes and the mask of an upload in terms of the chunk size it asks for. */
  lemma CutterFigures(gear: seq<nat>, requested: int)
    requires 0 < requested <= MAX_CHUNK_SIZE
    ensures var c := CutterFor(gear, requested);
            && c.minSize == (if requested / 4 < 8192 then 8192 else requested / 4)
            && c.maxSize == (if 4 * requested < 8192 then 8192 else 4 * requested)
            && (requested == 1 ==> c.bits == 19)
            && (requested > 1 ==> requested <= Pow2(c.bits) && forall j: nat :: requested <= Pow2(j) ==> c.bits <= j)
  {
    if requested > 1 { assert Pow2(0) == 1; }
  }

  /**
   * The chunks that an upload stores, in terms of the chunk size it asks for: none is empty or longer
   * than four times that, or 8192 bytes if that is more; none but the last is shorter than a quarter
   * of it, or 8192 bytes if that is more.
   */
  lemma {:induction false} UploadChunkLengths(gear: seq<nat>, requested: int, s: Bytes, broken: bool, i: nat)
    requires ValidGear(gear) && 0 < requested <= 67108864 && ValidCutter(CutterFor(gear, requested))
    requires i < |Delivered(CutterFor(gear, requested), s, broken)|
    ensures var pieces := Delivered(CutterFor(gear, requested), s, broken);
            && 1 <= |pieces[i]|
            && (|pieces[i]| <= 8192 || |pieces[i]| <= 4 * requested)
            && (i + 1 < |pieces| ==> |pieces[i]| >= 8192 && |pieces[i]| >= requested / 4)
  {
    var c := CutterFor(gear, requested);
    DeliveredChunks(c, s, broken);
    assert Delivered(c, s, broken)[i] == Chunks(c, s)[i];
    ChunkSizes(c, s, i);
    CutterFigures(gear, requested);
  }

  /** A stream shorter than the minimum size is one chunk. */
  lemma {:induction false} ShortStreamIsOneChunk(c: Cutter, s: Bytes)
    requires ValidCutter(c) && 0 < |s| < c.minSize
    ensures Delivered(c, s, false) == [s]
  {
    CutIsFirstClosing(c, s, 0);
    assert s[..|s|] == s && s[|s|..] == [];
    assert Delivered(c, [], false) == [];
  }

  // ---- Resynchronisation ---------------------------------------------------------------

  /** The chunk that ends at offset e of s was cut by its content, not by its length or the end. */
  ghost predicate ContentCut(c: Cutter, s: Bytes, e: nat)
    requires ValidCutter(c) && 0 < e <= |s|
  {
    var q := OpenStart(CutRule(c), s, e);
    e - q >= c.minSize && Hit(c, s[q..e])
  }

  lemma {:induction false} ContentCutIsBoundary(c: Cutter, s: Bytes, e: nat)
    requires ValidCutter(c) && 0 < e <= |s| && ContentCut(c, s, e)
    ensures Boundary(CutRule(c), s, e)
  {
    var q := OpenStart(CutRule(c), s, e);
    OpenPieceReaches(CutRule(c), s, e);
    CutIsFirstClosing(c, s[q..], 0);
    DropTake(s, q, e);
    assert Closes(c, s[q..], e - q);
  }

  /** The stream is cut at offset x of its tail s: chunks of what is before, then the chunks of what follows. */
  ghost predicate CutsTail(c: Cutter, p: Bytes, s: Bytes, x: nat)
    requires ValidCutter(c) && x <= |s|
  {
    && Boundary(CutRule(c), p + s, |p| + x)
    && Chunks(c, p + s) == UpTo(CutRule(c), p + s, |p| + x) + Chunks(c, s[x..])
    && Flatten(UpTo(CutRule(c), p + s, |p| + x)) == p + s[..x]
  }

  lemma TailAfterContentCut(c: Cutter, p: Bytes, s: Bytes, x: nat)
    requires ValidCutter(c) && 0 < x <= |s| && ContentCut(c, p + s, |p| + x)
    ensures CutsTail(c, p, s, x)
  {
    ContentCutIsBoundary(c, p + s, |p| + x);
    SplitTail(CutRule(c), p, s, x);
  }

  /** The last k bytes before offset x of the common tail lie in that tail. */
  lemma WindowInTail(p: Bytes, s: Bytes, x: nat, q: nat, k: nat)
    requires k <= x <= |s| && q + k <= |p| + x
    ensures var d := (p + s)[q..|p| + x]; d[|d| - k..] == s[x - k..x]
  {
  }

  /** The cut test at offset x of the tail does not see what came before the window. */
  lemma SameTest(c: Cutter, p1: Bytes, q1: nat, p2: Bytes, q2: nat, s: Bytes, x: nat)
    requires ValidCutter(c) && c.bits <= x <= |s|
    requires q1 + c.bits <= |p1| + x && q2 + c.bits <= |p2| + x
    ensures Hit(c, (p1 + s)[q1..|p1| + x]) == Hit(c, (p2 + s)[q2..|p2| + x])
  {
    WindowInTail(p1, s, x, q1, c.bits);
    WindowInTail(p2, s, x, q2, c.bits);
    HitIsLocal(c, (p1 + s)[q1..|p1| + x], (p2 + s)[q2..|p2| + x]);
  }

  /**
   * Resynchronisation after an edit: where one stream has a content-defined cut at an offset of
   * the common tail that is past the hash window, the other stream cuts too if its open chunk has
   * reached the minimum size there; from that offset on the two chunk lists are the same.
   */
  lemma {:induction false} ContentCutResynchronises(c: Cutter, p1: Bytes, p2: Bytes, s: Bytes, x: nat)
    requires ValidCutter(c) && c.bits <= x <= |s| && 0 < x
    requires ContentCut(c, p1 + s, |p1| + x)
    requires |p2| + x - OpenStart(CutRule(c), p2 + s, |p2| + x) >= c.minSize
    ensures CutsTail(c, p1, s, x) && CutsTail(c, p2, s, x)
  {
    SameTest(c, p1, OpenStart(CutRule(c), p1 + s, |p1| + x), p2, OpenStart(CutRule(c), p2 + s, |p2| + x), s, x);
    TailAfterContentCut(c, p1, s, x);
    TailAfterContentCut(c, p2, s, x);
  }
}
