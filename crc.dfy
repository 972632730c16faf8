/** A non-reflected CRC over the generator polynomial 0x04C11DB7 (the CRC-32
    generator of IEEE 802.3), with no final XOR, computed three ways: the
    augmented ("simple") table algorithm, the direct ("optimized") table
    algorithm, and a toy 8-bit bit-by-bit register.

    The specification functions describe the arithmetic as a shift register;
    the methods at the end are the loops of the original code, proved equal
    to them. */
module CrcComputer {

  const Polynomial: bv32 := 0x04C1_1DB7
  const InitialSimpleRegister: bv32 := 0xFFFF_FFFF
  const InitialOptimizedRegister: bv32 := 0xC704_DD7B
  const TableSize := 256

  // ---------------------------------------------------------------------
  // Word operations. The proofs treat each of these as one symbol; only the
  // small lemmas of the next section look inside them.

  function Xor(x: bv32, y: bv32): bv32 { x ^ y }

  function Shl1(x: bv32): bv32 { x << 1 }

  function Shl8(x: bv32): bv32 { x << 8 }

  /** The bit that the next clock shifts out of the register. */
  predicate Top(x: bv32) { x & 0x8000_0000 != 0 }

  predicate Disjoint(x: bv32, mask: bv32) { x & mask == 0 }

  /** The mask of the k most significant bits. */
  function TopMask(k: nat): bv32
    decreases k
  {
    if k == 0 then 0 else (TopMask(k - 1) >> 1) | 0x8000_0000
  }

  /** x shifted left by k, one position at a time. */
  function ShlN(x: bv32, k: nat): bv32
    decreases k
  {
    if k == 0 then x else ShlN(Shl1(x), k - 1)
  }

  /** The top byte of a word, left in place. */
  function HighByte(r: bv32): bv32 { (r >> 24) << 24 }

  /** The three low bytes of a word. */
  function LowBytes(r: bv32): bv32 { r & 0x00FF_FFFF }

  // ---------------------------------------------------------------------
  // The 32-bit shift register

  /** One clock of the register with nothing shifted in: shift left and, when
      the bit shifted out was set, XOR the generator. */
  function Shift(r: bv32): bv32 {
    if r & 0x8000_0000 != 0 then (r << 1) ^ Polynomial else r << 1
  }

  /** n clocks of the register. */
  function ShiftN(r: bv32, n: nat): bv32
    decreases n
  {
    if n == 0 then r else ShiftN(Shift(r), n - 1)
  }

  /** Entry i of the lookup table: i placed in the top byte, clocked 8 times. */
  function TableEntry(i: bv32): bv32
    requires i < 256
  {
    ShiftN(i << 24, 8)
  }

  /** One byte of the augmented algorithm: the byte is shifted in at the
      bottom while the byte falling out at the top selects the table entry. */
  function AugmentedStep(r: bv32, b: bv8): bv32 {
    ((r << 8) | b as bv32) ^ TableEntry(r >> 24)
  }

  /** One byte of the direct algorithm: the byte is XORed into the index. */
  function DirectStep(r: bv32, b: bv8): bv32 {
    (r << 8) ^ TableEntry((r >> 24) ^ b as bv32)
  }

  /** A zero byte pushed through the augmented algorithm. */
  function ZeroRound(r: bv32): bv32 {
    (r << 8) ^ TableEntry(r >> 24)
  }

  /** The register after the payload has gone through the augmented algorithm. */
  function Augmented(r: bv32, payload: seq<bv8>): bv32
    decreases |payload|
  {
    if payload == [] then r else Augmented(AugmentedStep(r, payload[0]), payload[1..])
  }

  /** The register after the payload has gone through the direct algorithm. */
  function Direct(r: bv32, payload: seq<bv8>): bv32
    decreases |payload|
  {
    if payload == [] then r else Direct(DirectStep(r, payload[0]), payload[1..])
  }

  function ZeroRounds(r: bv32, n: nat): bv32
    decreases n
  {
    if n == 0 then r else ZeroRounds(ZeroRound(r), n - 1)
  }

  /** What ComputeTableSimple returns: the payload, then four zero bytes, through
      the augmented algorithm. */
  function TableSimple(payload: seq<bv8>): bv32 {
    ZeroRounds(Augmented(InitialSimpleRegister, payload), 4)
  }

  /** What ComputeTableOptimized returns. */
  function TableOptimized(payload: seq<bv8>): bv32 {
    Direct(InitialOptimizedRegister, payload)
  }

  // ---------------------------------------------------------------------
  // Message bits, most significant first

  /** Bit k of a byte, counting from the most significant, as 0 or 1: the byte
      is tested against the mask 0x80 shifted right k times. */
  function BitOf(b: bv8, k: nat): bv8
    requires k < 8
  {
    if b & (0x80 >> k) == 0 then 0 else 1
  }

  /** Whether bit k of b, counting from the most significant, is set. */
  predicate IsSet(b: bv8, k: nat)
    requires k < 8
  {
    BitOf(b, k) == 1
  }

  /** One clock of the 32-bit register with one message bit shifted in at the
      bottom. */
  function BitStep(r: bv32, bit: bv32): bv32
    requires bit <= 1
  {
    if r & 0x8000_0000 != 0 then ((r << 1) | bit) ^ Polynomial else (r << 1) | bit
  }

  /** Bits k..7 of b, most significant first, fed in one clock each. */
  function FeedBits(r: bv32, b: bv8, k: nat): bv32
    requires k <= 8
    decreases 8 - k
  {
    if k == 8 then r else FeedBits(BitStep(r, BitOf(b, k) as bv32), b, k + 1)
  }

  /** Bits 0..k-1 of b (most significant first), gathered at the bottom of a
      word in the order they arrived. */
  function Prefix(b: bv8, k: nat): bv32
    requires k <= 8
  {
    (b as bv32) >> (8 - k)
  }

  // ---------------------------------------------------------------------
  // Facts about single word operations

  lemma XorAssoc(x: bv32, y: bv32, z: bv32)
    ensures Xor(Xor(x, y), z) == Xor(x, Xor(y, z))
  {
  }

  lemma XorComm(x: bv32, y: bv32)
    ensures Xor(x, y) == Xor(y, x)
  {
  }

  lemma XorSelf(x: bv32)
    ensures Xor(x, x) == 0
  {
  }

  lemma XorZero(x: bv32)
    ensures Xor(x, 0) == x
  {
  }

  lemma Shl1Xor(x: bv32, y: bv32)
    ensures Shl1(Xor(x, y)) == Xor(Shl1(x), Shl1(y))
  {
  }

  lemma TopXor(x: bv32, y: bv32)
    ensures Top(Xor(x, y)) == (Top(x) != Top(y))
  {
  }

  lemma XorSwap(x: bv32, y: bv32, u: bv32, v: bv32)
    ensures Xor(Xor(x, y), Xor(u, v)) == Xor(Xor(x, u), Xor(y, v))
  {
    XorAssoc(x, y, Xor(u, v));
    XorAssoc(y, u, v);
    XorComm(y, u);
    XorAssoc(u, y, v);
    XorAssoc(x, u, Xor(y, v));
  }

  /** The clock, in terms of the operations above. */
  lemma ShiftParts(r: bv32)
    ensures Shift(r) == if Top(r) then Xor(Shl1(r), Polynomial) else Shl1(r)
  {
  }

  lemma OrIsXor(x: bv32, bit: bv32)
    requires bit <= 1
    ensures (x << 1) | bit == (x << 1) ^ bit
  {
  }

  lemma BitStepParts(r: bv32, bit: bv32)
    requires bit <= 1
    ensures BitStep(r, bit) == Xor(Shift(r), bit)
  {
    OrIsXor(r, bit);
    if r & 0x8000_0000 != 0 {
      assert ((r << 1) ^ bit) ^ Polynomial == ((r << 1) ^ Polynomial) ^ bit;
    }
  }

  lemma MaskStep(x: bv32, mask: bv32)
    requires Disjoint(x, (mask >> 1) | 0x8000_0000)
    ensures !Top(x) && Disjoint(Shl1(x), mask)
  {
  }

  lemma Masks()
    ensures TopMask(8) == 0xFF00_0000
    ensures TopMask(24) == 0xFFFF_FF00
  {
    assert TopMask(4) == 0xF000_0000;
    assert TopMask(8) == 0xFF00_0000;
    assert TopMask(12) == 0xFFF0_0000;
    assert TopMask(16) == 0xFFFF_0000;
    assert TopMask(20) == 0xFFFF_F000;
  }

  lemma Shl8Parts(x: bv32)
    ensures ShlN(x, 8) == Shl8(x)
  {
    assert ShlN(x, 8) == Shl1(Shl1(Shl1(Shl1(Shl1(Shl1(Shl1(Shl1(x))))))));
  }

  lemma Shl24Parts(x: bv32)
    ensures Shl8(Shl8(Shl8(x))) == x << 24
  {
  }

  lemma {:induction false} ShlNAdd(x: bv32, m: nat, n: nat)
    ensures ShlN(ShlN(x, m), n) == ShlN(x, m + n)
    decreases m
  {
    if m > 0 {
      ShlNAdd(Shl1(x), m - 1, n);
    }
  }

  lemma SplitWord(r: bv32)
    ensures r == Xor(HighByte(r), LowBytes(r))
    ensures Disjoint(LowBytes(r), 0xFF00_0000)
    ensures Shl8(LowBytes(r)) == Shl8(r)
  {
  }

  lemma ByteFacts(i: bv32, j: bv32)
    requires i < 256 && j < 256
    ensures Xor(i, j) < 256
    ensures Xor(i, j) << 24 == Xor(i << 24, j << 24)
    ensures Disjoint(i, 0xFFFF_FF00)
  {
  }

  lemma ShlThenXor(x: bv32, t: bv32)
    ensures (x << 8) ^ t == Xor(Shl8(x), t)
  {
  }

  lemma OrThenXor(x: bv32, b: bv8, t: bv32)
    ensures ((x << 8) | b as bv32) ^ t == Xor(Xor(Shl8(x), b as bv32), t)
  {
  }

  lemma ZeroRoundParts(r: bv32)
    ensures ZeroRound(r) == Xor(Shl8(r), TableEntry(r >> 24))
  {
    assert ZeroRound(r) == (r << 8) ^ TableEntry(r >> 24);
    ShlThenXor(r, TableEntry(r >> 24));
  }

  lemma AugmentedStepParts(r: bv32, b: bv8)
    ensures AugmentedStep(r, b) == Xor(Xor(Shl8(r), b as bv32), TableEntry(r >> 24))
  {
    OrThenXor(r, b, TableEntry(r >> 24));
  }

  lemma DirectStepParts(r: bv32, b: bv8)
    ensures r >> 24 < 256 && b as bv32 < 256
    ensures DirectStep(r, b) == Xor(Shl8(r), TableEntry(Xor(r >> 24, b as bv32)))
  {
  }

  // ---------------------------------------------------------------------
  // Linearity of the register over GF(2)

  /** One clock distributes over XOR. */
  lemma ShiftXor(a: bv32, b: bv32)
    ensures Shift(Xor(a, b)) == Xor(Shift(a), Shift(b))
  {
    ShiftParts(Xor(a, b));
    ShiftParts(a);
    ShiftParts(b);
    TopXor(a, b);
    Shl1Xor(a, b);
    var x, y := Shl1(a), Shl1(b);
    if Top(a) && Top(b) {
      XorSwap(x, Polynomial, y, Polynomial);
      XorSelf(Polynomial);
      XorZero(Xor(x, y));
      XorComm(Polynomial, y);
    } else if Top(a) {
      XorAssoc(x, Polynomial, y);
      XorComm(Polynomial, y);
      XorAssoc(x, y, Polynomial);
    } else if Top(b) {
      XorAssoc(x, y, Polynomial);
    }
  }

  lemma {:induction false} ShiftNXor(a: bv32, b: bv32, n: nat)
    ensures ShiftN(Xor(a, b), n) == Xor(ShiftN(a, n), ShiftN(b, n))
    decreases n
  {
    if n > 0 {
      ShiftXor(a, b);
      ShiftNXor(Shift(a), Shift(b), n - 1);
    }
  }

  lemma {:induction false} ShiftNAdd(a: bv32, m: nat, n: nat)
    ensures ShiftN(ShiftN(a, m), n) == ShiftN(a, m + n)
    decreases m
  {
    if m > 0 {
      ShiftNAdd(Shift(a), m - 1, n);
    }
  }

  /** While the bits about to fall out are zero, clocking is a plain shift. */
  lemma {:induction false} ShiftNWithoutCarry(x: bv32, k: nat)
    requires Disjoint(x, TopMask(k))
    ensures ShiftN(x, k) == ShlN(x, k)
    decreases k
  {
    if k > 0 {
      MaskStep(x, TopMask(k - 1));
      ShiftParts(x);
      ShiftNWithoutCarry(Shl1(x), k - 1);
    }
  }

  /** Eight clocks equal one table round: the low three bytes shift up, the
      top byte is replaced by its table entry. */
  lemma ZeroRoundIsShift8(r: bv32)
    ensures ZeroRound(r) == ShiftN(r, 8)
  {
    SplitWord(r);
    ShiftNXor(HighByte(r), LowBytes(r), 8);
    Masks();
    ShiftNWithoutCarry(LowBytes(r), 8);
    Shl8Parts(LowBytes(r));
    ZeroRoundParts(r);
    XorComm(Shl8(r), TableEntry(r >> 24));
  }

  lemma TableXor(i: bv32, j: bv32)
    requires i < 256 && j < 256
    ensures Xor(i, j) < 256
    ensures TableEntry(Xor(i, j)) == Xor(TableEntry(i), TableEntry(j))
  {
    ByteFacts(i, j);
    ShiftNXor(i << 24, j << 24, 8);
  }

  lemma ByteIsSmall(b: bv8)
    ensures b as bv32 < 256
  {
  }

  /** A byte clocked 24 times has moved, unchanged, to the top of the word. */
  lemma ByteShift24(i: bv32)
    requires i < 256
    ensures ShiftN(i, 24) == i << 24
  {
    ByteFacts(i, 0);
    Masks();
    ShiftNWithoutCarry(i, 24);
    ShlNAdd(i, 8, 16);
    ShlNAdd(ShlN(i, 8), 8, 8);
    Shl8Parts(i);
    Shl8Parts(ShlN(i, 8));
    Shl8Parts(ShlN(i, 16));
    Shl24Parts(i);
  }

  /** A table entry is its index clocked 32 times. */
  lemma TableIsShift32(i: bv32)
    requires i < 256
    ensures TableEntry(i) == ShiftN(i, 32)
  {
    ByteShift24(i);
    ShiftNAdd(i, 24, 8);
  }

  /** A data byte enters the augmented register at the bottom after eight
      clocks. */
  lemma XorRotate(s: bv32, b: bv32, t: bv32)
    ensures Xor(Xor(s, b), t) == Xor(Xor(s, t), b)
  {
    XorAssoc(s, b, t);
    XorComm(b, t);
    XorAssoc(s, t, b);
  }

  lemma AugmentedStepIsShift(r: bv32, b: bv8)
    ensures AugmentedStep(r, b) == Xor(ShiftN(r, 8), b as bv32)
  {
    AugmentedStepParts(r, b);
    ZeroRoundParts(r);
    ZeroRoundIsShift8(r);
    XorRotate(Shl8(r), b as bv32, TableEntry(r >> 24));
  }

  /** A data byte enters the direct register at the top, through the table. */
  lemma DirectStepIsShift(s: bv32, b: bv8)
    ensures DirectStep(s, b) == Xor(ShiftN(s, 8), TableEntry(b as bv32))
  {
    DirectStepParts(s, b);
    TableXor(s >> 24, b as bv32);
    ZeroRoundIsShift8(s);
    XorAssoc(Shl8(s), TableEntry(s >> 24), TableEntry(b as bv32));
  }

  lemma AugmentedStepShift32(r: bv32, b: bv8)
    ensures ShiftN(AugmentedStep(r, b), 32) == Xor(ShiftN(r, 40), ShiftN(b as bv32, 32))
  {
    AugmentedStepIsShift(r, b);
    ShiftNXor(ShiftN(r, 8), b as bv32, 32);
    ShiftNAdd(r, 8, 32);
  }

  lemma DirectStepShift32(r: bv32, b: bv8)
    ensures DirectStep(ShiftN(r, 32), b) == Xor(ShiftN(r, 40), ShiftN(b as bv32, 32))
  {
    DirectStepIsShift(ShiftN(r, 32), b);
    ShiftNAdd(r, 32, 8);
    ByteIsSmall(b);
    TableIsShift32(b as bv32);
  }

  /** The augmented register, advanced by 32 clocks, follows the direct
      register byte for byte. */
  lemma Shift32CommutesWithStep(r: bv32, b: bv8)
    ensures ShiftN(AugmentedStep(r, b), 32) == DirectStep(ShiftN(r, 32), b)
  {
    AugmentedStepShift32(r, b);
    DirectStepShift32(r, b);
  }

  lemma {:induction false} AugmentedFollowsDirect(r: bv32, payload: seq<bv8>)
    ensures ShiftN(Augmented(r, payload), 32) == Direct(ShiftN(r, 32), payload)
    decreases |payload|
  {
    if payload != [] {
      Shift32CommutesWithStep(r, payload[0]);
      AugmentedFollowsDirect(AugmentedStep(r, payload[0]), payload[1..]);
    }
  }

  lemma {:induction false} ZeroRoundsAreShifts(r: bv32, n: nat)
    ensures ZeroRounds(r, n) == ShiftN(r, 8 * n)
    decreases n
  {
    if n > 0 {
      ZeroRoundIsShift8(r);
      ZeroRoundsAreShifts(ZeroRound(r), n - 1);
      ShiftNAdd(r, 8, 8 * (n - 1));
    }
  }

  // ---------------------------------------------------------------------
  // The properties the two documented initial registers exist for

  /** The optimized initial register is the simple one clocked 32 times: the
      check ValidateComputedPolynomial performs. */
  lemma OptimizedRegisterIsShiftedSimple()
    ensures ShiftN(InitialSimpleRegister, 32) == InitialOptimizedRegister
  {
    assert ShiftN(0xFFFF_FFFF, 4) == 0xC7B0_424D;
    assert ShiftN(0xC7B0_424D, 4) == 0x4E08_BFB4;
    assert ShiftN(0x4E08_BFB4, 4) == 0xF38F_8D9C;
    assert ShiftN(0xF38F_8D9C, 4) == 0x00B7_647D;
    assert ShiftN(0x00B7_647D, 4) == 0x0B76_47D0;
    assert ShiftN(0x0B76_47D0, 4) == 0xB764_7D00;
    assert ShiftN(0xB764_7D00, 4) == 0x5D0C_1B61;
    assert ShiftN(0x5D0C_1B61, 4) == 0xC704_DD7B;
    ShiftNAdd(0xFFFF_FFFF, 4, 4);
    ShiftNAdd(0xFFFF_FFFF, 8, 4);
    ShiftNAdd(0xFFFF_FFFF, 12, 4);
    ShiftNAdd(0xFFFF_FFFF, 16, 4);
    ShiftNAdd(0xFFFF_FFFF, 20, 4);
    ShiftNAdd(0xFFFF_FFFF, 24, 4);
    ShiftNAdd(0xFFFF_FFFF, 28, 4);
  }

  /** Both table algorithms compute the same checksum of every payload. */
  lemma OptimizedEqualsSimple(payload: seq<bv8>)
    ensures TableOptimized(payload) == TableSimple(payload)
  {
    ZeroRoundsAreShifts(Augmented(InitialSimpleRegister, payload), 4);
    AugmentedFollowsDirect(InitialSimpleRegister, payload);
    OptimizedRegisterIsShiftedSimple();
  }

  /** With no payload, the optimized algorithm returns its initial register and
      the simple one returns the simple register clocked 32 times, which is
      what ComputeNewTableValue computes from it. */
  lemma EmptyPayload()
    ensures TableOptimized([]) == InitialOptimizedRegister
    ensures TableSimple([]) == ShiftN(InitialSimpleRegister, 32)
  {
    ZeroRoundsAreShifts(InitialSimpleRegister, 4);
  }

  lemma TableFirstEntries()
    ensures TableEntry(0) == 0
    ensures TableEntry(1) == Polynomial
  {
    assert (0 as bv32) << 24 == 0;
    assert (1 as bv32) << 24 == 0x0100_0000;
  }

  // ---------------------------------------------------------------------
  // A table round is eight bitwise clocks

  /** Appending the next bit of a byte to its leading bits. */
  lemma PrefixStep(b: bv8, k: nat)
    requires k < 8
    ensures !Top(Prefix(b, k))
    ensures Xor(Shl1(Prefix(b, k)), BitOf(b, k) as bv32) == Prefix(b, k + 1)
  {
    if k == 0 {
    } else if k == 1 {
    } else if k == 2 {
    } else if k == 3 {
    } else if k == 4 {
    } else if k == 5 {
    } else if k == 6 {
    } else {
    }
  }

  lemma PrefixEnds(b: bv8)
    ensures Prefix(b, 0) == 0 && Prefix(b, 8) == b as bv32
  {
  }

  /** One bitwise clock moves the register one clock on and one more message
      bit into the bottom. */
  lemma FeedOne(r: bv32, b: bv8, k: nat)
    requires k < 8
    ensures BitStep(Xor(ShiftN(r, k), Prefix(b, k)), BitOf(b, k) as bv32)
         == Xor(ShiftN(r, k + 1), Prefix(b, k + 1))
  {
    var a, p, bit := ShiftN(r, k), Prefix(b, k), BitOf(b, k) as bv32;
    BitStepParts(Xor(a, p), bit);
    ShiftXor(a, p);
    PrefixStep(b, k);
    ShiftParts(p);
    XorAssoc(Shift(a), Shl1(p), bit);
    ShiftNAdd(r, k, 1);
  }

  lemma {:induction false} FeedBitsFrom(r: bv32, b: bv8, k: nat)
    requires k <= 8
    ensures FeedBits(Xor(ShiftN(r, k), Prefix(b, k)), b, k) == Xor(ShiftN(r, 8), Prefix(b, 8))
    decreases 8 - k
  {
    if k < 8 {
      FeedOne(r, b, k);
      FeedBitsFrom(r, b, k + 1);
    }
  }

  /** One table round of the augmented algorithm equals eight bitwise clocks
      that feed the byte most significant bit first. */
  lemma TableStepIsEightBitSteps(r: bv32, b: bv8)
    ensures AugmentedStep(r, b) == FeedBits(r, b, 0)
  {
    XorZero(r);
    PrefixEnds(b);
    FeedBitsFrom(r, b, 0);
    AugmentedStepIsShift(r, b);
  }

  // ---------------------------------------------------------------------
  // The loops of the original code

  /** A round of the loops below, with the table entry already looked up. */
  lemma ZeroRoundOf(r: bv32, t: bv32)
    requires t == TableEntry(r >> 24)
    ensures ZeroRound(r) == (r << 8) ^ t
  {
  }

  lemma ZeroRoundsStep(r: bv32, n: nat, t: bv32)
    requires n > 0 && t == TableEntry(r >> 24)
    ensures ZeroRounds(r, n) == ZeroRounds((r << 8) ^ t, n - 1)
  {
    ZeroRoundOf(r, t);
  }

  lemma AugmentedFold(r: bv32, payload: seq<bv8>, i: nat, t: bv32)
    requires i < |payload| && t == TableEntry(r >> 24)
    ensures Augmented(r, payload[i..]) == Augmented(((r << 8) | payload[i] as bv32) ^ t, payload[i + 1..])
  {
    assert payload[i..][1..] == payload[i + 1..];
  }

  lemma DirectFold(r: bv32, payload: seq<bv8>, i: nat, t: bv32)
    requires i < |payload| && t == TableEntry((r >> 24) ^ payload[i] as bv32)
    ensures Direct(r, payload[i..]) == Direct((r << 8) ^ t, payload[i + 1..])
  {
    assert payload[i..][1..] == payload[i + 1..];
  }

  /** Entry k of the table, for an index that is a C# int. */
  function TableEntryAt(k: int): bv32
    requires 0 <= k < TableSize
  {
    TableEntry(k as bv32)
  }

  ghost predicate IsCrcTable(table: array<bv32>)
    reads table
  {
    table.Length == TableSize && forall k :: 0 <= k < TableSize ==> table[k] == TableEntryAt(k)
  }

  /** Looking a table up by a register byte finds that byte's entry. */
  lemma TableLookup(table: array<bv32>, x: bv32)
    requires IsCrcTable(table) && x < 256
    ensures table[x] == TableEntry(x)
  {
    assert (x as int) as bv32 == x;
  }

  method ComputeCrcTable() returns (table: array<bv32>)
    ensures fresh(table) && IsCrcTable(table)
  {
    table := new bv32[TableSize];
    var i := 0;
    while i < TableSize
      invariant 0 <= i <= TableSize
      invariant forall k :: 0 <= k < i ==> table[k] == TableEntryAt(k)
    {
      var crc: bv32 := (i as bv32) << 24;
      var bit := 0;
      while bit < 8
        invariant 0 <= bit <= 8
        invariant ShiftN(crc, 8 - bit) == TableEntryAt(i)
      {
        var bitSet := crc & 0x8000_0000 != 0;
        crc := crc << 1;
        if bitSet {
          crc := crc ^ Polynomial;
        }
        bit := bit + 1;
      }
      table[i] := crc;
      i := i + 1;
    }
  }

  method ComputeTableSimple(payload: seq<bv8>, table: array<bv32>) returns (register: bv32)
    requires IsCrcTable(table)
    ensures register == TableSimple(payload)
  {
    register := InitialSimpleRegister;
    var i := 0;
    while i < |payload|
      invariant 0 <= i <= |payload|
      invariant Augmented(register, payload[i..]) == Augmented(InitialSimpleRegister, payload)
    {
      var entry := table[register >> 24];
      TableLookup(table, register >> 24);
      AugmentedFold(register, payload, i, entry);
      register := ((register << 8) | payload[i] as bv32) ^ entry;
      i := i + 1;
    }
    ghost var augmented := register;
    ghost var left := 4;
    var round := 0;
    while round < 4
      invariant 0 <= round <= 4 && left == 4 - round
      invariant ZeroRounds(register, left) == ZeroRounds(augmented, 4)
    {
      var entry := table[register >> 24];
      TableLookup(table, register >> 24);
      ZeroRoundsStep(register, left, entry);
      register := (register << 8) ^ entry;
      round := round + 1;
      left := left - 1;
    }
  }

  method ComputeTableOptimized(payload: seq<bv8>, table: array<bv32>) returns (register: bv32)
    requires IsCrcTable(table)
    ensures register == TableOptimized(payload)
  {
    register := InitialOptimizedRegister;
    var i := 0;
    while i < |payload|
      invariant 0 <= i <= |payload|
      invariant Direct(register, payload[i..]) == TableOptimized(payload)
    {
      var entry := table[(register >> 24) ^ payload[i] as bv32];
      TableLookup(table, (register >> 24) ^ payload[i] as bv32);
      DirectFold(register, payload, i, entry);
      register := (register << 8) ^ entry;
      i := i + 1;
    }
  }

  method ComputeNewTableValue(oldInitialValue: bv32) returns (register: bv32)
    ensures register == ShiftN(oldInitialValue, 32)
  {
    register := oldInitialValue;
    var i := 0;
    while i < 32
      invariant 0 <= i <= 32
      invariant ShiftN(register, 32 - i) == ShiftN(oldInitialValue, 32)
    {
      var bitSet := register & 0x8000_0000 != 0;
      register := register << 1;
      if bitSet {
        register := register ^ Polynomial;
      }
      i := i + 1;
    }
  }

  // ---------------------------------------------------------------------
  // ComputePerBit: an 8-bit register clocked one message bit at a time.
  // IterateBits yields each bit as the byte 0 or 1; the model keeps it as a
  // bool (true for 1) and turns it back into that byte where it is ORed in.

  const PerBitPolynomial: bv8 := 0x2D

  function BitByte(bit: bool): bv8 {
    if bit then 1 else 0
  }

  /** One clock of the 8-bit register with one message bit shifted in. */
  function SmallBitStep(r: bv8, bit: bool): bv8 {
    if r & 0x80 != 0 then ((r << 1) | BitByte(bit)) ^ PerBitPolynomial else (r << 1) | BitByte(bit)
  }

  /** One clock of the 8-bit register with nothing shifted in: the appended
      zero bits. */
  function SmallShift(r: bv8): bv8 {
    if r & 0x80 != 0 then (r << 1) ^ PerBitPolynomial else r << 1
  }

  function SmallShiftN(r: bv8, n: nat): bv8
    decreases n
  {
    if n == 0 then r else SmallShiftN(SmallShift(r), n - 1)
  }

  /** The eight bits of a byte, most significant first, as IterateBits
      yields them. */
  function ByteBits(b: bv8): seq<bool> {
    seq(8, k requires 0 <= k < 8 => IsSet(b, k))
  }

  /** Every bit of the payload, byte by byte, each byte most significant bit
      first. */
  function PayloadBits(payload: seq<bv8>): seq<bool>
    decreases |payload|
  {
    if payload == [] then [] else ByteBits(payload[0]) + PayloadBits(payload[1..])
  }

  /** The register after a sequence of message bits has been clocked in. */
  function SmallFeed(r: bv8, bits: seq<bool>): bv8
    decreases |bits|
  {
    if bits == [] then r else SmallFeed(SmallBitStep(r, bits[0]), bits[1..])
  }

  /** What ComputePerBit returns: the register starts at zero, takes every
      message bit, then eight zero bits. */
  function PerBit(payload: seq<bv8>): bv8 {
    SmallShiftN(SmallFeed(0, PayloadBits(payload)), 8)
  }

  /** Bits read back, most significant first, into a byte. */
  function BitsValue(acc: bv8, bits: seq<bool>): bv8
    decreases |bits|
  {
    if bits == [] then acc else BitsValue((acc << 1) | BitByte(bits[0]), bits[1..])
  }

  /** The high k bits of b at the bottom of a byte: what has been read back
      after k bits. */
  function Leading(b: bv8, k: nat): bv8
    requires k <= 8
  {
    b >> (8 - k)
  }

  lemma LeadingStep(b: bv8, k: nat)
    requires k < 8
    ensures (Leading(b, k) << 1) | BitByte(IsSet(b, k)) == Leading(b, k + 1)
  {
    if k == 0 {
    } else if k == 1 {
    } else if k == 2 {
    } else if k == 3 {
    } else if k == 4 {
    } else if k == 5 {
    } else if k == 6 {
    } else {
    }
  }

  lemma {:induction false} ReadBackFrom(b: bv8, k: nat)
    requires k <= 8
    ensures BitsValue(Leading(b, k), ByteBits(b)[k..]) == b
    decreases 8 - k
  {
    if k < 8 {
      var bits := ByteBits(b);
      assert bits[k..][0] == IsSet(b, k);
      assert bits[k..][1..] == bits[k + 1..];
      LeadingStep(b, k);
      ReadBackFrom(b, k + 1);
    }
  }

  /** Read back in the order IterateBits yields them, a byte's bits give the
      byte again. */
  lemma ByteBitsRoundTrip(b: bv8)
    ensures BitsValue(0, ByteBits(b)) == b
  {
    ReadBackFrom(b, 0);
    assert ByteBits(b)[0..] == ByteBits(b);
  }

  /** A payload of n bytes yields 8 * n bits, byte i's bit k at position 8 * i + k. */
  lemma {:induction false} PayloadBitsLayout(payload: seq<bv8>)
    ensures |PayloadBits(payload)| == 8 * |payload|
    ensures forall i, k :: 0 <= i < |payload| && 0 <= k < 8 ==>
              PayloadBits(payload)[8 * i + k] == IsSet(payload[i], k)
    decreases |payload|
  {
    if payload != [] {
      PayloadBitsLayout(payload[1..]);
      var head, tail := ByteBits(payload[0]), PayloadBits(payload[1..]);
      assert PayloadBits(payload) == head + tail;
      forall i, k | 0 <= i < |payload| && 0 <= k < 8
        ensures PayloadBits(payload)[8 * i + k] == IsSet(payload[i], k)
      {
        if i == 0 {
          assert (head + tail)[k] == head[k];
        } else {
          assert payload[1..][i - 1] == payload[i];
          assert (head + tail)[8 * i + k] == tail[8 * (i - 1) + k];
        }
      }
    }
  }

  lemma {:induction false} SmallFeedAppend(r: bv8, a: seq<bool>, c: seq<bool>)
    ensures SmallFeed(r, a + c) == SmallFeed(SmallFeed(r, a), c)
    decreases |a|
  {
    if a == [] {
      assert a + c == c;
    } else {
      assert (a + c)[0] == a[0];
      assert (a + c)[1..] == a[1..] + c;
      SmallFeedAppend(SmallBitStep(r, a[0]), a[1..], c);
    }
  }

  lemma {:induction false} ZeroBitsKeepZero(bits: seq<bool>)
    requires forall j :: 0 <= j < |bits| ==> !bits[j]
    ensures SmallFeed(0, bits) == 0
    decreases |bits|
  {
    if bits != [] {
      assert SmallBitStep(0, false) == 0;
      ZeroBitsKeepZero(bits[1..]);
    }
  }

  lemma {:induction false} ZeroShiftsKeepZero(n: nat)
    ensures SmallShiftN(0, n) == 0
    decreases n
  {
    if n > 0 {
      assert SmallShift(0) == 0;
      ZeroShiftsKeepZero(n - 1);
    }
  }

  /** A payload of zero bytes, the empty payload included, has checksum 0. */
  lemma ZeroPayloadHasZeroChecksum(payload: seq<bv8>)
    requires forall i :: 0 <= i < |payload| ==> payload[i] == 0
    ensures PerBit(payload) == 0
  {
    PayloadBitsLayout(payload);
    var bits := PayloadBits(payload);
    forall j | 0 <= j < |bits|
      ensures !bits[j]
    {
      var i, k := j / 8, j % 8;
      assert j == 8 * i + k;
      assert payload[i] == 0;
      assert !IsSet(0, k);
    }
    ZeroBitsKeepZero(bits);
    ZeroShiftsKeepZero(8);
  }

  /** The byte mask of IterateBits in its k-th round: 0x80 shifted right k
      times, which is 0 once all eight bits are done. */
  function MaskAt(k: nat): bv8
    requires k <= 8
  {
    if k == 0 then 0x80
    else if k == 1 then 0x40
    else if k == 2 then 0x20
    else if k == 3 then 0x10
    else if k == 4 then 0x08
    else if k == 5 then 0x04
    else if k == 6 then 0x02
    else if k == 7 then 0x01
    else 0
  }

  /** Halving the byte mask moves it one bit down; it stays non-zero for
      eight rounds, and testing against it reads bit k. */
  lemma ByteMaskStep(b: bv8, k: nat)
    requires k <= 8
    ensures MaskAt(k) != 0 <==> k < 8
    ensures k < 8 ==> MaskAt(k) >> 1 == MaskAt(k + 1)
    ensures k < 8 ==> (b & MaskAt(k) != 0 <==> IsSet(b, k))
  {
    if k == 0 {
    } else if k == 1 {
    } else if k == 2 {
    } else if k == 3 {
    } else if k == 4 {
    } else if k == 5 {
    } else if k == 6 {
    } else if k == 7 {
    } else {
    }
  }

  lemma {:induction false} PayloadBitsAppend(payload: seq<bv8>, i: nat)
    requires i < |payload|
    ensures PayloadBits(payload[..i + 1]) == PayloadBits(payload[..i]) + ByteBits(payload[i])
    decreases i
  {
    var front := payload[..i + 1];
    assert front[1..] == payload[1..][..i];
    if i == 0 {
      assert PayloadBits(front) == ByteBits(payload[0]) + PayloadBits(front[1..]);
      assert payload[..0] == [];
    } else {
      PayloadBitsAppend(payload[1..], i - 1);
      assert payload[1..][..i - 1 + 1] == payload[1..][..i];
      assert payload[..i][1..] == payload[1..][..i - 1];
      assert payload[1..][i - 1] == payload[i];
    }
  }

  /** One round of the inner loop of IterateBits: the mask is still non-zero,
      testing against it yields the next bit, and halving it moves to the
      following one. */
  lemma BitRound(done: seq<bool>, b: bv8, k: nat)
    requires k < 8
    ensures MaskAt(k) != 0 && MaskAt(k) >> 1 == MaskAt(k + 1)
    ensures done + ByteBits(b)[..k] + [b & MaskAt(k) != 0] == done + ByteBits(b)[..k + 1]
  {
    ByteMaskStep(b, k);
    assert ByteBits(b)[..k + 1] == ByteBits(b)[..k] + [IsSet(b, k)];
  }

  /** The local iterator of ComputePerBit: for each byte, the byte mask starts
      at 0x80 and is halved until it is 0, and each round yields whether the
      byte has that bit set. */
  method IterateBits(payload: seq<bv8>) returns (bits: seq<bool>)
    ensures bits == PayloadBits(payload)
  {
    bits := [];
    var i := 0;
    while i < |payload|
      invariant 0 <= i <= |payload|
      invariant bits == PayloadBits(payload[..i])
    {
      var b := payload[i];
      var byteMask: bv8 := 0x80;
      ghost var done := bits;
      ghost var k := 0;
      while byteMask != 0
        invariant 0 <= k <= 8
        invariant byteMask == MaskAt(k)
        invariant bits == done + ByteBits(b)[..k]
        decreases 8 - k
      {
        BitRound(done, b, k);
        bits := bits + [b & byteMask != 0];
        byteMask := byteMask >> 1;
        k := k + 1;
      }
      ByteMaskStep(b, k);
      assert k == 8;
      assert ByteBits(b)[..k] == ByteBits(b);
      PayloadBitsAppend(payload, i);
      i := i + 1;
    }
    assert payload[..i] == payload;
  }

  /** Clocks every message bit into an 8-bit register that starts at zero,
      then eight zero bits. */
  method ComputePerBit(payload: seq<bv8>) returns (register: bv8)
    ensures register == PerBit(payload)
  {
    register := 0;
    var bits := IterateBits(payload);
    var j := 0;
    while j < |bits|
      invariant 0 <= j <= |bits|
      invariant SmallFeed(register, bits[j..]) == SmallFeed(0, bits)
    {
      var bit: bv8 := BitByte(bits[j]);
      assert bits[j..][1..] == bits[j + 1..];
      var bitSet := register & 0x80 != 0;
      register := register << 1;
      register := register | bit;
      if bitSet {
        register := register ^ PerBitPolynomial;
      }
      j := j + 1;
    }
    var round := 0;
    while round < 8
      invariant 0 <= round <= 8
      invariant SmallShiftN(register, 8 - round) == PerBit(payload)
    {
      var bitSet := register & 0x80 != 0;
      register := register << 1;
      if bitSet {
        register := register ^ PerBitPolynomial;
      }
      round := round + 1;
    }
  }
}
