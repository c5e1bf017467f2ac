/**
 What the words of each phase are, bit by bit and byte by byte, and the pressure arithmetic as the
 shifts, sums and products it stands for.
 */
module PatternLaws {
  import opened Words
  import opened Patterns
  import opened Memories

  // ----- the fixed patterns

  lemma FixedWordBits(b: bv6)
    ensures (FIXED_A >> b) & 1 == (if b & 1 == 1 then 1 else 0)
    ensures (FIXED_5 >> b) & 1 == (if b & 1 == 1 then 0 else 1)
    ensures (BIT_SPREAD_0 >> b) & 1 == (if b % 3 == 2 then 1 else 0)
    ensures (BIT_SPREAD_1 >> b) & 1 == (if b % 3 == 2 then 0 else 1)
  {}

  /** FIXED_A sets the odd bits, FIXED_5 the even ones, and CHECKER takes turns with them, FIXED_A first. */
  lemma {:induction false} FixedPhases(seed: Word, pass: nat, w: nat, b: bv6)
    ensures (Pattern(seed, FixedA, pass)(w) >> b) & 1 == (if b & 1 == 1 then 1 else 0)
    ensures (Pattern(seed, Fixed5, pass)(w) >> b) & 1 == (if b & 1 == 1 then 0 else 1)
    ensures Pattern(seed, Checker, pass)(w) == Pattern(seed, if w % 2 == 0 then FixedA else Fixed5, pass)(w)
  {
    FixedWordBits(b);
    assert 8 * w / 8 == w;
  }

  /** Where word index plus pass is even BITSPREAD sets the bits 2, 5, 8, ..., 62, elsewhere all others. */
  lemma {:induction false} BitSpreadPhase(seed: Word, pass: nat, w: nat, b: bv6)
    ensures (Pattern(seed, BitSpread, pass)(w) >> b) & 1 == (if (b % 3 == 2) == ((w + pass) % 2 == 0) then 1 else 0)
  {
    hide U64;
    FixedWordBits(b);
    assert 8 * w / 8 == w;
    U64Keeps(w + pass, 2);
  }

  // ----- WALKING

  lemma {:induction false} OneBitIsPower(k: nat)
    ensures OneBit(k) == FromNat(Pow2(k))
  {
    if k == 0 {
      assert FromNat(1) == 1 by { SmallWords(); }
    } else {
      OneBitIsPower(k - 1);
      PushesBits(Pow2(k));
    }
  }

  lemma {:induction false} Pow2Below(j: nat, k: nat)
    requires j < k
    ensures Pow2(j) < Pow2(k)
  {
    if j + 1 < k {
      Pow2Below(j, k - 1);
    }
  }

  /** A WALKING word has the one bit of its index plus the pass, modulo 64. */
  lemma {:induction false} WalkingPhase(seed: Word, pass: nat, w: nat)
    ensures ToNat(Pattern(seed, Walking, pass)(w)) == Pow2((w + pass) % 64)
  {
    hide U64, Pow2;
    var k := (w + pass) % 64;
    assert 8 * w / 8 == w;
    U64Keeps(w + pass, 64);
    OneBitIsPower(k);
    Pow2Below(k, 64);
    MaskLiterals();
    ToNatFromNat(Pow2(k));
  }

  // ----- the counted patterns

  lemma XorMasks(a: Word, s: Word, m: Word)
    ensures Xor(Xor(Xor(a, s), m), a) == Xor(s, m)
  {
    hide Xor;
    XorAssociative(a, s, m);
    XorCommutative(a, Xor(s, m));
    XorCancel(Xor(s, m), a);
  }

  /** ADDRESS, RANDOM and STREAM take seed and pass as a mask. */
  lemma {:induction false} SeedAndPass(seed: Word, pass: nat, w: nat)
    ensures Xor(Pattern(seed, Address, pass)(w), Pattern(0, Address, 0)(w))
         == Xor(seed, FromNat(pass * 0x100_0000_01b3 % TWO64))
    ensures Xor(Pattern(seed, Random, pass)(w), Pattern(0, Random, 0)(w))
         == Xor(seed, FromNat(pass * 0x9e37_79b9_7f4a_7c15 % TWO64))
    ensures Xor(Pattern(seed, Stream, pass)(w), Pattern(0, Stream, 0)(w))
         == Xor(seed, FromNat(pass * 0xbf58_476d_1ce4_e5b9 % TWO64))
  {
    hide Xor, FromNat, Bswap64;
    UnseededPhases(w);
    assert 8 * w / 8 == w;
    XorMasks(FromNat(8 * w), seed, FromNat(U64(pass * ADDR_PASS_MUL)));
    XorMasks(Bswap64(FromNat(w)), seed, FromNat(U64(pass * RAND_PASS_MUL)));
    XorMasks(FromNat(8 * w % 0x2000), seed, FromNat(U64(pass * STREAM_PASS_MUL)));
  }

  lemma {:induction false} UnseededPhases(w: nat)
    ensures Pattern(0, Address, 0)(w) == FromNat(8 * w)
    ensures Pattern(0, Random, 0)(w) == Bswap64(FromNat(w))
    ensures Pattern(0, Stream, 0)(w) == FromNat(8 * w % 0x2000)
  {
    hide Xor, Bswap64;
    assert U64(0 * ADDR_PASS_MUL) == U64(0 * RAND_PASS_MUL) == U64(0 * STREAM_PASS_MUL) == 0;
    assert FromNat(0) == 0;
    assert 8 * w / 8 == w;
    XorUnit(FromNat(8 * w));
    XorUnit(Bswap64(FromNat(w)));
    XorUnit(FromNat(8 * w % 0x2000));
  }

  /** Without them, ADDRESS is the byte offset and STREAM the offset in a period of 1024 words. */
  lemma {:induction false} OffsetPhases(w: nat)
    requires w < MAX_WORDS
    ensures ToNat(Pattern(0, Address, 0)(w)) == 8 * w
    ensures ToNat(Pattern(0, Stream, 0)(w)) == 8 * (w % 1024)
  {
    hide FromNat, ToNat;
    UnseededPhases(w);
    ToNatFromNat(8 * w);
    ModUnique(8 * w, 8 * (w % 1024), w / 1024, 0x2000);
    ToNatFromNat(8 * (w % 1024));
  }

  lemma SwappedByte0(x: Word)
    ensures ByteAt(Bswap64(x), 0) == ByteAt(x, 7)
  {}

  lemma SwappedByte1(x: Word)
    ensures ByteAt(Bswap64(x), 1) == ByteAt(x, 6)
  {}

  lemma SwappedByte2(x: Word)
    ensures ByteAt(Bswap64(x), 2) == ByteAt(x, 5)
  {}

  lemma SwappedByte3(x: Word)
    ensures ByteAt(Bswap64(x), 3) == ByteAt(x, 4)
  {}

  lemma SwappedByte4(x: Word)
    ensures ByteAt(Bswap64(x), 4) == ByteAt(x, 3)
  {}

  lemma SwappedByte5(x: Word)
    ensures ByteAt(Bswap64(x), 5) == ByteAt(x, 2)
  {}

  lemma SwappedByte6(x: Word)
    ensures ByteAt(Bswap64(x), 6) == ByteAt(x, 1)
  {}

  lemma SwappedByte7(x: Word)
    ensures ByteAt(Bswap64(x), 7) == ByteAt(x, 0)
  {}

  /** And RANDOM is the word index with its bytes reversed. */
  lemma {:induction false} RandomPhase(w: nat, j: nat)
    requires j < 8
    ensures ByteAt(Pattern(0, Random, 0)(w), j) == ByteAt(FromNat(w), 7 - j)
  {
    hide ByteAt, Bswap64, FromNat, Pattern;
    UnseededPhases(w);
    var x := FromNat(w);
    match j
    case 0 => SwappedByte0(x);
    case 1 => SwappedByte1(x);
    case 2 => SwappedByte2(x);
    case 3 => SwappedByte3(x);
    case 4 => SwappedByte4(x);
    case 5 => SwappedByte5(x);
    case 6 => SwappedByte6(x);
    case 7 => SwappedByte7(x);
  }

  /** Byte j of a NARROW word is the low byte of eight times index plus pass, plus j, masked by byte j of the seed. */
  lemma {:induction false} NarrowPhase(seed: Word, pass: nat, w: nat, j: nat)
    requires j < 8
    ensures ByteAt(Pattern(seed, Narrow, pass)(w), j) == Xor(FromNat(8 * (w + pass) % 256 + j), ByteAt(seed, j))
  {
    hide ByteAt, FromNat, NarrowWord, Xor, U64;
    var x := NarrowBase(pass, 8 * w);
    U64Keeps(8 * w + U64(pass * 8), 256);
    U64Keeps(pass * 8, 256);
    ModSum(8 * w, U64(pass * 8), pass * 8, 256);
    assert 8 * w % 8 == 0 by { ModUnique(8 * w, 0, w, 8); }
    NarrowByteValue(x, seed, j);
  }

  lemma ModSum(a: nat, b: nat, c: nat, m: nat)
    requires m > 0 && b % m == c % m
    ensures (a + b) % m == (a + c) % m
  {
    ModUnique(a + b, (a + c) % m, (a + c) / m + b / m - c / m, m);
  }

  // ----- the pressure arithmetic

  lemma {:induction false} RightBy1(v: Word)
    ensures Shift(false, 1, v) == v >> 1
  {}

  lemma {:induction false} LeftBy1(v: Word)
    ensures Shift(true, 1, v) == v << 1
  {}

  lemma {:induction false} RightBy2(v: Word)
    ensures Shift(false, 2, v) == v >> 2
  {
    hide Shift;
    RightBy1(v);
    RightBy1(v >> 1);
    ShiftShift(false, 1, 1, v);
    assert (v >> 1) >> 1 == v >> 2;
  }

  lemma {:induction false} RightBy3(v: Word)
    ensures Shift(false, 3, v) == v >> 3
  {
    hide Shift;
    RightBy2(v);
    RightBy1(v >> 2);
    ShiftShift(false, 1, 2, v);
    assert (v >> 2) >> 1 == v >> 3;
  }

  lemma {:induction false} RightBy6(v: Word)
    ensures Shift(false, 6, v) == v >> 6
  {
    hide Shift;
    RightBy3(v);
    RightBy3(v >> 3);
    ShiftShift(false, 3, 3, v);
    assert (v >> 3) >> 3 == v >> 6;
  }

  lemma {:induction false} RightBy7(v: Word)
    ensures Shift(false, 7, v) == v >> 7
  {
    hide Shift;
    RightBy6(v);
    RightBy1(v >> 6);
    ShiftShift(false, 1, 6, v);
    assert (v >> 6) >> 1 == v >> 7;
  }

  lemma {:induction false} RightBy12(v: Word)
    ensures Shift(false, 12, v) == v >> 12
  {
    hide Shift;
    RightBy6(v);
    RightBy6(v >> 6);
    ShiftShift(false, 6, 6, v);
    assert (v >> 6) >> 6 == v >> 12;
  }

  lemma {:induction false} RightBy24(v: Word)
    ensures Shift(false, 24, v) == v >> 24
  {
    hide Shift;
    RightBy12(v);
    RightBy12(v >> 12);
    ShiftShift(false, 12, 12, v);
    assert (v >> 12) >> 12 == v >> 24;
  }

  lemma {:induction false} RightBy27(v: Word)
    ensures Shift(false, 27, v) == v >> 27
  {
    hide Shift;
    RightBy24(v);
    RightBy3(v >> 24);
    ShiftShift(false, 3, 24, v);
    assert (v >> 24) >> 3 == v >> 27;
  }

  lemma {:induction false} RightBy30(v: Word)
    ensures Shift(false, 30, v) == v >> 30
  {
    hide Shift;
    RightBy27(v);
    RightBy3(v >> 27);
    ShiftShift(false, 3, 27, v);
    assert (v >> 27) >> 3 == v >> 30;
  }

  lemma {:induction false} RightBy31(v: Word)
    ensures Shift(false, 31, v) == v >> 31
  {
    hide Shift;
    RightBy30(v);
    RightBy1(v >> 30);
    ShiftShift(false, 1, 30, v);
    assert (v >> 30) >> 1 == v >> 31;
  }

  lemma {:induction false} LeftBy2(v: Word)
    ensures Shift(true, 2, v) == v << 2
  {
    hide Shift;
    LeftBy1(v);
    LeftBy1(v << 1);
    ShiftShift(true, 1, 1, v);
    assert (v << 1) << 1 == v << 2;
  }

  lemma {:induction false} LeftBy3(v: Word)
    ensures Shift(true, 3, v) == v << 3
  {
    hide Shift;
    LeftBy2(v);
    LeftBy1(v << 2);
    ShiftShift(true, 1, 2, v);
    assert (v << 2) << 1 == v << 3;
  }

  lemma {:induction false} LeftBy6(v: Word)
    ensures Shift(true, 6, v) == v << 6
  {
    hide Shift;
    LeftBy3(v);
    LeftBy3(v << 3);
    ShiftShift(true, 3, 3, v);
    assert (v << 3) << 3 == v << 6;
  }

  lemma {:induction false} LeftBy12(v: Word)
    ensures Shift(true, 12, v) == v << 12
  {
    hide Shift;
    LeftBy6(v);
    LeftBy6(v << 6);
    ShiftShift(true, 6, 6, v);
    assert (v << 6) << 6 == v << 12;
  }

  lemma {:induction false} LeftBy13(v: Word)
    ensures Shift(true, 13, v) == v << 13
  {
    hide Shift;
    LeftBy12(v);
    LeftBy1(v << 12);
    ShiftShift(true, 1, 12, v);
    assert (v << 12) << 1 == v << 13;
  }

  lemma {:induction false} LeftBy16(v: Word)
    ensures Shift(true, 16, v) == v << 16
  {
    hide Shift;
    LeftBy13(v);
    LeftBy3(v << 13);
    ShiftShift(true, 3, 13, v);
    assert (v << 13) << 3 == v << 16;
  }

  lemma {:induction false} LeftBy17(v: Word)
    ensures Shift(true, 17, v) == v << 17
  {
    hide Shift;
    LeftBy16(v);
    LeftBy1(v << 16);
    ShiftShift(true, 1, 16, v);
    assert (v << 16) << 1 == v << 17;
  }

  /** `v ^ (v >> k)` */
  function XorRight(v: Word, k: bv6): Word {
    Xor(v, v >> k)
  }

  /** `v ^ (v << k)` */
  function XorLeft(v: Word, k: bv6): Word {
    Xor(v, v << k)
  }

  lemma {:induction false} XorRight7(v: Word)
    ensures XorShift(false, 7, v) == XorRight(v, 7)
  {
    hide Shift, Xor;
    RightBy7(v);
  }

  lemma {:induction false} XorRight27(v: Word)
    ensures XorShift(false, 27, v) == XorRight(v, 27)
  {
    hide Shift, Xor;
    RightBy27(v);
  }

  lemma {:induction false} XorRight30(v: Word)
    ensures XorShift(false, 30, v) == XorRight(v, 30)
  {
    hide Shift, Xor;
    RightBy30(v);
  }

  lemma {:induction false} XorRight31(v: Word)
    ensures XorShift(false, 31, v) == XorRight(v, 31)
  {
    hide Shift, Xor;
    RightBy31(v);
  }

  lemma {:induction false} XorLeft13(v: Word)
    ensures XorShift(true, 13, v) == XorLeft(v, 13)
  {
    hide Shift, Xor;
    LeftBy13(v);
  }

  lemma {:induction false} XorLeft17(v: Word)
    ensures XorShift(true, 17, v) == XorLeft(v, 17)
  {
    hide Shift, Xor;
    LeftBy17(v);
  }

  lemma {:induction false} RunLast(ops: seq<Op>, n: nat, v: Word)
    requires 0 < n <= |ops|
    ensures Run(ops[..n], v) == ops[n - 1].Apply(Run(ops[..n - 1], v))
    ensures Run(ops[..0], v) == v
  {
    assert ops[..n][..n - 1] == ops[..n - 1];
  }

  lemma {:induction false} MixSteps(value: Word)
    ensures Mix64(value) == MIX[5].Apply(MIX[4].Apply(MIX[3].Apply(MIX[2].Apply(MIX[1].Apply(MIX[0].Apply(value))))))
  {
    hide Op.Apply, Run;
    assert MIX[..6] == MIX;
    RunLast(MIX, 1, value);
    RunLast(MIX, 2, value);
    RunLast(MIX, 3, value);
    RunLast(MIX, 4, value);
    RunLast(MIX, 5, value);
    RunLast(MIX, 6, value);
  }

  /** `nxmt_mix64`, line by line. */
  lemma {:induction false} Mix64Lines(value: Word)
    ensures var a := AddU64(value, 0x9e37_79b9_7f4a_7c15);
      var b := MulU64(XorRight(a, 30), 0xbf58_476d_1ce4_e5b9);
      var c := MulU64(XorRight(b, 27), 0x94d0_49bb_1331_11eb);
      Mix64(value) == XorRight(c, 31)
  {
    hide Run, AddU64, MulU64, XorShift, XorRight;
    var a := AddU64(value, 0x9e37_79b9_7f4a_7c15);
    var b := MulU64(XorRight(a, 30), 0xbf58_476d_1ce4_e5b9);
    var c := MulU64(XorRight(b, 27), 0x94d0_49bb_1331_11eb);
    XorRight30(a);
    XorRight27(b);
    XorRight31(c);
    MixSteps(value);
  }

  /** The xorshifts of a round, line by line. */
  lemma {:induction false} XorShiftLines(value: Word)
    ensures Run(XORSHIFTS, value) == XorLeft(XorRight(XorLeft(value, 13), 7), 17)
  {
    hide Run, XorShift, XorLeft, XorRight;
    XorLeft13(value);
    XorRight7(XorLeft(value, 13));
    XorLeft17(XorRight(XorLeft(value, 13), 7));
    assert XORSHIFTS[..3] == XORSHIFTS;
    RunLast(XORSHIFTS, 1, value);
    RunLast(XORSHIFTS, 2, value);
    RunLast(XORSHIFTS, 3, value);
  }

  /** The state of the pressure loop before round n, from its own lines. */
  function Rounds(value: Word, n: nat): Word {
    if n == 0 then value
    else
      XorLeft(XorRight(XorLeft(Mix64(AddU64(Rounds(value, n - 1), n - 1)), 13), 7), 17)
  }

  /** The pressure of a word is sixty-four such rounds. */
  lemma {:induction false} PressureLines(value: Word, n: nat)
    ensures Rounds(value, n) == Run(RoundOps(n), value)
    ensures Pressure(value) == Run(RoundOps(64), value)
  {
    hide Run, RoundOps, Mix64, XorLeft, XorRight, AddU64;
    if n == 0 {
      NoRounds(value);
    } else {
      PressureLines(value, n - 1);
      NextRound(n - 1, value);
      XorShiftLines(Mix64(AddU64(Rounds(value, n - 1), n - 1)));
    }
  }

  /** `nxmt_extreme_cpu_pressure` on words: sixty-four rounds of mixing and three xorshifts each. */
  lemma {:induction false} PressureIsSixtyFourRounds(value: Word)
    ensures Pressure(value) == Rounds(value, 64)
  {
    hide Pressure, Run, Rounds;
    PressureLines(value, 64);
  }
}
