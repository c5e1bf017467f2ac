/**
 The deterministic test patterns: the word every phase expects at every offset, and the
 pressure arithmetic that Extreme mode folds over the arena.
 */
module Patterns {
  import opened Words

  datatype Mode = Quick | MemoryLoad | Extreme

  datatype Phase = FixedA | Fixed5 | Checker | Address | Random | Walking | Narrow | BitSpread | Stream

  const FIXED_A: Word := 0xaaaa_aaaa_aaaa_aaaa
  const FIXED_5: Word := 0x5555_5555_5555_5555
  const BIT_SPREAD_0: Word := 0x4924_9249_2492_4924
  const BIT_SPREAD_1: Word := 0xb6db_6db6_db6d_b6db
  const ADDR_PASS_MUL: nat := 0x100_0000_01b3
  const RAND_PASS_MUL: nat := 0x9e37_79b9_7f4a_7c15
  const STREAM_PASS_MUL: nat := 0xbf58_476d_1ce4_e5b9
  const STAMP_WORDS: nat := 1024

  /** A 64-bit address space holds at most this many words. */
  const MAX_WORDS: nat := 0x2000_0000_0000_0000

  function PhasesOf(mode: Mode): (phases: seq<Phase>)
    ensures 0 < |phases| <= 8
  {
    match mode
    case Quick => [FixedA, Address, Random]
    case MemoryLoad | Extreme => [FixedA, Fixed5, Checker, BitSpread, Stream, Address, Random, Walking]
  }

  /** Byte reversal, as the compiler builtin computes it on one scalar register. */
  function Bswap64(x: Word): Word {
    var a := ((x & 0x00ff_00ff_00ff_00ff) << 8) | ((x >> 8) & 0x00ff_00ff_00ff_00ff);
    var b := ((a & 0x0000_ffff_0000_ffff) << 16) | ((a >> 16) & 0x0000_ffff_0000_ffff);
    (b << 32) | (b >> 32)
  }

  /** 1 shifted left by k. */
  function OneBit(k: nat): Word {
    if k == 0 then 1 else Push(OneBit(k - 1), false)
  }

  /** The mask both halves of a phase xor into an index-derived word. */
  function PassMask(seed: Word, pass: nat, mul: nat): Word {
    Xor(seed, FromNat(U64(pass * mul)))
  }

  lemma NarrowBaseAligned(pass: nat, offset: nat)
    ensures offset % 8 == 0 ==> U64(offset + U64(pass * 8)) % 256 % 8 == 0
  {
    hide U64;
    var y := offset + U64(pass * 8);
    U64Keeps(pass * 8, 8);
    U64Keeps(y, 8);
    var u := U64(y);
    if offset % 8 == 0 {
      ModUnique(u % 256, 0, u / 8 - 32 * (u / 256), 8);
    }
  }

  function NarrowBase(pass: nat, offset: nat): (x: nat)
    ensures x < 256
    ensures offset % 8 == 0 ==> x % 8 == 0
  {
    NarrowBaseAligned(pass, offset);
    U64(offset + U64(pass * 8)) % 256
  }

  function NarrowWord(x: Word, seed: Word): Word {
    Xor(Xor(x * 0x0101_0101_0101_0101, 0x0706_0504_0302_0100), seed)
  }

  /** The specification of every phase: the word expected at a byte offset from the arena base. */
  function ExpectedValue(seed: Word, phase: Phase, pass: nat, offset: nat): Word {
    var index := offset / 8;
    match phase
    case FixedA => FIXED_A
    case Fixed5 => FIXED_5
    case Checker => if index % 2 == 1 then FIXED_5 else FIXED_A
    case Address => Xor(Xor(FromNat(offset), seed), FromNat(U64(pass * ADDR_PASS_MUL)))
    case Random => Xor(Xor(Bswap64(FromNat(index)), seed), FromNat(U64(pass * RAND_PASS_MUL)))
    case Walking => OneBit(U64(index + pass) % 64)
    case Narrow => NarrowWord(FromNat(NarrowBase(pass, offset)), seed)
    case BitSpread => if U64(index + pass) % 2 == 1 then BIT_SPREAD_1 else BIT_SPREAD_0
    case Stream => Xor(Xor(FromNat(offset % 0x2000), seed), FromNat(U64(pass * STREAM_PASS_MUL)))
  }

  /** One phase's expected words, indexed by arena word. */
  function Pattern(seed: Word, phase: Phase, pass: nat): nat -> Word {
    (w: nat) => ExpectedValue(seed, phase, pass, 8 * w)
  }

  // ----- what makes ADDRESS and RANDOM useful: no two words of an arena share a value

  lemma BswapInvolutive(x: Word)
    ensures Bswap64(Bswap64(x)) == x
  {}

  lemma {:induction false} MaskedInjective(a: nat, b: nat, m: Word)
    requires a < TWO64 && b < TWO64
    requires Xor(FromNat(a), m) == Xor(FromNat(b), m)
    ensures a == b
  {
    XorCancel(FromNat(a), m);
    XorCancel(FromNat(b), m);
    FromNatInjective(a, b);
  }

  lemma {:induction false} SwappedInjective(a: nat, b: nat, m: Word)
    requires a < TWO64 && b < TWO64
    requires Xor(Bswap64(FromNat(a)), m) == Xor(Bswap64(FromNat(b)), m)
    ensures a == b
  {
    XorCancel(Bswap64(FromNat(a)), m);
    XorCancel(Bswap64(FromNat(b)), m);
    BswapInvolutive(FromNat(a));
    BswapInvolutive(FromNat(b));
    FromNatInjective(a, b);
  }

  /** The runner folds seed and pass into one mask; the specification xors them in turn. */
  lemma {:induction false} PatternForms(seed: Word, pass: nat, w: nat)
    ensures Pattern(seed, Address, pass)(w) == Xor(FromNat(8 * w), PassMask(seed, pass, ADDR_PASS_MUL))
    ensures Pattern(seed, Random, pass)(w) == Xor(Bswap64(FromNat(w)), PassMask(seed, pass, RAND_PASS_MUL))
    ensures Pattern(seed, Stream, pass)(w) == Xor(FromNat(8 * (w % STAMP_WORDS)), PassMask(seed, pass, STREAM_PASS_MUL))
  {
    hide Xor, FromNat, Bswap64, U64;
    assert 8 * w / 8 == w;
    ModUnique(8 * w, 8 * (w % STAMP_WORDS), w / STAMP_WORDS, 0x2000);
    XorAssociative(FromNat(8 * w), seed, FromNat(U64(pass * ADDR_PASS_MUL)));
    XorAssociative(Bswap64(FromNat(w)), seed, FromNat(U64(pass * RAND_PASS_MUL)));
    XorAssociative(FromNat(8 * (w % STAMP_WORDS)), seed, FromNat(U64(pass * STREAM_PASS_MUL)));
  }

  lemma AddressInjective(seed: Word, pass: nat, i: nat, j: nat)
    requires i < MAX_WORDS && j < MAX_WORDS
    requires Pattern(seed, Address, pass)(i) == Pattern(seed, Address, pass)(j)
    ensures i == j
  {
    PatternForms(seed, pass, i);
    PatternForms(seed, pass, j);
    MaskedInjective(8 * i, 8 * j, PassMask(seed, pass, ADDR_PASS_MUL));
  }

  lemma RandomInjective(seed: Word, pass: nat, i: nat, j: nat)
    requires i < MAX_WORDS && j < MAX_WORDS
    requires Pattern(seed, Random, pass)(i) == Pattern(seed, Random, pass)(j)
    ensures i == j
  {
    PatternForms(seed, pass, i);
    PatternForms(seed, pass, j);
    SwappedInjective(i, j, PassMask(seed, pass, RAND_PASS_MUL));
  }

  // ----- Extreme mode's pressure arithmetic, as the sequence of steps it performs

  datatype Op =
    | Add(c: nat)
    | Mul(c: nat, inverse: nat)
    | XorShl(k: nat)
    | XorShr(k: nat)
  {
    /** Whether the step loses no information. */
    predicate Invertible() {
      match this
      case Add(c) => c < TWO64
      case Mul(c, inverse) => (c * inverse) % TWO64 == 1
      case XorShl(k) => k > 0
      case XorShr(k) => k > 0
    }

    function Apply(v: Word): Word {
      match this
      case Add(c) => AddU64(v, c)
      case Mul(c, _) => MulU64(v, c)
      case XorShl(k) => XorShift(true, k, v)
      case XorShr(k) => XorShift(false, k, v)
    }

    function Undo(v: Word): Word
      requires Invertible()
    {
      match this
      case Add(c) => AddU64(v, TWO64 - c)
      case Mul(_, inverse) => MulU64(v, inverse)
      case XorShl(k) => UnXorShift(true, k, v)
      case XorShr(k) => UnXorShift(false, k, v)
    }
  }

  lemma {:induction false} OpInverts(op: Op, v: Word)
    requires op.Invertible()
    ensures op.Undo(op.Apply(v)) == v
    ensures op.Apply(op.Undo(v)) == v
  {
    hide AddU64, MulU64, XorShift, UnXorShift;
    match op
    case Add(c) =>
      AddU64Inverse(v, c, TWO64 - c);
      AddU64Inverse(v, TWO64 - c, c);
    case Mul(c, inverse) =>
      assert inverse * c == c * inverse;
      MulU64Inverse(v, c, inverse);
      MulU64Inverse(v, inverse, c);
    case XorShl(k) => XorShiftInverts(true, k, v);
    case XorShr(k) => XorShiftInverts(false, k, v);
  }

  predicate AllInvertible(ops: seq<Op>) {
    forall i :: 0 <= i < |ops| ==> ops[i].Invertible()
  }

  function Run(ops: seq<Op>, v: Word): Word {
    if ops == [] then v else ops[|ops| - 1].Apply(Run(ops[..|ops| - 1], v))
  }

  function Unrun(ops: seq<Op>, v: Word): Word
    requires AllInvertible(ops)
  {
    if ops == [] then v else Unrun(ops[..|ops| - 1], ops[|ops| - 1].Undo(v))
  }

  lemma {:induction false} RunInverts(ops: seq<Op>, v: Word)
    requires AllInvertible(ops)
    ensures Unrun(ops, Run(ops, v)) == v
    ensures Run(ops, Unrun(ops, v)) == v
  {
    if ops == [] {
    } else {
      var last, init := ops[|ops| - 1], ops[..|ops| - 1];
      OpInverts(last, Run(init, v));
      RunInverts(init, v);
      RunInverts(init, last.Undo(v));
      OpInverts(last, v);
    }
  }

  /** The steps of `nxmt_mix64`, each multiplication paired with its inverse modulo 2^64. */
  const MIX: seq<Op> := [
    Add(0x9e37_79b9_7f4a_7c15),
    XorShr(30), Mul(0xbf58_476d_1ce4_e5b9, 0x96de_1b17_3f11_9089),
    XorShr(27), Mul(0x94d0_49bb_1331_11eb, 0x3196_42b2_d24d_8ec3),
    XorShr(31)
  ]

  const XORSHIFTS: seq<Op> := [XorShl(13), XorShr(7), XorShl(17)]

  const PRESSURE_ROUNDS: nat := 64

  /** The steps of the first n pressure rounds. */
  function RoundOps(n: nat): seq<Op> {
    if n == 0 then [] else RoundOps(n - 1) + [Add(n - 1)] + MIX + XORSHIFTS
  }

  /** What one arena word contributes to the pressure state. */
  function Pressure(v: Word): Word {
    Run(RoundOps(PRESSURE_ROUNDS), v)
  }

  lemma {:induction false} RoundOpsInvertible(n: nat)
    requires n < TWO64
    ensures AllInvertible(RoundOps(n))
  {
    if n == 0 {
    } else {
      RoundOpsInvertible(n - 1);
      assert AllInvertible(MIX);
    }
  }

  /** The pressure arithmetic is a permutation of the 64-bit words. */
  lemma PressureBijective(x: Word, y: Word)
    ensures Pressure(x) == Pressure(y) ==> x == y
    ensures exists v :: Pressure(v) == y
  {
    var ops := RoundOps(PRESSURE_ROUNDS);
    RoundOpsInvertible(PRESSURE_ROUNDS);
    RunInverts(ops, x);
    RunInverts(ops, y);
    assert Pressure(Unrun(ops, y)) == y;
  }

  lemma {:induction false} RunConcat(a: seq<Op>, b: seq<Op>, v: Word)
    ensures Run(a + b, v) == Run(b, Run(a, v))
  {
    if b == [] {
      assert a + b == a;
    } else {
      assert (a + b)[..|a + b| - 1] == a + b[..|b| - 1];
      RunConcat(a, b[..|b| - 1], v);
    }
  }

  /** `nxmt_mix64` */
  function Mix64(v: Word): Word {
    Run(MIX, v)
  }

  lemma {:induction false} RunOne(op: Op, v: Word)
    ensures Run([op], v) == op.Apply(v)
  {
    assert Run([op][..0], v) == v;
  }

  /** One more round of the loop is one more round of steps. */
  lemma {:induction false} NextRound(i: nat, value: Word)
    ensures Run(XORSHIFTS, Mix64(Add(i).Apply(Run(RoundOps(i), value)))) == Run(RoundOps(i + 1), value)
  {
    hide Run;
    var before := RoundOps(i);
    RunConcat(before, [Add(i)], value);
    RunOne(Add(i), Run(before, value));
    RunConcat(before + [Add(i)], MIX, value);
    RunConcat(before + [Add(i)] + MIX, XORSHIFTS, value);
  }

  lemma {:induction false} NoRounds(value: Word)
    ensures Run(RoundOps(0), value) == value
  {}

  /** `nxmt_extreme_cpu_pressure`: sixty-four rounds, folded into the state. */
  method ExtremeCpuPressure(state: Word, value: Word) returns (r: Word)
    ensures r == Xor(state, Pressure(value))
  {
    hide Run, RoundOps, Mix64, Xor;
    NoRounds(value);
    var v := value;
    for i := 0 to PRESSURE_ROUNDS
      invariant v == Run(RoundOps(i), value)
    {
      NextRound(i, value);
      v := Mix64(Add(i).Apply(v));
      v := Run(XORSHIFTS, v);
    }
    r := Xor(state, v);
  }
}
