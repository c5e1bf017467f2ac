/**
 `nxmt_write_chunk`: the nine phase writers, each in its unrolled two-lane vector form and its
 scalar form. `neon` says which of the two the build selected; both are proved to perform the
 same stores as the specification, word by word.
 */
module ChunkWrite {
  import opened Words
  import opened Patterns
  import opened Memories

  /** A vector register of two 64-bit integers used as counters. */
  datatype Counters = Counters(a: nat, b: nat)

  /** A vector register of two words ready to be stored. */
  datatype Lanes = Lanes(a: Word, b: Word)

  /** Lane-wise addition of a constant. */
  function VAdd(v: Counters, c: nat): Counters {
    Counters(U64(v.a + c), U64(v.b + c))
  }

  /** A lane-wise operation on both lanes of a register. */
  function VMap(op: nat -> Word, v: Counters): Lanes {
    Lanes(op(v.a), op(v.b))
  }

  /** Byte reversal as the vector unit performs it: byte i of a lane becomes byte 7 - i. */
  function Rev64(x: Word): Word {
    (x >> 56) | ((x >> 40) & 0xff00) | ((x >> 24) & 0xff_0000) | ((x >> 8) & 0xff00_0000)
    | ((x & 0xff00_0000) << 8) | ((x & 0xff_0000) << 24) | ((x & 0xff00) << 40) | (x << 56)
  }

  lemma Rev64IsBswap(x: Word)
    ensures Rev64(x) == Bswap64(x)
  {}

  function MaskOp(mask: Word): nat -> Word {
    (c: nat) => Xor(FromNat(c), mask)
  }

  function VectorSwapOp(mask: Word): nat -> Word {
    (c: nat) => Xor(Rev64(FromNat(c)), mask)
  }

  function ScalarSwapOp(mask: Word): nat -> Word {
    (c: nat) => Xor(Bswap64(FromNat(c)), mask)
  }

  function WalkOp(): nat -> Word {
    (c: nat) => OneBit(c % 64)
  }

  /** The count a vector shift takes from a lane: its low byte, signed. */
  function ShiftCount(lane: Word): int {
    var b := ToNat(And(lane, 0xff));
    if b < 128 then b else b - 256
  }

  /** A vector shift of one lane: left by a positive count, right by a negative one. */
  function VShl(v: Word, count: int): Word {
    if count >= 0 then Shift(true, count, v) else Shift(false, -count, v)
  }

  /** WALKING as the vector unit computes it: one shifted by the counter masked to six bits. */
  function WalkLaneOp(): nat -> Word {
    (c: nat) => VShl(1, ShiftCount(And(FromNat(c), 63)))
  }

  lemma {:induction false} OneShifted(k: nat)
    ensures Shift(true, k, 1) == OneBit(k)
  {
    if k > 0 {
      OneShifted(k - 1);
    }
  }

  lemma {:induction false} WalkLaneIsWalk(c: nat)
    ensures WalkLaneOp()(c) == WalkOp()(c)
  {
    hide And, Shift, OneBit, FromNat, ToNat;
    assert Mask(6) == 63 && Pow2(6) == 64 && Mask(8) == 0xff && Pow2(8) == 256;
    LowBits(c, 6);
    LowBits(c % 64, 8);
    ToNatFromNat(c % 64);
    OneShifted(c % 64);
  }

  /** The 64-bit counter k steps after x. */
  function Count(x: nat, step: nat, k: nat): nat {
    U64(x + step * k)
  }

  function CountPair(x: nat, step: nat, k: nat): Counters {
    Counters(Count(x, step, k), Count(x, step, k + 1))
  }

  lemma CountAdds(x: nat, step: nat, k: nat, j: nat)
    ensures U64(Count(x, step, k) + step * j) == Count(x, step, k + j)
    ensures U64(x + U64(step * k)) == Count(x, step, k)
  {
    assert step * (k + j) == step * k + step * j;
    U64Add(x + step * k, step * j);
    U64Wrap(x + step * k, step * j);
    U64Wrap(step * k, x);
  }

  lemma FirstCounters(x: nat, step: nat)
    ensures CountPair(x, step, 0) == Counters(U64(x), U64(x + step))
    ensures CountPair(x, step, 2) == Counters(U64(x + step * 2), U64(x + step * 3))
    ensures CountPair(x, step, 4) == Counters(U64(x + step * 4), U64(x + step * 5))
    ensures CountPair(x, step, 6) == Counters(U64(x + step * 6), U64(x + step * 7))
  {}

  lemma VAddCounts(x: nat, step: nat, k: nat, j: nat)
    ensures VAdd(CountPair(x, step, k), step * j) == CountPair(x, step, k + j)
  {
    hide Count, U64;
    CountAdds(x, step, k, j);
    CountAdds(x, step, k + 1, j);
    assert k + 1 + j == k + j + 1;
  }

  /** What a chunk writer works towards: f(w) stored to every word from lo on, in order. */
  datatype Target = Target(before: seq<Word>, f: nat -> Word, lo: nat)

  /** The words of the target below w are stored, and nothing else has changed. */
  ghost predicate StoredUpTo(mem: Memory, t: Target, w: nat)
    reads mem
  {
    && mem.Valid() && |t.before| == mem.fabric.cellCount && t.lo <= w <= |mem.fabric.wires|
    && mem.cells == StoreRange(mem.fabric, t.before, t.f, t.lo, w)
  }

  method Put(mem: Memory, w: nat, v: Word, ghost t: Target)
    requires w < |mem.fabric.wires| && StoredUpTo(mem, t, w) && v == t.f(w)
    modifies mem
    ensures StoredUpTo(mem, t, w + 1)
  {
    mem.Write(w, v);
  }

  /** A vector store of two consecutive words. */
  method PutLanes(mem: Memory, w: nat, v: Lanes, ghost t: Target)
    requires w + 1 < |mem.fabric.wires| && StoredUpTo(mem, t, w) && v == Lanes(t.f(w), t.f(w + 1))
    modifies mem
    ensures StoredUpTo(mem, t, w + 2)
  {
    hide StoredUpTo;
    Put(mem, w, v.a, t);
    Put(mem, w + 1, v.b, t);
  }

  method PutTwoLanes(mem: Memory, w: nat, v0: Lanes, v1: Lanes, ghost t: Target)
    requires w + 3 < |mem.fabric.wires| && StoredUpTo(mem, t, w)
    requires v0 == Lanes(t.f(w), t.f(w + 1)) && v1 == Lanes(t.f(w + 2), t.f(w + 3))
    modifies mem
    ensures StoredUpTo(mem, t, w + 4)
  {
    hide StoredUpTo;
    PutLanes(mem, w, v0, t);
    PutLanes(mem, w + 2, v1, t);
  }

  /** `memset(p, b, n * 8)` for a byte b whose eight copies form `fill`. */
  method Fill(mem: Memory, n: nat, fill: Word, ghost t: Target, lo: nat)
    requires lo == t.lo && lo + n <= |mem.fabric.wires| && StoredUpTo(mem, t, lo)
    requires forall w: nat :: lo <= w < lo + n ==> t.f(w) == fill
    modifies mem
    ensures StoredUpTo(mem, t, lo + n)
  {
    hide StoredUpTo;
    for k := 0 to n
      invariant StoredUpTo(mem, t, lo + k)
    {
      Put(mem, lo + k, fill, t);
    }
  }

  // ----- CHECKER and BITSPREAD: two words in alternation

  ghost predicate Alternates(f: nat -> Word, lo: nat, n: nat, first: Word, second: Word) {
    forall w: nat :: lo <= w < lo + n ==> f(w) == if (w - lo) % 2 == 0 then first else second
  }

  method AlternateVector(mem: Memory, lo: nat, n: nat, first: Word, second: Word, ghost t: Target) returns (k: nat)
    requires lo == t.lo && lo + n <= |mem.fabric.wires| && StoredUpTo(mem, t, lo)
    requires Alternates(t.f, t.lo, n, first, second)
    modifies mem
    ensures k <= n && k % 2 == 0 && StoredUpTo(mem, t, lo + k)
  {
    hide StoredUpTo;
    var pat := Lanes(first, second);
    k := 0;
    while k + 4 <= n
      invariant k <= n && k % 2 == 0 && StoredUpTo(mem, t, lo + k)
    {
      PutTwoLanes(mem, lo + k, pat, pat, t);
      k := k + 4;
    }
  }

  method WriteAlternating(mem: Memory, lo: nat, n: nat, first: Word, second: Word, neon: bool, ghost t: Target)
    requires lo == t.lo && lo + n <= |mem.fabric.wires| && StoredUpTo(mem, t, lo)
    requires Alternates(t.f, t.lo, n, first, second)
    modifies mem
    ensures StoredUpTo(mem, t, lo + n)
  {
    hide StoredUpTo;
    var k: nat := 0;
    if neon {
      k := AlternateVector(mem, lo, n, first, second, t);
    }
    while k + 2 <= n
      invariant k <= n && k % 2 == 0 && StoredUpTo(mem, t, lo + k)
    {
      Put(mem, lo + k, first, t);
      Put(mem, lo + k + 1, second, t);
      k := k + 2;
    }
    if k < n {
      Put(mem, lo + k, first, t);
    }
  }

  // ----- ADDRESS, RANDOM and WALKING: a counter per word

  /** f at word lo + k is op applied to the counter k steps after x. */
  ghost predicate Counted(f: nat -> Word, lo: nat, n: nat, x: nat, step: nat, op: nat -> Word) {
    forall w: nat :: lo <= w < lo + n ==> f(w) == op(Count(x, step, w - lo))
  }

  method PutCounters(mem: Memory, lo: nat, n: nat, k: nat, v0: Counters, v1: Counters,
      x: nat, step: nat, op: nat -> Word, ghost t: Target)
    requires lo == t.lo && k + 4 <= n && lo + n <= |mem.fabric.wires| && StoredUpTo(mem, t, lo + k)
    requires Counted(t.f, t.lo, n, x, step, op)
    requires v0 == CountPair(x, step, k) && v1 == CountPair(x, step, k + 2)
    modifies mem
    ensures StoredUpTo(mem, t, lo + k + 4)
  {
    hide StoredUpTo;
    PutTwoLanes(mem, lo + k, VMap(op, v0), VMap(op, v1), t);
  }

  /** The eight-word unrolled loop: four registers of counters, an operation applied lane by lane. */
  method CountVector(mem: Memory, lo: nat, n: nat, x: nat, step: nat, op: nat -> Word, ghost t: Target) returns (k: nat)
    requires lo == t.lo && lo + n <= |mem.fabric.wires| && StoredUpTo(mem, t, lo)
    requires Counted(t.f, t.lo, n, x, step, op)
    modifies mem
    ensures k <= n && StoredUpTo(mem, t, lo + k)
  {
    hide StoredUpTo, CountPair, VAdd, Count, Counted;
    var v01 := Counters(U64(x), U64(x + step));
    var v23 := Counters(U64(x + step * 2), U64(x + step * 3));
    var v45 := Counters(U64(x + step * 4), U64(x + step * 5));
    var v67 := Counters(U64(x + step * 6), U64(x + step * 7));
    FirstCounters(x, step);
    k := 0;
    while k + 8 <= n
      invariant k <= n && StoredUpTo(mem, t, lo + k)
      invariant v01 == CountPair(x, step, k) && v23 == CountPair(x, step, k + 2)
      invariant v45 == CountPair(x, step, k + 4) && v67 == CountPair(x, step, k + 6)
    {
      PutCounters(mem, lo, n, k, v01, v23, x, step, op, t);
      PutCounters(mem, lo, n, k + 4, v45, v67, x, step, op, t);
      VAddCounts(x, step, k, 8);
      VAddCounts(x, step, k + 2, 8);
      VAddCounts(x, step, k + 4, 8);
      VAddCounts(x, step, k + 6, 8);
      v01, v23 := VAdd(v01, step * 8), VAdd(v23, step * 8);
      v45, v67 := VAdd(v45, step * 8), VAdd(v67, step * 8);
      k := k + 8;
    }
  }

  method WriteCounted(mem: Memory, lo: nat, n: nat, x: nat, step: nat, vectorOp: nat -> Word, scalarOp: nat -> Word,
      neon: bool, ghost t: Target)
    requires lo == t.lo && lo + n <= |mem.fabric.wires| && StoredUpTo(mem, t, lo)
    requires Counted(t.f, t.lo, n, x, step, vectorOp) && Counted(t.f, t.lo, n, x, step, scalarOp)
    modifies mem
    ensures StoredUpTo(mem, t, lo + n)
  {
    hide StoredUpTo, Count;
    var k: nat := 0;
    if neon {
      k := CountVector(mem, lo, n, x, step, vectorOp, t);
    }
    while k < n
      invariant k <= n && StoredUpTo(mem, t, lo + k)
    {
      CountAdds(x, step, k, 0);
      Put(mem, lo + k, scalarOp(U64(x + U64(step * k))), t);
      k := k + 1;
    }
  }

  // ----- NARROW: one 8-bit store per byte

  function NarrowByte(x: nat, seed: Word, j: nat): Word
    requires j < 8
  {
    Xor(FromNat(U64(x + j) % 256), ByteAt(seed, j))
  }

  /** Eight iterations of the byte loop: the bytes of one word, lowest first. */
  method PutBytes(mem: Memory, w: nat, x: nat, seed: Word, ghost t: Target)
    requires w < |mem.fabric.wires| && StoredUpTo(mem, t, w)
    requires forall j: nat {:trigger ByteAt(t.f(w), j)} :: j < 8 ==> NarrowByte(x, seed, j) == ByteAt(t.f(w), j)
    modifies mem
    ensures StoredUpTo(mem, t, w + 1)
  {
    hide ByteAt, SetByte, AgreeBelow, NarrowByte;
    ghost var e, before, c := t.f(w), mem.cells, mem.fabric.wires[w];
    PutByte(mem, w, 0, NarrowByte(x, seed, 0), e);
    PutByte(mem, w, 1, NarrowByte(x, seed, 1), e);
    PutByte(mem, w, 2, NarrowByte(x, seed, 2), e);
    PutByte(mem, w, 3, NarrowByte(x, seed, 3), e);
    PutByte(mem, w, 4, NarrowByte(x, seed, 4), e);
    PutByte(mem, w, 5, NarrowByte(x, seed, 5), e);
    PutByte(mem, w, 6, NarrowByte(x, seed, 6), e);
    PutByte(mem, w, 7, NarrowByte(x, seed, 7), e);
    AgreeFully(mem.cells[c], e);
    assert mem.cells == before[c := e];
  }

  /** One byte store: the word's cell now agrees with e on one more byte. */
  method PutByte(mem: Memory, w: nat, j: nat, b: Word, ghost e: Word)
    requires mem.Valid() && w < |mem.fabric.wires| && j < 8 && b == ByteAt(e, j)
    requires j == 0 || AgreeBelow(mem.cells[mem.fabric.wires[w]], e, j)
    modifies mem
    ensures mem.Valid()
    ensures var c := mem.fabric.wires[w];
      mem.cells == old(mem.cells)[c := mem.cells[c]] && AgreeBelow(mem.cells[c], e, j + 1)
  {
    hide ByteAt, SetByte, AgreeBelow;
    ghost var v := mem.cells[mem.fabric.wires[w]];
    AgreeOnNothing(v, e);
    SetByteExtends(v, e, j);
    assert (8 * w + j) / 8 == w && (8 * w + j) % 8 == j;
    mem.WriteByte(8 * w + j, b);
  }

  lemma AgreeOnNothing(v: Word, e: Word)
    ensures AgreeBelow(v, e, 0)
  {}

  method WriteNarrow(mem: Memory, lo: nat, n: nat, seed: Word, pass: nat, ghost t: Target)
    requires lo == t.lo && lo + n <= |mem.fabric.wires| && StoredUpTo(mem, t, lo)
    requires forall w: nat :: t.f(w) == NarrowWord(FromNat(NarrowBase(pass, 8 * w)), seed)
    modifies mem
    ensures StoredUpTo(mem, t, lo + n)
  {
    hide StoredUpTo, NarrowByte, NarrowBase;
    var byteBase := U64(lo * 8 + U64(pass * 8));
    for k := 0 to n
      invariant StoredUpTo(mem, t, lo + k)
    {
      NarrowBytesFit(lo, k, seed, pass, t.f(lo + k));
      PutBytes(mem, lo + k, byteBase + 8 * k, seed, t);
    }
  }

  lemma {:induction false} NarrowBytesFit(lo: nat, k: nat, seed: Word, pass: nat, e: Word)
    requires e == NarrowWord(FromNat(NarrowBase(pass, 8 * (lo + k))), seed)
    ensures forall j: nat {:trigger ByteAt(e, j)} :: j < 8 ==>
      NarrowByte(U64(lo * 8 + U64(pass * 8)) + 8 * k, seed, j) == ByteAt(e, j)
  {
    hide ByteAt, NarrowWord, FromNat, Xor, U64, NarrowBase;
    forall j: nat {:trigger ByteAt(e, j)} | j < 8
      ensures NarrowByte(U64(lo * 8 + U64(pass * 8)) + 8 * k, seed, j) == ByteAt(e, j)
    {
      NarrowIndex(lo, k, j, pass);
      assert U64(lo * 8 + U64(pass * 8)) + 8 * k + j == U64(lo * 8 + U64(pass * 8)) + (8 * k + j);
      NarrowByteValue(NarrowBase(pass, 8 * (lo + k)), seed, j);
    }
  }

  lemma NarrowIndex(lo: nat, k: nat, j: nat, pass: nat)
    requires j < 8
    ensures U64(U64(lo * 8 + U64(pass * 8)) + (8 * k + j)) % 256 == NarrowBase(pass, 8 * (lo + k)) + j
  {
    hide U64, NarrowBase;
    var p := U64(pass * 8);
    var x := 8 * (lo + k) + p;
    U64Wrap(lo * 8 + p, 8 * k + j);
    assert lo * 8 + p + (8 * k + j) == x + j;
    U64Keeps(x + j, 256);
    NarrowOffset(pass, lo + k);
    EightAligned(x, j);
  }

  lemma NarrowOffset(pass: nat, w: nat)
    ensures var x := 8 * w + U64(pass * 8); NarrowBase(pass, 8 * w) == x % 256 && x % 8 == 0
  {
    hide U64;
    var p := U64(pass * 8);
    U64Keeps(8 * w + p, 256);
    U64Keeps(pass * 8, 8);
    ModUnique(pass * 8, 0, pass, 8);
    var q := p / 8;
    assert p == 8 * q;
    ModUnique(8 * w + p, 0, w + q, 8);
  }

  lemma EightAligned(x: nat, j: nat)
    requires x % 8 == 0 && j < 8
    ensures (x + j) % 256 == x % 256 + j
  {
    ModUnique(x % 256, 8 * (x / 8 - 32 * (x / 256)) % 8, x / 8 - 32 * (x / 256), 8);
    ModUnique(x + j, x % 256 + j, x / 256, 256);
  }

  // ----- STREAM: an 8 KiB stamp copied across the chunk

  /** The stamp: one period of the STREAM pattern. */
  function StampOp(mask: Word): nat -> Word {
    (i: nat) => Xor(FromNat(8 * i), mask)
  }

  ghost predicate Stamped(stamp: array<Word>, mask: Word, k: nat)
    reads stamp
  {
    k <= stamp.Length == STAMP_WORDS && forall i: nat :: i < k ==> stamp[i] == StampOp(mask)(i)
  }

  /** The offsets of stamp words k and k + 1. */
  function StampOffsets(k: nat): Counters {
    Counters(8 * k, 8 * k + 8)
  }

  method StampVector(stamp: array<Word>, mask: Word) returns (k: nat)
    requires Stamped(stamp, mask, 0)
    modifies stamp
    ensures k <= STAMP_WORDS && Stamped(stamp, mask, k)
  {
    var off01, off23 := Counters(0, 8), Counters(16, 24);
    hide Stamped, VAdd;
    k := 0;
    while k + 4 <= STAMP_WORDS
      invariant k <= STAMP_WORDS && off01 == StampOffsets(k) && off23 == StampOffsets(k + 2)
      invariant Stamped(stamp, mask, k)
    {
      StampFour(stamp, mask, k, off01, off23);
      VAddSmall(k);
      VAddSmall(k + 2);
      off01, off23 := VAdd(off01, 32), VAdd(off23, 32);
      k := k + 4;
    }
  }

  lemma VAddSmall(k: nat)
    requires k <= STAMP_WORDS
    ensures VAdd(StampOffsets(k), 32) == StampOffsets(k + 4)
  {}

  method StampFour(stamp: array<Word>, mask: Word, k: nat, off01: Counters, off23: Counters)
    requires k + 4 <= STAMP_WORDS && Stamped(stamp, mask, k)
    requires off01 == StampOffsets(k) && off23 == StampOffsets(k + 2)
    modifies stamp
    ensures Stamped(stamp, mask, k + 4)
  {
    hide Stamped;
    StampTwo(stamp, mask, k, off01);
    StampTwo(stamp, mask, k + 2, off23);
  }

  method StampTwo(stamp: array<Word>, mask: Word, k: nat, off: Counters)
    requires k + 2 <= STAMP_WORDS && Stamped(stamp, mask, k) && off == StampOffsets(k)
    modifies stamp
    ensures Stamped(stamp, mask, k + 2)
  {
    hide FromNat, Xor;
    var v := VMap(MaskOp(mask), off);
    assert 8 * (k + 1) == 8 * k + 8;
    stamp[k], stamp[k + 1] := v.a, v.b;
  }

  /** `nxmt_fill_stream_stamp` */
  method FillStreamStamp(stamp: array<Word>, mask: Word, neon: bool)
    requires stamp.Length == STAMP_WORDS
    modifies stamp
    ensures Stamped(stamp, mask, STAMP_WORDS)
  {
    hide FromNat, Xor;
    var k: nat := 0;
    if neon {
      k := StampVector(stamp, mask);
    }
    while k < STAMP_WORDS
      invariant k <= STAMP_WORDS && Stamped(stamp, mask, k)
    {
      assert U64(k * 8) == 8 * k;
      stamp[k] := Xor(FromNat(U64(k * 8)), mask);
      k := k + 1;
    }
  }

  /** `nxmt_neon_copy_words`: sixteen words an iteration, then one at a time. */
  method CopyWords(mem: Memory, w: nat, src: seq<Word>, neon: bool, ghost t: Target)
    requires w + |src| <= |mem.fabric.wires| && StoredUpTo(mem, t, w)
    requires forall v: nat :: w <= v < w + |src| ==> t.f(v) == src[v - w]
    modifies mem
    ensures StoredUpTo(mem, t, w + |src|)
  {
    hide StoredUpTo;
    var k: nat := 0;
    if neon {
      while k + 16 <= |src|
        invariant k <= |src| && StoredUpTo(mem, t, w + k)
      {
        CopyEight(mem, w + k, src[k..k + 8], t);
        CopyEight(mem, w + k + 8, src[k + 8..k + 16], t);
        k := k + 16;
      }
    }
    while k < |src|
      invariant k <= |src| && StoredUpTo(mem, t, w + k)
    {
      Put(mem, w + k, src[k], t);
      k := k + 1;
    }
  }

  /** Four vector loads followed by four vector stores. */
  method CopyEight(mem: Memory, w: nat, src: seq<Word>, ghost t: Target)
    requires |src| == 8 && w + 8 <= |mem.fabric.wires| && StoredUpTo(mem, t, w)
    requires forall v: nat :: w <= v < w + 8 ==> t.f(v) == src[v - w]
    modifies mem
    ensures StoredUpTo(mem, t, w + 8)
  {
    hide StoredUpTo;
    var a0, a1 := Lanes(src[0], src[1]), Lanes(src[2], src[3]);
    var a2, a3 := Lanes(src[4], src[5]), Lanes(src[6], src[7]);
    PutTwoLanes(mem, w, a0, a1, t);
    PutTwoLanes(mem, w + 4, a2, a3, t);
  }

  lemma StampTiles(x: nat, i: nat)
    requires x % STAMP_WORDS + i < STAMP_WORDS
    ensures (x + i) % STAMP_WORDS == x % STAMP_WORDS + i
  {}

  lemma StampWraps(x: nat, c: nat)
    ensures (x % STAMP_WORDS + c) % STAMP_WORDS == (x + c) % STAMP_WORDS
  {}

  method WriteStream(mem: Memory, lo: nat, n: nat, mask: Word, neon: bool, ghost t: Target)
    requires lo == t.lo && lo + n <= |mem.fabric.wires| && StoredUpTo(mem, t, lo)
    requires forall w: nat :: t.f(w) == StampOp(mask)(w % STAMP_WORDS)
    modifies mem
    ensures StoredUpTo(mem, t, lo + n)
  {
    var stamp := new Word[STAMP_WORDS];
    hide StoredUpTo, StampOp;
    FillStreamStamp(stamp, mask, neon);
    TileStamp(mem, lo, n, stamp[..], neon, StampOp(mask), t);
  }

  /** From the stamp position of word w on, the stamp holds the next words up to its end. */
  lemma {:induction false} StampServes(w: nat, copy: nat, stamp: seq<Word>, f: nat -> Word, t: Target)
    requires |stamp| == STAMP_WORDS && (forall i: nat :: i < STAMP_WORDS ==> stamp[i] == f(i))
    requires forall v: nat :: t.f(v) == f(v % STAMP_WORDS)
    requires w % STAMP_WORDS + copy <= STAMP_WORDS
    ensures var src := stamp[w % STAMP_WORDS..w % STAMP_WORDS + copy];
      forall v: nat :: w <= v < w + copy ==> t.f(v) == src[v - w]
  {
    forall v: nat | w <= v < w + copy
      ensures t.f(v) == stamp[w % STAMP_WORDS..w % STAMP_WORDS + copy][v - w]
    {
      StampTiles(w, v - w);
    }
  }

  /** The copy loop: from the stamp position of the next word to the end of the stamp, over and over. */
  method TileStamp(mem: Memory, lo: nat, n: nat, stamp: seq<Word>, neon: bool, ghost f: nat -> Word, ghost t: Target)
    requires lo == t.lo && lo + n <= |mem.fabric.wires| && StoredUpTo(mem, t, lo)
    requires |stamp| == STAMP_WORDS && forall i: nat :: i < STAMP_WORDS ==> stamp[i] == f(i)
    requires forall w: nat :: t.f(w) == f(w % STAMP_WORDS)
    modifies mem
    ensures StoredUpTo(mem, t, lo + n)
  {
    hide StoredUpTo;
    var pos := lo % STAMP_WORDS;
    var k: nat := 0;
    while k < n
      invariant k <= n && StoredUpTo(mem, t, lo + k) && pos == (lo + k) % STAMP_WORDS
    {
      var need, avail := n - k, STAMP_WORDS - pos;
      var copy := if need < avail then need else avail;
      var src := stamp[pos..pos + copy];
      StampServes(lo + k, copy, stamp, f, t);
      CopyWords(mem, lo + k, src, neon, t);
      StampWraps(lo + k, copy);
      k := k + copy;
      pos := (pos + copy) % STAMP_WORDS;
    }
  }

  // ----- the dispatch on phases

  /** `nxmt_write_chunk`: whatever the build, the chunk's words receive the specified values in order. */
  method WriteChunk(mem: Memory, lo: nat, n: nat, phase: Phase, seed: Word, pass: nat, neon: bool)
    requires mem.Valid() && lo + n <= |mem.fabric.wires|
    modifies mem
    ensures mem.Valid()
    ensures mem.cells == StoreRange(mem.fabric, old(mem.cells), Pattern(seed, phase, pass), lo, lo + n)
  {
    ghost var t := Target(mem.cells, Pattern(seed, phase, pass), lo);
    match phase
    case FixedA =>
      FixedForms(seed, pass);
      Fill(mem, n, FIXED_A, t, lo);
    case Fixed5 =>
      FixedForms(seed, pass);
      Fill(mem, n, FIXED_5, t, lo);
    case Checker =>
      var first := if lo % 2 == 1 then FIXED_5 else FIXED_A;
      var second := Xor(first, Xor(FIXED_A, FIXED_5));
      CheckerAlternates(seed, pass, lo, n);
      WriteAlternating(mem, lo, n, first, second, neon, t);
    case Address =>
      var mask := PassMask(seed, pass, ADDR_PASS_MUL);
      AddressCounts(seed, pass, lo, n);
      WriteCounted(mem, lo, n, U64(lo * 8), 8, MaskOp(mask), MaskOp(mask), neon, t);
    case Random =>
      var mask := PassMask(seed, pass, RAND_PASS_MUL);
      RandomCounts(seed, pass, lo, n);
      WriteCounted(mem, lo, n, lo, 1, VectorSwapOp(mask), ScalarSwapOp(mask), neon, t);
    case Walking =>
      WalkingCounts(seed, pass, lo, n);
      WriteCounted(mem, lo, n, U64(lo + pass), 1, WalkLaneOp(), WalkOp(), neon, t);
    case Narrow =>
      NarrowForm(seed, pass);
      WriteNarrow(mem, lo, n, seed, pass, t);
    case BitSpread =>
      var first := if U64(lo + pass) % 2 == 1 then BIT_SPREAD_1 else BIT_SPREAD_0;
      var second := Xor(first, Xor(BIT_SPREAD_0, BIT_SPREAD_1));
      BitSpreadAlternates(seed, pass, lo, n);
      WriteAlternating(mem, lo, n, first, second, neon, t);
    case Stream =>
      var mask := PassMask(seed, pass, STREAM_PASS_MUL);
      StreamForm(seed, pass);
      WriteStream(mem, lo, n, mask, neon, t);
  }

  lemma FixedForms(seed: Word, pass: nat)
    ensures forall w: nat :: Pattern(seed, FixedA, pass)(w) == FIXED_A && Pattern(seed, Fixed5, pass)(w) == FIXED_5
  {}

  lemma {:induction false} NarrowForm(seed: Word, pass: nat)
    ensures forall w: nat :: Pattern(seed, Narrow, pass)(w) == NarrowWord(FromNat(NarrowBase(pass, 8 * w)), seed)
  {}

  lemma FlipFixed()
    ensures Xor(FIXED_A, Xor(FIXED_A, FIXED_5)) == FIXED_5
    ensures Xor(FIXED_5, Xor(FIXED_A, FIXED_5)) == FIXED_A
    ensures Xor(BIT_SPREAD_0, Xor(BIT_SPREAD_0, BIT_SPREAD_1)) == BIT_SPREAD_1
    ensures Xor(BIT_SPREAD_1, Xor(BIT_SPREAD_0, BIT_SPREAD_1)) == BIT_SPREAD_0
  {}

  lemma CheckerAlternates(seed: Word, pass: nat, lo: nat, n: nat)
    ensures var first := if lo % 2 == 1 then FIXED_5 else FIXED_A;
      Alternates(Pattern(seed, Checker, pass), lo, n, first, Xor(first, Xor(FIXED_A, FIXED_5)))
  {
    FlipFixed();
    forall w: nat
      ensures Pattern(seed, Checker, pass)(w) == if w % 2 == 1 then FIXED_5 else FIXED_A
    {
      assert 8 * w / 8 == w;
    }
  }

  lemma BitSpreadAlternates(seed: Word, pass: nat, lo: nat, n: nat)
    ensures var first := if U64(lo + pass) % 2 == 1 then BIT_SPREAD_1 else BIT_SPREAD_0;
      Alternates(Pattern(seed, BitSpread, pass), lo, n, first, Xor(first, Xor(BIT_SPREAD_0, BIT_SPREAD_1)))
  {
    hide U64, Xor;
    FlipFixed();
    U64Parity(lo + pass);
    forall w: nat
      ensures Pattern(seed, BitSpread, pass)(w) == if (w + pass) % 2 == 1 then BIT_SPREAD_1 else BIT_SPREAD_0
    {
      assert 8 * w / 8 == w;
      U64Parity(w + pass);
    }
  }

  lemma U64Parity(x: nat)
    ensures U64(x) % 2 == x % 2
  {
    U64Keeps(x, 2);
  }

  lemma AddressCounts(seed: Word, pass: nat, lo: nat, n: nat)
    requires lo + n <= MAX_WORDS
    ensures Counted(Pattern(seed, Address, pass), lo, n, U64(lo * 8), 8, MaskOp(PassMask(seed, pass, ADDR_PASS_MUL)))
  {
    hide Pattern, Count, FromNat, Xor, PassMask;
    var mask := PassMask(seed, pass, ADDR_PASS_MUL);
    forall w: nat | lo <= w < lo + n
      ensures Pattern(seed, Address, pass)(w) == MaskOp(mask)(Count(U64(lo * 8), 8, w - lo))
    {
      PatternForms(seed, pass, w);
      AddressCount(lo, w);
    }
  }

  lemma AddressCount(lo: nat, w: nat)
    requires lo <= w < MAX_WORDS
    ensures Count(U64(lo * 8), 8, w - lo) == 8 * w
  {}

  lemma RandomCounts(seed: Word, pass: nat, lo: nat, n: nat)
    requires lo + n <= MAX_WORDS
    ensures var mask := PassMask(seed, pass, RAND_PASS_MUL);
      && Counted(Pattern(seed, Random, pass), lo, n, lo, 1, VectorSwapOp(mask))
      && Counted(Pattern(seed, Random, pass), lo, n, lo, 1, ScalarSwapOp(mask))
  {
    hide Pattern, FromNat, Xor, PassMask, Rev64, Bswap64;
    var mask := PassMask(seed, pass, RAND_PASS_MUL);
    forall w: nat | lo <= w < lo + n
      ensures Pattern(seed, Random, pass)(w) == VectorSwapOp(mask)(Count(lo, 1, w - lo))
      ensures Pattern(seed, Random, pass)(w) == ScalarSwapOp(mask)(Count(lo, 1, w - lo))
    {
      PatternForms(seed, pass, w);
      assert Count(lo, 1, w - lo) == w;
      Rev64IsBswap(FromNat(w));
    }
  }

  lemma WalkingAt(seed: Word, pass: nat, w: nat)
    ensures Pattern(seed, Walking, pass)(w) == OneBit(U64(w + pass) % 64)
  {
    hide OneBit, U64;
    assert 8 * w / 8 == w;
  }

  lemma {:induction false} WalkingCounts(seed: Word, pass: nat, lo: nat, n: nat)
    ensures Counted(Pattern(seed, Walking, pass), lo, n, U64(lo + pass), 1, WalkOp())
    ensures Counted(Pattern(seed, Walking, pass), lo, n, U64(lo + pass), 1, WalkLaneOp())
  {
    hide OneBit, WalkLaneOp, Pattern, U64;
    forall w: nat | lo <= w < lo + n
      ensures Pattern(seed, Walking, pass)(w) == WalkOp()(Count(U64(lo + pass), 1, w - lo))
      ensures Pattern(seed, Walking, pass)(w) == WalkLaneOp()(Count(U64(lo + pass), 1, w - lo))
    {
      WalkingAt(seed, pass, w);
      U64Wrap(lo + pass, w - lo);
      assert lo + pass + (w - lo) == w + pass;
      assert U64(lo + pass) + 1 * (w - lo) == U64(lo + pass) + (w - lo);
      WalkLaneIsWalk(Count(U64(lo + pass), 1, w - lo));
    }
  }

  lemma StreamForm(seed: Word, pass: nat)
    ensures var mask := PassMask(seed, pass, STREAM_PASS_MUL);
      forall w: nat :: Pattern(seed, Stream, pass)(w) == StampOp(mask)(w % STAMP_WORDS)
  {
    forall w: nat
      ensures Pattern(seed, Stream, pass)(w) == StampOp(PassMask(seed, pass, STREAM_PASS_MUL))(w % STAMP_WORDS)
    {
      PatternForms(seed, pass, w);
    }
  }
}
