/**
 The memory under test. A word of the arena is wired to a physical cell, and reading it may
 force some of its bits: the identity wiring with no forced bits is fault-free memory, two
 words wired to one cell are an address-line fault, and forced bits are stuck-at faults.
 */
module Memories {
  import opened Words
  import opened Patterns

  datatype Fabric = Fabric(wires: seq<nat>, stuckLow: seq<Word>, stuckHigh: seq<Word>, cellCount: nat)
  {
    ghost predicate Valid() {
      && |stuckLow| == |wires| && |stuckHigh| == |wires|
      && |wires| < MAX_WORDS
      && forall w :: 0 <= w < |wires| ==> wires[w] < cellCount
    }

    /** No two words share a cell. */
    ghost predicate Unaliased() {
      forall v, w :: 0 <= v < |wires| && 0 <= w < |wires| && wires[v] == wires[w] ==> v == w
    }

    ghost predicate NoStuckBits()
      requires Valid()
    {
      forall w :: 0 <= w < |wires| ==> stuckLow[w] == 0 && stuckHigh[w] == 0
    }
  }

  function Not(v: Word): Word {
    !v
  }

  function Forced(v: Word, mask: Word): Word {
    v | mask
  }

  /** What is read when bits are forced low or high. */
  function Sense(low: Word, high: Word, v: Word): Word {
    Forced(And(v, Not(low)), high)
  }

  /** The flips a read lets through. */
  function Shown(low: Word, high: Word, flips: Word): Word {
    And(And(flips, Not(low)), Not(high))
  }

  lemma SenseFlipped(low: Word, high: Word, v: Word, flips: Word)
    ensures Sense(low, high, Xor(v, flips)) == Xor(Sense(low, high, v), Shown(low, high, flips))
  {
    hide Xor, And, Not, Forced;
    AndXor(v, flips, Not(low));
    ForceFlipped(And(v, Not(low)), And(flips, Not(low)), high);
  }

  lemma ForceFlipped(v: Word, flips: Word, mask: Word)
    ensures Forced(Xor(v, flips), mask) == Xor(Forced(v, mask), And(flips, Not(mask)))
  {
    ForceBits(v, flips, mask);
  }

  lemma ForceBits(v: Word, flips: Word, mask: Word)
    ensures Xor(v, flips) | mask == Xor(v | mask, flips & !mask)
  {}

  lemma SenseIntact(v: Word)
    ensures Sense(0, 0, v) == v
  {}

  function Load(fab: Fabric, cells: seq<Word>, w: nat): Word
    requires fab.Valid() && |cells| == fab.cellCount && w < |fab.wires|
  {
    Sense(fab.stuckLow[w], fab.stuckHigh[w], cells[fab.wires[w]])
  }

  /** The cells after f(w) was stored to every word w of [lo, hi), in ascending order. */
  function StoreRange(fab: Fabric, cells: seq<Word>, f: nat -> Word, lo: nat, hi: nat): (r: seq<Word>)
    requires fab.Valid() && |cells| == fab.cellCount && lo <= hi <= |fab.wires|
    ensures |r| == |cells|
    decreases hi
  {
    if hi == lo then cells
    else StoreRange(fab, cells, f, lo, hi - 1)[fab.wires[hi - 1] := f(hi - 1)]
  }

  lemma {:induction false} StoreRangeConcat(fab: Fabric, cells: seq<Word>, f: nat -> Word, lo: nat, mid: nat, hi: nat)
    requires fab.Valid() && |cells| == fab.cellCount && lo <= mid <= hi <= |fab.wires|
    ensures StoreRange(fab, StoreRange(fab, cells, f, lo, mid), f, mid, hi) == StoreRange(fab, cells, f, lo, hi)
    decreases hi
  {
    if mid < hi {
      StoreRangeConcat(fab, cells, f, lo, mid, hi - 1);
    }
  }

  /** Storing touches only the cells the range is wired to. */
  lemma {:induction false} StoreRangeFrame(fab: Fabric, cells: seq<Word>, f: nat -> Word, lo: nat, hi: nat, c: nat)
    requires fab.Valid() && |cells| == fab.cellCount && lo <= hi <= |fab.wires| && c < |cells|
    requires forall w :: lo <= w < hi ==> fab.wires[w] != c
    ensures StoreRange(fab, cells, f, lo, hi)[c] == cells[c]
    decreases hi
  {
    if lo < hi {
      StoreRangeFrame(fab, cells, f, lo, hi - 1, c);
    }
  }

  /** Afterwards a word of the range has its own value, unless a later word shares its cell. */
  lemma {:induction false} StoreRangeHit(fab: Fabric, cells: seq<Word>, f: nat -> Word, lo: nat, hi: nat, w: nat)
    requires fab.Valid() && |cells| == fab.cellCount && lo <= w < hi <= |fab.wires|
    requires forall v :: w < v < hi ==> fab.wires[v] != fab.wires[w]
    ensures StoreRange(fab, cells, f, lo, hi)[fab.wires[w]] == f(w)
    decreases hi
  {
    if w < hi - 1 {
      StoreRangeHit(fab, cells, f, lo, hi - 1, w);
    }
  }

  // ----- bytes of a word

  /** The bits of bytes 0 to j - 1. */
  function ByteMask(j: nat): Word
    requires j <= 8
  {
    match j
    case 0 => 0
    case 1 => 0xff
    case 2 => 0xffff
    case 3 => 0xff_ffff
    case 4 => 0xffff_ffff
    case 5 => 0xff_ffff_ffff
    case 6 => 0xffff_ffff_ffff
    case 7 => 0xff_ffff_ffff_ffff
    case 8 => 0xffff_ffff_ffff_ffff
  }

  function ByteAt(v: Word, j: nat): Word
    requires j < 8
  {
    match j
    case 0 => v & 0xff
    case 1 => (v >> 8) & 0xff
    case 2 => (v >> 16) & 0xff
    case 3 => (v >> 24) & 0xff
    case 4 => (v >> 32) & 0xff
    case 5 => (v >> 40) & 0xff
    case 6 => (v >> 48) & 0xff
    case 7 => v >> 56
  }

  /** v with byte j replaced by the low byte of b. */
  function SetByte(v: Word, j: nat, b: Word): Word
    requires j < 8
  {
    match j
    case 0 => (v & 0xffff_ffff_ffff_ff00) | (b & 0xff)
    case 1 => (v & 0xffff_ffff_ffff_00ff) | ((b & 0xff) << 8)
    case 2 => (v & 0xffff_ffff_ff00_ffff) | ((b & 0xff) << 16)
    case 3 => (v & 0xffff_ffff_00ff_ffff) | ((b & 0xff) << 24)
    case 4 => (v & 0xffff_ff00_ffff_ffff) | ((b & 0xff) << 32)
    case 5 => (v & 0xffff_00ff_ffff_ffff) | ((b & 0xff) << 40)
    case 6 => (v & 0xff00_ffff_ffff_ffff) | ((b & 0xff) << 48)
    case 7 => (v & 0x00ff_ffff_ffff_ffff) | ((b & 0xff) << 56)
  }

  predicate AgreeBelow(v: Word, e: Word, j: nat)
    requires j <= 8
  {
    v & ByteMask(j) == e & ByteMask(j)
  }

  lemma SetByte0(v: Word, e: Word)
    requires AgreeBelow(v, e, 0)
    ensures AgreeBelow(SetByte(v, 0, ByteAt(e, 0)), e, 1)
  {}

  lemma SetByte1(v: Word, e: Word)
    requires AgreeBelow(v, e, 1)
    ensures AgreeBelow(SetByte(v, 1, ByteAt(e, 1)), e, 2)
  {}

  lemma SetByte2(v: Word, e: Word)
    requires AgreeBelow(v, e, 2)
    ensures AgreeBelow(SetByte(v, 2, ByteAt(e, 2)), e, 3)
  {}

  lemma SetByte3(v: Word, e: Word)
    requires AgreeBelow(v, e, 3)
    ensures AgreeBelow(SetByte(v, 3, ByteAt(e, 3)), e, 4)
  {}

  lemma SetByte4(v: Word, e: Word)
    requires AgreeBelow(v, e, 4)
    ensures AgreeBelow(SetByte(v, 4, ByteAt(e, 4)), e, 5)
  {}

  lemma SetByte5(v: Word, e: Word)
    requires AgreeBelow(v, e, 5)
    ensures AgreeBelow(SetByte(v, 5, ByteAt(e, 5)), e, 6)
  {}

  lemma SetByte6(v: Word, e: Word)
    requires AgreeBelow(v, e, 6)
    ensures AgreeBelow(SetByte(v, 6, ByteAt(e, 6)), e, 7)
  {}

  lemma SetByte7(v: Word, e: Word)
    requires AgreeBelow(v, e, 7)
    ensures AgreeBelow(SetByte(v, 7, ByteAt(e, 7)), e, 8)
  {}

  lemma SetBytePair0(v: Word, e: Word, j: nat)
    requires 0 <= j <= 1 && AgreeBelow(v, e, j)
    ensures AgreeBelow(SetByte(v, j, ByteAt(e, j)), e, j + 1)
  {
    match j
    case 0 => SetByte0(v, e);
    case 1 => SetByte1(v, e);
  }

  lemma SetBytePair1(v: Word, e: Word, j: nat)
    requires 2 <= j <= 3 && AgreeBelow(v, e, j)
    ensures AgreeBelow(SetByte(v, j, ByteAt(e, j)), e, j + 1)
  {
    match j
    case 2 => SetByte2(v, e);
    case 3 => SetByte3(v, e);
  }

  lemma SetBytePair2(v: Word, e: Word, j: nat)
    requires 4 <= j <= 5 && AgreeBelow(v, e, j)
    ensures AgreeBelow(SetByte(v, j, ByteAt(e, j)), e, j + 1)
  {
    match j
    case 4 => SetByte4(v, e);
    case 5 => SetByte5(v, e);
  }

  lemma SetBytePair3(v: Word, e: Word, j: nat)
    requires 6 <= j <= 7 && AgreeBelow(v, e, j)
    ensures AgreeBelow(SetByte(v, j, ByteAt(e, j)), e, j + 1)
  {
    match j
    case 6 => SetByte6(v, e);
    case 7 => SetByte7(v, e);
  }

  /** Overwriting byte j extends the agreement with e by one byte. */
  lemma SetByteExtends(v: Word, e: Word, j: nat)
    requires j < 8 && AgreeBelow(v, e, j)
    ensures AgreeBelow(SetByte(v, j, ByteAt(e, j)), e, j + 1)
  {
    hide SetByte, ByteAt, AgreeBelow;
    if j < 2 {
      SetBytePair0(v, e, j);
    } else if j < 4 {
      SetBytePair1(v, e, j);
    } else if j < 6 {
      SetBytePair2(v, e, j);
    } else {
      SetBytePair3(v, e, j);
    }
  }

  lemma AgreeFully(v: Word, e: Word)
    requires AgreeBelow(v, e, 8)
    ensures v == e
  {}

  // ----- the bytes of a NARROW word

  /** x copied into all eight bytes. */
  function Spread(x: Word): Word {
    x | (x << 8) | (x << 16) | (x << 24) | (x << 32) | (x << 40) | (x << 48) | (x << 56)
  }

  lemma SpreadIsProduct(x: Word)
    requires x & 0xff == x
    ensures x * 0x0101_0101_0101_0101 == Spread(x)
  {}

  lemma NarrowByte0(x: Word, s: Word)
    requires x & 0xff == x
    ensures ByteAt(Xor(Xor(Spread(x), 0x0706_0504_0302_0100), s), 0) == Xor(Xor(x, 0), ByteAt(s, 0))
  {}

  lemma NarrowByte1(x: Word, s: Word)
    requires x & 0xff == x
    ensures ByteAt(Xor(Xor(Spread(x), 0x0706_0504_0302_0100), s), 1) == Xor(Xor(x, 1), ByteAt(s, 1))
  {}

  lemma NarrowByte2(x: Word, s: Word)
    requires x & 0xff == x
    ensures ByteAt(Xor(Xor(Spread(x), 0x0706_0504_0302_0100), s), 2) == Xor(Xor(x, 2), ByteAt(s, 2))
  {}

  lemma NarrowByte3(x: Word, s: Word)
    requires x & 0xff == x
    ensures ByteAt(Xor(Xor(Spread(x), 0x0706_0504_0302_0100), s), 3) == Xor(Xor(x, 3), ByteAt(s, 3))
  {}

  lemma NarrowByte4(x: Word, s: Word)
    requires x & 0xff == x
    ensures ByteAt(Xor(Xor(Spread(x), 0x0706_0504_0302_0100), s), 4) == Xor(Xor(x, 4), ByteAt(s, 4))
  {}

  lemma NarrowByte5(x: Word, s: Word)
    requires x & 0xff == x
    ensures ByteAt(Xor(Xor(Spread(x), 0x0706_0504_0302_0100), s), 5) == Xor(Xor(x, 5), ByteAt(s, 5))
  {}

  lemma NarrowByte6(x: Word, s: Word)
    requires x & 0xff == x
    ensures ByteAt(Xor(Xor(Spread(x), 0x0706_0504_0302_0100), s), 6) == Xor(Xor(x, 6), ByteAt(s, 6))
  {}

  lemma NarrowByte7(x: Word, s: Word)
    requires x & 0xff == x
    ensures ByteAt(Xor(Xor(Spread(x), 0x0706_0504_0302_0100), s), 7) == Xor(Xor(x, 7), ByteAt(s, 7))
  {}

  lemma SmallWords()
    ensures FromNat(0) == 0 && FromNat(1) == 1 && FromNat(2) == 2 && FromNat(3) == 3
    ensures FromNat(4) == 4 && FromNat(5) == 5 && FromNat(6) == 6 && FromNat(7) == 7
  {}

  /** Byte j of the word for base x is (x ^ j) ^ byte j of the seed. */
  lemma {:induction false} NarrowWordByte(x: Word, s: Word, j: nat)
    requires x & 0xff == x && j < 8
    ensures ByteAt(NarrowWord(x, s), j) == Xor(Xor(x, FromNat(j)), ByteAt(s, j))
  {
    hide Xor, ByteAt, Spread, FromNat;
    SpreadIsProduct(x);
    SmallWords();
    match j
    case 0 => NarrowByte0(x, s);
    case 1 => NarrowByte1(x, s);
    case 2 => NarrowByte2(x, s);
    case 3 => NarrowByte3(x, s);
    case 4 => NarrowByte4(x, s);
    case 5 => NarrowByte5(x, s);
    case 6 => NarrowByte6(x, s);
    case 7 => NarrowByte7(x, s);
  }

  /** The byte the narrow writer stores at position j of a word is the specified word's byte j. */
  lemma {:induction false} NarrowByteValue(x: nat, s: Word, j: nat)
    requires x < 256 && x % 8 == 0 && j < 8
    ensures Xor(FromNat(x + j), ByteAt(s, j)) == ByteAt(NarrowWord(FromNat(x), s), j)
  {
    assert Pow2(8) == 256 && Mask(8) == 0xff;
    FromNatWithin(x, 8);
    WithinMeansMasked(FromNat(x), 0xff);
    assert Pow2(3) == 8;
    AddWithoutCarry(x, j, 3);
    NarrowWordByte(FromNat(x), s, j);
  }

  lemma WithinMeansMasked(v: Word, m: Word)
    requires Within(v, m)
    ensures v & m == v
  {}

  /** The arena as the program sees it: loads and stores by word, and stores by byte. */
  class Memory {
    const fabric: Fabric
    var cells: seq<Word>

    ghost predicate Valid()
      reads this
    {
      fabric.Valid() && |cells| == fabric.cellCount
    }

    constructor (fab: Fabric, initial: seq<Word>)
      requires fab.Valid() && |initial| == fab.cellCount
      ensures Valid() && fabric == fab && cells == initial
    {
      fabric := fab;
      cells := initial;
    }

    method Read(w: nat) returns (v: Word)
      requires Valid() && w < |fabric.wires|
      ensures v == Load(fabric, cells, w)
    {
      v := Load(fabric, cells, w);
    }

    method Write(w: nat, v: Word)
      requires Valid() && w < |fabric.wires|
      modifies this
      ensures Valid() && cells == old(cells)[fabric.wires[w] := v]
    {
      cells := cells[fabric.wires[w] := v];
    }

    /** An 8-bit store to byte i of the arena. */
    method WriteByte(i: nat, b: Word)
      requires Valid() && i < 8 * |fabric.wires|
      modifies this
      ensures Valid()
      ensures var c := fabric.wires[i / 8]; cells == old(cells)[c := SetByte(old(cells)[c], i % 8, b)]
    {
      var c := fabric.wires[i / 8];
      cells := cells[c := SetByte(cells[c], i % 8, b)];
    }
  }
}
