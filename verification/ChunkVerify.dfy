/**
 `nxmt_verify_chunk`: a first stage that only decides whether anything in the chunk is wrong,
 and a second stage that walks the words and records each mismatch.
 */
module ChunkVerify {
  import opened Words
  import opened Patterns
  import opened Reports
  import opened Memories
  import opened ChunkWrite

  /** The part of `NxmtRunConfig` that is plain data. */
  datatype Config = Config(
    mode: Mode, seed: Word, pass: nat, workerId: nat, workerCount: nat, inject: bool)

  function Mismatch(cfg: Config, phase: Phase, w: nat, expected: Word, actual: Word): ErrorRecord {
    ErrorRecord(cfg.mode, phase, cfg.seed, cfg.pass, cfg.workerId, 8 * w, expected, actual)
  }

  /** The errors of a chunk: one record for every word of [lo, hi) that does not read as f says, in order. */
  function ChunkLog(fab: Fabric, cells: seq<Word>, cfg: Config, phase: Phase, f: nat -> Word, lo: nat, hi: nat)
      : (log: seq<ErrorRecord>)
    requires fab.Valid() && |cells| == fab.cellCount && lo <= hi <= |fab.wires|
    decreases hi
  {
    if hi == lo then []
    else
      var w := hi - 1;
      var actual := Load(fab, cells, w);
      ChunkLog(fab, cells, cfg, phase, f, lo, w)
      + if actual == f(w) then [] else [Mismatch(cfg, phase, w, f(w), actual)]
  }

  /** Every word of [lo, hi) reads as f says. */
  ghost predicate Clean(fab: Fabric, cells: seq<Word>, f: nat -> Word, lo: nat, hi: nat)
    requires fab.Valid() && |cells| == fab.cellCount && hi <= |fab.wires|
  {
    forall w: nat :: lo <= w < hi ==> Load(fab, cells, w) == f(w)
  }

  lemma {:induction false} CleanLogIsEmpty(fab: Fabric, cells: seq<Word>, cfg: Config, phase: Phase,
      f: nat -> Word, lo: nat, hi: nat)
    requires fab.Valid() && |cells| == fab.cellCount && lo <= hi <= |fab.wires|
    ensures Clean(fab, cells, f, lo, hi) <==> ChunkLog(fab, cells, cfg, phase, f, lo, hi) == []
    decreases hi
  {
    hide Load;
    if lo < hi {
      CleanLogIsEmpty(fab, cells, cfg, phase, f, lo, hi - 1);
    }
  }

  /** The record describes how word w reads in place of the word specified for it. */
  predicate Describes(e: ErrorRecord, fab: Fabric, cells: seq<Word>, cfg: Config, phase: Phase, w: nat)
    requires fab.Valid() && |cells| == fab.cellCount && w < |fab.wires|
  {
    && e.mode == cfg.mode && e.seed == cfg.seed && e.pass == cfg.pass && e.workerId == cfg.workerId
    && e.phase == phase && e.offset == 8 * w
    && e.expected == ExpectedValue(cfg.seed, phase, cfg.pass, e.offset) && e.actual == Load(fab, cells, w)
    && e.actual != e.expected
  }

  ghost predicate DescribesSome(e: ErrorRecord, fab: Fabric, cells: seq<Word>, cfg: Config, phase: Phase, lo: nat,
      hi: nat)
    requires fab.Valid() && |cells| == fab.cellCount && hi <= |fab.wires|
  {
    exists w: nat :: lo <= w < hi && Describes(e, fab, cells, cfg, phase, w)
  }

  ghost predicate Described(log: seq<ErrorRecord>, fab: Fabric, cells: seq<Word>, cfg: Config, phase: Phase, w: nat)
    requires fab.Valid() && |cells| == fab.cellCount && w < |fab.wires|
  {
    exists e :: e in log && Describes(e, fab, cells, cfg, phase, w)
  }

  /** One record for each word of [lo, hi) that reads other than specified, and none besides, in ascending order. */
  ghost predicate ErrorsOfChunk(log: seq<ErrorRecord>, fab: Fabric, cells: seq<Word>, cfg: Config, phase: Phase,
      lo: nat, hi: nat)
    requires fab.Valid() && |cells| == fab.cellCount && hi <= |fab.wires|
  {
    && (forall e :: e in log ==> DescribesSome(e, fab, cells, cfg, phase, lo, hi))
    && (forall w: nat :: lo <= w < hi && Load(fab, cells, w) != ExpectedValue(cfg.seed, phase, cfg.pass, 8 * w) ==>
          Described(log, fab, cells, cfg, phase, w))
    && (forall i, j :: 0 <= i < j < |log| ==> log[i].offset < log[j].offset)
  }

  lemma {:induction false} WrongWordDescribed(fab: Fabric, cells: seq<Word>, cfg: Config, phase: Phase, w: nat)
    requires fab.Valid() && |cells| == fab.cellCount && w < |fab.wires|
    requires Load(fab, cells, w) != ExpectedValue(cfg.seed, phase, cfg.pass, 8 * w)
    ensures Describes(Mismatch(cfg, phase, w, Pattern(cfg.seed, phase, cfg.pass)(w), Load(fab, cells, w)),
                      fab, cells, cfg, phase, w)
  {}

  /** One more wrong word, one more record. */
  lemma {:induction false} WrongWordAdds(init: seq<ErrorRecord>, e: ErrorRecord, fab: Fabric, cells: seq<Word>,
      cfg: Config, phase: Phase, lo: nat, w: nat)
    requires fab.Valid() && |cells| == fab.cellCount && lo <= w < |fab.wires|
    requires ErrorsOfChunk(init, fab, cells, cfg, phase, lo, w) && Describes(e, fab, cells, cfg, phase, w)
    ensures ErrorsOfChunk(init + [e], fab, cells, cfg, phase, lo, w + 1)
  {
    hide Load, ExpectedValue;
    var log := init + [e];
    forall r | r in log
      ensures DescribesSome(r, fab, cells, cfg, phase, lo, w + 1) && (r in init ==> r.offset < 8 * w)
    {
      assert r in init ==> DescribesSome(r, fab, cells, cfg, phase, lo, w);
    }
    forall v: nat | lo <= v < w + 1 && Load(fab, cells, v) != ExpectedValue(cfg.seed, phase, cfg.pass, 8 * v)
      ensures Described(log, fab, cells, cfg, phase, v)
    {
      if v < w {
        assert Described(init, fab, cells, cfg, phase, v);
        var r :| r in init && Describes(r, fab, cells, cfg, phase, v);
        assert r in log;
      } else {
        assert e in log;
      }
    }
  }

  lemma {:induction false} RightWordAddsNothing(init: seq<ErrorRecord>, fab: Fabric, cells: seq<Word>, cfg: Config,
      phase: Phase, lo: nat, w: nat)
    requires fab.Valid() && |cells| == fab.cellCount && lo <= w < |fab.wires|
    requires ErrorsOfChunk(init, fab, cells, cfg, phase, lo, w)
    requires Load(fab, cells, w) == ExpectedValue(cfg.seed, phase, cfg.pass, 8 * w)
    ensures ErrorsOfChunk(init, fab, cells, cfg, phase, lo, w + 1)
  {
    hide Load, ExpectedValue, Describes;
    forall r | r in init
      ensures DescribesSome(r, fab, cells, cfg, phase, lo, w + 1)
    {
      assert DescribesSome(r, fab, cells, cfg, phase, lo, w);
    }
  }

  lemma {:induction false} NoWordsDescribed(fab: Fabric, cells: seq<Word>, cfg: Config, phase: Phase, lo: nat)
    requires fab.Valid() && |cells| == fab.cellCount && lo <= |fab.wires|
    ensures ErrorsOfChunk([], fab, cells, cfg, phase, lo, lo)
  {}

  lemma PatternAt(seed: Word, phase: Phase, pass: nat, w: nat)
    ensures Pattern(seed, phase, pass)(w) == ExpectedValue(seed, phase, pass, 8 * w)
  {}

  lemma {:induction false} ChunkLogDescribes(fab: Fabric, cells: seq<Word>, cfg: Config, phase: Phase, lo: nat,
      hi: nat)
    requires fab.Valid() && |cells| == fab.cellCount && lo <= hi <= |fab.wires|
    ensures ErrorsOfChunk(ChunkLog(fab, cells, cfg, phase, Pattern(cfg.seed, phase, cfg.pass), lo, hi),
                          fab, cells, cfg, phase, lo, hi)
    decreases hi
  {
    hide Load, ErrorsOfChunk, ExpectedValue, Describes, Mismatch, Pattern;
    if lo == hi {
      NoWordsDescribed(fab, cells, cfg, phase, lo);
    } else {
      var f, w := Pattern(cfg.seed, phase, cfg.pass), hi - 1;
      var init := ChunkLog(fab, cells, cfg, phase, f, lo, w);
      ChunkLogDescribes(fab, cells, cfg, phase, lo, w);
      PatternAt(cfg.seed, phase, cfg.pass, w);
      if Load(fab, cells, w) == f(w) {
        RightWordAddsNothing(init, fab, cells, cfg, phase, lo, w);
        assert init + [] == init;
      } else {
        WrongWordDescribed(fab, cells, cfg, phase, w);
        WrongWordAdds(init, Mismatch(cfg, phase, w, f(w), Load(fab, cells, w)), fab, cells, cfg, phase, lo, w);
      }
    }
  }

  // ----- first stage: OR together the differences

  lemma Accumulate(acc: Word, actual: Word, expected: Word)
    ensures Or(acc, Xor(actual, expected)) == 0 <==> acc == 0 && actual == expected
  {}

  /** acc is zero exactly when the words of [lo, w) are clean. */
  ghost predicate Summarizes(acc: Word, mem: Memory, f: nat -> Word, lo: nat, w: nat)
    reads mem
  {
    mem.Valid() && lo <= w <= |mem.fabric.wires| && (acc == 0 <==> Clean(mem.fabric, mem.cells, f, lo, w))
  }

  /** The two lanes of a vector accumulator, taken together. */
  function Folded(acc: Lanes): Word {
    Or(acc.a, acc.b)
  }

  method Compare(mem: Memory, w: nat, acc: Word, expected: Word, ghost f: nat -> Word, ghost lo: nat) returns (r: Word)
    requires w < |mem.fabric.wires| && Summarizes(acc, mem, f, lo, w) && expected == f(w)
    ensures Summarizes(r, mem, f, lo, w + 1)
  {
    hide Or, Xor, Load;
    var actual := mem.Read(w);
    Accumulate(acc, actual, expected);
    r := Or(acc, Xor(actual, expected));
  }

  /** A vector load of two words, compared with two expected words. */
  method CompareLanes(mem: Memory, w: nat, acc: Lanes, expected: Lanes, ghost f: nat -> Word, ghost lo: nat)
      returns (r: Lanes)
    requires w + 1 < |mem.fabric.wires| && Summarizes(Folded(acc), mem, f, lo, w) && expected == Lanes(f(w), f(w + 1))
    ensures Summarizes(Folded(r), mem, f, lo, w + 2)
  {
    hide Or, Xor, Load;
    var a0 := mem.Read(w);
    var a1 := mem.Read(w + 1);
    Accumulate(acc.a, a0, expected.a);
    Accumulate(acc.b, a1, expected.b);
    r := Lanes(Or(acc.a, Xor(a0, expected.a)), Or(acc.b, Xor(a1, expected.b)));
    OrLaws(acc.a, acc.b, 0);
    OrLaws(r.a, r.b, 0);
  }

  /** FIXED_A and FIXED_5: `nxmt_chunk_has_mismatch_fixed`. */
  method FixedDirty(mem: Memory, lo: nat, n: nat, target: Word, ghost f: nat -> Word) returns (acc: Word)
    requires mem.Valid() && lo + n <= |mem.fabric.wires|
    requires forall w: nat :: lo <= w < lo + n ==> f(w) == target
    ensures Summarizes(acc, mem, f, lo, lo + n)
  {
    acc := 0;
    assert Summarizes(acc, mem, f, lo, lo);
    hide Summarizes;
    for k := 0 to n
      invariant Summarizes(acc, mem, f, lo, lo + k)
    {
      acc := Compare(mem, lo + k, acc, target, f, lo);
    }
  }

  lemma {:induction false} AlternatesAt(f: nat -> Word, lo: nat, n: nat, first: Word, second: Word, k: nat)
    requires Alternates(f, lo, n, first, second) && k < n
    ensures f(lo + k) == if k % 2 == 0 then first else second
  {}

  method ComparePair(mem: Memory, lo: nat, n: nat, k: nat, acc: Word, first: Word, second: Word, ghost f: nat -> Word)
      returns (r: Word)
    requires k + 2 <= n && lo + n <= |mem.fabric.wires| && k % 2 == 0
    requires Alternates(f, lo, n, first, second) && Summarizes(acc, mem, f, lo, lo + k)
    ensures Summarizes(r, mem, f, lo, lo + k + 2)
  {
    hide Summarizes, Alternates;
    AlternatesAt(f, lo, n, first, second, k);
    AlternatesAt(f, lo, n, first, second, k + 1);
    r := Compare(mem, lo + k, acc, first, f, lo);
    r := Compare(mem, lo + k + 1, r, second, f, lo);
  }

  /** CHECKER and BITSPREAD. */
  method AlternatingDirty(mem: Memory, lo: nat, n: nat, first: Word, second: Word, ghost f: nat -> Word)
      returns (acc: Word)
    requires mem.Valid() && lo + n <= |mem.fabric.wires|
    requires Alternates(f, lo, n, first, second)
    ensures Summarizes(acc, mem, f, lo, lo + n)
  {
    acc := 0;
    assert Summarizes(acc, mem, f, lo, lo);
    hide Summarizes, Alternates;
    var k: nat := 0;
    while k + 2 <= n
      invariant k <= n && k % 2 == 0 && Summarizes(acc, mem, f, lo, lo + k)
    {
      acc := ComparePair(mem, lo, n, k, acc, first, second, f);
      k := k + 2;
    }
    if n % 2 == 1 {
      AlternatesAt(f, lo, n, first, second, n - 1);
      acc := Compare(mem, lo + n - 1, acc, first, f, lo);
    }
  }

  /** ADDRESS: four words an iteration. */
  method AddressDirtyVector(mem: Memory, lo: nat, n: nat, x: nat, op: nat -> Word, ghost f: nat -> Word)
      returns (acc: Lanes, k: nat)
    requires mem.Valid() && lo + n <= |mem.fabric.wires|
    requires Counted(f, lo, n, x, 8, op)
    ensures k <= n && Summarizes(Folded(acc), mem, f, lo, lo + k)
  {
    acc, k := Lanes(0, 0), 0;
    var v01, v23 := Counters(U64(x), U64(x + 8)), Counters(U64(x + 16), U64(x + 24));
    FirstCounters(x, 8);
    assert Summarizes(Folded(acc), mem, f, lo, lo);
    hide Summarizes, CountPair, VAdd, Count, Folded;
    while k + 4 <= n
      invariant k <= n && Summarizes(Folded(acc), mem, f, lo, lo + k)
      invariant v01 == CountPair(x, 8, k) && v23 == CountPair(x, 8, k + 2)
    {
      acc := CompareCounters(mem, lo, n, k, acc, v01, x, 8, op, f);
      acc := CompareCounters(mem, lo, n, k + 2, acc, v23, x, 8, op, f);
      VAddCounts(x, 8, k, 4);
      VAddCounts(x, 8, k + 2, 4);
      v01, v23 := VAdd(v01, 32), VAdd(v23, 32);
      k := k + 4;
    }
  }

  /** RANDOM: two words an iteration. */
  method RandomDirtyVector(mem: Memory, lo: nat, n: nat, x: nat, op: nat -> Word, ghost f: nat -> Word)
      returns (acc: Lanes, k: nat)
    requires mem.Valid() && lo + n <= |mem.fabric.wires|
    requires Counted(f, lo, n, x, 1, op)
    ensures k <= n && Summarizes(Folded(acc), mem, f, lo, lo + k)
  {
    acc, k := Lanes(0, 0), 0;
    var idx := Counters(U64(x), U64(x + 1));
    FirstCounters(x, 1);
    assert Summarizes(Folded(acc), mem, f, lo, lo);
    hide Summarizes, CountPair, VAdd, Count, Folded;
    while k + 2 <= n
      invariant k <= n && Summarizes(Folded(acc), mem, f, lo, lo + k) && idx == CountPair(x, 1, k)
    {
      acc := CompareCounters(mem, lo, n, k, acc, idx, x, 1, op, f);
      VAddCounts(x, 1, k, 2);
      idx := VAdd(idx, 2);
      k := k + 2;
    }
  }

  method CompareCounters(mem: Memory, lo: nat, n: nat, k: nat, acc: Lanes, v: Counters,
      x: nat, step: nat, op: nat -> Word, ghost f: nat -> Word) returns (r: Lanes)
    requires k + 2 <= n && lo + n <= |mem.fabric.wires| && Summarizes(Folded(acc), mem, f, lo, lo + k)
    requires Counted(f, lo, n, x, step, op) && v == CountPair(x, step, k)
    ensures Summarizes(Folded(r), mem, f, lo, lo + k + 2)
  {
    hide Summarizes, Folded;
    r := CompareLanes(mem, lo + k, acc, VMap(op, v), f, lo);
  }

  /** The scalar loop, from word lo + k on. */
  method CountedDirtyScalar(mem: Memory, lo: nat, n: nat, start: nat, acc0: Word, x: nat, step: nat,
      op: nat -> Word, ghost f: nat -> Word) returns (acc: Word)
    requires start <= n && lo + n <= |mem.fabric.wires| && Summarizes(acc0, mem, f, lo, lo + start)
    requires Counted(f, lo, n, x, step, op)
    ensures Summarizes(acc, mem, f, lo, lo + n)
  {
    hide Summarizes, Count;
    acc := acc0;
    for k := start to n
      invariant Summarizes(acc, mem, f, lo, lo + k)
    {
      CountAdds(x, step, k, 0);
      acc := Compare(mem, lo + k, acc, op(U64(x + U64(step * k))), f, lo);
    }
  }

  /** NARROW: always scalar; the expected word is recomputed from its closed form. */
  method NarrowDirty(mem: Memory, lo: nat, n: nat, seed: Word, pass: nat, ghost f: nat -> Word) returns (acc: Word)
    requires mem.Valid() && lo + n <= |mem.fabric.wires|
    requires forall w: nat :: f(w) == NarrowWord(FromNat(NarrowBase(pass, 8 * w)), seed)
    ensures Summarizes(acc, mem, f, lo, lo + n)
  {
    acc := 0;
    assert Summarizes(acc, mem, f, lo, lo);
    hide Summarizes, NarrowWord, FromNat;
    var base, passOff := U64(lo * 8), U64(pass * 8);
    for k := 0 to n
      invariant Summarizes(acc, mem, f, lo, lo + k)
    {
      NarrowBaseSplit(lo, k, pass);
      acc := Compare(mem, lo + k, acc, NarrowWord(FromNat(U64(U64(base + k * 8) + passOff) % 256), seed), f, lo);
    }
  }

  lemma NarrowBaseSplit(lo: nat, k: nat, pass: nat)
    ensures U64(U64(U64(lo * 8) + k * 8) + U64(pass * 8)) % 256 == NarrowBase(pass, 8 * (lo + k))
  {
    U64Wrap(lo * 8, k * 8);
    assert lo * 8 + k * 8 == 8 * (lo + k);
    U64Wrap(8 * (lo + k), U64(pass * 8));
  }

  /** `memcmp` on whole words. */
  method BlockDiffers(mem: Memory, w: nat, block: seq<Word>) returns (differs: bool)
    requires mem.Valid() && w + |block| <= |mem.fabric.wires|
    ensures differs <==> exists v: nat :: w <= v < w + |block| && Load(mem.fabric, mem.cells, v) != block[v - w]
  {
    hide Load;
    for i := 0 to |block|
      invariant forall v: nat :: w <= v < w + i ==> Load(mem.fabric, mem.cells, v) == block[v - w]
    {
      var actual := mem.Read(w + i);
      if actual != block[i] {
        return true;
      }
    }
    differs := false;
  }

  /** STREAM: block comparison with the stamp, giving up at the first block that differs. */
  method StreamDirty(mem: Memory, lo: nat, n: nat, stamp: seq<Word>, ghost f: nat -> Word) returns (dirty: bool)
    requires mem.Valid() && lo + n <= |mem.fabric.wires|
    requires |stamp| == STAMP_WORDS
    requires forall w: nat :: f(w) == stamp[w % STAMP_WORDS]
    ensures !dirty <==> Clean(mem.fabric, mem.cells, f, lo, lo + n)
  {
    hide Load;
    var pos := lo % STAMP_WORDS;
    var k: nat := 0;
    while k < n
      invariant k <= n && Clean(mem.fabric, mem.cells, f, lo, lo + k) && pos == (lo + k) % STAMP_WORDS
    {
      var need, avail := n - k, STAMP_WORDS - pos;
      var count := if need < avail then need else avail;
      var differs := BlockDiffers(mem, lo + k, stamp[pos..pos + count]);
      BlockMeaning(mem.fabric, mem.cells, stamp, f, lo, k, pos, count, differs);
      if differs {
        assert !Clean(mem.fabric, mem.cells, f, lo, lo + n);
        return true;
      }
      StampWraps(lo + k, count);
      k := k + count;
      pos := (pos + count) % STAMP_WORDS;
    }
    dirty := false;
  }

  lemma {:induction false} BlockMeaning(fab: Fabric, cells: seq<Word>, stamp: seq<Word>, f: nat -> Word, lo: nat,
      k: nat, pos: nat, count: nat, differs: bool)
    requires fab.Valid() && |cells| == fab.cellCount && lo + k + count <= |fab.wires|
    requires |stamp| == STAMP_WORDS && pos == (lo + k) % STAMP_WORDS && pos + count <= STAMP_WORDS
    requires forall w: nat :: f(w) == stamp[w % STAMP_WORDS]
    requires Clean(fab, cells, f, lo, lo + k)
    requires differs <==>
      exists v: nat :: lo + k <= v < lo + k + count && Load(fab, cells, v) != stamp[pos..pos + count][v - (lo + k)]
    ensures differs <==> !Clean(fab, cells, f, lo, lo + k + count)
  {
    hide Load;
    forall v: nat | lo + k <= v < lo + k + count
      ensures f(v) == stamp[pos..pos + count][v - (lo + k)]
    {
      StampTiles(lo + k, v - (lo + k));
    }
  }

  // ----- second stage: the walk

  /** The expected word as the walk of each phase recomputes it. */
  function WalkValue(phase: Phase, seed: Word, pass: nat, lo: nat, k: nat): Word {
    var base := U64(lo * 8);
    match phase
    case FixedA => FIXED_A
    case Fixed5 => FIXED_5
    case Checker => if (lo + k) % 2 == 1 then FIXED_5 else FIXED_A
    case Address => Xor(FromNat(U64(base + k * 8)), PassMask(seed, pass, ADDR_PASS_MUL))
    case Random => Xor(Bswap64(FromNat(U64(lo + k))), PassMask(seed, pass, RAND_PASS_MUL))
    case Walking => OneBit(U64(U64(lo + pass) + k) % 64)
    case Narrow => NarrowWord(FromNat(U64(U64(base + k * 8) + U64(pass * 8)) % 256), seed)
    case BitSpread => if U64(lo + k + pass) % 2 == 1 then BIT_SPREAD_1 else BIT_SPREAD_0
    case Stream => Xor(FromNat(U64(base + k * 8) % 0x2000), PassMask(seed, pass, STREAM_PASS_MUL))
  }

  lemma WalkValueIsExpected(phase: Phase, seed: Word, pass: nat, lo: nat, k: nat)
    requires lo + k < MAX_WORDS
    ensures WalkValue(phase, seed, pass, lo, k) == Pattern(seed, phase, pass)(lo + k)
  {
    hide Xor, Bswap64, FromNat, OneBit, NarrowWord, PassMask, NarrowBase, U64;
    var w := lo + k;
    assert 8 * w / 8 == w;
    OffsetFits(lo, k);
    PatternForms(seed, pass, w);
    match phase
    case Stream => StampOffset(w);
    case Narrow => NarrowBaseSplit(lo, k, pass);
    case Walking =>
      U64Wrap(lo + pass, k);
      assert lo + pass + k == w + pass;
    case _ =>
  }

  lemma StampOffset(w: nat)
    ensures (8 * w) % 0x2000 == 8 * (w % STAMP_WORDS)
  {
    ModUnique(8 * w, 8 * (w % STAMP_WORDS), w / STAMP_WORDS, 0x2000);
  }

  /** The report holds what `before` held plus the errors of the words of [lo, w). */
  ghost predicate RecordedUpTo(report: Report, before: Summary, mem: Memory, cfg: Config, phase: Phase, lo: nat, w: nat)
    reads report, mem
  {
    && mem.Valid() && lo <= w <= |mem.fabric.wires|
    && report.Contents() == RecordAll(before,
         ChunkLog(mem.fabric, mem.cells, cfg, phase, Pattern(cfg.seed, phase, cfg.pass), lo, w))
  }

  lemma {:induction false} RecordOneMore(s: Summary, log: seq<ErrorRecord>, e: ErrorRecord)
    ensures RecordAll(s, log + [e]) == Record(RecordAll(s, log), e)
    ensures RecordAll(s, log + []) == RecordAll(s, log)
  {
    hide Record;
    assert (log + [e])[..|log|] == log;
    assert log + [] == log;
  }

  method WalkWord(mem: Memory, lo: nat, k: nat, phase: Phase, cfg: Config, report: Report, ghost before: Summary)
    requires lo + k < |mem.fabric.wires| && RecordedUpTo(report, before, mem, cfg, phase, lo, lo + k)
    modifies report
    ensures RecordedUpTo(report, before, mem, cfg, phase, lo, lo + k + 1)
  {
    hide Load, Pattern, WalkValue, Record, RecordAll;
    var expected := WalkValue(phase, cfg.seed, cfg.pass, lo, k);
    WalkValueIsExpected(phase, cfg.seed, cfg.pass, lo, k);
    var actual := mem.Read(lo + k);
    RecordOneMore(before, ChunkLog(mem.fabric, mem.cells, cfg, phase, Pattern(cfg.seed, phase, cfg.pass), lo, lo + k),
                  Mismatch(cfg, phase, lo + k, expected, actual));
    if actual != expected {
      OffsetFits(lo, k);
      report.RecordError(ErrorRecord(cfg.mode, phase, cfg.seed, cfg.pass, cfg.workerId,
          U64(U64(lo * 8) + k * 8), expected, actual));
    }
  }

  method Walk(mem: Memory, lo: nat, n: nat, phase: Phase, cfg: Config, report: Report, ghost before: Summary)
    requires lo + n <= |mem.fabric.wires| && RecordedUpTo(report, before, mem, cfg, phase, lo, lo)
    modifies report
    ensures RecordedUpTo(report, before, mem, cfg, phase, lo, lo + n)
  {
    hide RecordedUpTo;
    for k := 0 to n
      invariant RecordedUpTo(report, before, mem, cfg, phase, lo, lo + k)
    {
      WalkWord(mem, lo, k, phase, cfg, report, before);
    }
  }

  lemma OffsetFits(lo: nat, k: nat)
    requires lo + k < MAX_WORDS
    ensures U64(U64(lo * 8) + k * 8) == 8 * (lo + k)
  {}

  // ----- the dispatch on phases

  /** Stage one of every phase but WALKING, which has none. */
  method ChunkDirty(mem: Memory, lo: nat, n: nat, phase: Phase, seed: Word, pass: nat, neon: bool) returns (dirty: bool)
    requires mem.Valid() && lo + n <= |mem.fabric.wires| && !phase.Walking?
    ensures !dirty <==> Clean(mem.fabric, mem.cells, Pattern(seed, phase, pass), lo, lo + n)
  {
    ghost var f := Pattern(seed, phase, pass);
    hide Clean, Pattern, Xor, PassMask, MaskOp, VectorSwapOp, ScalarSwapOp, StampOp, Or;
    var acc: Word := 0;
    match phase
    case FixedA =>
      FixedForms(seed, pass);
      acc := FixedDirty(mem, lo, n, FIXED_A, f);
      dirty := acc != 0;
    case Fixed5 =>
      FixedForms(seed, pass);
      acc := FixedDirty(mem, lo, n, FIXED_5, f);
      dirty := acc != 0;
    case Checker =>
      var first := if lo % 2 == 1 then FIXED_5 else FIXED_A;
      CheckerAlternates(seed, pass, lo, n);
      acc := AlternatingDirty(mem, lo, n, first, Xor(first, Xor(FIXED_A, FIXED_5)), f);
      dirty := acc != 0;
    case Address =>
      var op := MaskOp(PassMask(seed, pass, ADDR_PASS_MUL));
      AddressCounts(seed, pass, lo, n);
      acc := AddressAccumulator(mem, lo, n, U64(lo * 8), op, neon, f);
      dirty := acc != 0;
    case Random =>
      var mask := PassMask(seed, pass, RAND_PASS_MUL);
      RandomCounts(seed, pass, lo, n);
      acc := RandomAccumulator(mem, lo, n, lo, VectorSwapOp(mask), ScalarSwapOp(mask), neon, f);
      dirty := acc != 0;
    case Narrow =>
      NarrowForm(seed, pass);
      acc := NarrowDirty(mem, lo, n, seed, pass, f);
      dirty := acc != 0;
    case BitSpread =>
      var first := if U64(lo + pass) % 2 == 1 then BIT_SPREAD_1 else BIT_SPREAD_0;
      BitSpreadAlternates(seed, pass, lo, n);
      acc := AlternatingDirty(mem, lo, n, first, Xor(first, Xor(BIT_SPREAD_0, BIT_SPREAD_1)), f);
      dirty := acc != 0;
    case Stream =>
      var mask := PassMask(seed, pass, STREAM_PASS_MUL);
      var stamp := new Word[STAMP_WORDS];
      FillStreamStamp(stamp, mask, neon);
      StreamForm(seed, pass);
      dirty := StreamDirty(mem, lo, n, stamp[..], f);
  }

  method AddressAccumulator(mem: Memory, lo: nat, n: nat, x: nat, op: nat -> Word, neon: bool, ghost f: nat -> Word)
      returns (acc: Word)
    requires mem.Valid() && lo + n <= |mem.fabric.wires|
    requires Counted(f, lo, n, x, 8, op)
    ensures Summarizes(acc, mem, f, lo, lo + n)
  {
    var k: nat := 0;
    acc := 0;
    assert Summarizes(acc, mem, f, lo, lo);
    hide Summarizes;
    if neon {
      var lanes;
      lanes, k := AddressDirtyVector(mem, lo, n, x, op, f);
      acc := Or(lanes.a, lanes.b);
    }
    acc := CountedDirtyScalar(mem, lo, n, k, acc, x, 8, op, f);
  }

  method RandomAccumulator(mem: Memory, lo: nat, n: nat, x: nat, vectorOp: nat -> Word, scalarOp: nat -> Word,
      neon: bool, ghost f: nat -> Word) returns (acc: Word)
    requires mem.Valid() && lo + n <= |mem.fabric.wires|
    requires Counted(f, lo, n, x, 1, vectorOp) && Counted(f, lo, n, x, 1, scalarOp)
    ensures Summarizes(acc, mem, f, lo, lo + n)
  {
    var k: nat := 0;
    acc := 0;
    assert Summarizes(acc, mem, f, lo, lo);
    hide Summarizes;
    if neon {
      var lanes;
      lanes, k := RandomDirtyVector(mem, lo, n, x, vectorOp, f);
      acc := Or(lanes.a, lanes.b);
    }
    acc := CountedDirtyScalar(mem, lo, n, k, acc, x, 1, scalarOp, f);
  }

  /**
   `nxmt_verify_chunk`: the report absorbs exactly the chunk's mismatches, in ascending order;
   the shortcut of the first stage neither hides nor invents one.
   */
  method VerifyChunk(mem: Memory, lo: nat, n: nat, phase: Phase, cfg: Config, neon: bool, report: Report)
    requires mem.Valid() && lo + n <= |mem.fabric.wires|
    modifies report
    ensures report.Contents() == RecordAll(old(report.Contents()),
        ChunkLog(mem.fabric, mem.cells, cfg, phase, Pattern(cfg.seed, phase, cfg.pass), lo, lo + n))
    ensures ErrorsOfChunk(ChunkLog(mem.fabric, mem.cells, cfg, phase, Pattern(cfg.seed, phase, cfg.pass), lo, lo + n),
                          mem.fabric, mem.cells, cfg, phase, lo, lo + n)
  {
    hide Clean, Pattern, ErrorsOfChunk, Load, Mismatch, Record;
    ChunkLogDescribes(mem.fabric, mem.cells, cfg, phase, lo, lo + n);
    if !phase.Walking? {
      var dirty := ChunkDirty(mem, lo, n, phase, cfg.seed, cfg.pass, neon);
      if !dirty {
        CleanLogIsEmpty(mem.fabric, mem.cells, cfg, phase, Pattern(cfg.seed, phase, cfg.pass), lo, lo + n);
        return;
      }
    }
    Walk(mem, lo, n, phase, cfg, report, report.Contents());
  }
}
