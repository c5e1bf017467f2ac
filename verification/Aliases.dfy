/**
 Address-line faults: words that share a physical cell. Because ADDRESS and RANDOM give every word
 its own value and the whole slice is written before it is verified, each completed phase counts
 exactly the words whose cell was taken over by another.
 */
module Aliases {
  import opened Words
  import opened Patterns
  import opened Memories
  import opened ChunkVerify
  import opened Machine
  import opened Crews
  import opened Solo
  import opened Runner

  /** The last word below hi wired to the same cell as w. */
  function LastWriter(fab: Fabric, w: nat, hi: nat): (v: nat)
    requires w < hi <= |fab.wires|
    ensures w <= v < hi && fab.wires[v] == fab.wires[w]
    ensures forall u :: v < u < hi ==> fab.wires[u] != fab.wires[w]
    decreases hi
  {
    if fab.wires[hi - 1] == fab.wires[w] then hi - 1 else LastWriter(fab, w, hi - 1)
  }

  /** The cells behind the words of [lo, hi). */
  function CellsBehind(fab: Fabric, lo: nat, hi: nat): set<nat>
    requires lo <= hi <= |fab.wires|
  {
    set w: nat | lo <= w < hi :: fab.wires[w]
  }

  /** After a range was written, a word reads as expected exactly when its last writer stored the same value. */
  lemma {:induction false} ReadsLastWriter(fab: Fabric, cells: seq<Word>, f: nat -> Word, lo: nat, hi: nat, w: nat)
    requires fab.Valid() && fab.NoStuckBits() && |cells| == fab.cellCount && lo <= w < hi <= |fab.wires|
    ensures Load(fab, StoreRange(fab, cells, f, lo, hi), w) == f(LastWriter(fab, w, hi))
  {
    hide Sense, StoreRange;
    var v := LastWriter(fab, w, hi);
    StoreRangeHit(fab, cells, f, lo, hi, v);
    SenseIntact(f(v));
  }

  ghost predicate Injective(f: nat -> Word, lo: nat, hi: nat) {
    forall a: nat, b: nat :: lo <= a < hi && lo <= b < hi && f(a) == f(b) ==> a == b
  }

  lemma {:induction false} InjectiveAt(f: nat -> Word, lo: nat, hi: nat, a: nat, b: nat)
    requires Injective(f, lo, hi) && lo <= a < hi && lo <= b < hi && a != b
    ensures f(a) != f(b)
  {}

  /** A word is clean exactly when no later word of the range shares its cell. */
  lemma {:induction false} CleanIffLast(fab: Fabric, cells: seq<Word>, f: nat -> Word, lo: nat, hi: nat, w: nat)
    requires fab.Valid() && fab.NoStuckBits() && |cells| == fab.cellCount && lo <= w < hi <= |fab.wires|
    requires Injective(f, lo, hi)
    ensures Load(fab, StoreRange(fab, cells, f, lo, hi), w) == f(w) <==> fab.wires[w] !in CellsBehind(fab, w + 1, hi)
  {
    hide Load, StoreRange, Injective;
    ReadsLastWriter(fab, cells, f, lo, hi, w);
    var v := LastWriter(fab, w, hi);
    if v != w {
      InjectiveAt(f, lo, hi, v, w);
    }
  }

  lemma {:induction false} OneMoreCell(fab: Fabric, j: nat, hi: nat)
    requires j < hi <= |fab.wires|
    ensures |CellsBehind(fab, j, hi)|
         == |CellsBehind(fab, j + 1, hi)| + if fab.wires[j] in CellsBehind(fab, j + 1, hi) then 0 else 1
  {
    var rest := CellsBehind(fab, j + 1, hi);
    assert CellsBehind(fab, j, hi) == rest + {fab.wires[j]};
  }

  lemma {:induction false} OneWordLog(fab: Fabric, cells: seq<Word>, cfg: Config, phase: Phase, f: nat -> Word, w: nat)
    requires fab.Valid() && |cells| == fab.cellCount && w < |fab.wires|
    ensures |ChunkLog(fab, cells, cfg, phase, f, w, w + 1)| == if Load(fab, cells, w) == f(w) then 0 else 1
  {
    hide Load;
    assert ChunkLog(fab, cells, cfg, phase, f, w, w) == [];
  }

  /** Errors and distinct cells together account for every word. */
  lemma {:induction false} ErrorsCountOverwritten(fab: Fabric, cells: seq<Word>, cfg: Config, phase: Phase,
      f: nat -> Word, lo: nat, j: nat, hi: nat)
    requires fab.Valid() && fab.NoStuckBits() && |cells| == fab.cellCount && lo <= j <= hi <= |fab.wires|
    requires Injective(f, lo, hi)
    ensures var after := StoreRange(fab, cells, f, lo, hi);
      |ChunkLog(fab, after, cfg, phase, f, j, hi)| + |CellsBehind(fab, j, hi)| == hi - j
    decreases hi - j
  {
    hide Load, StoreRange, ChunkLog, CellsBehind, Injective;
    var after := StoreRange(fab, cells, f, lo, hi);
    if j == hi {
      NoWords(fab, after, cfg, phase, f, j);
    } else {
      ErrorsCountOverwritten(fab, cells, cfg, phase, f, lo, j + 1, hi);
      ChunkLogConcat(fab, after, cfg, phase, f, j, j + 1, hi);
      OneWordLog(fab, after, cfg, phase, f, j);
      CleanIffLast(fab, cells, f, lo, hi, j);
      OneMoreCell(fab, j, hi);
    }
  }

  lemma {:induction false} NoWords(fab: Fabric, cells: seq<Word>, cfg: Config, phase: Phase, f: nat -> Word, j: nat)
    requires fab.Valid() && |cells| == fab.cellCount && j <= |fab.wires|
    ensures ChunkLog(fab, cells, cfg, phase, f, j, j) == [] && CellsBehind(fab, j, j) == {}
  {}

  lemma AddressAndRandomInjective(seed: Word, phase: Phase, pass: nat, lo: nat, hi: nat)
    requires phase.Address? || phase.Random?
    requires hi <= MAX_WORDS
    ensures Injective(Pattern(seed, phase, pass), lo, hi)
  {
    hide Pattern;
    forall a: nat, b: nat | lo <= a < hi && lo <= b < hi &&
      Pattern(seed, phase, pass)(a) == Pattern(seed, phase, pass)(b)
      ensures a == b
    {
      if phase.Address? {
        AddressInjective(seed, pass, a, b);
      } else {
        RandomInjective(seed, pass, a, b);
      }
    }
  }

  /**
   For an arbitrary wiring of the arena, an uninterrupted pass logs in each ADDRESS or RANDOM phase p
   exactly as many errors as its slice has words beyond its distinct cells.
   */
  lemma {:induction false} AliasesAreCounted(cfg: Config, fab: Fabric, cells: seq<Word>, stop: nat -> bool, p: nat)
    requires fab.Valid() && fab.NoStuckBits() && |cells| == fab.cellCount
    requires cfg.workerId < cfg.workerCount && !cfg.inject
    requires var job := JobOn(cfg, fab); RunToEnd(job, fab, cells, Fresh(job), stop, 0).1.pc == Finished
    requires p < |PhasesOf(cfg.mode)| && (PhasesOf(cfg.mode)[p].Address? || PhasesOf(cfg.mode)[p].Random?)
    ensures var job := JobOn(cfg, fab);
      && RunToEnd(job, fab, cells, Fresh(job), stop, 0).1.log == FoundBefore(job, fab, cells, |job.phases|)
      && |FoundBefore(job, fab, cells, p + 1)| - |FoundBefore(job, fab, cells, p)|
         == job.count - |CellsBehind(fab, job.start, job.start + job.count)|
  {
    hide Pattern, RunToEnd, CellsBehind, ChunkLog, StoreRange, PhasesOf;
    var job := JobOn(cfg, fab);
    LoneRunStaysAlone(job, fab, cells, cells, Fresh(job), stop, 0);
    var phase := job.phases[p];
    AddressAndRandomInjective(cfg.seed, phase, cfg.pass, job.start, job.start + job.count);
    ErrorsCountOverwritten(fab, CellsAfter(job, fab, cells, p), cfg, phase, job.patterns[p], job.start, job.start,
                           job.start + job.count);
    Unfolded(job, fab, cells, p);
  }

  /** A phase that stores one value everywhere cannot see any aliasing at all. */
  lemma {:induction false} ConstantPhaseMissesAliases(fab: Fabric, cells: seq<Word>, cfg: Config, phase: Phase,
      f: nat -> Word, v: Word, lo: nat, hi: nat)
    requires fab.Valid() && fab.NoStuckBits() && |cells| == fab.cellCount && lo <= hi <= |fab.wires|
    requires forall w: nat :: f(w) == v
    ensures ChunkLog(fab, StoreRange(fab, cells, f, lo, hi), cfg, phase, f, lo, hi) == []
  {
    hide Load, StoreRange;
    var after := StoreRange(fab, cells, f, lo, hi);
    forall w: nat | lo <= w < hi
      ensures Load(fab, after, w) == f(w)
    {
      ReadsLastWriter(fab, cells, f, lo, hi, w);
    }
    CleanLogIsEmpty(fab, after, cfg, phase, f, lo, hi);
  }

  // ----- the verdict

  /** Two words of [lo, hi) are wired to one cell. */
  ghost predicate Shared(fab: Fabric, lo: nat, hi: nat)
    requires hi <= |fab.wires|
  {
    exists v: nat, w: nat :: lo <= v < w < hi && fab.wires[v] == fab.wires[w]
  }

  /** Without sharing every phase reads back what it stored; with it, an injective one does not. */
  lemma {:induction false} PhaseFindsSharing(fab: Fabric, cells: seq<Word>, cfg: Config, phase: Phase, f: nat -> Word,
      lo: nat, hi: nat)
    requires fab.Valid() && fab.NoStuckBits() && |cells| == fab.cellCount && lo <= hi <= |fab.wires|
    ensures var log := ChunkLog(fab, StoreRange(fab, cells, f, lo, hi), cfg, phase, f, lo, hi);
      (!Shared(fab, lo, hi) ==> log == []) && (Shared(fab, lo, hi) && Injective(f, lo, hi) ==> log != [])
  {
    hide Load, StoreRange, Injective, ChunkLog;
    var after := StoreRange(fab, cells, f, lo, hi);
    CleanLogIsEmpty(fab, after, cfg, phase, f, lo, hi);
    if v: nat, w: nat :| lo <= v < w < hi && fab.wires[v] == fab.wires[w] {
      if Injective(f, lo, hi) {
        CleanIffLast(fab, cells, f, lo, hi, v);
        assert fab.wires[w] in CellsBehind(fab, v + 1, hi);
        assert Load(fab, after, v) != f(v);
      }
    } else {
      forall w: nat | lo <= w < hi
        ensures Load(fab, after, w) == f(w)
      {
        ReadsLastWriter(fab, cells, f, lo, hi, w);
      }
    }
  }

  /** An ADDRESS or RANDOM phase of the mode. */
  function InjectivePhase(mode: Mode): (p: nat)
    ensures p < |PhasesOf(mode)| && PhasesOf(mode)[p].Address?
  {
    if mode.Quick? then 1 else 5
  }

  lemma {:induction false} FoundIfShared(job: Job, fab: Fabric, cells: seq<Word>, n: nat, p0: nat)
    requires job.Valid(fab) && fab.NoStuckBits() && |cells| == fab.cellCount && n <= |job.phases| && p0 < |job.phases|
    requires Injective(job.patterns[p0], job.start, job.start + job.count)
    ensures !Shared(fab, job.start, job.start + job.count) ==> FoundBefore(job, fab, cells, n) == []
    ensures Shared(fab, job.start, job.start + job.count) && p0 < n ==> FoundBefore(job, fab, cells, n) != []
  {
    hide Shared, Injective, CellsAfter, ChunkLog, StoreRange;
    if n > 0 {
      FoundIfShared(job, fab, cells, n - 1, p0);
      Unfolded(job, fab, cells, n - 1);
      PhaseFindsSharing(fab, CellsAfter(job, fab, cells, n - 1), job.cfg, job.phases[n - 1], job.patterns[n - 1],
                        job.start, job.start + job.count);
    }
  }

  /**
   Without stuck bits and for any wiring, an uninterrupted pass of any mode returns FAIL exactly when two
   distinct words of its slice share a cell.
   */
  lemma {:induction false} AliasedPassFails(plain: Config, fab: Fabric, cells: seq<Word>, stop: nat -> bool)
    requires fab.Valid() && fab.NoStuckBits() && |cells| == fab.cellCount
    requires plain.workerId < plain.workerCount && !plain.inject
    requires PassEnd(plain, fab, cells, stop).1.pc.Finished?
    ensures var job := JobOn(plain, fab);
      Verdict(PassEnd(plain, fab, cells, stop).1) == Fail <==> Shared(fab, job.start, job.start + job.count)
  {
    hide PassEnd, RunToEnd, Shared, Injective, FoundBefore, CellsAfter, PhasesOf, Pattern;
    var job := JobOn(plain, fab);
    PassEndIs(plain, fab, cells, stop);
    StartsAlone(job, fab, cells);
    LoneRunStaysAlone(job, fab, cells, cells, Fresh(job), stop, 0);
    var p0 := InjectivePhase(plain.mode);
    AddressAndRandomInjective(plain.seed, job.phases[p0], plain.pass, job.start, job.start + job.count);
    FoundIfShared(job, fab, cells, |job.phases|, p0);
  }
}
